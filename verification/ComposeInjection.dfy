// Label injection on whole texts: what it returns, and when injecting again changes nothing.
module ComposeInjection {
  import opened LineScan
  import opened ComposeNetworks
  import opened ComposeAttach
  import opened ComposeText
  import opened ComposeSimilar
  import opened ComposePipeline
  import opened ComposeCarriage
  import opened ComposeTraefik

  const BLANK := Line("", "", "")

  // ----- finished texts, split without trimming ------------------------------

  lemma BlankShows()
    ensures Show(BLANK) == "" && Parse("") == BLANK && Sound(BLANK) && Clean(BLANK) && Shave(BLANK) == BLANK
  {
    assert Proper(BLANK);
    ShowParses(BLANK);
  }

  lemma SplitSnoc(ss: seq<string>)
    requires ss != [] && forall k :: 0 <= k < |ss| ==> '\n' !in ss[k]
    ensures SplitLines(Join(ss) + "\n") == DropEach(ss + [""])
  {
    hide DropCR, SplitLines, Join, DropEach;
    JoinSnoc(ss, "");
    assert Join(ss) + "\n" + "" == Join(ss) + "\n";
    SplitJoinAny(ss + [""]);
  }

  // A finished text ends in one blank line, and every line before it loses a carriage return.
  lemma FinishedLines(all: seq<Line>)
    requires AllSound(all) && StartsAtRoot(all)
    ensures StripEnd(all) != [] && LinesOf(Finish(all)) == ShaveAll(StripEnd(all)) + [BLANK]
  {
    hide StripEnd, Show, Join, Clean, TrimEnd, DropCR, Finish, SplitLines, Parse, Trim, Proper, Shave;
    SoundFinish(all);
    var kept := StripEnd(all);
    SplitSnoc(ShowAll(kept));
    BlankShows();
    var ss := ShowAll(kept) + [""];
    forall k | 0 <= k < |kept| ensures Parse(DropEach(ss)[k]) == Shave(kept[k]) {
      ShaveParses(kept[k]);
    }
  }

  lemma SnocSimilar(kept: seq<Line>)
    requires AllSound(kept)
    ensures Similar(kept + [BLANK], kept) && AllSound(kept + [BLANK])
  {
    hide Sound, AllSpace, Parse, Shave, Show, Proper, Clean, Similar, AllSound;
    BlankShows();
    SoundProper(kept);
    ProperLeads(kept);
    SnocLooks(kept, BLANK);
    SoundSnoc(kept, BLANK);
  }

  lemma SoundSnoc(kept: seq<Line>, l: Line)
    requires AllSound(kept) && Sound(l)
    ensures AllSound(kept + [l])
  {
    hide Sound;
  }

  lemma SnocLooks(kept: seq<Line>, blank: Line)
    requires blank.body == "" && blank.lead == ""
    requires forall k :: 0 <= k < |kept| ==> AllSpace(kept[k].lead)
    ensures Similar(kept + [blank], kept)
  {
    hide IsSpace, AllSpace;
    assert AllSpace("") by { hide *; NoSpaceNeeded(); }
  }

  lemma NoSpaceNeeded()
    ensures AllSpace("")
  {
  }

  lemma SnocStart(kept: seq<Line>)
    requires StartsAtRoot(kept)
    ensures StartsAtRoot(kept + [BLANK]) && StartsAtRoot(ShaveAll(kept))
  {
  }

  // ----- what the injection starts from --------------------------------------

  // What the injection needs of its arguments.
  predicate Injectable(text: string, t: Ingress, network: string) {
    && Trim(text) != "" && t.routes != [] && RootedText(text, network)
    && IsRootName(network) && OneLiners(t)
  }

  // No line of the trimmed text but the last ends in more than two carriage returns.
  predicate NoTripleCR(text: string) {
    forall k :: 0 <= k < |SplitLines(text)| - 1 ==> DropCR(DropCR(SplitLines(text)[k])) == DropCR(SplitLines(text)[k])
  }

  // Lines that are ready for the label block.
  ghost predicate Ready(lines: seq<Line>, network: string) {
    AllSound(lines) && StartsAtRoot(lines) && Settled(lines, network)
  }

  lemma ShavedTwice(l: Line)
    requires Sound(l)
    ensures Clean(Shave(l)) <==> DropCR(DropCR(Show(l))) == DropCR(Show(l))
    ensures Clean(l) ==> Clean(Shave(l))
  {
    ShaveShows(l);
    ShaveParses(l);
    ShaveShows(Shave(l));
    hide Show, DropCR, Proper, Shave, Parse, SameLook;
  }

  lemma TextShaved(text: string)
    requires text != "" && Trimmed(text)
    ensures AllClean(ShaveAll(LinesOf(text))) <==> NoTripleCR(text)
  {
    hide SplitLines, Parse, Show, Proper, DropCR, IsSpace, Shave, Clean;
    var ss := SplitLines(text);
    var lines := LinesOf(text);
    TextSound(text);
    forall k | 0 <= k < |ss| ensures Clean(Shave(lines[k])) <==> DropCR(DropCR(ss[k])) == DropCR(ss[k]) {
      ParseShows(ss[k]);
      assert Sound(lines[k]);
      ShavedTwice(lines[k]);
    }
    SolidClean(lines[|lines| - 1]);
  }

  // Shaved, the result keeps a stray carriage return exactly when the shaved input has one.
  lemma ShavedStraysStay(lines: seq<Line>, all: seq<Line>)
    requires AllSound(lines) && Solid(lines) && AllSound(all) && HasText(all)
    requires From(lines, all) && Subseq(lines, all)
    ensures AllClean(ShaveAll(StripEnd(all))) <==> AllClean(ShaveAll(lines))
  {
    hide Clean, Sound, Subseq, StripEnd, Shave;
    var kept := StripEnd(all);
    StripEndSound(all);
    if AllClean(ShaveAll(lines)) {
      forall k | 0 <= k < |kept| ensures Clean(ShaveAll(kept)[k]) {
        KeptLine(lines, all, k);
      }
    } else {
      var n := |lines| - 1;
      var i :| 0 <= i < |lines| && !Clean(ShaveAll(lines)[i]);
      SolidClean(lines[n]);
      var i', j' := SubseqPair(lines, all, i, n);
      StripEndKeepsEarlier(all, i', j');
      assert !Clean(ShaveAll(kept)[i']);
    }
  }

  lemma KeptLine(lines: seq<Line>, all: seq<Line>, k: nat)
    requires AllSound(all) && HasText(all) && From(lines, all) && AllSound(lines) && AllClean(ShaveAll(lines))
    requires k < |StripEnd(all)|
    ensures Clean(Shave(StripEnd(all)[k]))
  {
    hide Clean, Sound, StripEnd, Shave;
    StripEndSound(all);
    var l := StripEnd(all)[k];
    if k == |StripEnd(all)| - 1 {
      SolidClean(l);
    } else {
      StripEndBefore(all, k);
      if l in lines {
        var i :| 0 <= i < |lines| && lines[i] == l;
        assert Clean(ShaveAll(lines)[i]);
      } else {
        ShavedTwice(l);
      }
    }
  }

  lemma {:induction false} StripEndBefore(ls: seq<Line>, k: nat)
    requires k < |StripEnd(ls)| - 1
    ensures k < |ls| && StripEnd(ls)[k] == ls[k]
    decreases |ls|
  {
    if ls[|ls| - 1].body == "" {
      StripEndBefore(ls[..|ls| - 1], k);
    }
  }

  lemma StartHasText(lines: seq<Line>)
    requires StartsAtRoot(lines)
    ensures HasText(lines)
  {
  }

  // The attached text, split: sound, settled lines below which one blank line follows.
  lemma AttachedReady(text: string, t: Ingress, network: string) returns (s0: seq<Line>)
    requires Injectable(text, t, network)
    ensures LinesOf(AttachText(Trim(text), network, Overlay)) == s0 + [BLANK]
    ensures Ready(s0 + [BLANK], network) && AllSound(s0) && Solid(s0)
    ensures AllClean(s0) <==> NoTripleCR(Trim(text))
    ensures ServiceNames(s0 + [BLANK]) == ServiceNames(LinesOf(Trim(text)))
  {
    hide LinesOf, Trim, AttachAll, StripEnd, Settled, Similar, Hit, First, ServiceNames, NoTripleCR, IsRootName, PlainName, AllAttached, StartsAtRoot, AllSound, AllClean, From, Keeps, NotShadowing, Rooted, Finish, AttachText;
    var raw := Trim(text);
    TrimTrims(text);
    var lines := LinesOf(raw);
    var all := AttachAll(lines, network, Overlay);
    RootNameIsPlain(network);
    FirstPass(text, network, Overlay);
    AttachedIs(text, network);
    FinishedLines(all);
    s0 := ShaveAll(StripEnd(all));
    SoundFinish(all);
    ShavedSimilar(StripEnd(all));
    SimilarSettled(StripEnd(all), s0, network);
    SnocSimilar(s0);
    SimilarSettled(s0 + [BLANK], s0, network);
    FinishedAgain(all);
    SimilarNames(all, s0);
    SimilarNames(s0 + [BLANK], s0);
    SnocStart(StripEnd(all));
    SnocStart(s0);
    TextSound(raw);
    AttachAllFrom(lines, network, Overlay);
    AttachAllAttaches(lines, network, Overlay);
    KeepsSubseq(lines, all);
    KeepsNames(lines, all);
    StartHasText(all);
    ShavedStraysStay(lines, all);
    TextShaved(raw);
  }

  lemma KeepsNames(before: seq<Line>, after: seq<Line>)
    requires Keeps(before, after)
    ensures ServiceNames(after) == ServiceNames(before)
  {
  }

  lemma AttachedIs(text: string, network: string)
    requires Trim(text) != "" && RootedText(text, network)
    ensures AttachAll(LinesOf(Trim(text)), network, Overlay) != []
    ensures AttachText(Trim(text), network, Overlay) == Finish(AttachAll(LinesOf(Trim(text)), network, Overlay))
  {
    hide LinesOf, Trim, AttachAll, Hit, First, Finish, NotShadowing;
    TrimTrims(text);
    AttachAllGrows(LinesOf(Trim(text)), network, Overlay);
  }

  // ----- one injection -------------------------------------------------------

  lemma InsertSound(lines: seq<Line>, at: nat, ins: seq<Line>)
    requires AllSound(lines) && AllClean(ins) && 0 < at <= |lines| && StartsAtRoot(lines)
    ensures AllSound(Insert(lines, at, ins)) && StartsAtRoot(Insert(lines, at, ins))
  {
    hide Show, Proper, DropCR;
    forall k | 0 <= k < |ins| ensures Sound(ins[k]) {
      assert Clean(ins[k]);
    }
  }

  lemma InsertedFrom(s0: seq<Line>, at: nat, ins: seq<Line>)
    requires AllClean(ins) && at <= |s0| + 1
    ensures From(s0, s0 + [BLANK]) && From(s0, Insert(s0 + [BLANK], at, ins))
  {
    BlankShows();
    hide Clean, Parse, Shave, Show, Sound, Insert;
    assert From(s0, s0 + [BLANK]);
    InsertFrom(s0, s0 + [BLANK], at, ins);
  }

  lemma {:induction false} SubseqSnoc(a: seq<Line>, l: Line)
    ensures Subseq(a, a + [l])
  {
    if a != [] {
      assert (a + [l])[1..] == a[1..] + [l];
      SubseqSnoc(a[1..], l);
    }
  }

  lemma InjectedReady(s0: seq<Line>, target: string, t: Ingress, network: string)
    requires Ready(s0 + [BLANK], network) && OneLiners(t) && IsRootName(network)
    requires BlockStart(s0 + [BLANK], target) < |s0 + [BLANK]|
    ensures var lines := s0 + [BLANK];
            var out := InjectLines(lines, target, DeployBlock(t, network));
            && Ready(out, network) && Enabled(out, target) && Keeps(lines, out) && From(s0, out) && Subseq(s0, out)
  {
    hide DeployBlock, Settled, AllSound, AllClean, BlockStart, BlockStop, OneLiners, IsRootName, Enabled, Insert, From, Subseq, StartsAtRoot, Rooted, Attached, Declared, ServiceNames;
    var lines := s0 + [BLANK];
    var at := BlockStop(lines, target);
    InjectLinesResult(lines, target, t, network);
    DeployBlockClean(t, network);
    SettledRooted(lines, network);
    TargetBelowHeader(lines, target);
    InsertSound(lines, at, DeployBlock(t, network));
    InsertedFrom(s0, at, DeployBlock(t, network));
    SubseqSnoc(s0, BLANK);
    SubseqTrans(s0, lines, InjectLines(lines, target, DeployBlock(t, network)));
  }

  lemma SettledRooted(lines: seq<Line>, network: string)
    requires Settled(lines, network)
    ensures Rooted(lines)
  {
  }

  // What an injection returns: the input when there is no such service, otherwise the finished form
  // of lines that keep everything the attached text had and in which the target is enabled.
  lemma InjectTextResult(text: string, target: string, t: Ingress, network: string)
    requires Injectable(text, t, network)
    ensures var lines := LinesOf(AttachText(Trim(text), network, Overlay));
            && Ready(lines, network)
            && (BlockStart(lines, target) == |lines| ==> InjectText(text, target, t, network) == text)
            && (BlockStart(lines, target) < |lines| ==>
                  var out := InjectLines(lines, target, DeployBlock(t, network));
                  InjectText(text, target, t, network) == Finish(out)
                  && Ready(out, network) && Enabled(out, target) && Keeps(lines, out))
  {
    hide LinesOf, Trim, Settled, NoTripleCR, IsRootName, AllClean, AllSound, Finish, Hit, AttachText, Keeps, Enabled, InjectLines, DeployBlock;
    hide RootedText, OneLiners, BlockStart, StartsAtRoot, From, Subseq, Solid;
    var s0 := AttachedReady(text, t, network);
    var lines := s0 + [BLANK];
    SettledHasServices(lines, network);
    if BlockStart(lines, target) < |lines| {
      InjectedReady(s0, target, t, network);
    }
  }

  // The block of `target` starts below the services header and ends inside the services section.
  predicate InsideServices(lines: seq<Line>, target: string) {
    && ServicesAt(lines) < BlockStart(lines, target) < |lines|
    && BlockStart(lines, target) < BlockStop(lines, target)
    && BlockStop(lines, target) <= SectionEnd(lines, ServicesAt(lines)) <= |lines|
  }

  // `result` is the finished form of `lines` with the block injected, and the block that carries the
  // enable label lies inside the services section, before and after.
  ghost predicate LandsInside(lines: seq<Line>, target: string, block: seq<Line>, result: string) {
    && InsideServices(lines, target)
    && var out := InjectLines(lines, target, block);
       out != [] && result == Finish(out) && Enabled(out, target) && InsideServices(out, target)
  }

  // A listed service's labels land inside the services section. (A name that is not listed may be
  // found below the section.)
  lemma InjectListedTarget(text: string, target: string, t: Ingress, network: string)
    requires Injectable(text, t, network) && target in ServiceNames(LinesOf(Trim(text)))
    ensures LandsInside(LinesOf(AttachText(Trim(text), network, Overlay)), target, DeployBlock(t, network), InjectText(text, target, t, network))
  {
    hide LinesOf, Trim, Settled, NoTripleCR, IsRootName, AllClean, AllSound, Finish, Hit, First, AttachText, Enabled, InjectLines, DeployBlock, InjectText;
    hide RootedText, OneLiners, BlockStart, BlockStop, StartsAtRoot, From, Subseq, Solid, ServiceNames, Keeps;
    var s0 := AttachedReady(text, t, network);
    var lines := s0 + [BLANK];
    SettledRooted(lines, network);
    ListedInside(lines, target);
    InjectTextResult(text, target, t, network);
    var out := InjectLines(lines, target, DeployBlock(t, network));
    KeepsNames(lines, out);
    SettledRooted(out, network);
    ListedInside(out, target);
  }

  lemma ListedInside(lines: seq<Line>, target: string)
    requires Rooted(lines) && target in ServiceNames(lines)
    ensures BlockStart(lines, target) < |lines| && InsideServices(lines, target)
  {
    hide Hit, First, ServiceNames;
    ListedBlock(lines, target);
  }

  // ----- another injection ---------------------------------------------------

  // The lines a second injection works on: shaved twice, and a blank one.
  lemma AgainReady(out: seq<Line>, target: string, network: string)
    requires Ready(out, network) && Enabled(out, target)
    ensures var s2 := ShaveAll(ShaveAll(StripEnd(out)));
            && LinesOf(AttachText(Trim(Finish(out)), network, Overlay)) == s2 + [BLANK]
            && Ready(s2 + [BLANK], network) && Enabled(s2 + [BLANK], target) && Solid(s2) && AllSound(s2)
  {
    hide LinesOf, Trim, AttachAll, StripEnd, Settled, Similar, Hit, First, StartsAtRoot, AllSound, Rooted, Finish, AttachText, Enabled, Join, Solid, ShowAll;
    var kept := StripEnd(out);
    var s1 := ShaveAll(kept);
    var s2 := ShaveAll(s1);
    SoundFinish(out);
    SoundProper(out);
    ProperLeads(out);
    StripEndSimilar(out);
    SimilarSettled(out, kept, network);
    SimilarEnabled(out, kept, target);
    AttachAgain(out, network, Overlay);
    ShavedSimilar(kept);
    SimilarEnabled(kept, s1, target);
    SimilarSettled(kept, s1, network);
    SnocStart(kept);
    ShavedSimilar(s1);
    SimilarEnabled(s1, s2, target);
    SimilarSettled(s1, s2, network);
    SnocStart(s1);
    SnocSimilar(s2);
    SimilarEnabled(s2 + [BLANK], s2, target);
    SimilarSettled(s2 + [BLANK], s2, network);
    SnocStart(s2);
    SolidStays(s1);
    SoundFinish(s1);
    FinishedLines(s1);
  }

  lemma SolidStays(lines: seq<Line>)
    requires Solid(lines)
    ensures StripEnd(lines) == lines
  {
    StripEndTwice(lines);
  }

  lemma FinishSnoc(lines: seq<Line>)
    requires AllSound(lines) && Solid(lines) && StartsAtRoot(lines + [BLANK])
    ensures Finish(lines + [BLANK]) == Join(ShowAll(lines)) + "\n"
  {
    hide Join, Show, TrimEnd, Trim, IsSpace, AllSound;
    SnocSimilar(lines);
    SoundFinish(lines + [BLANK]);
    SolidStays(lines);
    StripEndSnoc(lines);
  }

  lemma StripEndSnoc(lines: seq<Line>)
    ensures StripEnd(lines + [BLANK]) == StripEnd(lines)
  {
    assert (lines + [BLANK])[..|lines|] == lines;
  }

  lemma InjectEnabled(text: string, target: string, t: Ingress, network: string)
    requires Trim(text) != "" && t.routes != []
    requires var lines := LinesOf(AttachText(Trim(text), network, Overlay)); ServicesAt(lines) < |lines| && Enabled(lines, target)
    ensures var lines := LinesOf(AttachText(Trim(text), network, Overlay));
            lines != [] && InjectText(text, target, t, network) == Finish(lines)
  {
    hide LinesOf, Trim, AttachText, Finish, DeployBlock, Hit, First;
  }

  lemma InjectOnLines(text: string, target: string, t: Ingress, network: string, s2: seq<Line>)
    requires Trim(text) != "" && t.routes != []
    requires LinesOf(AttachText(Trim(text), network, Overlay)) == s2 + [BLANK]
    requires Ready(s2 + [BLANK], network) && Enabled(s2 + [BLANK], target) && Solid(s2) && AllSound(s2)
    ensures InjectText(text, target, t, network) == Join(ShowAll(s2)) + "\n"
  {
    hide LinesOf, Trim, Settled, AllSound, Hit, First, Join, AttachText, Finish, Enabled, StartsAtRoot, Solid, ShowAll, InjectText, ServicesAt;
    SettledHasServices(s2 + [BLANK], network);
    FinishSnoc(s2);
    InjectEnabled(text, target, t, network);
  }

  lemma InjectOnReady(out: seq<Line>, target: string, t: Ingress, network: string)
    requires Ready(out, network) && Enabled(out, target) && t.routes != []
    ensures out != [] && StripEnd(out) != []
    ensures InjectText(Finish(out), target, t, network) == Join(ShowAll(ShaveAll(ShaveAll(StripEnd(out))))) + "\n"
  {
    hide LinesOf, Trim, Settled, AllSound, Join, AttachText, Finish, Enabled, StartsAtRoot, ShowAll, InjectText, Ready, StripEnd, Solid;
    ReadyParts(out, network);
    FinishedNotBlank(out);
    AgainReady(out, target, network);
    InjectOnLines(Finish(out), target, t, network, ShaveAll(ShaveAll(StripEnd(out))));
  }

  lemma ReadyParts(out: seq<Line>, network: string)
    requires Ready(out, network)
    ensures AllSound(out) && StartsAtRoot(out) && StripEnd(out) != []
  {
    hide Settled, AllSound, StripEnd;
    SoundFinish(out);
  }

  lemma FinishedNotBlank(out: seq<Line>)
    requires AllSound(out) && StartsAtRoot(out)
    ensures out != [] && Trim(Finish(out)) != ""
  {
    hide Trim, StripEnd, Join, Finish, AllSound;
    SoundFinish(out);
  }

  lemma AgainSameText(out: seq<Line>, target: string, t: Ingress, network: string)
    requires Ready(out, network) && Enabled(out, target) && t.routes != []
    ensures out != [] && (InjectText(Finish(out), target, t, network) == Finish(out) <==> AllClean(StripEnd(out)))
  {
    hide LinesOf, Trim, Settled, StripEnd, Join, Show, InjectText, Finish, Clean, Enabled, Sound;
    var kept := StripEnd(out);
    var s1 := ShaveAll(kept);
    InjectOnReady(out, target, t, network);
    SoundFinish(out);
    ShavedSimilar(kept);
    ShavedShorter(kept);
    ShavedShorter(s1);
    JoinLength(ShowAll(kept));
    JoinLength(ShowAll(ShaveAll(s1)));
  }

  // The injection has nothing to do: a blank text, no routes, or no such service.
  predicate NothingToInject(text: string, target: string, t: Ingress, network: string) {
    || Trim(text) == "" || t.routes == []
    || BlockStart(LinesOf(AttachText(Trim(text), network, Overlay)), target) == |LinesOf(AttachText(Trim(text), network, Overlay))|
  }

  // Injecting twice with the same options gives the same text as injecting once, exactly when there
  // is nothing to inject or no line but the last ends in more than two carriage returns before its
  // line break (two readings drop one each).
  lemma InjectTextIdempotentExact(text: string, target: string, t: Ingress, network: string)
    requires Trim(text) == "" || t.routes == [] || Injectable(text, t, network)
    ensures var once := InjectText(text, target, t, network);
            InjectText(once, target, t, network) == once <==>
            NothingToInject(text, target, t, network) || NoTripleCR(Trim(text))
  {
    if Trim(text) != "" && t.routes != [] {
      hide LinesOf, Trim, Settled, NoTripleCR, IsRootName, AllClean, AllSound, Finish, Hit, AttachText, Keeps, Enabled, InjectLines, DeployBlock;
      hide RootedText, OneLiners, BlockStart, StartsAtRoot, From, Subseq, Solid, StripEnd;
      InjectTextResult(text, target, t, network);
      var s0 := AttachedReady(text, t, network);
      var lines := s0 + [BLANK];
      if BlockStart(lines, target) < |lines| {
        InjectedReady(s0, target, t, network);
        var out := InjectLines(lines, target, DeployBlock(t, network));
        AgainSameText(out, target, t, network);
        StraysStay(s0, out);
      }
    }
  }
}
