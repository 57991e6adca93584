// Attaching twice, for texts with any line ends: what a second reading does to carriage returns
// the first one left, and when the attached text is therefore a fixed point.
module ComposeCarriage {
  import opened LineScan
  import opened ComposeNetworks
  import opened ComposeAttach
  import opened ComposeText
  import opened ComposeSimilar
  import opened ComposePipeline

  predicate Sound(l: Line) {
    Proper(l) && '\n' !in Show(l)
  }

  predicate AllSound(lines: seq<Line>) {
    forall k :: 0 <= k < |lines| ==> Sound(lines[k])
  }

  // The line without a carriage return at its end.
  function Shave(l: Line): Line {
    if l.body == "" then l.(lead := DropCR(l.lead)) else l.(trail := DropCR(l.trail))
  }

  function ShaveAll(lines: seq<Line>): (r: seq<Line>)
    ensures |r| == |lines| && forall k :: 0 <= k < |lines| ==> r[k] == Shave(lines[k])
  {
    seq(|lines|, k requires 0 <= k < |lines| => Shave(lines[k]))
  }

  lemma DropCRAfter(a: string, b: string)
    requires b != "" || DropCR(a) == a
    ensures DropCR(a + b) == a + DropCR(b)
  {
    if b != "" {
      assert (a + b)[|a + b| - 1] == b[|b| - 1];
      assert (a + b)[..|a + b| - 1] == a + b[..|b| - 1];
    } else {
      assert a + b == a;
    }
  }

  lemma BodyHasNoCR(l: Line)
    requires Proper(l) && l.body != ""
    ensures DropCR(l.lead + l.body) == l.lead + l.body
  {
    assert (l.lead + l.body)[|l.lead + l.body| - 1] == l.body[|l.body| - 1];
    assert IsSpace('\r');
    hide IsSpace;
  }

  lemma ShaveShows(l: Line)
    requires Sound(l)
    ensures Show(Shave(l)) == DropCR(Show(l)) && Sound(Shave(l)) && SameLook(l, Shave(l))
  {
    hide IsSpace;
    if l.body == "" {
      assert Show(l) == l.lead;
      assert Show(Shave(l)) == DropCR(l.lead);
    } else {
      BodyHasNoCR(l);
      DropCRAfter(l.lead + l.body, l.trail);
    }
  }

  lemma ShaveParses(l: Line)
    requires Sound(l)
    ensures Parse(DropCR(Show(l))) == Shave(l) && (Clean(l) <==> Shave(l) == l)
  {
    ShaveShows(l);
    ShowParses(Shave(l));
    ShowParses(l);
    hide Show, DropCR, Parse, Proper, SameLook;
    if Shave(l) == l {
      assert DropCR(Show(l)) == Show(l);
    }
  }

  // ----- reading joined lines back -------------------------------------------

  function DropEach(ss: seq<string>): (r: seq<string>)
    ensures |r| == |ss|
    ensures forall k :: 0 <= k < |ss| ==> r[k] == if k < |ss| - 1 then DropCR(ss[k]) else ss[k]
  {
    seq(|ss|, k requires 0 <= k < |ss| => if k < |ss| - 1 then DropCR(ss[k]) else ss[k])
  }

  lemma {:induction false} SplitJoinAny(ss: seq<string>)
    requires ss != [] && forall k :: 0 <= k < |ss| ==> '\n' !in ss[k]
    ensures SplitLines(Join(ss)) == DropEach(ss)
    decreases |ss|
  {
    hide DropCR, SplitLines, DropEach;
    if |ss| == 1 {
      SplitOne(ss[0]);
      DropOne(ss);
    } else {
      SplitJoinAny(ss[1..]);
      SplitCons(ss[0], Join(ss[1..]));
      DropEachCons(ss);
    }
  }

  lemma DropOne(ss: seq<string>)
    requires |ss| == 1
    ensures DropEach(ss) == [ss[0]]
  {
  }

  lemma DropEachCons(ss: seq<string>)
    requires |ss| > 1
    ensures DropEach(ss) == [DropCR(ss[0])] + DropEach(ss[1..])
  {
    hide DropCR;
  }

  // The last line ends in text.
  predicate Solid(lines: seq<Line>) {
    lines != [] && lines[|lines| - 1].body != "" && lines[|lines| - 1].trail == ""
  }

  lemma SolidClean(l: Line)
    requires Sound(l) && l.body != "" && l.trail == ""
    ensures Clean(l) && Shave(l) == l
  {
    ShaveParses(l);
    assert DropCR("") == "";
    hide Show, Parse, Proper;
  }

  lemma LinesShaved(lines: seq<Line>)
    requires AllSound(lines) && Solid(lines)
    ensures LinesOf(Join(ShowAll(lines))) == ShaveAll(lines)
  {
    hide Show, Parse, Proper, DropCR, SplitLines, Join, Shave;
    var ss := ShowAll(lines);
    SplitJoinAny(ss);
    SolidClean(lines[|lines| - 1]);
    forall k | 0 <= k < |lines| ensures Parse(DropEach(ss)[k]) == Shave(lines[k]) {
      ShaveParses(lines[k]);
    }
  }

  lemma ShavedSimilar(lines: seq<Line>)
    requires AllSound(lines) && Solid(lines)
    ensures Similar(lines, ShaveAll(lines)) && AllSound(ShaveAll(lines)) && Solid(ShaveAll(lines))
  {
    hide Show, IsSpace, Shave, DropCR;
    forall k | 0 <= k < |lines| ensures SameLook(lines[k], Shave(lines[k])) && Sound(Shave(lines[k])) {
      ShaveShows(lines[k]);
    }
    SolidClean(lines[|lines| - 1]);
  }

  // ----- finishing -----------------------------------------------------------

  lemma SoundProper(lines: seq<Line>)
    requires AllSound(lines)
    ensures forall k :: 0 <= k < |lines| ==> Proper(lines[k])
  {
    hide Proper, Show;
  }

  lemma BareSound(l: Line)
    requires Sound(l) && l.body != ""
    ensures Sound(l.(trail := ""))
  {
    assert Show(l) == Show(l.(trail := "")) + l.trail;
  }

  lemma {:induction false} StripEndSound(lines: seq<Line>)
    requires AllSound(lines) && HasText(lines)
    ensures AllSound(StripEnd(lines)) && Solid(StripEnd(lines))
    decreases |lines|
  {
    hide Sound;
    var last := lines[|lines| - 1];
    if last.body == "" {
      var k :| 0 <= k < |lines| && lines[k].body != "";
      assert lines[..|lines| - 1][k].body != "";
      StripEndSound(lines[..|lines| - 1]);
    } else {
      BareSound(last);
    }
  }

  lemma SoundFinish(lines: seq<Line>)
    requires AllSound(lines) && StartsAtRoot(lines)
    ensures AllSound(StripEnd(lines)) && Solid(StripEnd(lines)) && StartsAtRoot(StripEnd(lines))
    ensures var q := Join(ShowAll(StripEnd(lines))); Finish(lines) == q + "\n" && Trim(q + "\n") == q && q != ""
  {
    hide Show, Join, StripEnd, IsSpace, TrimEnd, Trim, Proper, AllSound;
    assert HasText(lines);
    StripEndSound(lines);
    StripEndHead(lines);
    SoundProper(lines);
    SoundProper(StripEnd(lines));
    TrimEndJoin(lines);
    var q := Join(ShowAll(StripEnd(lines)));
    JoinStarts(StripEnd(lines));
    TrimNewline(q);
  }

  // ----- the lengths ---------------------------------------------------------

  lemma {:induction false} ShavedShorter(lines: seq<Line>)
    requires AllSound(lines)
    ensures Chars(ShowAll(ShaveAll(lines))) <= Chars(ShowAll(lines))
    ensures !AllClean(lines) ==> Chars(ShowAll(ShaveAll(lines))) < Chars(ShowAll(lines))
    ensures AllClean(lines) ==> ShaveAll(lines) == lines
    decreases |lines|
  {
    hide Show, Shave, Sound, Clean;
    if lines != [] {
      ShavedShorter(lines[1..]);
      assert ShowAll(lines)[1..] == ShowAll(lines[1..]);
      assert ShowAll(ShaveAll(lines))[1..] == ShowAll(ShaveAll(lines[1..]));
      ShaveLength(lines[0]);
      if AllClean(lines[1..]) && Clean(lines[0]) {
        assert forall k :: 0 < k < |lines| ==> lines[k] == lines[1..][k - 1];
      }
    }
    if AllClean(lines) {
      forall k | 0 <= k < |lines| ensures Shave(lines[k]) == lines[k] {
        ShaveLength(lines[k]);
      }
    }
  }

  lemma ShaveLength(l: Line)
    requires Sound(l)
    ensures |Show(Shave(l))| <= |Show(l)| && (Clean(l) <==> |Show(Shave(l))| == |Show(l)|) && (Clean(l) <==> Shave(l) == l)
  {
    ShaveShows(l);
    ShaveParses(l);
    hide Show, Parse, Shave;
  }

  // ----- a second attach -----------------------------------------------------

  // What attaching again makes of finished, settled lines.
  lemma AttachAgain(all: seq<Line>, external: string, driver: Driver)
    requires AllSound(all) && StartsAtRoot(all) && Settled(StripEnd(all), external)
    ensures StripEnd(all) != []
    ensures AttachText(Finish(all), external, driver) == Join(ShowAll(ShaveAll(StripEnd(all)))) + "\n"
    ensures AttachText(Trim(Finish(all)), external, driver) == Join(ShowAll(ShaveAll(StripEnd(all)))) + "\n"
  {
    hide LinesOf, Trim, AttachAll, StripEnd, Settled, Join, Show, Hit, TrimEnd, Shave, Sound, Similar, StartsAtRoot;
    var kept := StripEnd(all);
    SoundFinish(all);
    TrimTrims(Finish(all));
    LinesShaved(kept);
    ShavedSimilar(kept);
    var again := ShaveAll(kept);
    SimilarSettled(kept, again, external);
    SettledIsFixed(again, external, driver);
    SettledHasServices(again, external);
    StripEndTwice(again);
    SoundProper(again);
    TrimEndJoin(again);
  }

  lemma AgainSame(all: seq<Line>, external: string, driver: Driver)
    requires AllSound(all) && StartsAtRoot(all) && Settled(StripEnd(all), external)
    ensures all != [] && (AttachText(Finish(all), external, driver) == Finish(all) <==> AllClean(StripEnd(all)))
  {
    hide LinesOf, Trim, AttachAll, StripEnd, Settled, Join, Show, Hit, TrimEnd, Shave, Sound, AttachText, Clean, Finish;
    var kept := StripEnd(all);
    AttachAgain(all, external, driver);
    SoundFinish(all);
    ShavedShorter(kept);
    JoinLength(ShowAll(kept));
    JoinLength(ShowAll(ShaveAll(kept)));
  }

  // ----- the stray carriage returns of the input -----------------------------

  lemma TextSound(text: string)
    requires text != "" && Trimmed(text)
    ensures AllSound(LinesOf(text)) && Solid(LinesOf(text))
    ensures AllClean(LinesOf(text)) <==> NoStrayCR(text)
  {
    hide SplitLines, Parse, Show, Proper, DropCR, IsSpace;
    var ss := SplitLines(text);
    var lines := LinesOf(text);
    SplitHasNoBreaks(text);
    forall k | 0 <= k < |ss| ensures Sound(lines[k]) && Show(lines[k]) == ss[k] {
      ParseShows(ss[k]);
    }
    LastHasNoCR(text);
    SplitEnds(text);
    LastHasNoCR(ss[|ss| - 1]);
    SolidEnd(ss[|ss| - 1]);
  }

  lemma SolidEnd(s: string)
    requires s != "" && !IsSpace(s[|s| - 1])
    ensures Parse(s).body != "" && Parse(s).trail == ""
  {
    hide IsSpace;
    var rest := TrimStart(s);
    assert s[..|s|] == s;
    assert rest[|rest| - 1] == s[|s| - 1];
    TrimEndIs(rest, "");
    assert rest + "" == rest;
  }

  lemma {:induction false} SubseqAt<T>(a: seq<T>, b: seq<T>, j: nat) returns (j': nat)
    requires Subseq(a, b) && j < |a|
    ensures j' < |b| && b[j'] == a[j]
    decreases |b|
  {
    if a[0] == b[0] && Subseq(a[1..], b[1..]) {
      if j == 0 {
        j' := 0;
      } else {
        j' := SubseqAt(a[1..], b[1..], j - 1);
        j' := j' + 1;
      }
    } else {
      j' := SubseqAt(a, b[1..], j);
      j' := j' + 1;
    }
  }

  lemma {:induction false} SubseqPair<T>(a: seq<T>, b: seq<T>, i: nat, j: nat) returns (i': nat, j': nat)
    requires Subseq(a, b) && i < j < |a|
    ensures i' < j' < |b| && b[i'] == a[i] && b[j'] == a[j]
    decreases |b|
  {
    if a[0] == b[0] && Subseq(a[1..], b[1..]) {
      if i == 0 {
        i' := 0;
        j' := SubseqAt(a[1..], b[1..], j - 1);
      } else {
        i', j' := SubseqPair(a[1..], b[1..], i - 1, j - 1);
        i' := i' + 1;
      }
      j' := j' + 1;
    } else {
      i', j' := SubseqPair(a, b[1..], i, j);
      i', j' := i' + 1, j' + 1;
    }
  }

  lemma {:induction false} StripEndKeepsEarlier(ls: seq<Line>, i: nat, j: nat)
    requires i < j < |ls| && ls[j].body != ""
    ensures i < |StripEnd(ls)| && StripEnd(ls)[i] == ls[i]
    decreases |ls|
  {
    if ls[|ls| - 1].body == "" {
      StripEndKeepsEarlier(ls[..|ls| - 1], i, j);
    }
  }

  // The result has a stray carriage return exactly when the input has one.
  lemma StraysStay(lines: seq<Line>, all: seq<Line>)
    requires AllSound(lines) && Solid(lines) && AllSound(all)
    requires From(lines, all) && Subseq(lines, all)
    ensures AllClean(StripEnd(all)) <==> AllClean(lines)
  {
    hide Clean, Sound, Subseq, StripEnd;
    if AllClean(lines) {
      FromClean(lines, all);
      StripEndClean(all);
    } else {
      var n := |lines| - 1;
      var i :| 0 <= i < |lines| && !Clean(lines[i]);
      SolidClean(lines[n]);
      var i', j' := SubseqPair(lines, all, i, n);
      StripEndKeepsEarlier(all, i', j');
    }
  }

  lemma FromSound(lines: seq<Line>, all: seq<Line>)
    requires AllSound(lines) && From(lines, all)
    ensures AllSound(all)
  {
    hide Proper, Show, DropCR;
  }

  lemma FirstPass(text: string, external: string, driver: Driver)
    requires Trim(text) != "" && RootedText(text, external) && PlainName(external)
    ensures var all := AttachAll(LinesOf(Trim(text)), external, driver);
            && AllSound(all) && StartsAtRoot(all) && AllAttached(StripEnd(all), external)
            && (Settled(StripEnd(all), external) <==> IsRootName(external))
            && (AllClean(StripEnd(all)) <==> NoStrayCR(Trim(text)))
  {
    hide LinesOf, Trim, AttachAll, StripEnd, Settled, AllAttached, PlainName, Similar, Hit, NoStrayCR, IsRootName, StartsAtRoot, AllSound, AllClean, From, Keeps, NotShadowing, Rooted;
    var lines := LinesOf(Trim(text));
    var all := AttachAll(lines, external, driver);
    TrimTrims(text);
    TextSound(Trim(text));
    TrimmedStarts(Trim(text));
    LinesStart(Trim(text));
    AttachAllStart(lines, external, driver);
    AttachAllFrom(lines, external, driver);
    FromSound(lines, all);
    AttachAllAttaches(lines, external, driver);
    KeepsSubseq(lines, all);
    StraysStay(lines, all);
    SoundProper(all);
    ProperLeads(all);
    StripEndSimilar(all);
    SimilarSettled(all, StripEnd(all), external);
  }

  lemma TrimmedStarts(s: string)
    requires s != "" && Trimmed(s)
    ensures !IsSpace(s[0])
  {
  }

  lemma KeepsSubseq(before: seq<Line>, after: seq<Line>)
    requires Keeps(before, after)
    ensures Subseq(before, after)
  {
  }

  lemma SimilarTrans(a: seq<Line>, b: seq<Line>, c: seq<Line>)
    requires Similar(a, b) && Similar(b, c)
    ensures Similar(a, c)
  {
    hide AllSpace;
  }

  // What the pipeline returns: the finished lines, which read back as lines that look the same and
  // are settled.
  lemma AttachTextResult(text: string, external: string, driver: Driver)
    requires Trim(text) != "" && RootedText(text, external) && PlainName(external)
    ensures var all := AttachAll(LinesOf(Trim(text)), external, driver);
            var again := LinesOf(Trim(AttachText(text, external, driver)));
            && all != [] && AttachText(text, external, driver) == Finish(all) && Keeps(LinesOf(Trim(text)), all)
            && Similar(all, again) && AllAttached(again, external) && (Settled(again, external) <==> IsRootName(external))
  {
    hide LinesOf, Trim, AttachAll, StripEnd, Settled, AllAttached, PlainName, Hit, NoStrayCR, IsRootName, StartsAtRoot, AllSound, AllClean, NotShadowing, First, Finish, Similar, Join, ShowAll, Keeps;
    var all := AttachAll(LinesOf(Trim(text)), external, driver);
    FirstPass(text, external, driver);
    AttachAllAttaches(LinesOf(Trim(text)), external, driver);
    AttachAllGrows(LinesOf(Trim(text)), external, driver);
    FinishedAgain(all);
    SimilarSettled(all, ShaveAll(StripEnd(all)), external);
    SimilarSettled(all, StripEnd(all), external);
  }

  // Finished lines, trimmed and split again.
  lemma FinishedAgain(all: seq<Line>)
    requires AllSound(all) && StartsAtRoot(all)
    ensures all != [] && LinesOf(Trim(Finish(all))) == ShaveAll(StripEnd(all)) && Trim(Finish(all)) != ""
    ensures Similar(all, ShaveAll(StripEnd(all))) && Similar(all, StripEnd(all))
    ensures AllSound(ShaveAll(StripEnd(all))) && StartsAtRoot(ShaveAll(StripEnd(all)))
  {
    hide LinesOf, Trim, StripEnd, AllSound, Similar, Join, ShowAll, Finish;
    SoundFinish(all);
    LinesShaved(StripEnd(all));
    ShavedSimilar(StripEnd(all));
    SoundProper(all);
    ProperLeads(all);
    StripEndSimilar(all);
    SimilarTrans(all, StripEnd(all), ShaveAll(StripEnd(all)));
  }

  // ----- names the declaration scan cannot read ------------------------------

  function TextCount(lines: seq<Line>): nat {
    if lines == [] then 0 else TextCount(lines[..|lines| - 1]) + if lines[|lines| - 1].body == "" then 0 else 1
  }

  lemma {:induction false} TextCountConcat(a: seq<Line>, b: seq<Line>)
    ensures TextCount(a + b) == TextCount(a) + TextCount(b)
    decreases |b|
  {
    if b == [] {
      assert a + b == a;
    } else {
      assert (a + b)[..|a + b| - 1] == a + b[..|b| - 1];
      TextCountConcat(a, b[..|b| - 1]);
    }
  }

  lemma InsertTexts(lines: seq<Line>, at: nat, ins: seq<Line>)
    requires at <= |lines|
    ensures TextCount(Insert(lines, at, ins)) == TextCount(lines) + TextCount(ins)
  {
    hide TextCount;
    var a, b := lines[..at], lines[at..];
    assert lines == a + b && Insert(lines, at, ins) == (a + ins) + b;
    TextCountConcat(a + ins, b);
    TextCountConcat(a, ins);
    TextCountConcat(a, b);
  }

  lemma AttachOneTexts(lines: seq<Line>, name: string, net: string)
    ensures TextCount(AttachOne(lines, name, net)) >= TextCount(lines)
  {
    hide TextCount, Attached, BlockStart, AttachPoint, AttachLines, Insert;
    if BlockStart(lines, name) < |lines| && !Attached(lines, name, net) {
      InsertTexts(lines, AttachPoint(lines, name), AttachLines(lines, name, net));
    }
  }

  lemma {:induction false} AttachNamesTexts(lines: seq<Line>, names: seq<string>, net: string)
    ensures TextCount(AttachNames(lines, names, net)) >= TextCount(lines)
    decreases |names|
  {
    hide TextCount, AttachOne;
    if names != [] {
      AttachOneTexts(lines, names[0], net);
      AttachNamesTexts(AttachOne(lines, names[0], net), names[1..], net);
    }
  }

  lemma DeclareTexts(lines: seq<Line>, net: string, spec: seq<Line>)
    ensures TextCount(Declare(lines, net, spec)) >= TextCount(lines)
    ensures !Declared(lines, net) ==> TextCount(Declare(lines, net, spec)) > TextCount(lines)
  {
    hide Declared, RootInsertAt, Insert;
    if !Declared(lines, net) {
      var ins := DeclareLines(lines, net, spec);
      InsertTexts(lines, RootInsertAt(lines), ins);
      assert ins == [ins[0]] + ins[1..];
      TextCountConcat([ins[0]], ins[1..]);
      assert ins[0].body != "" && [ins[0]][..0] == [];
    }
  }

  // An external network whose name cannot be read back is declared on every run.
  lemma UnreadableTexts(lines: seq<Line>, external: string, driver: Driver)
    requires !IsRootName(external)
    ensures TextCount(AttachAll(lines, external, driver)) > TextCount(lines)
  {
    hide TextCount, Declare, Declared, AttachNames, ServiceNames, DriverSpec, ExternalSpec, IsRootName;
    var l1 := Declare(lines, INTERNAL_NETWORK, DriverSpec(driver));
    var l2 := Declare(l1, external, ExternalSpec(external));
    var l3 := AttachNet(l2, INTERNAL_NETWORK);
    DeclareTexts(lines, INTERNAL_NETWORK, DriverSpec(driver));
    DeclaredIsReadable(l1, external);
    DeclareTexts(l1, external, ExternalSpec(external));
    AttachNamesTexts(l2, ServiceNames(l2), INTERNAL_NETWORK);
    AttachNamesTexts(l3, ServiceNames(l3), external);
  }

  lemma {:induction false} SimilarTexts(a: seq<Line>, b: seq<Line>)
    requires Similar(a, b)
    ensures TextCount(a) == TextCount(b)
    decreases |a|
  {
    hide AllSpace;
    if a != [] {
      var n := |a| - 1;
      if |b| == |a| {
        assert SameLook(a[n], b[n]);
        SimilarTexts(a[..n], b[..n]);
      } else {
        assert a[n].body == "";
        SimilarTexts(a[..n], b);
      }
    }
  }

  lemma UnreadableChanges(text: string, external: string, driver: Driver)
    requires Trim(text) != "" && RootedText(text, external) && PlainName(external) && !IsRootName(external)
    ensures var once := AttachText(text, external, driver); AttachText(once, external, driver) != once
  {
    hide LinesOf, Trim, AttachAll, StripEnd, Settled, PlainName, Hit, NoStrayCR, StartsAtRoot, AllSound, AllClean, First, Finish, Similar, TextCount, Keeps, ServicesAt, Declared, Attached, ServiceNames;
    var all := AttachAll(LinesOf(Trim(text)), external, driver);
    FirstPass(text, external, driver);
    AttachTextResult(text, external, driver);
    FinishedAgain(all);
    var once := Finish(all);
    var lines := ShaveAll(StripEnd(all));
    assert external != "services" by { hide *; ServicesIsReadable(); }
    AttachTextResult(once, external, driver);
    UnreadableTexts(lines, external, driver);
    SimilarTexts(AttachAll(lines, external, driver), LinesOf(Trim(AttachText(once, external, driver))));
  }

  lemma ServicesIsReadable()
    ensures IsRootName("services")
  {
  }

  // ----- when a second run changes nothing -----------------------------------

  // The pipeline has nothing to do: the text is blank or has no services section.
  predicate Idle(text: string) {
    Trim(text) == "" || ServicesAt(LinesOf(Trim(text))) == |LinesOf(Trim(text))|
  }

  // Attaching a text twice gives the same text as attaching it once, exactly when the scan can read
  // the external network's name and no line of the trimmed input but the last ends in more than one
  // carriage return.
  lemma AttachTextIdempotentExact(text: string, external: string, driver: Driver)
    requires PlainName(external) && (Idle(text) || RootedText(text, external))
    ensures var once := AttachText(text, external, driver);
            AttachText(once, external, driver) == once <==> Idle(text) || (IsRootName(external) && NoStrayCR(Trim(text)))
  {
    hide LinesOf, Trim, AttachAll, StripEnd, Settled, AllAttached, PlainName, Hit, NoStrayCR, IsRootName, StartsAtRoot, AllSound, AllClean, NotShadowing, First, Finish;
    if !Idle(text) {
      if IsRootName(external) {
        var lines := LinesOf(Trim(text));
        FirstPass(text, external, driver);
        AttachAllGrows(lines, external, driver);
        AgainSame(AttachAll(lines, external, driver), external, driver);
      } else {
        UnreadableChanges(text, external, driver);
      }
    }
  }
}
