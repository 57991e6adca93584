// Blank lines at the end and whitespace after the last character of a line change nothing
// any scan of the compose rewriters can see.
module ComposeSimilar {
  import opened LineScan
  import opened ComposeNetworks
  import opened ComposeAttach
  import opened ComposeText

  predicate SameLook(x: Line, y: Line) {
    x.body == y.body && (x.body != "" ==> x.lead == y.lead)
  }

  // b is a without blank lines at its end, up to whitespace no scan looks at.
  ghost predicate Similar(a: seq<Line>, b: seq<Line>) {
    && |b| <= |a|
    && (forall k :: 0 <= k < |b| ==> SameLook(a[k], b[k]))
    && (forall k :: |b| <= k < |a| ==> a[k].body == "")
    && (forall k :: 0 <= k < |a| ==> AllSpace(a[k].lead))
    && (forall k :: 0 <= k < |b| ==> AllSpace(b[k].lead))
  }

  lemma BlankHitsNothing(l: Line, p: Probe)
    requires l.body == "" && AllSpace(l.lead)
    ensures !Hit(p, l)
  {
    if p.NameLine? && |l.lead| >= p.d + 2 {
      assert (p.name + ":")[|p.name|] == ':';
      assert l.lead[p.d + 2..] + l.body == l.lead[p.d + 2..];
    }
  }

  lemma SameLookHits(x: Line, y: Line, p: Probe)
    requires SameLook(x, y) && AllSpace(x.lead) && AllSpace(y.lead)
    ensures Hit(p, x) == Hit(p, y)
  {
    if x.body == "" {
      BlankHitsNothing(x, p);
      BlankHitsNothing(y, p);
    }
  }

  lemma SimilarFirst(a: seq<Line>, b: seq<Line>, i: nat, p: Probe)
    requires Similar(a, b) && i <= |b|
    ensures First(b, i, p) == if First(a, i, p) < |b| then First(a, i, p) else |b|
    ensures First(a, i, p) < |b| || First(a, i, p) == |a|
  {
    hide Hit, First, SameLook;
    var r := First(a, i, p);
    if |b| <= r < |a| {
      BlankHitsNothing(a[r], p);
      assert false;
    }
    var r' := if r < |b| then r else |b|;
    forall k | i <= k < |b| ensures Hit(p, a[k]) == Hit(p, b[k]) {
      SameLookHits(a[k], b[k], p);
    }
    FirstIs(b, i, p, r');
  }

  lemma {:induction false} SimilarNamesIn(a: seq<Line>, b: seq<Line>, i: nat, e: nat, d: nat)
    requires Similar(a, b) && i <= e <= |b|
    ensures NamesIn(a, i, e, d) == NamesIn(b, i, e, d)
    decreases e - i
  {
    hide Hit;
    if i < e {
      SameLookHits(a[i], b[i], ServiceLine(d));
      SimilarNamesIn(a, b, i + 1, e, d);
    }
  }

  lemma SimilarServices(a: seq<Line>, b: seq<Line>)
    requires Similar(a, b)
    ensures ServicesAt(b) == if ServicesAt(a) < |a| then ServicesAt(a) else |b|
    ensures ServicesAt(a) < |a| ==> ServicesAt(a) < |b| && a[ServicesAt(a)].lead == b[ServicesAt(a)].lead
    ensures Rooted(a) == Rooted(b)
  {
    hide Hit, First;
    SimilarFirst(a, b, 0, Services);
    if ServicesAt(a) < |a| {
      assert Hit(Services, a[ServicesAt(a)]);
      BlankIsNoHeader(a[ServicesAt(a)]);
    }
  }

  lemma BlankIsNoHeader(l: Line)
    requires Hit(Services, l)
    ensures l.body != ""
  {
  }

  lemma SimilarNames(a: seq<Line>, b: seq<Line>)
    requires Similar(a, b)
    ensures ServiceNames(a) == ServiceNames(b)
  {
    hide Hit, First, NamesIn, Similar;
    SimilarServices(a, b);
    if ServicesAt(a) < |a| {
      var s := ServicesAt(a);
      var d := |a[s].lead|;
      SimilarLength(a, b);
      SimilarFirst(a, b, s + 1, RegionEnd(d));
      var e, e' := SectionEnd(a, s), SectionEnd(b, s);
      SimilarNamesIn(a, b, s + 1, e', d);
      if e != e' {
        NamesInSplit(a, s + 1, e', e, d);
        SimilarTail(a, b, e', e, d);
      }
    }
  }

  lemma SimilarLength(a: seq<Line>, b: seq<Line>)
    requires Similar(a, b)
    ensures |b| <= |a|
  {
  }

  lemma SimilarTail(a: seq<Line>, b: seq<Line>, i: nat, e: nat, d: nat)
    requires Similar(a, b) && |b| == i <= e <= |a|
    ensures NamesIn(a, i, e, d) == []
  {
    hide Hit, NamesIn;
    forall k | i <= k < e ensures !Hit(ServiceLine(d), a[k]) {
      BlankHitsNothing(a[k], ServiceLine(d));
    }
    NamesInNone(a, i, e, d);
  }

  lemma SimilarBlock(a: seq<Line>, b: seq<Line>, name: string)
    requires Similar(a, b)
    ensures BlockStart(b, name) == if BlockStart(a, name) < |a| then BlockStart(a, name) else |b|
    ensures BlockStart(a, name) < |a| ==>
              BlockStart(a, name) < |b| && BlockStop(b, name) == if BlockStop(a, name) < |a| then BlockStop(a, name) else |b|
    ensures BlockStart(a, name) < |a| && BlockStop(a, name) < |a| ==> BlockStop(a, name) < |b|
  {
    hide Hit, First, Similar;
    SimilarServices(a, b);
    SimilarLength(a, b);
    if ServicesAt(a) < |a| {
      var s := ServicesAt(a);
      var d := |a[s].lead|;
      SimilarFirst(a, b, s + 1, NameLine(d, name));
      if BlockStart(a, name) < |a| {
        SimilarFirst(a, b, BlockStart(a, name) + 1, BlockEnd(d));
      }
    }
  }

  lemma SimilarAttached(a: seq<Line>, b: seq<Line>, name: string, net: string)
    requires Similar(a, b)
    ensures Attached(a, name, net) == Attached(b, name, net)
  {
    hide Hit, First, Similar, BlockStart, BlockStop;
    SimilarBlock(a, b, name);
    SimilarLength(a, b);
    var s := BlockStart(a, name);
    if s < |a| {
      SimilarFirst(a, b, s + 1, NetworksKey);
      var n := BlockNetworks(a, name);
      if n < |a| {
        SimilarFirst(a, b, n + 1, Item(net));
      }
    }
  }

  lemma SimilarDeclared(a: seq<Line>, b: seq<Line>, net: string)
    requires Similar(a, b)
    ensures Declared(a, net) == Declared(b, net)
  {
    hide Hit, First, Similar;
    SimilarLength(a, b);
    SimilarFirst(a, b, 0, RootNetworks);
    var h := NetworksAt(a);
    if h < |a| {
      SimilarFirst(a, b, h + 1, RootKey);
      SimilarFirst(a, b, h + 1, Decl(net));
    }
  }

  lemma SimilarSettled(a: seq<Line>, b: seq<Line>, external: string)
    requires Similar(a, b)
    ensures AllAttached(a, external) <==> AllAttached(b, external)
    ensures Settled(a, external) <==> Settled(b, external)
  {
    hide Hit, First, Similar, Attached, Declared, ServiceNames, Rooted;
    SimilarServices(a, b);
    SimilarNames(a, b);
    SimilarDeclared(a, b, INTERNAL_NETWORK);
    SimilarDeclared(a, b, external);
    forall name, net ensures Attached(a, name, net) == Attached(b, name, net) {
      SimilarAttached(a, b, name, net);
    }
  }

  lemma {:induction false} StripEndSimilar(ls: seq<Line>)
    requires forall k :: 0 <= k < |ls| ==> AllSpace(ls[k].lead)
    ensures Similar(ls, StripEnd(ls))
    decreases |ls|
  {
    if ls != [] && ls[|ls| - 1].body == "" {
      StripEndSimilar(ls[..|ls| - 1]);
    }
  }
}
