// The rewriters as functions from text to text.
module ComposePipeline {
  import opened LineScan
  import opened ComposeNetworks
  import opened ComposeAttach
  import opened ComposeText
  import opened ComposeSimilar

  // `${lines.join('\n').replace(/\s*$/, '')}\n`
  function Finish(lines: seq<Line>): string
    requires lines != []
  {
    TrimEnd(Join(ShowAll(lines))) + "\n"
  }

  lemma AttachAllGrows(lines: seq<Line>, external: string, driver: Driver)
    ensures |AttachAll(lines, external, driver)| >= |lines|
  {
    hide Insert, RootInsertAt, DriverSpec, ExternalSpec, ServiceNames, AttachNames, Declared;
    var l1 := Declare(lines, INTERNAL_NETWORK, DriverSpec(driver));
    var l2 := Declare(l1, external, ExternalSpec(external));
    AttachNamesGrows(l2, ServiceNames(l2), INTERNAL_NETWORK);
    var l3 := AttachNet(l2, INTERNAL_NETWORK);
    AttachNamesGrows(l3, ServiceNames(l3), external);
  }

  function AttachText(text: string, external: string, driver: Driver): string {
    var raw := Trim(text);
    if raw == "" then text
    else
      var lines := LinesOf(raw);
      if ServicesAt(lines) == |lines| then text
      else
        AttachAllGrows(lines, external, driver);
        Finish(AttachAll(lines, external, driver))
  }

  // ----- every line of the result can be read back ---------------------------

  // A line with no break inside and no stray carriage return at its end.
  predicate Clean(l: Line) {
    Proper(l) && '\n' !in Show(l) && DropCR(Show(l)) == Show(l)
  }

  predicate AllClean(lines: seq<Line>) {
    forall k :: 0 <= k < |lines| ==> Clean(lines[k])
  }

  lemma MkClean(n: nat, body: string)
    requires Trimmed(body) && body != "" && '\n' !in body
    ensures Clean(Mk(n, body))
  {
    assert Show(Mk(n, body)) == Spaces(n) + body;
    assert IsSpace(' ') && IsSpace('\r');
  }

  // A network name without whitespace at its ends or a line break inside.
  predicate PlainName(net: string) {
    net != "" && Trimmed(net) && '\n' !in net
  }

  lemma KeyClean(n: nat, net: string)
    requires PlainName(net)
    ensures Clean(Mk(n, net + ":")) && Clean(Mk(n, "- " + net)) && Clean(Mk(n, "name: " + net))
  {
    assert !IsSpace(':') && !IsSpace('-') && !IsSpace('n');
    hide IsSpace;
    MkClean(n, net + ":");
    MkClean(n, "- " + net);
    MkClean(n, "name: " + net);
  }

  lemma NameCharsTrimmed(net: string)
    requires IsRootName(net)
    ensures forall k :: 0 <= k < |net| ==> !IsSpace(net[k]) && net[k] != '\n'
  {
  }

  lemma RootNameIsPlain(net: string)
    requires IsRootName(net)
    ensures PlainName(net)
  {
    NameCharsTrimmed(net);
    hide IsRootName, IsSpace;
  }

  lemma DriverClean(driver: Driver)
    ensures AllClean(DriverSpec(driver))
  {
    hide Clean, Mk;
    MkClean(4, "driver: overlay");
    MkClean(4, "driver: bridge");
  }

  lemma FixedClean()
    ensures Clean(Line("", "", "")) && Clean(Mk(4, "external: true")) && forall n: nat :: Clean(Mk(n, "networks:"))
  {
    assert Clean(Line("", "", ""));
    hide Clean, Mk;
    MkClean(4, "external: true");
    forall n: nat ensures Clean(Mk(n, "networks:")) {
      MkClean(n, "networks:");
    }
  }

  // Every line of `out` is a line of `base` or a clean one.
  predicate From(base: seq<Line>, out: seq<Line>) {
    forall k :: 0 <= k < |out| ==> out[k] in base || Clean(out[k])
  }

  lemma InsertFrom(base: seq<Line>, lines: seq<Line>, at: nat, ins: seq<Line>)
    requires From(base, lines) && AllClean(ins) && at <= |lines|
    ensures From(base, Insert(lines, at, ins))
  {
    hide Clean;
  }

  lemma FromClean(base: seq<Line>, out: seq<Line>)
    requires From(base, out) && AllClean(base)
    ensures AllClean(out)
  {
    hide Clean;
  }

  lemma AttachOneFrom(base: seq<Line>, lines: seq<Line>, name: string, net: string)
    requires From(base, lines) && PlainName(net)
    ensures From(base, AttachOne(lines, name, net))
  {
    hide Clean, Insert, Attached, First, AttachPoint, PlainName, From;
    if BlockStart(lines, name) < |lines| {
      FixedClean();
      KeyClean(|lines[BlockStart(lines, name)].lead| + 4, net);
      InsertFrom(base, lines, AttachPoint(lines, name), AttachLines(lines, name, net));
    }
  }

  lemma {:induction false} AttachNamesFrom(base: seq<Line>, lines: seq<Line>, names: seq<string>, net: string)
    requires From(base, lines) && PlainName(net)
    ensures From(base, AttachNames(lines, names, net))
    decreases |names|
  {
    hide From, PlainName, AttachOne;
    if names != [] {
      AttachOneFrom(base, lines, names[0], net);
      AttachNamesFrom(base, AttachOne(lines, names[0], net), names[1..], net);
    }
  }

  lemma DeclareFrom(base: seq<Line>, lines: seq<Line>, net: string, spec: seq<Line>)
    requires From(base, lines) && AllClean(spec) && PlainName(net)
    ensures From(base, Declare(lines, net, spec))
  {
    hide Clean, Insert, Declared, RootInsertAt, PlainName, NetworksAt, Mk, From;
    KeyClean(2, net);
    FixedClean();
    InsertFrom(base, lines, RootInsertAt(lines), DeclareLines(lines, net, spec));
  }

  // The pipeline adds clean lines only.
  lemma AttachAllFrom(lines: seq<Line>, external: string, driver: Driver)
    requires PlainName(external)
    ensures From(lines, AttachAll(lines, external, driver))
  {
    assert From(lines, lines) by { hide Clean; }
    hide Clean, Declare, AttachNames, PlainName, IsRootName, ServiceNames, Mk, DriverSpec, From;
    SpecsAreSpecs(external, driver);
    RootNameIsPlain(INTERNAL_NETWORK);
    FixedClean();
    DriverClean(driver);
    KeyClean(4, external);
    var l1 := Declare(lines, INTERNAL_NETWORK, DriverSpec(driver));
    DeclareFrom(lines, lines, INTERNAL_NETWORK, DriverSpec(driver));
    var l2 := Declare(l1, external, ExternalSpec(external));
    DeclareFrom(lines, l1, external, ExternalSpec(external));
    AttachNamesFrom(lines, l2, ServiceNames(l2), INTERNAL_NETWORK);
    var l3 := AttachNet(l2, INTERNAL_NETWORK);
    AttachNamesFrom(lines, l3, ServiceNames(l3), external);
  }

  // ----- finishing and reading back ------------------------------------------

  lemma BareClean(l: Line)
    requires Clean(l) && l.body != ""
    ensures Clean(l.(trail := ""))
  {
    BareLine(l);
    assert Show(l) == Show(l.(trail := "")) + l.trail;
    assert IsSpace('\r');
    hide IsSpace;
  }

  lemma {:induction false} StripEndClean(lines: seq<Line>)
    requires AllClean(lines)
    ensures AllClean(StripEnd(lines))
    ensures var kept := StripEnd(lines); kept != [] ==> kept[|kept| - 1].body != "" && kept[|kept| - 1].trail == ""
    decreases |lines|
  {
    hide Clean;
    if lines != [] {
      var last := lines[|lines| - 1];
      if last.body == "" {
        StripEndClean(lines[..|lines| - 1]);
      } else {
        BareClean(last);
      }
    }
  }

  // The text starts with the first character of its first line.
  lemma JoinStarts(lines: seq<Line>)
    requires lines != [] && Proper(lines[0]) && lines[0].lead == "" && lines[0].body != ""
    ensures var t := Join(ShowAll(lines)); t != "" && !IsSpace(t[0])
  {
    assert ShowAll(lines)[0] == Show(lines[0]) == lines[0].body + lines[0].trail;
  }

  lemma NewlineIsSpace()
    ensures AllSpace("\n")
  {
  }

  lemma TrimNewline(q: string)
    requires q != "" && Trimmed(q)
    ensures Trim(q + "\n") == q && Trim(q) == q
  {
    hide IsSpace;
    NewlineIsSpace();
    TrimEndIs(q, "\n");
    TrimEndIs(q, "");
    assert q + "" == q;
  }

  lemma {:induction false} StripEndHead(lines: seq<Line>)
    requires lines != [] && lines[0].body != ""
    ensures StripEnd(lines) != [] && StripEnd(lines)[0].lead == lines[0].lead && StripEnd(lines)[0].body == lines[0].body
    decreases |lines|
  {
    if lines[|lines| - 1].body == "" {
      StripEndHead(lines[..|lines| - 1]);
    }
  }

  // ----- the first and the last line -----------------------------------------

  // The file starts with text at column 0.
  predicate StartsAtRoot(lines: seq<Line>) {
    lines != [] && lines[0].lead == "" && lines[0].body != ""
  }

  lemma AttachOneStart(lines: seq<Line>, name: string, net: string)
    requires StartsAtRoot(lines)
    ensures StartsAtRoot(AttachOne(lines, name, net))
  {
    hide Attached, First, Hit, Insert;
  }

  lemma {:induction false} AttachNamesStart(lines: seq<Line>, names: seq<string>, net: string)
    requires StartsAtRoot(lines)
    ensures StartsAtRoot(AttachNames(lines, names, net))
    decreases |names|
  {
    hide AttachOne, StartsAtRoot;
    if names != [] {
      AttachOneStart(lines, names[0], net);
      AttachNamesStart(AttachOne(lines, names[0], net), names[1..], net);
    }
  }

  lemma DeclareStart(lines: seq<Line>, net: string, spec: seq<Line>)
    requires StartsAtRoot(lines)
    ensures StartsAtRoot(Declare(lines, net, spec))
  {
    hide Declared, First, Hit, Insert;
    var at, ins := RootInsertAt(lines), DeclareLines(lines, net, spec);
    if at == 0 {
      assert Insert(lines, 0, ins)[0] == ins[0] == Mk(0, "networks:");
    }
  }

  lemma AttachAllStart(lines: seq<Line>, external: string, driver: Driver)
    requires StartsAtRoot(lines)
    ensures StartsAtRoot(AttachAll(lines, external, driver))
  {
    hide Declare, AttachNames, ServiceNames, DriverSpec, ExternalSpec, StartsAtRoot;
    var l1 := Declare(lines, INTERNAL_NETWORK, DriverSpec(driver));
    DeclareStart(lines, INTERNAL_NETWORK, DriverSpec(driver));
    var l2 := Declare(l1, external, ExternalSpec(external));
    DeclareStart(l1, external, ExternalSpec(external));
    AttachNamesStart(l2, ServiceNames(l2), INTERNAL_NETWORK);
    var l3 := AttachNet(l2, INTERNAL_NETWORK);
    AttachNamesStart(l3, ServiceNames(l3), external);
  }

  // Every line but the last was ended by a line break that carried all its carriage returns.
  predicate NoStrayCR(text: string) {
    forall k :: 0 <= k < |SplitLines(text)| - 1 ==> DropCR(SplitLines(text)[k]) == SplitLines(text)[k]
  }

  lemma SplitStarts(text: string)
    requires text != "" && !IsSpace(text[0])
    ensures var s := SplitLines(text)[0]; s != "" && s[0] == text[0]
  {
    assert IsSpace('\n') && IsSpace('\r');
    var k := IndexOf(text, '\n');
  }

  lemma {:induction false} SplitEnds(text: string)
    requires text != "" && text[|text| - 1] != '\n'
    ensures var ss := SplitLines(text); ss[|ss| - 1] != "" && ss[|ss| - 1][|ss[|ss| - 1]| - 1] == text[|text| - 1]
    decreases |text|
  {
    hide DropCR, IndexOf;
    var k := IndexOf(text, '\n');
    if k < |text| {
      SplitEnds(text[k + 1..]);
    }
  }

  lemma LinesStart(text: string)
    requires text != "" && !IsSpace(text[0])
    ensures StartsAtRoot(LinesOf(text))
  {
    hide SplitLines;
    SplitStarts(text);
    var s := SplitLines(text)[0];
    assert TrimStart(s) == s;
  }

  lemma LastHasNoCR(s: string)
    requires s != "" && !IsSpace(s[|s| - 1])
    ensures DropCR(s) == s && s[|s| - 1] != '\n'
  {
    assert IsSpace('\r') && IsSpace('\n');
  }

  // ----- the attach pipeline on texts ----------------------------------------

  // The services header of the trimmed text is at column 0 and stays the first one.
  predicate RootedText(text: string, external: string) {
    var lines := LinesOf(Trim(text));
    Rooted(lines) && NotShadowing(lines, external)
  }

  lemma TrimTrims(text: string)
    ensures Trimmed(Trim(text)) && Trim(Trim(text)) == Trim(text)
  {
    var a := TrimStart(text);
    var q := TrimEnd(a);
    if q != "" {
      assert q[0] == a[0];
      TrimNewline(q);
    }
  }

  lemma ProperLeads(lines: seq<Line>)
    requires forall k :: 0 <= k < |lines| ==> Proper(lines[k])
    ensures forall k :: 0 <= k < |lines| ==> AllSpace(lines[k].lead)
  {
  }

  lemma SettledHasServices(lines: seq<Line>, external: string)
    requires Settled(lines, external)
    ensures ServicesAt(lines) < |lines| && HasText(lines)
  {
    hide Declared, Attached, ServiceNames;
  }

  lemma StripEndTwice(lines: seq<Line>)
    requires lines != [] && lines[|lines| - 1].body != "" && lines[|lines| - 1].trail == ""
    ensures StripEnd(lines) == lines
  {
  }
}
