// Which lines the attach pipeline writes for the two root networks, and where they end up.
module ComposeOptions {
  import opened LineScan
  import opened ComposeNetworks
  import opened ComposeAttach

  function InternalLine(): Line {
    Line("  ", "weehawk-internal:", "")
  }

  function OptionLine(driver: Driver): Line {
    Line("    ", match driver case Overlay => "driver: overlay" case Bridge => "driver: bridge", "")
  }

  function ExternalLines(net: string): seq<Line> {
    [Line("  ", net + ":", ""), Line("    ", "external: true", ""), Line("    ", "name: " + net, "")]
  }

  predicate HasAt(lines: seq<Line>, k: nat, block: seq<Line>) {
    k + |block| <= |lines| && lines[k..k + |block|] == block
  }

  // A bare key at or below the place where root networks go: a root key that closes the section, or an
  // indented one.
  ghost predicate KeyBehind(lines: seq<Line>, from: nat) {
    exists j: nat :: from <= j < |lines| && (Hit(RootKey, lines[j]) || Hit(AnyDecl, lines[j]))
  }

  // The scan meets a declaration of `net` in the section it will find once there is one.
  predicate Known(lines: seq<Line>, net: string) {
    var from := if NetworksAt(lines) < |lines| then NetworksAt(lines) + 1 else RootInsertAt(lines);
    First(lines, from, Decl(net)) < First(lines, from, RootKey)
  }

  // ----- the literal lines ---------------------------------------------------

  lemma Literals(external: string, driver: Driver)
    ensures NetworkBlock(INTERNAL_NETWORK, DriverSpec(driver)) == [InternalLine(), OptionLine(driver)]
    ensures NetworkBlock(external, ExternalSpec(external)) == ExternalLines(external)
  {
    assert Spaces(2) == "  " && Spaces(4) == "    ";
    assert INTERNAL_NETWORK + ":" == "weehawk-internal:";
  }

  lemma InternalProbes(driver: Driver, external: string)
    ensures var d, o := InternalLine(), OptionLine(driver);
            && Hit(Decl("weehawk-internal"), d) && Hit(AnyDecl, d) && !Hit(RootKey, d) && !Hit(RootNetworks, d) && !Hit(Services, d)
            && !Hit(AnyDecl, o) && !Hit(RootKey, o) && !Hit(Decl(external), o) && !Hit(RootNetworks, o)
            && (external != "weehawk-internal" ==> !Hit(Decl(external), d))
  {
    var d, o := InternalLine(), OptionLine(driver);
    assert d.body[0] == 'w' && "services:"[0] == 's';
    assert KeyName(d.body) == "weehawk-internal";
    assert o.body[|o.body| - 1] == 'y' || o.body[|o.body| - 1] == 'e';
    EndsElsewhere(o.body, external);
    KeyOf(external, "weehawk-internal");
  }

  lemma EndsElsewhere(body: string, net: string)
    requires body != "" && body[|body| - 1] != ':'
    ensures body != net + ":"
  {
  }

  lemma KeyOf(a: string, b: string)
    ensures a + ":" == b + ":" ==> a == b
  {
    assert (a + ":")[..|a|] == a && (b + ":")[..|b|] == b;
  }

  lemma BlankProbes()
    ensures var l := Line("", "", ""); !Hit(RootKey, l) && !Hit(AnyDecl, l) && forall net: string :: !Hit(Decl(net), l)
  {
  }

  lemma HeaderProbes()
    ensures var l := Mk(0, "networks:"); Hit(RootNetworks, l) && forall net: string :: !Hit(Decl(net), l)
  {
  }

  // ----- where the second declaration goes -----------------------------------

  lemma {:induction false} LastDeclNone(lines: seq<Line>, i: nat, e: nat, last: nat)
    requires last <= i <= e <= |lines|
    requires forall k :: i <= k < e ==> !Hit(AnyDecl, lines[k])
    ensures LastDeclEnd(lines, i, e, last) == last
    decreases e - i
  {
    hide Hit;
    if i < e {
      LastDeclNone(lines, i + 1, e, last);
    }
  }

  lemma {:induction false} LastDeclAfter(lines: seq<Line>, i: nat, e: nat, last: nat, k: nat)
    requires last <= i <= k < e <= |lines| && Hit(AnyDecl, lines[k])
    ensures LastDeclEnd(lines, i, e, last) >= k + 1
    ensures LastDeclEnd(lines, i, e, last) == k + 1 <==> forall j :: k < j < e ==> !Hit(AnyDecl, lines[j])
    decreases e - i
  {
    hide Hit;
    if i < k {
      LastDeclAfter(lines, i + 1, e, if Hit(AnyDecl, lines[i]) then i + 1 else last, k);
    } else if forall j :: k < j < e ==> !Hit(AnyDecl, lines[j]) {
      LastDeclNone(lines, k + 1, e, k + 1);
    } else {
      var j :| k < j < e && Hit(AnyDecl, lines[j]);
      LastDeclAfter(lines, k + 1, e, k + 1, j);
    }
  }

  lemma {:induction false} NoDeclBehind(lines: seq<Line>, i: nat, e: nat, last: nat)
    requires last <= i <= e <= |lines|
    ensures forall j :: LastDeclEnd(lines, i, e, last) <= j < e && i <= j ==> !Hit(AnyDecl, lines[j])
    decreases e - i
  {
    hide Hit;
    if i < e {
      NoDeclBehind(lines, i + 1, e, if Hit(AnyDecl, lines[i]) then i + 1 else last);
    }
  }

  // Below a declared network without a key behind it, the next declaration goes between its header and
  // its options.
  lemma SecondGoes(lines: seq<Line>, k: nat)
    requires NetworksAt(lines) < k && k + 1 < |lines| && Hit(AnyDecl, lines[k]) && !Hit(RootKey, lines[k + 1])
    requires forall j :: NetworksAt(lines) < j <= k ==> !Hit(RootKey, lines[j])
    ensures RootInsertAt(lines) > k
    ensures RootInsertAt(lines) == k + 1 <==> !KeyBehind(lines, k + 1)
  {
    hide Hit, First, LastDeclEnd;
    var h, stop := NetworksAt(lines), NetworksStop(lines);
    if stop < |lines| {
      assert KeyBehind(lines, k + 1);
    } else {
      LastDeclAfter(lines, h + 1, stop, h + 1, k);
    }
  }

  // ----- the file after the first declaration --------------------------------

  // `at` is where the header of the internal network stands.
  ghost predicate Written(lines: seq<Line>, at: nat, driver: Driver) {
    && NetworksAt(lines) < at && HasAt(lines, at, [InternalLine(), OptionLine(driver)])
    && First(lines, NetworksAt(lines) + 1, Decl("weehawk-internal")) == at
    && forall j :: NetworksAt(lines) < j < at ==> !Hit(RootKey, lines[j])
  }

  lemma UnderHeader(lines: seq<Line>, driver: Driver)
    requires NetworksAt(lines) < |lines| && !Declared(lines, INTERNAL_NETWORK)
    ensures Written(Insert(lines, RootInsertAt(lines), [InternalLine(), OptionLine(driver)]), RootInsertAt(lines), driver)
  {
    var h, at, ins := NetworksAt(lines), RootInsertAt(lines), [InternalLine(), OptionLine(driver)];
    InternalProbes(driver, "");
    hide Hit, Insert, First, LastDeclEnd, InternalLine, OptionLine, RootInsertAt;
    var l1 := Insert(lines, at, ins);
    assert l1[at] == ins[0] && l1[at + 1] == ins[1];
    assert l1[at..at + 2] == ins;
    FirstInsertBelow(lines, 0, RootNetworks, at, ins);
    FirstIs(l1, h + 1, Decl("weehawk-internal"), at);
  }

  lemma UnderHeaderKnows(lines: seq<Line>, driver: Driver, external: string)
    requires NetworksAt(lines) < |lines| && external != "weehawk-internal"
    ensures var l1, at := Insert(lines, RootInsertAt(lines), [InternalLine(), OptionLine(driver)]), RootInsertAt(lines);
            && (Declared(l1, external) <==> Known(lines, external)) && (KeyBehind(l1, at + 1) <==> KeyBehind(lines, at))
  {
    var h, at, ins := NetworksAt(lines), RootInsertAt(lines), [InternalLine(), OptionLine(driver)];
    InternalProbes(driver, external);
    hide Hit, Insert, First, LastDeclEnd, InternalLine, OptionLine, RootInsertAt, KeyBehind;
    var l1 := Insert(lines, at, ins);
    FirstInsertBelow(lines, 0, RootNetworks, at, ins);
    FirstInsertQuiet(lines, h + 1, RootKey, at, ins);
    FirstInsertQuiet(lines, h + 1, Decl(external), at, ins);
    KeysShift(lines, at, ins, at + 1, l1);
  }

  // The same where there was no networks section.
  lemma NewSection(lines: seq<Line>, driver: Driver)
    requires NetworksAt(lines) == |lines|
    ensures Written(Insert(lines, RootInsertAt(lines), [Mk(0, "networks:"), InternalLine(), OptionLine(driver), Line("", "", "")]), RootInsertAt(lines) + 1, driver)
  {
    var at, ins := RootInsertAt(lines), [Mk(0, "networks:"), InternalLine(), OptionLine(driver), Line("", "", "")];
    InternalProbes(driver, "");
    HeaderProbes();
    hide Hit, Insert, First, LastDeclEnd, InternalLine, OptionLine, RootInsertAt, Mk;
    var l1 := Insert(lines, at, ins);
    assert l1[at] == ins[0] && l1[at + 1] == ins[1] && l1[at + 2] == ins[2];
    assert l1[at + 1..at + 3] == [ins[1], ins[2]];
    FirstIs(l1, 0, RootNetworks, at);
    FirstIs(l1, at + 1, Decl("weehawk-internal"), at + 1);
  }

  lemma NewSectionKnows(lines: seq<Line>, driver: Driver, external: string)
    requires NetworksAt(lines) == |lines| && external != "weehawk-internal"
    ensures var l1 := Insert(lines, RootInsertAt(lines), [Mk(0, "networks:"), InternalLine(), OptionLine(driver), Line("", "", "")]);
            && (Declared(l1, external) <==> Known(lines, external))
            && (KeyBehind(l1, RootInsertAt(lines) + 2) <==> KeyBehind(lines, RootInsertAt(lines)))
  {
    var at, ins := RootInsertAt(lines), [Mk(0, "networks:"), InternalLine(), OptionLine(driver), Line("", "", "")];
    InternalProbes(driver, external);
    HeaderProbes();
    BlankProbes();
    hide Hit, Insert, First, LastDeclEnd, InternalLine, OptionLine, RootInsertAt, KeyBehind, Mk;
    var l1 := Insert(lines, at, ins);
    assert l1[at] == ins[0];
    FirstIs(l1, 0, RootNetworks, at);
    FirstBehind(lines, at, ins, RootKey);
    FirstBehind(lines, at, ins, Decl(external));
    KeysShift(lines, at, ins, at + 2, l1);
  }

  // Of an insertion only its first line can be hit, and the scan starts behind it.
  lemma FirstBehind(lines: seq<Line>, at: nat, ins: seq<Line>, p: Probe)
    requires at <= |lines| && ins != [] && forall k :: 1 <= k < |ins| ==> !Hit(p, ins[k])
    ensures First(Insert(lines, at, ins), at + 1, p) == First(lines, at, p) + |ins|
  {
    hide Hit, Insert, First;
    var out, r := Insert(lines, at, ins), First(lines, at, p) + |ins|;
    forall k | at + 1 <= k < r ensures !Hit(p, out[k]) {
      assert out[k] == if k < at + |ins| then ins[k - at] else lines[k - |ins|];
    }
    FirstIs(out, at + 1, p, r);
  }

  lemma KeysShift(lines: seq<Line>, at: nat, ins: seq<Line>, from: nat, out: seq<Line>)
    requires at <= |lines| && out == Insert(lines, at, ins) && at <= from <= at + |ins|
    requires forall k :: from - at <= k < |ins| ==> !Hit(RootKey, ins[k]) && !Hit(AnyDecl, ins[k])
    ensures KeyBehind(out, from) <==> KeyBehind(lines, at)
  {
    hide Hit, Insert;
    if KeyBehind(lines, at) {
      var j: nat :| at <= j < |lines| && (Hit(RootKey, lines[j]) || Hit(AnyDecl, lines[j]));
      assert out[j + |ins|] == lines[j];
    }
    forall k | from <= k < at + |ins| ensures !Hit(RootKey, out[k]) && !Hit(AnyDecl, out[k]) {
      assert out[k] == ins[k - at];
    }
    if KeyBehind(out, from) {
      var j: nat :| from <= j < |out| && (Hit(RootKey, out[j]) || Hit(AnyDecl, out[j]));
      assert out[j] == lines[j - |ins|];
    }
  }

  // ----- what stays together -------------------------------------------------

  // Not between the services header and the end of its section.
  predicate Outside(lines: seq<Line>, k: nat, n: nat) {
    k + n <= ServicesAt(lines) || (ServicesAt(lines) < |lines| && SectionEnd(lines, ServicesAt(lines)) <= k)
  }

  // The block stands outside the services section; one that begins with the internal network is the
  // declaration the scan finds.
  ghost predicate Stands(lines: seq<Line>, k: nat, block: seq<Line>) {
    && block != [] && HasAt(lines, k, block) && Outside(lines, k, |block|)
    && (block[0] == InternalLine() ==> FoundAt(lines, k))
  }

  ghost predicate FoundAt(lines: seq<Line>, k: nat) {
    NetworksAt(lines) < k < |lines| && First(lines, NetworksAt(lines) + 1, Decl("weehawk-internal")) == k
  }

  lemma HasShifted(lines: seq<Line>, at: nat, ins: seq<Line>, k: nat, block: seq<Line>)
    requires at <= |lines| && HasAt(lines, k, block) && (k + |block| <= at || at <= k)
    ensures HasAt(Insert(lines, at, ins), if at <= k then k + |ins| else k, block)
  {
    hide Insert;
    var out, j := Insert(lines, at, ins), if at <= k then k + |ins| else k;
    forall m | 0 <= m < |block| ensures out[j + m] == block[m] {
      assert lines[k..k + |block|][m] == lines[k + m];
    }
    assert out[j..j + |block|] == block;
  }

  lemma HasInserted(lines: seq<Line>, at: nat, ins: seq<Line>)
    requires at <= |lines|
    ensures HasAt(Insert(lines, at, ins), at, ins)
  {
    hide Insert;
    assert Insert(lines, at, ins)[at..at + |ins|] == ins;
  }

  // An insertion that neither adds nor hides a declaration moves the one that is found along.
  lemma FoundShifted(lines: seq<Line>, at: nat, ins: seq<Line>, k: nat)
    requires at <= |lines| && FoundAt(lines, k) && NoHit(ins, RootNetworks) && NoHit(ins, Decl("weehawk-internal"))
    ensures FoundAt(Insert(lines, at, ins), if at <= k then k + |ins| else k)
  {
    hide Hit, Insert, First;
    var h := NetworksAt(lines);
    FirstInsertQuiet(lines, 0, RootNetworks, at, ins);
    if at <= h {
      FirstInsertAbove(lines, h + 1, Decl("weehawk-internal"), at, ins);
    } else {
      FirstInsertQuiet(lines, h + 1, Decl("weehawk-internal"), at, ins);
    }
  }

  lemma AttachOneCarries(lines: seq<Line>, name: string, net: string, k: nat, block: seq<Line>) returns (j: nat)
    requires Rooted(lines) && name in ServiceNames(lines) && Stands(lines, k, block)
    ensures Stands(AttachOne(lines, name, net), j, block)
  {
    hide Hit, Insert, First, ServiceNames, Attached, AttachOne, AttachPoint, AttachLines, HasAt, FoundAt, InternalLine, Mk, NetItem, Quiet;
    if Attached(lines, name, net) {
      AttachedAlready(lines, name, net);
      return k;
    }
    AttachOneInserts(lines, name, net);
    var at, ins := AttachPoint(lines, name), AttachLines(lines, name, net);
    InsideShifts(lines, at, ins);
    HasShifted(lines, at, ins, k, block);
    assert NoHit(ins, RootNetworks) by { hide *; QuietHeaders(ins); }
    assert NoHit(ins, Decl("weehawk-internal")) by { hide *; ItemsDeclareNothing(ins, net); }
    if block[0] == InternalLine() {
      FoundShifted(lines, at, ins, k);
    }
    return if at <= k then k + |ins| else k;
  }

  lemma QuietHeaders(ins: seq<Line>)
    requires Quiet(ins)
    ensures NoHit(ins, RootNetworks)
  {
  }

  lemma ItemsDeclareNothing(ins: seq<Line>, net: string)
    requires ins == [NetItem(4, net)] || ins == [Mk(4, "networks:"), NetItem(4, net)]
    ensures NoHit(ins, Decl("weehawk-internal"))
  {
    assert NetItem(4, net).body[0] == '-' && Mk(4, "networks:").body[0] == 'n' && "weehawk-internal"[0] == 'w';
  }

  lemma {:induction false} AttachNamesCarries(lines: seq<Line>, names: seq<string>, net: string, k: nat, block: seq<Line>) returns (j: nat)
    requires Rooted(lines) && (forall name :: name in names ==> name in ServiceNames(lines)) && Stands(lines, k, block)
    ensures Stands(AttachNames(lines, names, net), j, block)
    decreases |names|
  {
    hide Stands, ServiceNames, Rooted, AttachOne, Attached, Declared, Subseq;
    if names == [] {
      return k;
    }
    var next := AttachOne(lines, names[0], net);
    AttachOneKeeps(lines, names[0], net);
    j := AttachOneCarries(lines, names[0], net, k, block);
    j := AttachNamesCarries(next, names[1..], net, j, block);
  }

  lemma AttachNetsCarry(lines: seq<Line>, external: string, k: nat, block: seq<Line>) returns (j: nat)
    requires Rooted(lines) && Stands(lines, k, block)
    ensures Stands(AttachNet(AttachNet(lines, INTERNAL_NETWORK), external), j, block)
  {
    hide Stands, ServiceNames, Rooted, AttachNames, Attached, Declared, Subseq;
    var l3 := AttachNet(lines, INTERNAL_NETWORK);
    AttachNetAttaches(lines, INTERNAL_NETWORK);
    j := AttachNamesCarries(lines, ServiceNames(lines), INTERNAL_NETWORK, k, block);
    j := AttachNamesCarries(l3, ServiceNames(l3), external, j, block);
  }

  // ----- the two declarations ------------------------------------------------

  lemma FirstDeclaration(lines: seq<Line>, external: string, driver: Driver) returns (k: nat)
    requires Rooted(lines) && !Declared(lines, INTERNAL_NETWORK) && external != "weehawk-internal"
    ensures var l1 := Declare(lines, INTERNAL_NETWORK, DriverSpec(driver));
            && Written(l1, k, driver) && Stands(l1, k, [InternalLine(), OptionLine(driver)])
            && (Declared(l1, external) <==> Known(lines, external))
            && (KeyBehind(l1, k + 1) <==> KeyBehind(lines, RootInsertAt(lines)))
  {
    hide Hit, Insert, First, LastDeclEnd, RootInsertAt, InternalLine, OptionLine, DriverSpec, KeyBehind, Known, Declared, Mk, Written, Outside, HasAt;
    var at, block := RootInsertAt(lines), [InternalLine(), OptionLine(driver)];
    var ins := DeclareLines(lines, INTERNAL_NETWORK, DriverSpec(driver));
    Literals(external, driver);
    if NetworksAt(lines) < |lines| {
      UnderHeader(lines, driver);
      UnderHeaderKnows(lines, driver, external);
      k := at;
    } else {
      assert ins == [Mk(0, "networks:"), InternalLine(), OptionLine(driver), Line("", "", "")];
      NewSection(lines, driver);
      NewSectionKnows(lines, driver, external);
      k := at + 1;
    }
    SpecsAreSpecs(external, driver);
    InsertedOutside(lines, INTERNAL_NETWORK, DriverSpec(driver), driver, k);
    WrittenStands(Declare(lines, INTERNAL_NETWORK, DriverSpec(driver)), k, driver);
  }

  lemma WrittenStands(lines: seq<Line>, k: nat, driver: Driver)
    requires Written(lines, k, driver) && Outside(lines, k, 2)
    ensures Stands(lines, k, [InternalLine(), OptionLine(driver)])
  {
    hide First, Outside, InternalLine, OptionLine;
  }

  // What is inserted for a root network stands outside the services section.
  lemma InsertedOutside(lines: seq<Line>, net: string, spec: seq<Line>, driver: Driver, k: nat)
    requires Rooted(lines) && !Declared(lines, net) && IsSpec(spec) && NotShadowing(lines, net)
    requires RootInsertAt(lines) <= k <= RootInsertAt(lines) + |DeclareLines(lines, net, spec)|
    ensures forall n: nat :: k + n <= RootInsertAt(lines) + |DeclareLines(lines, net, spec)| ==> Outside(Declare(lines, net, spec), k, n)
  {
    hide Hit, Insert, First, IsSpec, LastDeclEnd, RootInsertAt, Declared;
    var at, ins := RootInsertAt(lines), DeclareLines(lines, net, spec);
    RootInsertSide(lines);
    if at <= ServicesAt(lines) {
      DeclareLinesNotServices(lines, net, spec);
      AboveShifts(lines, at, ins);
    } else {
      HeaderLines();
      assert Below(lines, at, ins);
      BelowStays(lines, at, ins);
    }
  }

  // A block outside the services section that the insertion does not split stays outside.
  lemma OutsideShifted(lines: seq<Line>, net: string, spec: seq<Line>, k: nat, n: nat)
    requires Rooted(lines) && !Declared(lines, net) && IsSpec(spec) && NotShadowing(lines, net) && Outside(lines, k, n)
    requires k + n <= RootInsertAt(lines) || RootInsertAt(lines) <= k
    ensures Outside(Declare(lines, net, spec), if RootInsertAt(lines) <= k then k + |DeclareLines(lines, net, spec)| else k, n)
  {
    hide Hit, Insert, First, IsSpec, LastDeclEnd, RootInsertAt, Declared;
    var at, ins := RootInsertAt(lines), DeclareLines(lines, net, spec);
    RootInsertSide(lines);
    if at <= ServicesAt(lines) {
      DeclareLinesNotServices(lines, net, spec);
      AboveShifts(lines, at, ins);
    } else {
      HeaderLines();
      assert Below(lines, at, ins);
      BelowStays(lines, at, ins);
    }
  }

  // The external network below the internal one: behind its options, or between header and options.
  lemma SecondDeclaration(lines: seq<Line>, k: nat, external: string, driver: Driver) returns (j: nat, m: nat)
    requires Rooted(lines) && Written(lines, k, driver) && Stands(lines, k, [InternalLine(), OptionLine(driver)])
    requires !Declared(lines, external) && NotShadowing(lines, external) && external != "weehawk-internal"
    ensures var l2 := Declare(lines, external, ExternalSpec(external));
            && Stands(l2, m, ExternalLines(external))
            && Stands(l2, j, if KeyBehind(lines, k + 1) then [InternalLine(), OptionLine(driver)]
                             else [InternalLine()] + ExternalLines(external) + [OptionLine(driver)])
  {
    hide Hit, Insert, First, LastDeclEnd, RootInsertAt, InternalLine, OptionLine, ExternalSpec, ExternalLines, KeyBehind, Declared, Mk, Outside, HasAt, IsSpec, FoundAt;
    var at, ins := RootInsertAt(lines), ExternalLines(external);
    SpecsAreSpecs(external, driver);
    Literals(external, driver);
    InsertionGoes(lines, k, external, driver);
    assert DeclareLines(lines, external, ExternalSpec(external)) == ins;
    InsertedOutside(lines, external, ExternalSpec(external), driver, at);
    HasInserted(lines, at, ins);
    ExternalProbes(external);
    FoundShifted(lines, at, ins, k);
    m := at;
    if KeyBehind(lines, k + 1) {
      OutsideShifted(lines, external, ExternalSpec(external), k, 2);
      HasShifted(lines, at, ins, k, [InternalLine(), OptionLine(driver)]);
    } else {
      SplitOptions(lines, k, ins, [InternalLine(), OptionLine(driver)]);
      OutsideSplit(lines, external, ExternalSpec(external), k);
    }
    return k, at;
  }

  lemma InsertionGoes(lines: seq<Line>, k: nat, external: string, driver: Driver)
    requires Written(lines, k, driver)
    ensures NetworksAt(lines) < k && FoundAt(lines, k) && k + 2 <= |lines|
    ensures if KeyBehind(lines, k + 1) then k + 2 <= RootInsertAt(lines) else RootInsertAt(lines) == k + 1
  {
    InternalProbes(driver, external);
    hide Hit, First, LastDeclEnd, RootInsertAt, KeyBehind, InternalLine, OptionLine;
    assert lines[k] == lines[k..k + 2][0] && lines[k + 1] == lines[k..k + 2][1];
    SecondGoes(lines, k);
  }

  lemma ExternalProbes(external: string)
    requires external != "weehawk-internal"
    ensures var ins := ExternalLines(external);
            NoHit(ins, RootNetworks) && NoHit(ins, Decl("weehawk-internal")) && ins[0] != InternalLine()
  {
    var ins := ExternalLines(external);
    KeyOf(external, "weehawk-internal");
    assert ins[1].body[0] == 'e' && ins[2].body[0] == 'n' && "weehawk-internal"[0] == 'w';
  }

  lemma SplitOptions(lines: seq<Line>, k: nat, ins: seq<Line>, pair: seq<Line>)
    requires |pair| == 2 && HasAt(lines, k, pair)
    ensures HasAt(Insert(lines, k + 1, ins), k, [pair[0]] + ins + [pair[1]])
  {
    hide Insert;
    var out, block := Insert(lines, k + 1, ins), [pair[0]] + ins + [pair[1]];
    assert lines[k] == lines[k..k + 2][0] && lines[k + 1] == lines[k..k + 2][1];
    assert out[k..k + |block|] == block;
  }

  lemma OutsideSplit(lines: seq<Line>, net: string, spec: seq<Line>, k: nat)
    requires Rooted(lines) && !Declared(lines, net) && IsSpec(spec) && NotShadowing(lines, net) && Outside(lines, k, 2)
    requires RootInsertAt(lines) == k + 1
    ensures Outside(Declare(lines, net, spec), k, |DeclareLines(lines, net, spec)| + 2)
  {
    hide Hit, Insert, First, IsSpec, LastDeclEnd, RootInsertAt, Declared;
    var at, ins := RootInsertAt(lines), DeclareLines(lines, net, spec);
    RootInsertSide(lines);
    if at <= ServicesAt(lines) {
      DeclareLinesNotServices(lines, net, spec);
      AboveShifts(lines, at, ins);
    } else {
      HeaderLines();
      assert Below(lines, at, ins);
      BelowStays(lines, at, ins);
    }
  }

  // ----- the whole pipeline --------------------------------------------------

  lemma DriverBlock(lines: seq<Line>, external: string, driver: Driver) returns (k: nat)
    requires Rooted(lines) && NotShadowing(lines, external) && !Declared(lines, INTERNAL_NETWORK) && external != "weehawk-internal"
    ensures Stands(AttachAll(lines, external, driver), k,
                   if Known(lines, external) || KeyBehind(lines, RootInsertAt(lines)) then [InternalLine(), OptionLine(driver)]
                   else [InternalLine()] + ExternalLines(external) + [OptionLine(driver)])
  {
    hide Hit, Insert, First, LastDeclEnd, RootInsertAt, DriverSpec, ExternalSpec, KeyBehind, Known, Declared, Declare, Mk, Outside, Stands, Written, AttachNet, ServiceNames, NotShadowing, IsSpec, Attached, Subseq, OptionLine, ExternalLines, InternalLine;
    var l1 := Declare(lines, INTERNAL_NETWORK, DriverSpec(driver));
    var l2 := Declare(l1, external, ExternalSpec(external));
    DeclaresKeep(lines, external, driver);
    var k1 := FirstDeclaration(lines, external, driver);
    if Declared(l1, external) {
      assert l2 == l1 by { hide *; DeclaredAlready(l1, external, ExternalSpec(external)); }
      k := AttachNetsCarry(l2, external, k1, [InternalLine(), OptionLine(driver)]);
    } else {
      var j, m := SecondDeclaration(l1, k1, external, driver);
      k := AttachNetsCarry(l2, external, j, if KeyBehind(l1, k1 + 1) then [InternalLine(), OptionLine(driver)]
                                            else [InternalLine()] + ExternalLines(external) + [OptionLine(driver)]);
    }
  }

  // The declaration of the internal network that the scan finds has its option right below it, or else
  // the lines of the external network first and the option behind those.
  ghost predicate OptionBelow(out: seq<Line>, external: string, option: Line, below: bool) {
    && NetworksAt(out) < |out|
    && var k := First(out, NetworksAt(out) + 1, Decl("weehawk-internal"));
       && k + 1 < |out| && out[k] == InternalLine() && (out[k + 1] == option <==> below)
       && (!below ==> HasAt(out, k + 1, ExternalLines(external) + [option]))
  }

  // The internal network gets the asked-for driver, right below its header, exactly when the external
  // network needs no declaration or some key stands behind the place where root networks go. Otherwise
  // the external network is declared between the two, and the driver ends among its options.
  lemma DriverExact(lines: seq<Line>, external: string, driver: Driver)
    requires Rooted(lines) && NotShadowing(lines, external) && !Declared(lines, INTERNAL_NETWORK) && external != "weehawk-internal"
    ensures OptionBelow(AttachAll(lines, external, driver), external, OptionLine(driver),
                        Known(lines, external) || KeyBehind(lines, RootInsertAt(lines)))
  {
    hide Hit, First, Rooted, RootInsertAt, KeyBehind, Known, Declared, Stands, NotShadowing, AttachAll, OptionLine, InternalLine, ExternalLines, OptionBelow;
    var out, option := AttachAll(lines, external, driver), OptionLine(driver);
    var k := DriverBlock(lines, external, driver);
    if Known(lines, external) || KeyBehind(lines, RootInsertAt(lines)) {
      PairBelow(out, k, external, option);
    } else {
      ExternalFirst(external, driver);
      SplitBelow(out, k, external, option);
    }
  }

  lemma PairBelow(out: seq<Line>, k: nat, external: string, option: Line)
    requires Stands(out, k, [InternalLine(), option])
    ensures OptionBelow(out, external, option, true)
  {
    hide Stands, InternalLine, HasAt, ExternalLines;
    PairRead(out, k, option);
  }

  lemma SplitBelow(out: seq<Line>, k: nat, external: string, option: Line)
    requires Stands(out, k, [InternalLine()] + ExternalLines(external) + [option])
    requires |ExternalLines(external)| == 3 && ExternalLines(external)[0] != option
    ensures OptionBelow(out, external, option, false)
  {
    hide Stands, InternalLine, HasAt, ExternalLines;
    SplitRead(out, k, ExternalLines(external), option);
  }

  lemma ExternalFirst(external: string, driver: Driver)
    ensures |ExternalLines(external)| == 3 && ExternalLines(external)[0] != OptionLine(driver)
  {
    assert |ExternalLines(external)[0].lead| == 2 && |OptionLine(driver).lead| == 4;
  }

  lemma DeclaredAlready(lines: seq<Line>, net: string, spec: seq<Line>)
    requires Declared(lines, net)
    ensures Declare(lines, net, spec) == lines
  {
  }

  lemma DeclaresKeep(lines: seq<Line>, external: string, driver: Driver)
    requires Rooted(lines) && NotShadowing(lines, external)
    ensures var l1 := Declare(lines, INTERNAL_NETWORK, DriverSpec(driver));
            Rooted(l1) && NotShadowing(l1, external) && Rooted(Declare(l1, external, ExternalSpec(external)))
  {
    hide Hit, Insert, First, IsSpec, LastDeclEnd, Attached, ServiceNames, Subseq, Declared, Declare, Rooted, RootInsertAt, DriverSpec, ExternalSpec;
    SpecsAreSpecs(external, driver);
    DeclareKeeps(lines, INTERNAL_NETWORK, DriverSpec(driver));
    RootSideStays(lines, INTERNAL_NETWORK, DriverSpec(driver));
    DeclareKeeps(Declare(lines, INTERNAL_NETWORK, DriverSpec(driver)), external, ExternalSpec(external));
  }

  lemma PairRead(out: seq<Line>, k: nat, option: Line)
    requires Stands(out, k, [InternalLine(), option])
    ensures FoundAt(out, k) && k + 1 < |out| && out[k] == InternalLine() && out[k + 1] == option
  {
    hide First, Outside, InternalLine;
    var block := [InternalLine(), option];
    assert out[k..k + 2][0] == out[k] && out[k..k + 2][1] == out[k + 1];
  }

  lemma SplitRead(out: seq<Line>, k: nat, external: seq<Line>, option: Line)
    requires Stands(out, k, [InternalLine()] + external + [option]) && |external| == 3
    ensures FoundAt(out, k) && k + 1 < |out| && out[k] == InternalLine() && out[k + 1] == external[0]
    ensures HasAt(out, k + 1, external + [option])
  {
    hide First, Outside, InternalLine;
    var block := [InternalLine()] + external + [option];
    assert block[0] == InternalLine() && block[1..] == external + [option];
    assert out[k..k + 5][0] == out[k] && out[k..k + 5][1..] == out[k + 1..k + 5];
    assert out[k + 1] == out[k + 1..k + 5][0];
  }

  // The external network is declared as external under its own name.
  lemma ExternalDeclared(lines: seq<Line>, external: string, driver: Driver)
    requires Rooted(lines) && NotShadowing(lines, external) && !Declared(lines, "weehawk-internal") && external != "weehawk-internal"
    requires !Known(lines, external)
    ensures var out := AttachAll(lines, external, driver);
            exists m: nat :: HasAt(out, m, [Line("  ", external + ":", ""), Line("    ", "external: true", ""), Line("    ", "name: " + external, "")])
  {
    hide Hit, Insert, First, LastDeclEnd, RootInsertAt, DriverSpec, ExternalSpec, KeyBehind, Known, Declared, Declare, Mk, Outside, Stands, Written, AttachNet, ServiceNames, NotShadowing, IsSpec, Attached, Subseq, OptionLine, HasAt;
    var l1 := Declare(lines, INTERNAL_NETWORK, DriverSpec(driver));
    DeclaresKeep(lines, external, driver);
    var k := FirstDeclaration(lines, external, driver);
    var m;
    k, m := SecondDeclaration(l1, k, external, driver);
    m := AttachNetsCarry(Declare(l1, external, ExternalSpec(external)), external, m, ExternalLines(external));
    StandsHas(AttachAll(lines, external, driver), m, ExternalLines(external));
  }

  lemma StandsHas(lines: seq<Line>, k: nat, block: seq<Line>)
    requires Stands(lines, k, block)
    ensures HasAt(lines, k, block)
  {
  }
}
