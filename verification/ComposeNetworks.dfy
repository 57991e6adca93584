// Attaching every service of a compose file to two networks: what the rewriter computes,
// as functions on lines, and what its results satisfy.
module ComposeNetworks {
  import opened LineScan

  const INTERNAL_NETWORK := "weehawk-internal"

  // ----- scanners ------------------------------------------------------------

  function ServicesAt(lines: seq<Line>): (r: nat)
    ensures r <= |lines|
  {
    First(lines, 0, Services)
  }

  // Index just past the services section whose header is at s.
  function SectionEnd(lines: seq<Line>, s: nat): nat
    requires s < |lines|
  {
    First(lines, s + 1, RegionEnd(|lines[s].lead|))
  }

  // Service names on lines i..e, in order.
  function NamesIn(lines: seq<Line>, i: nat, e: nat, d: nat): seq<string>
    requires i <= e <= |lines|
    decreases e - i
  {
    if i == e then []
    else (if Hit(ServiceLine(d), lines[i]) then [KeyName(lines[i].body)] else []) + NamesIn(lines, i + 1, e, d)
  }

  function ServiceNames(lines: seq<Line>): seq<string> {
    var s := ServicesAt(lines);
    if s == |lines| then [] else NamesIn(lines, s + 1, SectionEnd(lines, s), |lines[s].lead|)
  }

  // Header of the block of service `name`; |lines| when there is none.
  function BlockStart(lines: seq<Line>, name: string): (r: nat)
    ensures r <= |lines|
  {
    var s := ServicesAt(lines);
    if s == |lines| then s else First(lines, s + 1, NameLine(|lines[s].lead|, name))
  }

  function BlockStop(lines: seq<Line>, name: string): (r: nat)
    requires BlockStart(lines, name) < |lines|
    ensures BlockStart(lines, name) < r <= |lines|
  {
    First(lines, BlockStart(lines, name) + 1, BlockEnd(|lines[ServicesAt(lines)].lead|))
  }

  // First `networks:` line of the block, or somewhere at or after its end.
  function BlockNetworks(lines: seq<Line>, name: string): nat
    requires BlockStart(lines, name) < |lines|
  {
    First(lines, BlockStart(lines, name) + 1, NetworksKey)
  }

  // The block of `name` has a `networks:` line and, below it, an item for `net`.
  predicate Attached(lines: seq<Line>, name: string, net: string) {
    var b := BlockStart(lines, name);
    b < |lines|
    && var n := BlockNetworks(lines, name);
       n < BlockStop(lines, name) && First(lines, n + 1, Item(net)) < BlockStop(lines, name)
  }

  // ----- root networks section -----------------------------------------------

  function NetworksAt(lines: seq<Line>): nat {
    First(lines, 0, RootNetworks)
  }

  function NetworksStop(lines: seq<Line>): nat
    requires NetworksAt(lines) < |lines|
  {
    First(lines, NetworksAt(lines) + 1, RootKey)
  }

  predicate Declared(lines: seq<Line>, net: string) {
    NetworksAt(lines) < |lines| && First(lines, NetworksAt(lines) + 1, Decl(net)) < NetworksStop(lines)
  }

  // One past the last declaration on lines i..e, or `last` when there is none.
  function LastDeclEnd(lines: seq<Line>, i: nat, e: nat, last: nat): (r: nat)
    requires last <= i <= e <= |lines|
    ensures last <= r <= e
    decreases e - i
  {
    if i == e then last else LastDeclEnd(lines, i + 1, e, if Hit(AnyDecl, lines[i]) then i + 1 else last)
  }

  // Where a root network goes.
  function RootInsertAt(lines: seq<Line>): (r: nat)
    ensures r <= |lines|
    ensures NetworksAt(lines) < |lines| ==> NetworksAt(lines) < r <= NetworksStop(lines)
  {
    var h := NetworksAt(lines);
    if h == |lines| then First(lines, 0, RootVolumes)
    else
      var stop := NetworksStop(lines);
      if stop < |lines| then stop else LastDeclEnd(lines, h + 1, stop, h + 1)
  }

  function NetworkBlock(net: string, spec: seq<Line>): seq<Line> {
    [Mk(2, net + ":")] + spec
  }

  // The lines Declare inserts.
  function DeclareLines(lines: seq<Line>, net: string, spec: seq<Line>): seq<Line> {
    if NetworksAt(lines) < |lines| then NetworkBlock(net, spec)
    else [Mk(0, "networks:")] + NetworkBlock(net, spec) + [Line("", "", "")]
  }

  function Declare(lines: seq<Line>, net: string, spec: seq<Line>): seq<Line> {
    if Declared(lines, net) then lines
    else Insert(lines, RootInsertAt(lines), DeclareLines(lines, net, spec))
  }

  // ----- attaching -----------------------------------------------------------

  function NetItem(childIndent: nat, net: string): Line {
    Mk(childIndent + 2, "- " + net)
  }

  // Where the item goes: right below the `networks:` line of the block, or at its end.
  function AttachPoint(lines: seq<Line>, name: string): (r: nat)
    requires BlockStart(lines, name) < |lines|
    ensures r <= |lines|
  {
    if BlockNetworks(lines, name) < BlockStop(lines, name) then BlockNetworks(lines, name) + 1 else BlockStop(lines, name)
  }

  function AttachLines(lines: seq<Line>, name: string, net: string): seq<Line>
    requires BlockStart(lines, name) < |lines|
  {
    var child := |lines[BlockStart(lines, name)].lead| + 2;
    if BlockNetworks(lines, name) < BlockStop(lines, name) then [NetItem(child, net)]
    else [Mk(child, "networks:"), NetItem(child, net)]
  }

  function AttachOne(lines: seq<Line>, name: string, net: string): seq<Line> {
    if BlockStart(lines, name) == |lines| || Attached(lines, name, net) then lines
    else Insert(lines, AttachPoint(lines, name), AttachLines(lines, name, net))
  }

  function AttachNames(lines: seq<Line>, names: seq<string>, net: string): seq<Line>
    decreases |names|
  {
    if names == [] then lines else AttachNames(AttachOne(lines, names[0], net), names[1..], net)
  }

  function AttachNet(lines: seq<Line>, net: string): seq<Line> {
    AttachNames(lines, ServiceNames(lines), net)
  }

  datatype Driver = Overlay | Bridge

  function DriverSpec(driver: Driver): seq<Line> {
    [Mk(4, if driver == Overlay then "driver: overlay" else "driver: bridge")]
  }

  function ExternalSpec(net: string): seq<Line> {
    [Mk(4, "external: true"), Mk(4, "name: " + net)]
  }

  // The whole pipeline, on the lines of a file that has a services section.
  function AttachAll(lines: seq<Line>, external: string, driver: Driver): seq<Line> {
    var l1 := Declare(lines, INTERNAL_NETWORK, DriverSpec(driver));
    var l2 := Declare(l1, external, ExternalSpec(external));
    AttachNet(AttachNet(l2, INTERNAL_NETWORK), external)
  }

  // ----- what insertions keep ------------------------------------------------

  // A services section at column 0.
  predicate Rooted(lines: seq<Line>) {
    ServicesAt(lines) < |lines| && lines[ServicesAt(lines)].lead == ""
  }

  // Everything the pipeline must not lose.
  ghost predicate Keeps(before: seq<Line>, after: seq<Line>) {
    && Rooted(before) && Rooted(after)
    && ServiceNames(after) == ServiceNames(before)
    && (forall name, net :: name in ServiceNames(before) && Attached(before, name, net) ==> Attached(after, name, net))
    && (forall net :: Declared(before, net) ==> Declared(after, net))
    && Subseq(before, after)
  }

  lemma KeepsRefl(lines: seq<Line>)
    requires Rooted(lines)
    ensures Keeps(lines, lines)
  {
    SubseqRefl(lines);
  }

  lemma KeepsTrans(a: seq<Line>, b: seq<Line>, c: seq<Line>)
    requires Keeps(a, b) && Keeps(b, c)
    ensures Keeps(a, c)
  {
    SubseqTrans(a, b, c);
  }

  // A listed service has its block inside the services section.
  lemma {:induction false} NamesInHas(lines: seq<Line>, i: nat, e: nat, d: nat, name: string)
    requires i <= e <= |lines| && name in NamesIn(lines, i, e, d)
    ensures First(lines, i, NameLine(d, name)) < e
    ensures IsServiceName(name)
    decreases e - i
  {
    if Hit(ServiceLine(d), lines[i]) && KeyName(lines[i].body) == name {
      assert lines[i].body == name + ":";
      FirstAtMost(lines, i, NameLine(d, name), i);
    } else {
      NamesInHas(lines, i + 1, e, d, name);
      FirstAtMost(lines, i, NameLine(d, name), First(lines, i + 1, NameLine(d, name)));
    }
  }

  // The line that starts the block of a proper service name also ends the block before it.
  lemma NameLineIsSibling(l: Line, d: nat, name: string)
    requires Hit(NameLine(d, name), l) && IsServiceName(name)
    ensures |l.lead| == d + 2 && l.body == name + ":" && Hit(BlockEnd(d), l)
  {
    assert KeyName(l.body) == name;
  }

  lemma RegionEndIsBlockEnd(l: Line, d: nat)
    requires Hit(RegionEnd(d), l)
    ensures Hit(BlockEnd(d), l)
  {
  }

  lemma ListedBlock(lines: seq<Line>, name: string)
    requires name in ServiceNames(lines)
    ensures IsServiceName(name) && ServicesAt(lines) < BlockStart(lines, name) < |lines|
    ensures BlockStart(lines, name) < BlockStop(lines, name) <= SectionEnd(lines, ServicesAt(lines))
    ensures Hit(BlockEnd(|lines[ServicesAt(lines)].lead|), lines[BlockStart(lines, name)])
    ensures |lines[BlockStart(lines, name)].lead| == |lines[ServicesAt(lines)].lead| + 2
  {
    hide Hit, Insert, First;
    var s := ServicesAt(lines);
    var d := |lines[s].lead|;
    var e := SectionEnd(lines, s);
    NamesInHas(lines, s + 1, e, d, name);
    var b := BlockStart(lines, name);
    NameLineIsSibling(lines[b], d, name);
    if e < |lines| {
      RegionEndIsBlockEnd(lines[e], d);
      FirstAtMost(lines, b + 1, BlockEnd(d), e);
    }
  }

  lemma {:induction false} NamesInSame(a: seq<Line>, b: seq<Line>, i: nat, j: nat, n: nat, d: nat)
    requires i + n <= |a| && j + n <= |b|
    requires a[i..i + n] == b[j..j + n]
    ensures NamesIn(a, i, i + n, d) == NamesIn(b, j, j + n, d)
    decreases n
  {
    if n > 0 {
      assert a[i] == a[i..i + n][0] && b[j] == b[j..j + n][0];
      assert a[i + 1..i + n] == a[i..i + n][1..] && b[j + 1..j + n] == b[j..j + n][1..];
      NamesInSame(a, b, i + 1, j + 1, n - 1, d);
    }
  }

  lemma {:induction false} NamesInNone(a: seq<Line>, i: nat, e: nat, d: nat)
    requires i <= e <= |a| && forall k :: i <= k < e ==> !Hit(ServiceLine(d), a[k])
    ensures NamesIn(a, i, e, d) == []
    decreases e - i
  {
    if i < e {
      NamesInNone(a, i + 1, e, d);
    }
  }

  lemma {:induction false} NamesInSplit(a: seq<Line>, i: nat, m: nat, e: nat, d: nat)
    requires i <= m <= e <= |a|
    ensures NamesIn(a, i, e, d) == NamesIn(a, i, m, d) + NamesIn(a, m, e, d)
    decreases m - i
  {
    if i < m {
      NamesInSplit(a, i + 1, m, e, d);
    }
  }

  // --- an insertion above the services header

  lemma AboveShifts(lines: seq<Line>, at: nat, ins: seq<Line>)
    requires Rooted(lines) && at <= ServicesAt(lines) && NoHit(ins, Services)
    ensures var out := Insert(lines, at, ins);
            && Rooted(out) && ServicesAt(out) == ServicesAt(lines) + |ins|
            && SectionEnd(out, ServicesAt(out)) == SectionEnd(lines, ServicesAt(lines)) + |ins|
  {
    hide Hit, Insert, First;
    var out := Insert(lines, at, ins);
    var s := ServicesAt(lines);
    FirstInsertQuiet(lines, 0, Services, at, ins);
    assert out[s + |ins|] == lines[s];
    FirstInsertAbove(lines, s + 1, RegionEnd(0), at, ins);
  }

  lemma AboveNames(lines: seq<Line>, at: nat, ins: seq<Line>)
    requires Rooted(lines) && at <= ServicesAt(lines) && NoHit(ins, Services)
    ensures ServiceNames(Insert(lines, at, ins)) == ServiceNames(lines)
  {
    hide Hit, Insert, First, NamesIn;
    AboveShifts(lines, at, ins);
    var out := Insert(lines, at, ins);
    var s, n := ServicesAt(lines), |ins|;
    var len := SectionEnd(lines, s) - s - 1;
    assert lines[s + 1..s + 1 + len] == out[s + n + 1..s + n + 1 + len];
    NamesInSame(lines, out, s + 1, s + n + 1, len, 0);
  }

  lemma AboveBlock(lines: seq<Line>, at: nat, ins: seq<Line>, name: string)
    requires Rooted(lines) && at <= ServicesAt(lines) && NoHit(ins, Services) && BlockStart(lines, name) < |lines|
    ensures at <= BlockStart(lines, name)
    ensures BlockStart(Insert(lines, at, ins), name) == BlockStart(lines, name) + |ins|
    ensures BlockStop(Insert(lines, at, ins), name) == BlockStop(lines, name) + |ins|
  {
    hide Hit, Insert, First;
    AboveShifts(lines, at, ins);
    FirstInsertAbove(lines, ServicesAt(lines) + 1, NameLine(0, name), at, ins);
    FirstInsertAbove(lines, BlockStart(lines, name) + 1, BlockEnd(0), at, ins);
  }

  lemma AboveAttached(lines: seq<Line>, at: nat, ins: seq<Line>, name: string, net: string)
    requires Rooted(lines) && at <= ServicesAt(lines) && NoHit(ins, Services) && Attached(lines, name, net)
    ensures Attached(Insert(lines, at, ins), name, net)
  {
    hide Hit, Insert, First, Rooted, BlockStart, BlockStop, ServicesAt;
    AboveBlock(lines, at, ins, name);
    var b, k := BlockStart(lines, name), BlockNetworks(lines, name);
    FirstInsertAbove(lines, b + 1, NetworksKey, at, ins);
    FirstInsertAbove(lines, k + 1, Item(net), at, ins);
  }

  // --- an insertion below the services section

  ghost predicate Below(lines: seq<Line>, at: nat, ins: seq<Line>) {
    && Rooted(lines)
    && var e := SectionEnd(lines, ServicesAt(lines));
       e <= at <= |lines| && (at == e ==> ins != [] && Hit(RegionEnd(0), ins[0]))
  }

  lemma BelowStays(lines: seq<Line>, at: nat, ins: seq<Line>)
    requires Below(lines, at, ins)
    ensures var out := Insert(lines, at, ins);
            && Rooted(out) && ServicesAt(out) == ServicesAt(lines)
            && SectionEnd(out, ServicesAt(out)) == SectionEnd(lines, ServicesAt(lines))
  {
    hide Hit, Insert, First;
    var out := Insert(lines, at, ins);
    var s := ServicesAt(lines);
    FirstInsertBelow(lines, 0, Services, at, ins);
    FirstIs(out, s + 1, RegionEnd(0), SectionEnd(lines, s));
  }

  lemma BelowNames(lines: seq<Line>, at: nat, ins: seq<Line>)
    requires Below(lines, at, ins)
    ensures ServiceNames(Insert(lines, at, ins)) == ServiceNames(lines)
  {
    hide Hit, Insert, First, NamesIn;
    BelowStays(lines, at, ins);
    var out := Insert(lines, at, ins);
    var s := ServicesAt(lines);
    var len := SectionEnd(lines, s) - s - 1;
    assert lines[s + 1..s + 1 + len] == out[s + 1..s + 1 + len];
    NamesInSame(lines, out, s + 1, s + 1, len, 0);
  }

  lemma BelowBlock(lines: seq<Line>, at: nat, ins: seq<Line>, name: string)
    requires Below(lines, at, ins) && name in ServiceNames(lines)
    ensures at <= |lines| && BlockStart(lines, name) < |lines|
    ensures ServicesAt(lines) < BlockStart(lines, name) < BlockStop(lines, name) <= at
    ensures BlockStart(Insert(lines, at, ins), name) == BlockStart(lines, name)
    ensures BlockStop(Insert(lines, at, ins), name) == BlockStop(lines, name)
  {
    hide Hit, Insert, First, NamesIn;
    BelowStays(lines, at, ins);
    ListedBlock(lines, name);
    var out := Insert(lines, at, ins);
    var stop := BlockStop(lines, name);
    FirstInsertBelow(lines, ServicesAt(lines) + 1, NameLine(0, name), at, ins);
    if stop == at {
      assert out[at] == ins[0];
      RegionEndIsBlockEnd(ins[0], 0);
    }
    FirstIs(out, BlockStart(lines, name) + 1, BlockEnd(0), stop);
  }

  lemma BelowAttached(lines: seq<Line>, at: nat, ins: seq<Line>, name: string, net: string)
    requires Below(lines, at, ins) && name in ServiceNames(lines) && Attached(lines, name, net)
    ensures Attached(Insert(lines, at, ins), name, net)
  {
    hide Hit, Insert, First, ServiceNames, Rooted, BlockStart, BlockStop, ServicesAt, SectionEnd;
    BelowBlock(lines, at, ins, name);
    var b, k := BlockStart(lines, name), BlockNetworks(lines, name);
    FirstInsertBelow(lines, b + 1, NetworksKey, at, ins);
    FirstInsertBelow(lines, k + 1, Item(net), at, ins);
  }

  // --- an insertion inside the services section

  // Lines that no scan of the services or root networks section stops at or takes a name from.
  ghost predicate Quiet(ins: seq<Line>) {
    && NoHit(ins, Services) && NoHit(ins, RegionEnd(0)) && NoHit(ins, BlockEnd(0)) && NoHit(ins, ServiceLine(0))
    && NoHit(ins, RootNetworks) && NoHit(ins, RootKey)
  }

  ghost predicate Inside(lines: seq<Line>, at: nat, ins: seq<Line>) {
    && Rooted(lines) && Quiet(ins)
    && ServicesAt(lines) < at <= SectionEnd(lines, ServicesAt(lines))
  }

  // The insertion point does not separate the header of the block from its `networks:` line.
  predicate Apart(lines: seq<Line>, at: nat, name: string) {
    BlockStart(lines, name) < |lines|
    && (at <= BlockStart(lines, name) || BlockStop(lines, name) <= at || BlockNetworks(lines, name) < at)
  }

  lemma InsideShifts(lines: seq<Line>, at: nat, ins: seq<Line>)
    requires Inside(lines, at, ins)
    ensures var out := Insert(lines, at, ins);
            && Rooted(out) && ServicesAt(out) == ServicesAt(lines)
            && SectionEnd(out, ServicesAt(out)) == SectionEnd(lines, ServicesAt(lines)) + |ins|
  {
    hide Hit, Insert, First;
    var s := ServicesAt(lines);
    FirstInsertBelow(lines, 0, Services, at, ins);
    FirstInsertQuiet(lines, s + 1, RegionEnd(0), at, ins);
  }

  lemma InsideNames(lines: seq<Line>, at: nat, ins: seq<Line>)
    requires Inside(lines, at, ins)
    ensures ServiceNames(Insert(lines, at, ins)) == ServiceNames(lines)
  {
    hide Hit, Insert, First, NamesIn;
    InsideShifts(lines, at, ins);
    var out := Insert(lines, at, ins);
    var s, n := ServicesAt(lines), |ins|;
    var e := SectionEnd(lines, s);
    NamesInSplit(lines, s + 1, at, e, 0);
    NamesInSplit(out, s + 1, at, e + n, 0);
    NamesInSplit(out, at, at + n, e + n, 0);
    assert lines[s + 1..s + 1 + (at - s - 1)] == out[s + 1..s + 1 + (at - s - 1)];
    NamesInSame(lines, out, s + 1, s + 1, at - s - 1, 0);
    NamesInNone(out, at, at + n, 0);
    assert lines[at..at + (e - at)] == out[at + n..at + n + (e - at)];
    NamesInSame(lines, out, at, at + n, e - at, 0);
  }

  lemma QuietNames(ins: seq<Line>, name: string)
    requires Quiet(ins) && IsServiceName(name)
    ensures NoHit(ins, NameLine(0, name))
  {
    forall k | 0 <= k < |ins| ensures !Hit(NameLine(0, name), ins[k]) {
      if Hit(NameLine(0, name), ins[k]) {
        NameLineIsSibling(ins[k], 0, name);
        assert false;
      }
    }
  }

  // Where a listed block lands after a quiet insertion inside the services section.
  lemma InsideBlock(lines: seq<Line>, at: nat, ins: seq<Line>, name: string)
    requires Inside(lines, at, ins) && name in ServiceNames(lines)
    ensures ServicesAt(lines) < BlockStart(lines, name) < |lines| && at <= |lines|
    ensures var b := BlockStart(lines, name);
            BlockStart(Insert(lines, at, ins), name) == if b < at then b else b + |ins|
    ensures var stop := BlockStop(lines, name);
            BlockStop(Insert(lines, at, ins), name) == if stop < at then stop else stop + |ins|
  {
    hide Hit, Insert, First, NamesIn;
    InsideShifts(lines, at, ins);
    ListedBlock(lines, name);
    QuietNames(ins, name);
    var b := BlockStart(lines, name);
    FirstInsertQuiet(lines, ServicesAt(lines) + 1, NameLine(0, name), at, ins);
    if b < at {
      FirstInsertQuiet(lines, b + 1, BlockEnd(0), at, ins);
    } else {
      FirstInsertAbove(lines, b + 1, BlockEnd(0), at, ins);
    }
  }

  lemma InsideAttached(lines: seq<Line>, at: nat, ins: seq<Line>, name: string, net: string)
    requires Inside(lines, at, ins) && name in ServiceNames(lines)
    requires Apart(lines, at, name) && Attached(lines, name, net)
    ensures Attached(Insert(lines, at, ins), name, net)
  {
    hide Hit, Insert, First, ServiceNames, Rooted, BlockStart, BlockStop, ServicesAt, SectionEnd;
    InsideBlock(lines, at, ins, name);
    var out := Insert(lines, at, ins);
    var b, k := BlockStart(lines, name), BlockNetworks(lines, name);
    var m := First(lines, k + 1, Item(net));
    if at <= b {
      FirstInsertAbove(lines, b + 1, NetworksKey, at, ins);
      FirstInsertAbove(lines, k + 1, Item(net), at, ins);
    } else {
      FirstInsertBelow(lines, b + 1, NetworksKey, at, ins);
      var m' := if m < at then m else m + |ins|;
      assert out[m'] == lines[m];
      FirstAtMost(out, k + 1, Item(net), m');
    }
  }

  lemma QuietKeepsDeclared(lines: seq<Line>, at: nat, ins: seq<Line>, net: string)
    requires at <= |lines| && NoHit(ins, RootNetworks) && NoHit(ins, RootKey) && Declared(lines, net)
    ensures Declared(Insert(lines, at, ins), net)
  {
    hide Hit, Insert, First;
    var out := Insert(lines, at, ins);
    var h := NetworksAt(lines);
    var m := First(lines, h + 1, Decl(net));
    FirstInsertQuiet(lines, 0, RootNetworks, at, ins);
    if at <= h {
      FirstInsertAbove(lines, h + 1, RootKey, at, ins);
      FirstInsertAbove(lines, h + 1, Decl(net), at, ins);
    } else {
      FirstInsertQuiet(lines, h + 1, RootKey, at, ins);
      var m' := if m < at then m else m + |ins|;
      assert out[m'] == lines[m];
      FirstAtMost(out, h + 1, Decl(net), m');
    }
  }

  lemma InsideKeeps(lines: seq<Line>, at: nat, ins: seq<Line>)
    requires Inside(lines, at, ins)
    requires forall name :: name in ServiceNames(lines) ==> Apart(lines, at, name)
    ensures Keeps(lines, Insert(lines, at, ins))
  {
    hide Hit, Insert, First, NamesIn, Attached, Declared, Apart, ServiceNames, Subseq;
    InsideShifts(lines, at, ins);
    InsideNames(lines, at, ins);
    forall name, net | name in ServiceNames(lines) && Attached(lines, name, net)
      ensures Attached(Insert(lines, at, ins), name, net)
    {
      InsideAttached(lines, at, ins, name, net);
    }
    forall net | Declared(lines, net) ensures Declared(Insert(lines, at, ins), net) {
      QuietKeepsDeclared(lines, at, ins, net);
    }
    SubseqInsert(lines, at, ins);
  }

  // ----- attaching one service -----------------------------------------------

  lemma BlocksDisjoint(lines: seq<Line>, a: string, b: string)
    requires a in ServiceNames(lines) && b in ServiceNames(lines)
    ensures BlockStart(lines, a) < |lines| && BlockStart(lines, b) < |lines|
    ensures BlockStart(lines, a) == BlockStart(lines, b)
         || BlockStop(lines, a) <= BlockStart(lines, b) || BlockStop(lines, b) <= BlockStart(lines, a)
  {
    hide Hit, First, ServiceNames;
    ListedBlock(lines, a);
    ListedBlock(lines, b);
    var i, j := BlockStart(lines, a), BlockStart(lines, b);
    if i < j {
      FirstAtMost(lines, i + 1, BlockEnd(|lines[ServicesAt(lines)].lead|), j);
    } else if j < i {
      FirstAtMost(lines, j + 1, BlockEnd(|lines[ServicesAt(lines)].lead|), i);
    }
  }

  // Inserting at the end of one listed block, or right below its `networks:` line, splits no other block.
  lemma ApartFromAll(lines: seq<Line>, name: string, at: nat)
    requires name in ServiceNames(lines) && BlockStart(lines, name) < |lines|
    requires at == BlockStop(lines, name)
          || (at == BlockNetworks(lines, name) + 1 && at <= BlockStop(lines, name))
    ensures forall other :: other in ServiceNames(lines) ==> Apart(lines, at, other)
  {
    hide Hit, First, ServiceNames;
    forall other | other in ServiceNames(lines) ensures Apart(lines, at, other) {
      BlocksDisjoint(lines, name, other);
    }
  }

  lemma NetItemQuiet(net: string)
    ensures Quiet([NetItem(4, net)]) && Quiet([Mk(4, "networks:"), NetItem(4, net)])
    ensures Hit(Item(net), NetItem(4, net)) && Hit(NetworksKey, Mk(4, "networks:"))
  {
    assert NetItem(4, net).body[0] == '-';
    assert Mk(4, "networks:").body[0] == 'n';
  }

  lemma AttachOneInserts(lines: seq<Line>, name: string, net: string)
    requires Rooted(lines) && name in ServiceNames(lines) && !Attached(lines, name, net)
    ensures BlockStart(lines, name) < |lines|
    ensures Inside(lines, AttachPoint(lines, name), AttachLines(lines, name, net))
    ensures AttachOne(lines, name, net) == Insert(lines, AttachPoint(lines, name), AttachLines(lines, name, net))
    ensures AttachLines(lines, name, net)
         == if BlockNetworks(lines, name) < BlockStop(lines, name) then [NetItem(4, net)] else [Mk(4, "networks:"), NetItem(4, net)]
  {
    hide Hit, Insert, First, ServiceNames, Attached, Quiet, NetItem;
    ListedBlock(lines, name);
    NetItemQuiet(net);
  }

  lemma ItemAttaches(lines: seq<Line>, name: string, net: string)
    requires name in ServiceNames(lines) && BlockStart(lines, name) < |lines|
    requires BlockNetworks(lines, name) < BlockStop(lines, name)
    requires Inside(lines, BlockNetworks(lines, name) + 1, [NetItem(4, net)])
    ensures Attached(Insert(lines, BlockNetworks(lines, name) + 1, [NetItem(4, net)]), name, net)
  {
    hide Hit, Insert, First, ServiceNames, Rooted, BlockStart, BlockStop, ServicesAt, SectionEnd, NetItem;
    NetItemQuiet(net);
    var at, ins := BlockNetworks(lines, name) + 1, [NetItem(4, net)];
    InsideBlock(lines, at, ins, name);
    var out := Insert(lines, at, ins);
    FirstInsertBelow(lines, BlockStart(lines, name) + 1, NetworksKey, at, ins);
    assert out[at] == ins[0];
    FirstAtMost(out, at, Item(net), at);
  }

  lemma KeyAttaches(lines: seq<Line>, name: string, net: string)
    requires name in ServiceNames(lines) && BlockStart(lines, name) < |lines|
    requires BlockNetworks(lines, name) >= BlockStop(lines, name)
    requires Inside(lines, BlockStop(lines, name), [Mk(4, "networks:"), NetItem(4, net)])
    ensures Attached(Insert(lines, BlockStop(lines, name), [Mk(4, "networks:"), NetItem(4, net)]), name, net)
  {
    hide Hit, Insert, First, ServiceNames, Rooted, BlockStart, BlockStop, ServicesAt, SectionEnd, NetItem, Mk;
    NetItemQuiet(net);
    var at, ins := BlockStop(lines, name), [Mk(4, "networks:"), NetItem(4, net)];
    InsideBlock(lines, at, ins, name);
    var out := Insert(lines, at, ins);
    assert out[at] == ins[0] && out[at + 1] == ins[1];
    FirstInsertBelow(lines, BlockStart(lines, name) + 1, NetworksKey, at, ins);
    FirstAtMost(out, BlockStart(lines, name) + 1, NetworksKey, at);
    FirstAtMost(out, at + 1, Item(net), at + 1);
  }

  lemma AttachOneAttaches(lines: seq<Line>, name: string, net: string)
    requires Rooted(lines) && name in ServiceNames(lines)
    ensures Attached(AttachOne(lines, name, net), name, net)
  {
    hide Hit, Insert, First, ServiceNames, Rooted, BlockStart, BlockStop, BlockNetworks, NetItem, AttachOne, AttachLines, Inside, Attached, Mk;
    if Attached(lines, name, net) {
      AttachedAlready(lines, name, net);
    } else {
      AttachOneInserts(lines, name, net);
      if BlockNetworks(lines, name) < BlockStop(lines, name) {
        ItemAttaches(lines, name, net);
      } else {
        KeyAttaches(lines, name, net);
      }
    }
  }

  lemma AttachedAlready(lines: seq<Line>, name: string, net: string)
    requires Attached(lines, name, net)
    ensures AttachOne(lines, name, net) == lines
  {
  }

  lemma AttachOneKeeps(lines: seq<Line>, name: string, net: string)
    requires Rooted(lines) && name in ServiceNames(lines)
    ensures Keeps(lines, AttachOne(lines, name, net))
  {
    if Attached(lines, name, net) {
      KeepsRefl(lines);
    } else {
      hide Hit, Insert, First, ServiceNames, AttachOne;
      AttachOneInserts(lines, name, net);
      ApartFromAll(lines, name, AttachPoint(lines, name));
      InsideKeeps(lines, AttachPoint(lines, name), AttachLines(lines, name, net));
    }
  }

  lemma {:induction false} AttachNamesAttaches(lines: seq<Line>, names: seq<string>, net: string)
    requires Rooted(lines) && forall name :: name in names ==> name in ServiceNames(lines)
    ensures Keeps(lines, AttachNames(lines, names, net))
    ensures forall name :: name in names ==> Attached(AttachNames(lines, names, net), name, net)
    decreases |names|
  {
    hide Attached, ServiceNames, Declared, Subseq, Rooted, AttachOne;
    if names == [] {
      KeepsRefl(lines);
    } else {
      var next := AttachOne(lines, names[0], net);
      AttachOneKeeps(lines, names[0], net);
      AttachOneAttaches(lines, names[0], net);
      AttachNamesAttaches(next, names[1..], net);
      KeepsTrans(lines, next, AttachNames(lines, names, net));
    }
  }

  lemma AttachNetAttaches(lines: seq<Line>, net: string)
    requires Rooted(lines)
    ensures Keeps(lines, AttachNet(lines, net))
    ensures forall name :: name in ServiceNames(lines) ==> Attached(AttachNet(lines, net), name, net)
  {
    hide Attached, ServiceNames, Keeps, Rooted, AttachNames;
    AttachNamesAttaches(lines, ServiceNames(lines), net);
  }

  // ----- declaring a root network --------------------------------------------

  // A root network goes above the services header or below the services section.
  lemma RootInsertSide(lines: seq<Line>)
    requires Rooted(lines)
    ensures RootInsertAt(lines) <= ServicesAt(lines)
         || SectionEnd(lines, ServicesAt(lines)) <= RootInsertAt(lines)
    ensures RootInsertAt(lines) == SectionEnd(lines, ServicesAt(lines)) ==> NetworksAt(lines) == |lines|
  {
    hide First, LastDeclEnd;
    var s, h := ServicesAt(lines), NetworksAt(lines);
    assert Hit(RootKey, lines[s]) && !Hit(RootVolumes, lines[s]) && !Hit(RootNetworks, lines[s]) by {
      ServicesLine(lines[s]);
    }
    var e := SectionEnd(lines, s);
    if h < |lines| {
      if h < s {
        FirstAtMost(lines, h + 1, RootKey, s);
      } else {
        RootLineEndsRegion(lines[h]);
        FirstAtMost(lines, s + 1, RegionEnd(0), h);
      }
    } else {
      var at := RootInsertAt(lines);
      if s < at < |lines| {
        RootLineEndsRegion(lines[at]);
        FirstAtMost(lines, s + 1, RegionEnd(0), at);
      }
    }
  }

  lemma ServicesLine(l: Line)
    requires Hit(Services, l) && l.lead == ""
    ensures Hit(RootKey, l) && !Hit(RootVolumes, l) && !Hit(RootNetworks, l)
  {
    assert l.body[0] == 's';
    assert KeyName(l.body) == "services";
    assert l.body[..8][0] == 's' && "volumes:"[0] == 'v';
    assert l.body[..9][0] == 's' && "networks:"[0] == 'n';
  }

  lemma RootLineEndsRegion(l: Line)
    requires Hit(RootNetworks, l) || Hit(RootVolumes, l)
    ensures Hit(RegionEnd(0), l)
  {
    if Hit(RootNetworks, l) {
      assert l.body[0] == "networks:"[0] by {
        if l.body != "networks:" { assert l.body[0] == l.body[..9][0]; }
      }
    } else {
      assert l.body[0] == l.body[..8][0] == "volumes:"[0];
    }
  }

  // Option lines of a network: indented, and neither a services header nor a key.
  ghost predicate IsSpec(spec: seq<Line>) {
    forall k :: 0 <= k < |spec| ==> |spec[k].lead| == 4 && spec[k].body != "services:"
  }

  // The new root network does not shadow the services header: its name is not
  // `services`, or it is inserted below the header.
  predicate NotShadowing(lines: seq<Line>, net: string) {
    net != "services" || ServicesAt(lines) < RootInsertAt(lines)
  }

  lemma NetworkLine(net: string)
    ensures var l := Mk(2, net + ":");
            && (IsRootName(net) ==> Hit(Decl(net), l)) && !Hit(RootKey, l) && !Hit(RootNetworks, l)
            && (Hit(Services, l) <==> net == "services")
  {
    var l := Mk(2, net + ":");
    if l.body == "services:" {
      assert l.body[..8] == net;
      assert "services:"[..8] == "services";
    }
  }

  lemma SpecLinesQuiet(spec: seq<Line>)
    requires IsSpec(spec)
    ensures NoHit(spec, Services) && NoHit(spec, RootKey) && NoHit(spec, RootNetworks)
  {
  }

  lemma HeaderLines()
    ensures var l := Mk(0, "networks:"); !Hit(Services, l) && Hit(RootNetworks, l) && Hit(RegionEnd(0), l)
    ensures var l := Line("", "", ""); !Hit(Services, l) && !Hit(RootKey, l) && !Hit(RootNetworks, l)
  {
    assert Mk(0, "networks:").body[0] == 'n' && "services:"[0] == 's';
    assert Mk(0, "networks:").lead == "";
    RootLineEndsRegion(Mk(0, "networks:"));
  }

  lemma DeclareUnderHeader(lines: seq<Line>, net: string, spec: seq<Line>)
    requires IsSpec(spec) && NetworksAt(lines) < |lines|
    ensures var out := Insert(lines, RootInsertAt(lines), NetworkBlock(net, spec));
            (IsRootName(net) ==> Declared(out, net)) && forall other :: Declared(lines, other) ==> Declared(out, other)
  {
    hide Hit, Insert, First, IsSpec, LastDeclEnd, RootInsertAt, Declared;
    NetworkLine(net);
    SpecLinesQuiet(spec);
    var at, ins, h := RootInsertAt(lines), NetworkBlock(net, spec), NetworksAt(lines);
    var out := Insert(lines, at, ins);
    forall other | Declared(lines, other) ensures Declared(out, other) {
      QuietKeepsDeclared(lines, at, ins, other);
    }
    if IsRootName(net) {
      DeclaredIfBelow(lines, at, ins, net);
    }
  }

  // A declaration inserted between the header and the end of the networks section is found there.
  lemma DeclaredIfBelow(lines: seq<Line>, at: nat, ins: seq<Line>, net: string)
    requires NetworksAt(lines) < |lines| && NetworksAt(lines) < at <= NetworksStop(lines)
    requires ins != [] && Hit(Decl(net), ins[0]) && NoHit(ins, RootKey)
    ensures Declared(Insert(lines, at, ins), net)
  {
    hide Hit, Insert, First;
    var out, h := Insert(lines, at, ins), NetworksAt(lines);
    assert out[at] == ins[0];
    FirstInsertBelow(lines, 0, RootNetworks, at, ins);
    FirstInsertQuiet(lines, h + 1, RootKey, at, ins);
    FirstAtMost(out, h + 1, Decl(net), at);
  }

  // A whole networks section, inserted where there was none.
  lemma DeclaredInNewSection(lines: seq<Line>, at: nat, ins: seq<Line>, net: string)
    requires NetworksAt(lines) == |lines| && at <= |lines|
    requires |ins| >= 2 && Hit(RootNetworks, ins[0]) && Hit(Decl(net), ins[1]) && !Hit(RootKey, ins[1])
    ensures Declared(Insert(lines, at, ins), net)
  {
    hide Hit, Insert, First;
    var out := Insert(lines, at, ins);
    assert out[at] == ins[0] && out[at + 1] == ins[1];
    FirstIs(out, 0, RootNetworks, at);
    FirstAtMost(out, at + 1, Decl(net), at + 1);
  }

  // A declared network is found again exactly when its name is one the scan reads.
  lemma DeclareDeclares(lines: seq<Line>, net: string, spec: seq<Line>)
    requires IsSpec(spec)
    ensures Declared(Declare(lines, net, spec), net) <==> IsRootName(net)
    ensures forall other :: Declared(lines, other) ==> Declared(Declare(lines, net, spec), other)
  {
    hide Hit, Insert, First, IsSpec, LastDeclEnd, RootInsertAt;
    if !Declared(lines, net) {
      if NetworksAt(lines) < |lines| {
        DeclareUnderHeader(lines, net, spec);
      } else {
        NetworkLine(net);
        HeaderLines();
        if IsRootName(net) {
          DeclaredInNewSection(lines, RootInsertAt(lines), DeclareLines(lines, net, spec), net);
        }
      }
    }
    DeclaredIsReadable(Declare(lines, net, spec), net);
    DeclaredIsReadable(lines, net);
  }

  lemma DeclaredIsReadable(lines: seq<Line>, net: string)
    ensures Declared(lines, net) ==> IsRootName(net)
  {
    hide IsRootName;
    if Declared(lines, net) {
      assert Hit(Decl(net), lines[First(lines, NetworksAt(lines) + 1, Decl(net))]);
    }
  }

  lemma DeclareKeeps(lines: seq<Line>, net: string, spec: seq<Line>)
    requires Rooted(lines) && IsSpec(spec) && NotShadowing(lines, net)
    ensures Keeps(lines, Declare(lines, net, spec))
  {
    hide Hit, Insert, First, IsSpec, LastDeclEnd, Attached, ServiceNames, Subseq;
    DeclareDeclares(lines, net, spec);
    if Declared(lines, net) {
      KeepsRefl(lines);
    } else {
      var at, ins := RootInsertAt(lines), DeclareLines(lines, net, spec);
      var out := Insert(lines, at, ins);
      RootInsertSide(lines);
      SubseqInsert(lines, at, ins);
      if at <= ServicesAt(lines) {
        DeclareLinesNotServices(lines, net, spec);
        AboveShifts(lines, at, ins);
        AboveNames(lines, at, ins);
        forall name, other | name in ServiceNames(lines) && Attached(lines, name, other)
          ensures Attached(out, name, other)
        {
          AboveAttached(lines, at, ins, name, other);
        }
      } else {
        HeaderLines();
        assert Below(lines, at, ins);
        BelowStays(lines, at, ins);
        BelowNames(lines, at, ins);
        forall name, other | name in ServiceNames(lines) && Attached(lines, name, other)
          ensures Attached(out, name, other)
        {
          BelowAttached(lines, at, ins, name, other);
        }
      }
    }
  }

  lemma DeclareLinesNotServices(lines: seq<Line>, net: string, spec: seq<Line>)
    requires IsSpec(spec) && net != "services"
    ensures NoHit(DeclareLines(lines, net, spec), Services)
  {
    hide Hit, IsSpec;
    NetworkLine(net);
    SpecLinesQuiet(spec);
    HeaderLines();
  }
}
