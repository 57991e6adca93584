// Turning map-form `depends_on` blocks into lists: a scan over the block below each header,
// and a rewrite that copies everything else.
module ComposeDependsOn {
  import opened LineScan

  // /^(\s*)depends_on:\s*(\{\})?\s*$/
  predicate IsPlainHeader(l: Line) {
    l.body == "depends_on:"
  }

  predicate IsBraceHeader(l: Line) {
    |l.body| >= 13 && l.body[..11] == "depends_on:" && l.body[|l.body| - 2..] == "{}"
    && AllSpace(l.body[11..|l.body| - 2])
  }

  predicate IsHeader(l: Line) {
    IsPlainHeader(l) || IsBraceHeader(l)
  }

  // `^\s{n}-\s+`, with n two more than the header's indent
  predicate IsListItem(l: Line, base: nat) {
    |l.lead| == base + 2 && l.body != "" && l.body[0] == '-'
    && (if |l.body| == 1 then l.trail != "" else IsSpace(l.body[1]))
  }

  predicate IsChildName(l: Line, base: nat) {
    |l.lead| == base + 2 && IsKeyBody(l.body) && IsServiceName(KeyName(l.body))
  }

  // What the scan below a header finds: a list, or the names of map keys on its first `count` lines.
  datatype Scan = SawList | Ends(count: nat, deps: seq<string>)

  function Count(s: Scan, skipped: nat, names: seq<string>): Scan {
    match s
    case SawList => SawList
    case Ends(count, deps) => Ends(count + skipped, names + deps)
  }

  function ScanDeps(ls: seq<Line>, base: nat, sawMap: bool): (s: Scan)
    ensures s.Ends? ==> s.count <= |ls|
  {
    if ls == [] then Ends(0, [])
    else if IsBlankOrComment(ls[0]) then Count(ScanDeps(ls[1..], base, sawMap), 1, [])
    else if |ls[0].lead| <= base then Ends(0, [])
    else if IsListItem(ls[0], base) then SawList
    else if IsChildName(ls[0], base) then Count(ScanDeps(ls[1..], base, true), 1, [KeyName(ls[0].body)])
    else if sawMap && |ls[0].lead| > base + 2 then Count(ScanDeps(ls[1..], base, sawMap), 1, [])
    else Ends(0, [])
  }

  function Items(base: nat, deps: seq<string>): (r: seq<Line>)
    ensures |r| == |deps| && forall k :: 0 <= k < |deps| ==> r[k] == Mk(base + 2, "- " + deps[k])
  {
    seq(|deps|, k requires 0 <= k < |deps| => Mk(base + 2, "- " + deps[k]))
  }

  // The map block below header h, when there is one to rewrite.
  function MapBlock(ls: seq<Line>): (s: Scan)
    requires ls != []
    ensures s.Ends? ==> s.count < |ls|
  {
    ScanDeps(ls[1..], |ls[0].lead|, false)
  }

  predicate Rewritable(ls: seq<Line>) {
    ls != [] && IsHeader(ls[0]) && MapBlock(ls).Ends? && MapBlock(ls).deps != []
  }

  function Rewrite(ls: seq<Line>): seq<Line> {
    if ls == [] then []
    else if Rewritable(ls) then
      var block := MapBlock(ls);
      [Line(ls[0].lead, "depends_on:", "")] + Items(|ls[0].lead|, block.deps) + Rewrite(ls[1 + block.count..])
    else [ls[0]] + Rewrite(ls[1..])
  }

  // ----- the rewriter as it runs ---------------------------------------------

  // The inner loop: from line i + 1 on, below a header at line i.
  method ScanBelow(lines: seq<Line>, i: nat) returns (j: nat, deps: seq<string>, sawList: bool)
    requires i < |lines|
    ensures i < j <= |lines|
    ensures MapBlock(lines[i..]) == if sawList then SawList else Ends(j - i - 1, deps)
  {
    hide IsListItem, IsBlankOrComment, IsServiceName, ScanDeps, Count, MapBlock;
    var base := |lines[i].lead|;
    ScanStart(lines, i);
    j := i + 1;
    deps := [];
    sawList := false;
    var sawMap := false;
    while j < |lines|
      invariant i + 1 <= j <= |lines| && !sawList
      invariant sawMap <==> deps != []
      invariant MapBlock(lines[i..]) == Count(ScanDeps(lines[j..], base, sawMap), j - i - 1, deps)
    {
      var l := lines[j];
      ScanStep(lines, j, base, sawMap, j - i - 1, deps);
      if IsBlankOrComment(l) {
        j := j + 1;
        continue;
      }
      if |l.lead| <= base {
        return;
      }
      if IsListItem(l, base) {
        return j, deps, true;
      }
      if IsChildName(l, base) {
        sawMap := true;
        deps := deps + [KeyName(l.body)];
        j := j + 1;
        continue;
      }
      if sawMap && |l.lead| > base + 2 {
        j := j + 1;
        continue;
      }
      return;
    }
    ScanEnd(lines, base, sawMap, j - i - 1, deps);
  }

  lemma ScanStart(lines: seq<Line>, i: nat)
    requires i < |lines|
    ensures MapBlock(lines[i..]) == Count(ScanDeps(lines[i + 1..], |lines[i].lead|, false), 0, [])
  {
    hide ScanDeps;
    assert lines[i..][0] == lines[i] && lines[i..][1..] == lines[i + 1..];
  }

  lemma ScanEnd(lines: seq<Line>, base: nat, sawMap: bool, n: nat, deps: seq<string>)
    ensures Count(ScanDeps(lines[|lines|..], base, sawMap), n, deps) == Ends(n, deps)
  {
  }

  // One line of the scan, with what was counted and collected before it.
  lemma ScanStep(lines: seq<Line>, j: nat, base: nat, sawMap: bool, n: nat, deps: seq<string>)
    requires j < |lines|
    ensures var l, below := lines[j], lines[j + 1..];
            Count(ScanDeps(lines[j..], base, sawMap), n, deps) ==
            if IsBlankOrComment(l) then Count(ScanDeps(below, base, sawMap), n + 1, deps)
            else if |l.lead| <= base then Ends(n, deps)
            else if IsListItem(l, base) then SawList
            else if IsChildName(l, base) then Count(ScanDeps(below, base, true), n + 1, deps + [KeyName(l.body)])
            else if sawMap && |l.lead| > base + 2 then Count(ScanDeps(below, base, sawMap), n + 1, deps)
            else Ends(n, deps)
  {
    hide IsListItem, IsBlankOrComment, IsServiceName;
    assert lines[j..][0] == lines[j] && lines[j..][1..] == lines[j + 1..];
    assert deps + [] == deps;
    CountTwice(ScanDeps(lines[j + 1..], base, sawMap), 1, [], n, deps);
    if IsChildName(lines[j], base) {
      CountTwice(ScanDeps(lines[j + 1..], base, true), 1, [KeyName(lines[j].body)], n, deps);
    }
  }

  lemma RewriteStep(lines: seq<Line>, i: nat)
    requires i < |lines|
    ensures if Rewritable(lines[i..]) then
              var block := MapBlock(lines[i..]);
              Rewrite(lines[i..]) == [Line(lines[i].lead, "depends_on:", "")] + Items(|lines[i].lead|, block.deps)
                                     + Rewrite(lines[i + 1 + block.count..])
            else Rewrite(lines[i..]) == [lines[i]] + Rewrite(lines[i + 1..])
  {
    hide IsHeader, ScanDeps, Items;
    var rest := lines[i..];
    assert rest[0] == lines[i] && rest[1..] == lines[i + 1..];
    if Rewritable(rest) {
      assert rest[1 + MapBlock(rest).count..] == lines[i + 1 + MapBlock(rest).count..];
    }
  }

  method EnsureDependsOnList(lines: seq<Line>) returns (out: seq<Line>)
    ensures out == Rewrite(lines)
  {
    hide IsHeader, MapBlock, Items, Rewrite;
    out := [];
    var i := 0;
    assert lines[0..] == lines;
    while i < |lines|
      invariant i <= |lines|
      invariant Rewrite(lines) == out + Rewrite(lines[i..])
    {
      var line := lines[i];
      assert lines[i..][0] == line;
      RewriteStep(lines, i);
      if !IsHeader(line) {
        out := out + [line];
        i := i + 1;
        continue;
      }
      var j, deps, sawList := ScanBelow(lines, i);
      if |deps| > 0 && !sawList {
        out := out + [Line(line.lead, "depends_on:", "")] + Items(|line.lead|, deps);
        i := j;
        continue;
      }
      out := out + [line];
      i := i + 1;
    }
    RewriteNothing(lines);
  }

  lemma RewriteNothing(lines: seq<Line>)
    ensures Rewrite(lines[|lines|..]) == []
  {
  }

  lemma CountTwice(s: Scan, a: nat, x: seq<string>, b: nat, y: seq<string>)
    ensures Count(Count(s, a, x), b, y) == Count(s, a + b, y + x)
  {
  }

  // ----- what a scanned block is ---------------------------------------------

  // The map keys among the given lines, in order.
  function ChildNames(ls: seq<Line>, base: nat): seq<string> {
    if ls == [] then []
    else (if IsChildName(ls[0], base) then [KeyName(ls[0].body)] else []) + ChildNames(ls[1..], base)
  }

  // Lines of a map block: keys, what is nested below them, blanks and comments.
  predicate InBlock(l: Line, base: nat) {
    IsBlankOrComment(l) || IsChildName(l, base) || |l.lead| > base + 2
  }

  // A scan that ends in names read exactly the keys of the lines it consumed, every consumed line
  // belongs to the block, and the next line does not continue it.
  lemma {:induction false} ScanReadsKeys(ls: seq<Line>, base: nat, sawMap: bool)
    requires ScanDeps(ls, base, sawMap).Ends?
    ensures var s := ScanDeps(ls, base, sawMap);
            && s.deps == ChildNames(ls[..s.count], base)
            && (forall k :: 0 <= k < s.count ==> InBlock(ls[k], base) && !IsListItem(ls[k], base))
            && (s.count < |ls| ==> !IsBlankOrComment(ls[s.count]) && !IsChildName(ls[s.count], base) && !IsListItem(ls[s.count], base))
            && (s.count < |ls| && (sawMap || s.deps != []) ==> |ls[s.count].lead| <= base + 2)
  {
    hide IsListItem, IsChildName, IsBlankOrComment;
    var s := ScanDeps(ls, base, sawMap);
    if s.count > 0 {
      var more := sawMap || IsChildName(ls[0], base);
      BlankIsNoKey(ls[0], base);
      NameIsNoItem(ls[0], base);
      ScanReadsKeys(ls[1..], base, more);
      var t := ScanDeps(ls[1..], base, more);
      assert ls[..s.count][0] == ls[0] && ls[..s.count][1..] == ls[1..][..t.count];
      forall k | 0 <= k < s.count ensures InBlock(ls[k], base) && !IsListItem(ls[k], base) {
        if k > 0 { assert ls[k] == ls[1..][k - 1]; }
      }
    } else if ls != [] {
      DeeperIsNoName(ls[0], base);
    }
  }

  lemma BlankIsNoKey(l: Line, base: nat)
    ensures IsBlankOrComment(l) ==> !IsChildName(l, base) && !IsListItem(l, base)
  {
  }

  lemma NameIsNoItem(l: Line, base: nat)
    ensures IsChildName(l, base) ==> !IsListItem(l, base)
    ensures |l.lead| > base + 2 ==> !IsListItem(l, base)
  {
  }

  lemma DeeperIsNoName(l: Line, base: nat)
    ensures |l.lead| <= base ==> !IsChildName(l, base) && !IsListItem(l, base)
  {
  }

  // ----- what the rewrite does to a whole file -------------------------------

  // The file, cut into lines that stay and blocks that are rewritten.
  datatype Piece =
    | Keep(line: Line)
    | Block(header: Line, inside: seq<Line>)

  function Source(pieces: seq<Piece>): seq<Line> {
    if pieces == [] then []
    else (match pieces[0] case Keep(l) => [l] case Block(h, inside) => [h] + inside) + Source(pieces[1..])
  }

  function Result(pieces: seq<Piece>): seq<Line> {
    if pieces == [] then []
    else
      (match pieces[0]
       case Keep(l) => [l]
       case Block(h, inside) =>
         [Line(h.lead, "depends_on:", "")] + Items(|h.lead|, ChildNames(inside, |h.lead|)))
      + Result(pieces[1..])
  }

  // A rewritten block holds only a header, at least one key, what is nested below keys, blanks and comments.
  predicate GoodPiece(p: Piece) {
    p.Block? ==> IsHeader(p.header) && ChildNames(p.inside, |p.header.lead|) != []
                 && forall k :: 0 <= k < |p.inside| ==> InBlock(p.inside[k], |p.header.lead|)
  }

  function Pieces(ls: seq<Line>): seq<Piece> {
    if ls == [] then []
    else if Rewritable(ls) then [Block(ls[0], ls[1..][..MapBlock(ls).count])] + Pieces(ls[1 + MapBlock(ls).count..])
    else [Keep(ls[0])] + Pieces(ls[1..])
  }

  lemma PiecesOfBlock(ls: seq<Line>)
    requires Rewritable(ls)
    ensures var n := MapBlock(ls).count;
            var p := Block(ls[0], ls[1..][..n]);
            Pieces(ls) == [p] + Pieces(ls[1 + n..]) && GoodPiece(p)
            && ChildNames(p.inside, |ls[0].lead|) == MapBlock(ls).deps
            && [ls[0]] + p.inside + ls[1 + n..] == ls
  {
    hide IsListItem, IsChildName, IsBlankOrComment, ScanDeps, IsHeader, InBlock, ChildNames;
    ScanReadsKeys(ls[1..], |ls[0].lead|, false);
    BlockCut(ls, MapBlock(ls).count);
  }

  lemma BlockCut(ls: seq<Line>, n: nat)
    requires n < |ls|
    ensures [ls[0]] + ls[1..][..n] + ls[1 + n..] == ls
  {
  }

  // The rewrite replaces the blocks by lists of their keys, in order, and copies every other line.
  lemma {:induction false} RewriteByPieces(ls: seq<Line>)
    ensures Source(Pieces(ls)) == ls && Result(Pieces(ls)) == Rewrite(ls)
    ensures forall k :: 0 <= k < |Pieces(ls)| ==> GoodPiece(Pieces(ls)[k])
    decreases |ls|
  {
    hide IsHeader, ScanDeps, Items, ChildNames, GoodPiece;
    if ls != [] {
      if Rewritable(ls) {
        PiecesOfBlock(ls);
        RewriteByPieces(ls[1 + MapBlock(ls).count..]);
        PiecesCons(Block(ls[0], ls[1..][..MapBlock(ls).count]), Pieces(ls[1 + MapBlock(ls).count..]));
      } else {
        RewriteByPieces(ls[1..]);
        PiecesCons(Keep(ls[0]), Pieces(ls[1..]));
        assert GoodPiece(Keep(ls[0])) by { KeepIsGood(ls[0]); }
        assert ls == [ls[0]] + ls[1..];
      }
    }
  }

  lemma KeepIsGood(l: Line)
    ensures GoodPiece(Keep(l))
  {
  }

  lemma PiecesCons(p: Piece, rest: seq<Piece>)
    ensures Source([p] + rest) == (match p case Keep(l) => [l] case Block(h, inside) => [h] + inside) + Source(rest)
    ensures Result([p] + rest) ==
      (match p
       case Keep(l) => [l]
       case Block(h, inside) => [Line(h.lead, "depends_on:", "")] + Items(|h.lead|, ChildNames(inside, |h.lead|)))
      + Result(rest)
  {
    hide Items, ChildNames;
  }

  // ----- idempotence ---------------------------------------------------------

  // The verdict of a scan: a list, a map block to rewrite, or neither.
  predicate FindsKeys(s: Scan) {
    s.Ends? && s.deps != []
  }

  predicate SameVerdict(a: Scan, b: Scan) {
    a.SawList? == b.SawList? && FindsKeys(a) == FindsKeys(b)
  }

  lemma DeeperIsNoChild(l: Line, base: nat)
    ensures |l.lead| > base + 2 ==> !IsChildName(l, base) && !IsListItem(l, base)
  {
  }

  // Lines nested below a key do not change the verdict.
  lemma {:induction false} ScanSkips(block: seq<Line>, rest: seq<Line>, base: nat)
    requires forall k :: 0 <= k < |block| ==> IsBlankOrComment(block[k]) || |block[k].lead| > base + 2
    ensures SameVerdict(ScanDeps(block + rest, base, true), ScanDeps(rest, base, true))
    decreases |block|
  {
    hide IsListItem, IsChildName, IsBlankOrComment;
    if block == [] {
      assert block + rest == rest;
    } else {
      assert (block + rest)[1..] == block[1..] + rest;
      ScanSkips(block[1..], rest, base);
      DeeperIsNoChild(block[0], base);
    }
  }

  lemma HeaderFacts(l: Line, base: nat)
    requires IsHeader(l)
    ensures !IsBlankOrComment(l) && !IsListItem(l, base)
    ensures IsChildName(l, base) <==> IsPlainHeader(l) && |l.lead| == base + 2
  {
    if IsPlainHeader(l) {
      assert l.body[0] == 'd' && KeyName(l.body) == "depends_on";
    } else {
      assert l.body[0] == l.body[..11][0] == 'd';
      assert l.body[|l.body| - 1] == l.body[|l.body| - 2..][1] == '}';
    }
  }

  // The rewritten form of a header.
  function Bare(l: Line): Line {
    Line(l.lead, "depends_on:", "")
  }

  lemma BareFacts(l: Line, base: nat)
    ensures IsPlainHeader(Bare(l)) && !IsBlankOrComment(Bare(l)) && !IsListItem(Bare(l), base)
    ensures IsChildName(Bare(l), base) <==> |l.lead| == base + 2
  {
    HeaderFacts(Bare(l), base);
  }

  // Seen from an enclosing scan, the block of a rewritten header can be skipped, before and after.
  lemma BlockSkipped(ls: seq<Line>, base: nat)
    requires Rewritable(ls) && |ls[0].lead| >= base + 2
    ensures var rest := ls[1 + MapBlock(ls).count..];
            && SameVerdict(ScanDeps(ls[1..], base, true), ScanDeps(rest, base, true))
            && Rewrite(ls)[0] == Bare(ls[0])
            && SameVerdict(ScanDeps(Rewrite(ls)[1..], base, true), ScanDeps(Rewrite(rest), base, true))
  {
    hide IsListItem, IsChildName, IsBlankOrComment, IsHeader, ScanDeps, Items, SameVerdict, Rewrite, Bare;
    var own, n := |ls[0].lead|, MapBlock(ls).count;
    var block, rest := ls[1..][..n], ls[1 + n..];
    var items := Items(own, MapBlock(ls).deps);
    RewrittenBlock(ls);
    TailCut(ls, n);
    ScanReadsKeys(ls[1..], own, false);
    forall k | 0 <= k < |block| ensures IsBlankOrComment(block[k]) || |block[k].lead| > base + 2 {
      InBlockDeep(block[k], own);
    }
    ScanSkips(block, rest, base);
    ItemsDeep(own, MapBlock(ls).deps, base);
    ScanSkips(items, Rewrite(rest), base);
  }

  lemma RewrittenBlock(ls: seq<Line>)
    requires Rewritable(ls)
    ensures Rewrite(ls) != [] && Rewrite(ls)[0] == Bare(ls[0])
    ensures Rewrite(ls)[1..] == Items(|ls[0].lead|, MapBlock(ls).deps) + Rewrite(ls[1 + MapBlock(ls).count..])
  {
    var items, below := Items(|ls[0].lead|, MapBlock(ls).deps), Rewrite(ls[1 + MapBlock(ls).count..]);
    assert Rewrite(ls) == [Bare(ls[0])] + items + below;
    hide Rewrite, Rewritable, Items, Bare;
    HeadOff(Bare(ls[0]), items, below);
  }

  lemma HeadOff(h: Line, a: seq<Line>, b: seq<Line>)
    ensures ([h] + a + b)[0] == h && ([h] + a + b)[1..] == a + b
  {
  }

  lemma TailCut(ls: seq<Line>, n: nat)
    requires n < |ls|
    ensures ls[1..] == ls[1..][..n] + ls[1 + n..]
  {
  }

  lemma ItemsDeep(own: nat, deps: seq<string>, base: nat)
    requires own >= base + 2
    ensures var items := Items(own, deps); forall k :: 0 <= k < |items| ==> IsBlankOrComment(items[k]) || |items[k].lead| > base + 2
  {
    hide IsBlankOrComment;
  }

  lemma InBlockDeep(l: Line, own: nat)
    requires InBlock(l, own)
    ensures IsBlankOrComment(l) || |l.lead| >= own + 2
  {
  }

  // A list stays a list when the blocks around its first item are rewritten.
  lemma {:induction false} ListStays(ls: seq<Line>, base: nat, sawMap: bool)
    requires ScanDeps(ls, base, sawMap).SawList?
    ensures ScanDeps(Rewrite(ls), base, sawMap).SawList?
    decreases |ls|
  {
    hide IsListItem, IsChildName, IsBlankOrComment, IsHeader, IsPlainHeader, Items;
    if Rewritable(ls) {
      HeaderFacts(ls[0], base);
      BareFacts(ls[0], base);
      BlockSkipped(ls, base);
      ListStays(ls[1 + MapBlock(ls).count..], base, true);
    } else {
      assert Rewrite(ls)[0] == ls[0] && Rewrite(ls)[1..] == Rewrite(ls[1..]);
      if !IsListItem(ls[0], base) || IsBlankOrComment(ls[0]) {
        ListStays(ls[1..], base, if IsBlankOrComment(ls[0]) then sawMap else sawMap || IsChildName(ls[0], base));
      }
    }
  }

  // The lines from the first one that is neither blank nor a comment.
  function Significant(ls: seq<Line>): seq<Line> {
    if ls != [] && IsBlankOrComment(ls[0]) then Significant(ls[1..]) else ls
  }

  // Going down from a key of a header at indent `base`, a list item of that header comes up before
  // its block ends; the map block of any other header on the way is passed over.
  predicate ListFollows(ls: seq<Line>, base: nat) {
    ls != [] &&
    if IsBlankOrComment(ls[0]) then ListFollows(ls[1..], base)
    else if Rewritable(ls) then |ls[0].lead| >= base + 2 && ListFollows(ls[1 + MapBlock(ls).count..], base)
    else if |ls[0].lead| <= base then false
    else if IsListItem(ls[0], base) then true
    else (IsChildName(ls[0], base) || |ls[0].lead| > base + 2) && ListFollows(ls[1..], base)
  }

  // That scan of the lines as they are sees what the inner loop sees of the rewritten lines.
  lemma {:induction false} AheadExact(ls: seq<Line>, base: nat)
    ensures ScanDeps(Rewrite(ls), base, true).SawList? <==> ListFollows(ls, base)
    decreases |ls|
  {
    hide IsListItem, IsChildName, IsBlankOrComment, IsPlainHeader, IsBraceHeader, Items;
    if ls != [] {
      if Rewritable(ls) {
        HeaderFacts(ls[0], base);
        BareFacts(ls[0], base);
        assert Rewrite(ls)[0] == Bare(ls[0]);
        if |ls[0].lead| >= base + 2 {
          BlockSkipped(ls, base);
          AheadExact(ls[1 + MapBlock(ls).count..], base);
        }
      } else {
        assert Rewrite(ls)[0] == ls[0] && Rewrite(ls)[1..] == Rewrite(ls[1..]);
        AheadExact(ls[1..], base);
      }
    }
  }

  // A header right below which a `{}` header with a map block stands as if it were its first key:
  // bare, that header reads as a key named depends_on, and no list follows to prevent it.
  predicate Trap(ls: seq<Line>) {
    ls != [] && IsHeader(ls[0]) && !Rewritable(ls)
    && var inner := Significant(ls[1..]);
       Rewritable(inner) && IsBraceHeader(inner[0]) && |inner[0].lead| == |ls[0].lead| + 2
       && !ListFollows(inner[1 + MapBlock(inner).count..], |ls[0].lead|)
  }

  // No trap among the headers the rewrite keeps.
  predicate NoTrap(ls: seq<Line>) {
    if ls == [] then true
    else if Rewritable(ls) then NoTrap(ls[1 + MapBlock(ls).count..])
    else !Trap(ls) && NoTrap(ls[1..])
  }

  lemma {:induction false} NoBracesNoTrap(ls: seq<Line>)
    requires forall k :: 0 <= k < |ls| ==> !IsBraceHeader(ls[k])
    ensures NoTrap(ls)
    decreases |ls|
  {
    hide IsBraceHeader, IsHeader, ScanDeps, Significant, ListFollows;
    if ls != [] {
      if Rewritable(ls) {
        NoBracesNoTrap(ls[1 + MapBlock(ls).count..]);
      } else {
        SignificantIsSuffix(ls[1..]);
        var inner := Significant(ls[1..]);
        assert inner != [] ==> inner[0] == ls[|ls| - |inner|];
        NoBracesNoTrap(ls[1..]);
      }
    }
  }

  lemma {:induction false} SignificantIsSuffix(ls: seq<Line>)
    ensures var s := Significant(ls); |s| <= |ls| && s == ls[|ls| - |s|..]
    decreases |ls|
  {
    hide IsBlankOrComment;
    if ls != [] && IsBlankOrComment(ls[0]) {
      SignificantIsSuffix(ls[1..]);
    }
  }

  // A scan that finds no keys finds some after the rewrite exactly behind a `{}` header taken for a key.
  lemma {:induction false} NoKeysAfter(ls: seq<Line>, base: nat)
    requires ScanDeps(ls, base, false).Ends? && ScanDeps(ls, base, false).deps == []
    ensures var inner := Significant(ls);
            FindsKeys(ScanDeps(Rewrite(ls), base, false)) <==>
              Rewritable(inner) && IsBraceHeader(inner[0]) && |inner[0].lead| == base + 2
              && !ListFollows(inner[1 + MapBlock(inner).count..], base)
    decreases |ls|
  {
    hide IsListItem, IsChildName, IsBlankOrComment, IsPlainHeader, IsBraceHeader, Items;
    if ls != [] {
      if IsBlankOrComment(ls[0]) {
        BlankIsNoHeader(ls[0]);
        assert Rewrite(ls)[0] == ls[0] && Rewrite(ls)[1..] == Rewrite(ls[1..]);
        NoKeysAfter(ls[1..], base);
      } else if Rewritable(ls) {
        HeaderFacts(ls[0], base);
        BareFacts(ls[0], base);
        if |ls[0].lead| >= base + 2 {
          BlockSkipped(ls, base);
          AheadExact(ls[1 + MapBlock(ls).count..], base);
        } else {
          assert Rewrite(ls)[0] == Bare(ls[0]);
        }
      } else {
        assert Rewrite(ls)[0] == ls[0];
      }
    }
  }

  lemma BlankIsNoHeader(l: Line)
    ensures IsBlankOrComment(l) ==> !IsHeader(l)
  {
    if IsBraceHeader(l) {
      assert l.body[0] == l.body[..11][0];
    }
  }

  // Items are copied by a further rewrite.
  lemma {:induction false} RewriteItems(base: nat, deps: seq<string>, rest: seq<Line>)
    ensures Rewrite(Items(base, deps) + rest) == Items(base, deps) + Rewrite(rest)
    decreases |deps|
  {
    hide Items, Rewrite, Mk;
    if deps == [] {
      assert Items(base, deps) + rest == rest;
    } else {
      var tail := Items(base, deps[1..]);
      ItemIsNoHeader(base, deps[0]);
      ItemsCons(base, deps);
      RewriteItems(base, deps[1..], rest);
      RewriteCopy(Mk(base + 2, "- " + deps[0]), tail + rest);
      OneMore(Mk(base + 2, "- " + deps[0]), tail, rest);
      OneMore(Mk(base + 2, "- " + deps[0]), tail, Rewrite(rest));
    }
  }

  lemma ItemsCons(base: nat, deps: seq<string>)
    requires deps != []
    ensures Items(base, deps) == [Mk(base + 2, "- " + deps[0])] + Items(base, deps[1..])
  {
    hide Mk;
  }

  lemma RewriteCopy(l: Line, rest: seq<Line>)
    requires !IsHeader(l)
    ensures Rewrite([l] + rest) == [l] + Rewrite(rest)
  {
    hide IsHeader, MapBlock;
    assert ([l] + rest)[1..] == rest;
  }

  lemma OneMore(l: Line, a: seq<Line>, b: seq<Line>)
    ensures [l] + a + b == [l] + (a + b)
  {
  }

  lemma ItemIsNoHeader(base: nat, dep: string)
    ensures !IsHeader(Mk(base + 2, "- " + dep))
  {
    assert Mk(base + 2, "- " + dep).body[0] == '-';
  }

  lemma ItemsAreAList(base: nat, deps: seq<string>, rest: seq<Line>)
    requires deps != []
    ensures ScanDeps(Items(base, deps) + rest, base, false) == SawList
  {
    var first := Items(base, deps)[0];
    assert (Items(base, deps) + rest)[0] == first;
    assert first.body[0] == '-' && first.body[1] == ' ';
  }

  lemma ListHeaderKept(header: Line, deps: seq<string>, rest: seq<Line>)
    requires deps != []
    ensures Rewrite([Bare(header)] + (Items(|header.lead|, deps) + rest)) == [Bare(header)] + (Items(|header.lead|, deps) + Rewrite(rest))
  {
    hide IsListItem, IsChildName, IsBlankOrComment, IsHeader, ScanDeps, Items;
    var tail := Items(|header.lead|, deps) + rest;
    var out := [Bare(header)] + tail;
    assert out[0] == Bare(header) && out[1..] == tail;
    ItemsAreAList(|header.lead|, deps, rest);
    assert !Rewritable(out);
    RewriteItems(|header.lead|, deps, rest);
  }

  // After a rewritten block the second rewrite goes on where the first one did.
  lemma RewriteOfBlock(ls: seq<Line>)
    requires Rewritable(ls)
    ensures var own, deps, rest := |ls[0].lead|, MapBlock(ls).deps, ls[1 + MapBlock(ls).count..];
            && Rewrite(ls) == [Bare(ls[0])] + (Items(own, deps) + Rewrite(rest))
            && Rewrite(Rewrite(ls)) == [Bare(ls[0])] + (Items(own, deps) + Rewrite(Rewrite(rest)))
  {
    hide IsListItem, IsChildName, IsBlankOrComment, IsHeader, ScanDeps, Items;
    var own, deps, rest := |ls[0].lead|, MapBlock(ls).deps, ls[1 + MapBlock(ls).count..];
    assert [Bare(ls[0])] + Items(own, deps) + Rewrite(rest) == [Bare(ls[0])] + (Items(own, deps) + Rewrite(rest));
    ListHeaderKept(ls[0], deps, Rewrite(rest));
  }

  // A kept line: kept again, unless it is a trap.
  lemma RewriteOfKept(ls: seq<Line>)
    requires ls != [] && !Rewritable(ls)
    ensures Rewrite(ls) == [ls[0]] + Rewrite(ls[1..])
    ensures Rewritable(Rewrite(ls)) <==> Trap(ls)
  {
    hide IsListItem, IsChildName, IsBlankOrComment, IsHeader, Items, IsBraceHeader, Rewrite, ListFollows, ScanDeps, Rewritable, Significant;
    RewrittenHead(ls);
    RewritableOf(ls);
    RewritableOf(Rewrite(ls));
    if IsHeader(ls[0]) {
      if MapBlock(ls).SawList? {
        ListStays(ls[1..], |ls[0].lead|, false);
        SawListNoTrap(ls);
      } else {
        NoKeysAfter(ls[1..], |ls[0].lead|);
      }
    }
  }

  lemma RewritableOf(ls: seq<Line>)
    requires ls != []
    ensures Rewritable(ls) <==> IsHeader(ls[0]) && FindsKeys(ScanDeps(ls[1..], |ls[0].lead|, false))
    ensures MapBlock(ls) == ScanDeps(ls[1..], |ls[0].lead|, false)
  {
    hide IsHeader, ScanDeps;
  }

  lemma RewrittenHead(ls: seq<Line>)
    requires ls != [] && !Rewritable(ls)
    ensures Rewrite(ls) == [ls[0]] + Rewrite(ls[1..]) && Rewrite(ls)[1..] == Rewrite(ls[1..])
  {
    hide IsHeader, MapBlock, Items;
  }

  // A `{}` header is no key: the scan stops there and sees no list.
  lemma SawListNoTrap(ls: seq<Line>)
    requires ls != [] && MapBlock(ls).SawList?
    ensures !Trap(ls)
  {
    hide IsListItem, IsChildName, IsBlankOrComment, IsPlainHeader, IsBraceHeader;
    ScanFromSignificant(ls[1..], |ls[0].lead|);
    var inner := Significant(ls[1..]);
    if inner != [] && IsBraceHeader(inner[0]) {
      BraceIsNotPlain(inner[0]);
      HeaderFacts(inner[0], |ls[0].lead|);
    }
  }

  lemma BraceIsNotPlain(l: Line)
    requires IsBraceHeader(l)
    ensures IsHeader(l) && !IsPlainHeader(l)
  {
  }

  lemma {:induction false} ScanFromSignificant(ls: seq<Line>, base: nat)
    ensures SameVerdict(ScanDeps(ls, base, false), ScanDeps(Significant(ls), base, false))
    decreases |ls|
  {
    hide IsListItem, IsChildName, IsBlankOrComment;
    if ls != [] && IsBlankOrComment(ls[0]) {
      ScanFromSignificant(ls[1..], base);
    }
  }

  // A trap is rewritten by the second run: its first line below the header changes.
  lemma TrapChanges(ls: seq<Line>)
    requires Trap(ls)
    ensures Rewrite(Rewrite(ls)) != Rewrite(ls)
  {
    hide IsListItem, IsChildName, IsBraceHeader, ScanDeps, IsServiceName;
    RewriteOfKept(ls);
    var out := Rewrite(ls);
    var again := Rewrite(out);
    RewriteOfBlock(out);
    assert again[1].body[0] == '-' by {
      assert again[1] == Items(|out[0].lead|, MapBlock(out).deps)[0];
    }
    TrapNext(ls[1..]);
    assert out[1] == Rewrite(ls[1..])[0];
  }

  lemma TrapNext(below: seq<Line>)
    requires Rewritable(Significant(below))
    ensures below != [] && Rewrite(below) != []
    ensures Rewrite(below)[0].body == "" || Rewrite(below)[0].body[0] != '-'
  {
    hide IsListItem, IsChildName, ScanDeps, IsBraceHeader;
    if IsBlankOrComment(below[0]) {
      BlankIsNoHeader(below[0]);
      assert Rewrite(below)[0] == below[0];
    } else {
      assert Rewrite(below)[0] == Bare(below[0]);
    }
  }

  lemma CancelPrefix(p: seq<Line>, a: seq<Line>, b: seq<Line>)
    ensures p + a == p + b <==> a == b
  {
    assert (p + a)[|p|..] == a && (p + b)[|p|..] == b;
  }

  // Rewriting twice equals rewriting once exactly when the file holds no trap.
  lemma {:induction false} RewriteIdempotent(ls: seq<Line>)
    ensures Rewrite(Rewrite(ls)) == Rewrite(ls) <==> NoTrap(ls)
    decreases |ls|
  {
    hide ScanDeps, Items, Trap, IsHeader;
    if ls != [] {
      if Rewritable(ls) {
        var own, deps, rest := |ls[0].lead|, MapBlock(ls).deps, ls[1 + MapBlock(ls).count..];
        RewriteIdempotent(rest);
        RewriteOfBlock(ls);
        CancelPrefix(Items(own, deps), Rewrite(Rewrite(rest)), Rewrite(rest));
        CancelPrefix([Bare(ls[0])], Items(own, deps) + Rewrite(Rewrite(rest)), Items(own, deps) + Rewrite(rest));
      } else {
        RewriteIdempotent(ls[1..]);
        RewriteOfKept(ls);
        if Trap(ls) {
          TrapChanges(ls);
        } else {
          assert Rewrite(ls)[1..] == Rewrite(ls[1..]);
        }
      }
    }
  }

  // ----- where the rewrite leaves a mixed block ------------------------------

  // Where the scan of a map block stops: the end of the file, a line no deeper than the header, a
  // line indented by one, or a line at the keys' indent that is neither a key nor a list item, such
  // as a key with an inline value. Nothing deeper than the keys ends it.
  predicate StopsBlock(l: Line, own: nat) {
    !IsBlankOrComment(l) && |l.lead| <= own + 2 && !IsChildName(l, own) && !IsListItem(l, own)
  }

  // The line below the list of a rewritten block is deeper than the header, so that the block is half
  // list, half map, exactly when the scan stopped at such a line.
  lemma MixedBlock(ls: seq<Line>)
    requires Rewritable(ls)
    ensures var own, deps, rest := |ls[0].lead|, MapBlock(ls).deps, ls[1 + MapBlock(ls).count..];
            var out := Rewrite(ls);
            && |out| >= 1 + |deps| && out[1..1 + |deps|] == Items(own, deps)
            && (|out| > 1 + |deps| <==> rest != [])
            && (rest != [] ==> StopsBlock(rest[0], own) && out[1 + |deps|].body != "" && out[1 + |deps|].lead == rest[0].lead)
            && (|out| > 1 + |deps| && |out[1 + |deps|].lead| > own <==> rest != [] && |rest[0].lead| > own)
  {
    hide IsListItem, IsChildName, ScanDeps, IsServiceName, IsPlainHeader, IsBraceHeader, Items;
    var own, deps, rest := |ls[0].lead|, MapBlock(ls).deps, ls[1 + MapBlock(ls).count..];
    ScanReadsKeys(ls[1..], own, false);
    assert Rewrite(ls) == [Bare(ls[0])] + Items(own, deps) + Rewrite(rest);
    if rest != [] {
      assert rest[0] == ls[1..][MapBlock(ls).count];
      BareFacts(rest[0], 0);
      assert Rewrite(rest)[0] == if Rewritable(rest) then Bare(rest[0]) else rest[0];
      assert Rewrite(ls)[1 + |deps|] == Rewrite(rest)[0];
    }
  }

  // A block with an inline value comes out half list, half map.
  lemma MixedBlockExample()
    ensures var ls := [Mk(0, "depends_on:"), Mk(2, "a:"), Mk(2, "b: {}")];
            Rewrite(ls) == [Mk(0, "depends_on:"), Mk(2, "- a"), Mk(2, "b: {}")]
  {
    var header, a, b := Mk(0, "depends_on:"), Mk(2, "a:"), Mk(2, "b: {}");
    assert KeyName(a.body) == "a";
    assert ScanDeps([b], 0, true) == Ends(0, []);
    assert [a, b][1..] == [b] && [header, a, b][1..] == [a, b];
    assert ScanDeps([a, b], 0, false) == Ends(1, ["a"]);
    assert [header, a, b][2..] == [b];
    assert !IsHeader(b) by { assert b.body[0] == 'b'; }
    assert Rewrite([b]) == [b] by { assert Rewrite([]) == []; }
    assert "- " + "a" == "- a";
    assert Items(0, ["a"]) == [Mk(2, "- a")];
  }

  // A header that holds nothing but a `{}` header with a key: the first run makes a list of the inner
  // one, the second takes the bare inner header for a key of the outer one.
  lemma TrapExample()
    ensures var ls := [Mk(0, "depends_on:"), Mk(2, "depends_on: {}"), Mk(4, "a:")];
            && Trap(ls)
            && Rewrite(ls) == [Mk(0, "depends_on:"), Mk(2, "depends_on:"), Mk(4, "- a")]
            && Rewrite(Rewrite(ls)) == [Mk(0, "depends_on:"), Mk(2, "- depends_on")]
  {
    var outer, inner, bare, a, item := Mk(0, "depends_on:"), Mk(2, "depends_on: {}"), Mk(2, "depends_on:"), Mk(4, "a:"), Mk(4, "- a");
    TrapLines(outer, inner, bare, a, item);
    hide IsBraceHeader, IsPlainHeader, IsServiceName, IsBlankOrComment, Mk;
    OneBlock(inner, bare, a, "a", item, []);
    OneBlock(outer, outer, bare, "depends_on", Mk(2, "- depends_on"), [item]);
    assert [inner, a] + [] == [inner, a] && [outer, bare] + [item] == [outer, bare, item];
    TrapHolds(outer, inner, a);
    assert Rewrite([outer, inner, a]) == [outer] + Rewrite([outer, inner, a][1..]);
    assert [outer, inner, a][1..] == [inner, a];
  }

  lemma TrapLines(outer: Line, inner: Line, bare: Line, a: Line, item: Line)
    requires outer == Mk(0, "depends_on:") && inner == Mk(2, "depends_on: {}") && bare == Mk(2, "depends_on:")
    requires a == Mk(4, "a:") && item == Mk(4, "- a")
    ensures IsPlainHeader(outer) && IsBraceHeader(inner) && !IsPlainHeader(inner) && bare == Bare(inner) && outer == Bare(outer)
    ensures |outer.lead| == 0 && |inner.lead| == |bare.lead| == 2 && |a.lead| == |item.lead| == 4
    ensures a.body == "a" + ":" && bare.body == "depends_on" + ":" && IsServiceName("a") && IsServiceName("depends_on")
    ensures item == Mk(4, "- " + "a") && Mk(2, "- depends_on") == Mk(2, "- " + "depends_on") && !IsBlankOrComment(item)
  {
    assert inner.body[..11] == "depends_on:" && inner.body[11..12] == " ";
    assert |inner.body| == 14 && |bare.body| == 11;
    assert "- " + "a" == "- a" && "- " + "depends_on" == "- depends_on";
  }

  lemma TrapHolds(outer: Line, inner: Line, a: Line)
    requires IsPlainHeader(outer) && IsBraceHeader(inner) && !IsPlainHeader(inner) && |inner.lead| == |outer.lead| + 2
    requires Rewritable([inner, a]) && MapBlock([inner, a]) == Ends(1, ["a"])
    ensures Trap([outer, inner, a])
  {
    hide IsBraceHeader, IsPlainHeader, IsBlankOrComment, IsListItem, IsServiceName;
    HeaderFacts(inner, |outer.lead|);
    assert [outer, inner, a][0] == outer && [outer, inner, a][1..] == [inner, a];
    assert [inner, a][2..] == [];
    assert ScanDeps([inner, a], |outer.lead|, false) == Ends(0, []);
  }

  // A header with one key and what is nested below the key, and nothing else.
  lemma OneBlock(header: Line, bare: Line, key: Line, name: string, item: Line, nested: seq<Line>)
    requires IsHeader(header) && bare == Bare(header) && key.body == name + ":" && IsServiceName(name)
    requires |key.lead| == |header.lead| + 2 && item == Mk(|header.lead| + 2, "- " + name)
    requires |nested| <= 1 && forall k :: 0 <= k < |nested| ==> |nested[k].lead| > |header.lead| + 2 && !IsBlankOrComment(nested[k])
    ensures var ls := [header, key] + nested;
            Rewritable(ls) && MapBlock(ls) == Ends(1 + |nested|, [name]) && Rewrite(ls) == [bare, item]
  {
    hide IsListItem, IsBlankOrComment, IsHeader, IsServiceName;
    var base, ls := |header.lead|, [header, key] + nested;
    KeyIsText(key, name);
    NameIsNoItem(key, base);
    assert ls[0] == header && ls[1..] == [key] + nested && ([key] + nested)[1..] == nested;
    if nested != [] {
      DeeperIsNoChild(nested[0], base);
      assert nested[1..] == [];
    }
    assert ScanDeps(nested, base, true) == Ends(|nested|, []);
    assert ScanDeps([key] + nested, base, false) == Ends(1 + |nested|, [name]);
    assert ls[2 + |nested|..] == [];
    assert Items(base, [name]) == [item];
  }

  lemma KeyIsText(key: Line, name: string)
    requires key.body == name + ":" && IsServiceName(name)
    ensures !IsBlankOrComment(key) && IsKeyBody(key.body) && KeyName(key.body) == name
  {
    assert key.body[0] == name[0];
  }
}
