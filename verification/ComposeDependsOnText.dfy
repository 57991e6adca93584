// The depends_on rewrite on whole texts: split, rewrite, join, and when doing it again changes nothing.
module ComposeDependsOnText {
  import opened LineScan
  import opened ComposeText
  import opened ComposePipeline
  import opened ComposeCarriage
  import opened ComposeDependsOn

  lemma RewriteKeepsSome(ls: seq<Line>)
    ensures Rewrite(ls) == [] <==> ls == []
  {
    hide IsHeader, MapBlock, Items;
  }

  function RewriteText(text: string): string {
    RewriteKeepsSome(LinesOf(text));
    Join(ShowAll(Rewrite(LinesOf(text))))
  }

  method EnsureComposeDependsOnListForSwarm(composeYaml: string) returns (out: string)
    ensures out == RewriteText(composeYaml)
  {
    hide Rewrite, SplitLines, Parse, Show, Join;
    RewriteKeepsSome(LinesOf(composeYaml));
    var lines := EnsureDependsOnList(LinesOf(composeYaml));
    out := Join(ShowAll(lines));
  }

  // No line the rewrite copies, but the last of the file, ends in a carriage return that the split
  // left on it. Lines inside a rewritten block do not matter.
  predicate KeptClean(ls: seq<Line>) {
    if ls == [] then true
    else if Rewritable(ls) then KeptClean(ls[1 + MapBlock(ls).count..])
    else (|ls| == 1 || Clean(ls[0])) && KeptClean(ls[1..])
  }

  // ----- the lines of the result ---------------------------------------------

  lemma {:induction false} DepsAreNames(ls: seq<Line>, base: nat, sawMap: bool)
    requires ScanDeps(ls, base, sawMap).Ends?
    ensures var s := ScanDeps(ls, base, sawMap);
            (forall k :: 0 <= k < |s.deps| ==> IsServiceName(s.deps[k])) && |s.deps| <= s.count
    decreases |ls|
  {
    hide IsListItem, IsBlankOrComment, IsServiceName;
    if ls != [] && ScanDeps(ls, base, sawMap).count > 0 {
      DepsAreNames(ls[1..], base, sawMap || (!IsBlankOrComment(ls[0]) && IsChildName(ls[0], base)));
    }
  }

  lemma ItemClean(n: nat, dep: string)
    requires IsServiceName(dep)
    ensures Clean(Mk(n, "- " + dep))
  {
    var body := "- " + dep;
    assert body[0] == '-' && forall k :: 2 <= k < |body| ==> body[k] == dep[k - 2];
    assert body[|body| - 1] == dep[|dep| - 1];
    MkClean(n, body);
  }

  lemma BareIsClean(l: Line)
    requires Sound(l)
    ensures Sound(Bare(l)) && Clean(Bare(l))
  {
    assert Show(Bare(l)) == l.lead + "depends_on:";
    assert forall k :: 0 <= k < |l.lead| ==> Show(l)[k] == l.lead[k];
    assert Sound(Bare(l));
    SolidClean(Bare(l));
  }

  lemma ItemsClean(base: nat, deps: seq<string>)
    requires forall k :: 0 <= k < |deps| ==> IsServiceName(deps[k])
    ensures AllClean(Items(base, deps)) && AllSound(Items(base, deps))
  {
    hide Clean, IsServiceName, Mk, Proper, Show, DropCR;
    forall k | 0 <= k < |deps| ensures Clean(Items(base, deps)[k]) && Sound(Items(base, deps)[k]) {
      ItemClean(base + 2, deps[k]);
      CleanSound(Items(base, deps)[k]);
    }
  }

  lemma CleanSound(l: Line)
    requires Clean(l)
    ensures Sound(l)
  {
  }

  // The header and the items of a rewritten block.
  function NewBlock(ls: seq<Line>): (r: seq<Line>)
    requires Rewritable(ls)
    ensures r != [] && Rewrite(ls) == r + Rewrite(ls[1 + MapBlock(ls).count..])
  {
    [Bare(ls[0])] + Items(|ls[0].lead|, MapBlock(ls).deps)
  }

  lemma NewBlockClean(ls: seq<Line>)
    requires Rewritable(ls) && AllSound(ls)
    ensures AllClean(NewBlock(ls)) && AllSound(NewBlock(ls))
  {
    hide Clean, Sound, IsHeader, ScanDeps, Items, IsServiceName;
    DepsAreNames(ls[1..], |ls[0].lead|, false);
    BareIsClean(ls[0]);
    ItemsClean(|ls[0].lead|, MapBlock(ls).deps);
  }

  lemma {:induction false} RewriteSound(ls: seq<Line>)
    requires AllSound(ls)
    ensures AllSound(Rewrite(ls))
    decreases |ls|
  {
    hide Clean, Sound, MapBlock, IsHeader;
    if ls != [] {
      if Rewritable(ls) {
        NewBlockClean(ls);
        RewriteSound(ls[1 + MapBlock(ls).count..]);
      } else {
        RewriteSound(ls[1..]);
      }
    }
  }

  // ----- reading the result again --------------------------------------------

  // What the second run reads: each line but the last loses a carriage return at its end.
  function ShaveInit(ls: seq<Line>): (r: seq<Line>)
    ensures |r| == |ls|
    ensures forall k :: 0 <= k < |ls| ==> r[k] == if k < |ls| - 1 then Shave(ls[k]) else ls[k]
  {
    seq(|ls|, k requires 0 <= k < |ls| => if k < |ls| - 1 then Shave(ls[k]) else ls[k])
  }

  predicate InitClean(ls: seq<Line>) {
    forall k :: 0 <= k < |ls| - 1 ==> Clean(ls[k])
  }

  lemma LinesAgain(ls: seq<Line>)
    requires AllSound(ls) && ls != []
    ensures LinesOf(Join(ShowAll(ls))) == ShaveInit(ls)
  {
    hide Show, Parse, Proper, DropCR, SplitLines, Join, Shave;
    var ss := ShowAll(ls);
    SplitJoinAny(ss);
    forall k | 0 <= k < |ls| ensures Parse(DropEach(ss)[k]) == ShaveInit(ls)[k] {
      ShaveParses(ls[k]);
      ShowParses(ls[k]);
    }
  }

  lemma ShaveInitSame(ls: seq<Line>)
    requires AllSound(ls)
    ensures ShaveInit(ls) == ls <==> InitClean(ls)
  {
    hide Sound, Clean, Shave;
    forall k | 0 <= k < |ls| ensures Clean(ls[k]) <==> Shave(ls[k]) == ls[k] {
      ShaveParses(ls[k]);
    }
    if ShaveInit(ls) == ls {
      forall k | 0 <= k < |ls| - 1 ensures Clean(ls[k]) {
        assert ShaveInit(ls)[k] == ls[k];
      }
    }
  }

  lemma {:induction false} JoinInjective(a: seq<string>, b: seq<string>)
    requires a != [] && b != [] && Join(a) == Join(b)
    requires forall k :: 0 <= k < |a| ==> '\n' !in a[k]
    requires forall k :: 0 <= k < |b| ==> '\n' !in b[k]
    ensures a == b
    decreases |a|
  {
    hide IndexOf;
    JoinHead(a);
    JoinHead(b);
    if |a| == 1 || |b| == 1 {
      assert a == [a[0]] && b == [b[0]];
    } else {
      JoinInjective(a[1..], b[1..]);
      assert a == [a[0]] + a[1..] && b == [b[0]] + b[1..];
    }
  }

  lemma JoinHead(a: seq<string>)
    requires a != [] && '\n' !in a[0]
    ensures var k := IndexOf(Join(a), '\n');
            && k == |a[0]| && Join(a)[..k] == a[0]
            && (|a| == 1 <==> k == |Join(a)|)
            && (|a| > 1 ==> Join(a)[k + 1..] == Join(a[1..]))
  {
    hide IndexOf;
    if |a| > 1 {
      IndexOfIs(a[0], '\n', Join(a[1..]));
      assert Join(a) == a[0] + "\n" + Join(a[1..]);
    }
  }

  lemma ShowInjective(a: seq<Line>, b: seq<Line>)
    requires AllSound(a) && AllSound(b) && ShowAll(a) == ShowAll(b)
    ensures a == b
  {
    hide Show, Parse, Proper;
    assert |a| == |ShowAll(a)| == |b|;
    forall k | 0 <= k < |a| ensures a[k] == b[k] {
      assert Show(a[k]) == ShowAll(a)[k] == ShowAll(b)[k] == Show(b[k]);
      ShowParses(a[k]);
      ShowParses(b[k]);
    }
  }

  // ----- a second run --------------------------------------------------------

  // If rewriting lines that differ from `r` at most in a dropped carriage return gives `r`, nothing
  // was rewritten and nothing was dropped: the first line below a rewritten header would be an item.
  lemma {:induction false} NothingDropped(m: seq<Line>, r: seq<Line>)
    requires |m| == |r| && Rewrite(m) == r
    requires forall k :: 0 <= k < |m| ==> m[k] == r[k] || m[k] == Shave(r[k])
    ensures m == r
    decreases |m|
  {
    hide IsHeader, Shave, ScanDeps, Items, IsServiceName;
    if m != [] {
      if Rewritable(m) {
        DepsAreNames(m[1..], |m[0].lead|, false);
        ScanReadsKeys(m[1..], |m[0].lead|, false);
        assert m[1] == m[1..][0];
        assert r[1] == Items(|m[0].lead|, MapBlock(m).deps)[0];
        ItemNotInBlock(m[1], r[1], |m[0].lead|, MapBlock(m).deps[0]);
      } else {
        assert r == [m[0]] + Rewrite(m[1..]);
        assert r[1..] == Rewrite(m[1..]);
        NothingDropped(m[1..], r[1..]);
        assert m == [m[0]] + m[1..];
      }
    }
  }

  lemma ItemNotInBlock(l: Line, item: Line, own: nat, dep: string)
    requires item == Mk(own + 2, "- " + dep) && (l == item || l == Shave(item))
    ensures !InBlock(l, own)
  {
    assert item.body[0] == '-' && item.body[1] == ' ';
    assert l.body == item.body && l.lead == item.lead;
  }

  lemma InitCleanAfter(a: seq<Line>, b: seq<Line>)
    requires AllClean(a)
    ensures InitClean(a + b) <==> InitClean(b)
  {
    hide Clean;
    if InitClean(a + b) {
      forall k | 0 <= k < |b| - 1 ensures Clean(b[k]) {
        assert (a + b)[|a| + k] == b[k];
      }
    }
  }

  lemma InitCleanCons(l: Line, b: seq<Line>)
    ensures InitClean([l] + b) <==> (b == [] || Clean(l)) && InitClean(b)
  {
    hide Clean;
    var s := [l] + b;
    if InitClean(s) && b != [] {
      assert s[0] == l;
      forall k | 0 <= k < |b| - 1 ensures Clean(b[k]) {
        assert s[k + 1] == b[k];
      }
    }
  }

  // The result carries a stray carriage return exactly when a copied line does.
  lemma {:induction false} InitCleanKept(ls: seq<Line>)
    requires AllSound(ls)
    ensures InitClean(Rewrite(ls)) <==> KeptClean(ls)
    decreases |ls|
  {
    hide Clean, Sound, MapBlock, IsHeader, InitClean, AllClean;
    if ls == [] {
      assert InitClean([]) by { hide *; NoLinesClean(); }
    } else if Rewritable(ls) {
      var rest := ls[1 + MapBlock(ls).count..];
      NewBlockClean(ls);
      InitCleanAfter(NewBlock(ls), Rewrite(rest));
      InitCleanKept(rest);
    } else {
      InitCleanKept(ls[1..]);
      InitCleanCons(ls[0], Rewrite(ls[1..]));
      RewriteKeepsSome(ls[1..]);
    }
  }

  lemma NoLinesClean()
    ensures InitClean([])
  {
  }

  lemma TextIsSound(text: string)
    ensures AllSound(LinesOf(text)) && LinesOf(text) != []
  {
    hide SplitLines, Parse, Show, Proper;
    var ss := SplitLines(text);
    SplitHasNoBreaks(text);
    forall k | 0 <= k < |ss| ensures Sound(LinesOf(text)[k]) {
      ParseShows(ss[k]);
    }
  }

  lemma SameText(a: seq<Line>, b: seq<Line>)
    requires a != [] && b != [] && AllSound(a) && AllSound(b)
    ensures Join(ShowAll(a)) == Join(ShowAll(b)) <==> a == b
  {
    hide Show, Proper, Join;
    if Join(ShowAll(a)) == Join(ShowAll(b)) {
      JoinInjective(ShowAll(a), ShowAll(b));
      ShowInjective(a, b);
    }
  }

  // On texts, rewriting twice equals rewriting once exactly when the file holds no trap and no copied
  // line but the last ends in more than one carriage return.
  lemma RewriteTextIdempotentExact(text: string)
    ensures RewriteText(RewriteText(text)) == RewriteText(text) <==> NoTrap(LinesOf(text)) && KeptClean(LinesOf(text))
  {
    hide LinesOf, Rewrite, Join, ShowAll, AllSound, NoTrap, KeptClean, InitClean;
    var ls := LinesOf(text);
    var r := Rewrite(ls);
    TextIsSound(text);
    RewriteKeepsSome(ls);
    RewriteSound(ls);
    LinesAgain(r);
    var m := ShaveInit(r);
    RewriteKeepsSome(m);
    TextIsSound(RewriteText(text));
    RewriteSound(m);
    SameText(Rewrite(m), r);
    ShaveInitSame(r);
    InitCleanKept(ls);
    RewriteIdempotent(ls);
    if Rewrite(m) == r {
      NothingDropped(m, r);
    }
  }

  // In particular on a file without `{}` headers whose copied lines carry no stray carriage return.
  lemma RewriteTextIdempotentNoBraces(text: string)
    requires forall k :: 0 <= k < |LinesOf(text)| ==> !IsBraceHeader(LinesOf(text)[k])
    ensures RewriteText(RewriteText(text)) == RewriteText(text) <==> KeptClean(LinesOf(text))
  {
    hide LinesOf, RewriteText, IsBraceHeader, KeptClean, NoTrap;
    NoBracesNoTrap(LinesOf(text));
    RewriteTextIdempotentExact(text);
  }

  // ----- a text that changes twice -------------------------------------------

  // Two lines that are no headers come out as they were split.
  lemma TwoLines(x: string, y: string)
    requires '\n' !in x && '\n' !in y && !IsHeader(Parse(DropCR(x))) && !IsHeader(Parse(y))
    ensures RewriteText(x + "\n" + y) == DropCR(x) + "\n" + y
  {
    hide SplitLines, Parse, Show, DropCR, IsHeader, MapBlock;
    SplitCons(x, y);
    SplitOne(y);
    var ls := LinesOf(x + "\n" + y);
    assert ls == [Parse(DropCR(x)), Parse(y)];
    ParseShows(DropCR(x));
    ParseShows(y);
    assert ls[1..][1..] == [] && Rewrite(ls[1..]) == ls[1..];
    assert Rewrite(ls) == ls;
    assert ShowAll(Rewrite(ls)) == [DropCR(x), y] && [DropCR(x), y][1..] == [y];
    assert Join([y]) == y && Join([DropCR(x), y]) == DropCR(x) + "\n" + Join([y]);
  }

  lemma StrayCRExample()
    ensures RewriteText("a\r\r\nb") == "a\r\nb" && RewriteText("a\r\nb") == "a\nb"
  {
    LetterLines();
    hide RewriteText, Parse, IsHeader;
    TwoLines("a\r\r", "b");
    TwoLines("a\r", "b");
    assert "a\r\r" + "\n" + "b" == "a\r\r\nb" && "a\r" + "\n" + "b" == "a\r\nb" && "a" + "\n" + "b" == "a\nb";
  }

  lemma LetterLines()
    ensures DropCR("a\r\r") == "a\r" && DropCR("a\r") == "a"
    ensures !IsHeader(Parse("a\r")) && !IsHeader(Parse("a")) && !IsHeader(Parse("b"))
  {
    LetterDrops();
    LetterRests();
    hide Parse, IsHeader, DropCR, IsSpace, AllSpace;
    LetterLine("a\r");
    LetterLine("a");
    LetterLine("b");
  }

  lemma LetterDrops()
    ensures DropCR("a\r\r") == "a\r" && DropCR("a\r") == "a"
  {
    assert "a\r\r"[..2] == "a\r" && "a\r"[..1] == "a";
  }

  lemma LetterRests()
    ensures AllSpace("a\r"[1..]) && AllSpace("a"[1..]) && AllSpace("b"[1..]) && !IsSpace("a\r"[0]) && !IsSpace("a"[0]) && !IsSpace("b"[0])
  {
  }

  // One letter and whitespace make no header.
  lemma LetterLine(s: string)
    requires s != "" && !IsSpace(s[0]) && AllSpace(s[1..])
    ensures !IsHeader(Parse(s))
  {
    hide IsSpace;
    var l := Line("", [s[0]], s[1..]);
    ShowParses(l);
    assert Show(l) == s;
  }
}
