// From text to lines and back: `split(/\r?\n/)`, `join('\n')`, `trim()` and `replace(/\s*$/, '')`.
module ComposeText {
  import opened LineScan

  function TrimStart(s: string): (r: string)
    ensures r == "" || !IsSpace(r[0])
    ensures |r| <= |s| && r == s[|s| - |r|..] && AllSpace(s[..|s| - |r|])
  {
    if s != "" && IsSpace(s[0]) then
      var r := TrimStart(s[1..]);
      assert s[..|s| - |r|] == [s[0]] + s[1..][..|s| - 1 - |r|];
      r
    else s
  }

  function TrimEnd(s: string): (r: string)
    ensures r == "" || !IsSpace(r[|r| - 1])
    ensures r <= s && AllSpace(s[|r|..])
  {
    if s != "" && IsSpace(s[|s| - 1]) then
      var r := TrimEnd(s[..|s| - 1]);
      assert s[|r|..] == s[..|s| - 1][|r|..] + [s[|s| - 1]];
      r
    else s
  }

  function Trim(s: string): string {
    TrimEnd(TrimStart(s))
  }

  // TrimEnd is the only trimmed prefix whose rest is whitespace.
  lemma {:induction false} TrimEndIs(r: string, ws: string)
    requires AllSpace(ws) && (r == "" || !IsSpace(r[|r| - 1]))
    ensures TrimEnd(r + ws) == r
    decreases |ws|
  {
    if ws != "" {
      assert (r + ws)[..|r + ws| - 1] == r + ws[..|ws| - 1];
      TrimEndIs(r, ws[..|ws| - 1]);
    } else {
      assert r + ws == r;
    }
  }

  lemma {:induction false} TrimStartIs(ws: string, r: string)
    requires AllSpace(ws) && (r == "" || !IsSpace(r[0]))
    ensures TrimStart(ws + r) == r
    decreases |ws|
  {
    if ws != "" {
      assert (ws + r)[1..] == ws[1..] + r;
      TrimStartIs(ws[1..], r);
    } else {
      assert ws + r == r;
    }
  }

  predicate Trimmed(s: string) {
    s == "" || (!IsSpace(s[0]) && !IsSpace(s[|s| - 1]))
  }

  // ----- one line ------------------------------------------------------------

  function Parse(s: string): Line {
    var rest := TrimStart(s);
    var body := TrimEnd(rest);
    Line(s[..|s| - |rest|], body, rest[|body|..])
  }

  function Show(l: Line): string {
    l.lead + l.body + l.trail
  }

  // A line as the parser produces it.
  predicate Proper(l: Line) {
    AllSpace(l.lead) && Trimmed(l.body) && AllSpace(l.trail) && (l.body == "" ==> l.trail == "")
  }

  lemma ParseShows(s: string)
    ensures Show(Parse(s)) == s && Proper(Parse(s))
  {
    hide TrimStart, TrimEnd, IsSpace;
    var rest := TrimStart(s);
    var body := TrimEnd(rest);
    assert s == s[..|s| - |rest|] + rest;
    assert rest == body + rest[|body|..];
  }

  lemma ShowParses(l: Line)
    requires Proper(l)
    ensures Parse(Show(l)) == l
  {
    assert l.lead + l.body + l.trail == l.lead + (l.body + l.trail);
    TrimStartIs(l.lead, l.body + l.trail);
    TrimEndIs(l.body, l.trail);
  }

  function ParseAll(ss: seq<string>): (r: seq<Line>)
    ensures |r| == |ss| && forall k :: 0 <= k < |ss| ==> r[k] == Parse(ss[k])
  {
    seq(|ss|, k requires 0 <= k < |ss| => Parse(ss[k]))
  }

  function ShowAll(ls: seq<Line>): (r: seq<string>)
    ensures |r| == |ls| && forall k :: 0 <= k < |ls| ==> r[k] == Show(ls[k])
  {
    seq(|ls|, k requires 0 <= k < |ls| => Show(ls[k]))
  }

  // ----- lines of a text -----------------------------------------------------

  function IndexOf(s: string, c: char): (k: nat)
    ensures k <= |s| && c !in s[..k] && (k < |s| ==> s[k] == c) && (k == |s| <==> c !in s)
  {
    if s == "" || s[0] == c then 0
    else
      var k := IndexOf(s[1..], c);
      assert s[..k + 1] == [s[0]] + s[1..][..k];
      assert s == [s[0]] + s[1..];
      k + 1
  }

  function DropCR(s: string): string {
    if s != "" && s[|s| - 1] == '\r' then s[..|s| - 1] else s
  }

  function SplitLines(s: string): (r: seq<string>)
    ensures r != []
  {
    var k := IndexOf(s, '\n');
    if k == |s| then [s] else [DropCR(s[..k])] + SplitLines(s[k + 1..])
  }

  function LinesOf(text: string): seq<Line> {
    ParseAll(SplitLines(text))
  }

  function Join(ss: seq<string>): string
    requires ss != []
  {
    if |ss| == 1 then ss[0] else ss[0] + "\n" + Join(ss[1..])
  }

  // Lines that a split can produce from a text whose line ends carry no carriage return.
  predicate Physical(ss: seq<string>) {
    && (forall k :: 0 <= k < |ss| ==> '\n' !in ss[k])
    && (forall k :: 0 <= k < |ss| - 1 ==> DropCR(ss[k]) == ss[k])
  }

  lemma IndexOfIs(s: string, c: char, rest: string)
    requires c !in s
    ensures IndexOf(s + [c] + rest, c) == |s|
  {
    var t := s + [c] + rest;
    var k := IndexOf(t, c);
    assert t[|s|] == c;
  }

  lemma SplitCons(head: string, tail: string)
    requires '\n' !in head
    ensures SplitLines(head + "\n" + tail) == [DropCR(head)] + SplitLines(tail)
  {
    hide DropCR, IndexOf;
    IndexOfIs(head, '\n', tail);
    var t := head + "\n" + tail;
    assert t[..|head|] == head && t[|head| + 1..] == tail;
  }

  lemma {:induction false} SplitJoin(ss: seq<string>)
    requires ss != [] && Physical(ss)
    ensures SplitLines(Join(ss)) == ss
    decreases |ss|
  {
    if |ss| == 1 {
      SplitOne(ss[0]);
    } else {
      PhysicalTail(ss);
      hide SplitLines, DropCR;
      SplitCons(ss[0], Join(ss[1..]));
      SplitJoin(ss[1..]);
      assert ss == [ss[0]] + ss[1..];
    }
  }

  lemma SplitOne(s: string)
    requires '\n' !in s
    ensures SplitLines(s) == [s]
  {
  }

  lemma PhysicalTail(ss: seq<string>)
    requires |ss| > 1 && Physical(ss)
    ensures Physical(ss[1..]) && DropCR(ss[0]) == ss[0]
  {
    hide DropCR;
  }

  // No physical line keeps a line break.
  lemma {:induction false} SplitHasNoBreaks(s: string)
    ensures forall k :: 0 <= k < |SplitLines(s)| ==> '\n' !in SplitLines(s)[k]
    decreases |s|
  {
    var k := IndexOf(s, '\n');
    if k < |s| {
      SplitHasNoBreaks(s[k + 1..]);
    }
  }

  lemma {:induction false} JoinSnoc(ss: seq<string>, last: string)
    requires ss != []
    ensures Join(ss + [last]) == Join(ss) + "\n" + last
    decreases |ss|
  {
    if |ss| > 1 {
      assert (ss + [last])[1..] == ss[1..] + [last];
      JoinSnoc(ss[1..], last);
    }
  }

  // ----- dropping trailing blank lines ---------------------------------------

  function StripEnd(ls: seq<Line>): (r: seq<Line>)
    ensures |r| <= |ls|
  {
    if ls == [] then []
    else
      var last := ls[|ls| - 1];
      if last.body == "" then StripEnd(ls[..|ls| - 1]) else ls[..|ls| - 1] + [last.(trail := "")]
  }

  predicate HasText(ls: seq<Line>) {
    exists k :: 0 <= k < |ls| && ls[k].body != ""
  }

  lemma Reassociate(a: string, b: string, c: string, d: string)
    ensures (a + b) + c + d == a + (b + c + d)
  {
  }

  lemma SpaceAppend(a: string, b: string)
    requires AllSpace(a) && AllSpace(b)
    ensures AllSpace(a + "\n" + b)
  {
    assert IsSpace('\n');
    hide IsSpace;
  }

  lemma TrimEndBlankOf(kept: string, rest: string, nl: string, blank: string)
    requires AllSpace(rest) && AllSpace(rest + nl + blank) && (kept == "" || !IsSpace(kept[|kept| - 1]))
    ensures TrimEnd(kept + rest + nl + blank) == TrimEnd(kept + rest)
  {
    hide TrimEnd, IsSpace, AllSpace;
    Reassociate(kept, rest, nl, blank);
    TrimEndIs(kept, rest + nl + blank);
    TrimEndIs(kept, rest);
  }

  // The part that TrimEnd drops.
  lemma TrimmedEnd(s: string) returns (ws: string)
    ensures s == TrimEnd(s) + ws && AllSpace(ws)
  {
    hide IsSpace;
    ws := s[|TrimEnd(s)|..];
  }

  // A blank last line disappears into the trimmed end.
  lemma TrimEndBlank(text: string, blank: string)
    requires AllSpace(blank)
    ensures TrimEnd(text + "\n" + blank) == TrimEnd(text)
  {
    hide TrimEnd, IsSpace, AllSpace;
    var rest := TrimmedEnd(text);
    SpaceAppend(rest, blank);
    TrimEndBlankOf(TrimEnd(text), rest, "\n", blank);
  }

  lemma BareLine(l: Line)
    requires Proper(l) && l.body != ""
    ensures var bare := Show(l.(trail := "")); bare != "" && !IsSpace(bare[|bare| - 1]) && Show(l) == bare + l.trail
  {
    hide IsSpace;
    assert Show(l.(trail := "")) == l.lead + l.body;
  }

  // Trimming the end of the joined text drops the blank lines at the end and the spaces after the last word.
  lemma {:induction false} TrimEndJoin(ls: seq<Line>)
    requires HasText(ls) && forall k :: 0 <= k < |ls| ==> Proper(ls[k])
    ensures StripEnd(ls) != []
    ensures TrimEnd(Join(ShowAll(ls))) == Join(ShowAll(StripEnd(ls)))
    decreases |ls|
  {
    hide TrimEnd, Join, Show, IsSpace;
    var init, last := ls[..|ls| - 1], ls[|ls| - 1];
    assert ShowAll(ls) == ShowAll(init) + [Show(last)];
    if last.body == "" {
      var k :| 0 <= k < |ls| && ls[k].body != "";
      assert init[k].body != "";
      JoinSnoc(ShowAll(init), Show(last));
      BlankLine(last);
      TrimEndBlank(Join(ShowAll(init)), Show(last));
      TrimEndJoin(init);
    } else {
      assert ls == init + [last];
      TrimEndJoinText(init, last);
    }
  }

  lemma BlankLine(l: Line)
    requires Proper(l) && l.body == ""
    ensures AllSpace(Show(l))
  {
    assert Show(l) == l.lead;
  }

  lemma TrimEndJoinText(init: seq<Line>, last: Line)
    requires Proper(last) && last.body != ""
    ensures StripEnd(init + [last]) == init + [last.(trail := "")]
    ensures TrimEnd(Join(ShowAll(init + [last]))) == Join(ShowAll(init + [last.(trail := "")]))
  {
    hide TrimEnd, Show, IsSpace;
    var bare := last.(trail := "");
    assert (init + [last])[..|init|] == init;
    assert ShowAll(init + [last]) == ShowAll(init) + [Show(last)];
    assert ShowAll(init + [bare]) == ShowAll(init) + [Show(bare)];
    BareLine(last);
    if init == [] {
      TrimEndIs(Show(bare), last.trail);
    } else {
      JoinSnoc(ShowAll(init), Show(last));
      JoinSnoc(ShowAll(init), Show(bare));
      var text := Join(ShowAll(init)) + "\n" + Show(bare);
      assert Join(ShowAll(init)) + "\n" + Show(last) == text + last.trail;
      TrimEndIs(text, last.trail);
    }
  }

  // ----- how long the joined text is -----------------------------------------

  function Chars(ss: seq<string>): nat {
    if ss == [] then 0 else |ss[0]| + 1 + Chars(ss[1..])
  }

  lemma {:induction false} JoinLength(ss: seq<string>)
    requires ss != []
    ensures |Join(ss)| == Chars(ss) - 1
    decreases |ss|
  {
    if |ss| > 1 {
      JoinLength(ss[1..]);
    }
  }
}
