// Which cron fields and expressions are accepted, and what an accepted field stands for.
module CronFields {
  import opened Wrappers
  import opened Decimal
  import ComposeText
  import LineScan

  // ----- splitting -----------------------------------------------------------

  function SplitOn(s: string, c: char): (r: seq<string>)
    ensures r != []
    ensures forall k :: 0 <= k < |r| ==> |r[k]| <= |s| && (c in s ==> |r[k]| < |s|) && c !in r[k]
  {
    var k := ComposeText.IndexOf(s, c);
    if k == |s| then [s] else [s[..k]] + SplitOn(s[k + 1..], c)
  }

  function JoinOn(parts: seq<string>, c: char): string
    requires parts != []
  {
    if |parts| == 1 then parts[0] else parts[0] + [c] + JoinOn(parts[1..], c)
  }

  // ----- the recogniser ------------------------------------------------------

  predicate IsStep(v: string) {
    |v| >= 3 && v[0] == '*' && v[1] == '/' && IsNumeral(v[2..])
  }

  predicate IsRange(v: string) {
    var k := ComposeText.IndexOf(v, '-');
    k < |v| && IsNumeral(v[..k]) && IsNumeral(v[k + 1..])
  }

  predicate ValidateCronField(value: string, min: nat, max: nat)
    decreases |value|, 1
  {
    var v := ComposeText.Trim(value);
    assert |v| <= |value|;
    if v == "*" then true
    else if IsStep(v) then 1 <= Value(v[2..]) <= max
    else if ',' in v then Every(SplitOn(v, ','), min, max, |value|)
    else if IsRange(v) then
      var k := ComposeText.IndexOf(v, '-');
      min <= Value(v[..k]) <= Value(v[k + 1..]) <= max
    else IsNumeral(v) && min <= Value(v) <= max
  }

  // Every part is a field; parts of a text with a comma are shorter than `bound`, its length.
  predicate Every(parts: seq<string>, min: nat, max: nat, bound: nat)
    decreases bound, 0
  {
    forall k :: 0 <= k < |parts| ==> |ComposeText.Trim(parts[k])| < bound && ValidateCronField(ComposeText.Trim(parts[k]), min, max)
  }

  // ----- what a field says ---------------------------------------------------

  datatype Item = Star | Step(n: nat) | Num(at: nat) | Range(lo: nat, hi: nat)

  predicate Ok(item: Item, min: nat, max: nat) {
    match item
    case Star => true
    case Step(n) => 1 <= n <= max
    case Num(at) => min <= at <= max
    case Range(lo, hi) => min <= lo <= hi <= max
  }

  // The values an item stands for.
  predicate Matches(item: Item, min: nat, max: nat, x: nat) {
    match item
    case Star => min <= x <= max
    case Step(n) => n > 0 && min <= x <= max && (x - min) % n == 0
    case Num(at) => x == at
    case Range(lo, hi) => lo <= x <= hi
  }

  function ReadItem(v: string): Option<Item> {
    if v == "*" then Some(Star)
    else if IsStep(v) then Some(Step(Value(v[2..])))
    else if IsRange(v) then
      var k := ComposeText.IndexOf(v, '-');
      Some(Range(Value(v[..k]), Value(v[k + 1..])))
    else if IsNumeral(v) then Some(Num(Value(v)))
    else None
  }

  function ReadParts(parts: seq<string>): Option<seq<Item>> {
    if parts == [] then Some([])
    else
      var first, rest := ReadItem(ComposeText.Trim(parts[0])), ReadParts(parts[1..]);
      if first.None? || rest.None? then None else Some([first.value] + rest.value)
  }

  // A comma list of items; bounds play no part in reading.
  function ReadField(value: string): Option<seq<Item>> {
    ReadParts(SplitOn(ComposeText.Trim(value), ','))
  }

  predicate AllOk(items: seq<Item>, min: nat, max: nat) {
    forall k :: 0 <= k < |items| ==> Ok(items[k], min, max)
  }

  // ----- trimming ------------------------------------------------------------

  lemma TrimShorter(s: string)
    ensures |ComposeText.Trim(s)| <= |s| && ComposeText.Trimmed(ComposeText.Trim(s))
  {
    hide LineScan.IsSpace;
    var t := ComposeText.TrimStart(s);
    if ComposeText.TrimEnd(t) != "" {
      assert ComposeText.TrimEnd(t)[0] == t[0];
    }
  }

  lemma TrimOfTrimmed(s: string)
    requires ComposeText.Trimmed(s)
    ensures ComposeText.Trim(s) == s
  {
    hide LineScan.IsSpace;
    ComposeText.TrimStartIs("", s);
    ComposeText.TrimEndIs(s, "");
    assert "" + s == s && s + "" == s;
  }

  // ----- the recogniser reads ------------------------------------------------

  lemma NoComma(s: string)
    requires ',' !in s
    ensures SplitOn(s, ',') == [s]
  {
  }

  lemma ItemHasNoComma(v: string)
    requires v == "*" || IsStep(v)
    ensures ',' !in v
  {
    if IsStep(v) {
      assert forall k :: 2 <= k < |v| ==> v[k] == v[2..][k - 2];
    }
  }

  lemma ValidateItem(value: string, min: nat, max: nat)
    requires ',' !in ComposeText.Trim(value)
    ensures var item := ReadItem(ComposeText.Trim(value)); ValidateCronField(value, min, max) <==> item.Some? && Ok(item.value, min, max)
  {
    TrimShorter(value);
    hide ComposeText.Trim, IsRange, IsStep;
  }

  lemma {:induction false} PartsExact(parts: seq<string>, min: nat, max: nat)
    requires forall k :: 0 <= k < |parts| ==> ',' !in parts[k]
    ensures (ReadParts(parts).Some? && AllOk(ReadParts(parts).value, min, max)) <==>
            forall k :: 0 <= k < |parts| ==> ValidateCronField(ComposeText.Trim(parts[k]), min, max)
  {
    hide ValidateCronField, ReadItem, ComposeText.Trim, Ok;
    if parts != [] {
      PartsExact(parts[1..], min, max);
      var v := ComposeText.Trim(parts[0]);
      TrimShorter(parts[0]);
      assert ',' !in v by { TrimKeepsOut(parts[0], ','); }
      TrimOfTrimmed(v);
      ValidateItem(v, min, max);
      assert forall k :: 0 <= k < |parts| - 1 ==> parts[1..][k] == parts[k + 1];
      if ReadItem(v).Some? && ReadParts(parts[1..]).Some? {
        var items := [ReadItem(v).value] + ReadParts(parts[1..]).value;
        assert AllOk(items, min, max) <==> Ok(items[0], min, max) && AllOk(items[1..], min, max);
      }
    }
  }

  lemma TrimKeepsOut(s: string, c: char)
    requires c !in s
    ensures c !in ComposeText.Trim(s)
  {
    hide LineScan.IsSpace;
    var t := ComposeText.TrimStart(s);
    assert c !in t;
  }

  // A field is accepted exactly when it reads as a list of items that are all in range.
  lemma ValidateExact(value: string, min: nat, max: nat)
    ensures ValidateCronField(value, min, max) <==> ReadField(value).Some? && AllOk(ReadField(value).value, min, max)
  {
    var v := ComposeText.Trim(value);
    TrimShorter(value);
    TrimOfTrimmed(v);
    if ',' in v {
      ListExact(value, min, max);
    } else {
      SingleExact(value, min, max);
    }
  }

  lemma SingleExact(value: string, min: nat, max: nat)
    requires ',' !in ComposeText.Trim(value)
    ensures ValidateCronField(value, min, max) <==> ReadField(value).Some? && AllOk(ReadField(value).value, min, max)
  {
    hide ValidateCronField, ComposeText.Trim, ReadItem, Ok;
    var v := ComposeText.Trim(value);
    ValidateItem(value, min, max);
    NoComma(v);
    assert ReadParts([v][1..]) == Some([]);
    TrimShorter(value);
    TrimOfTrimmed(v);
    if ReadItem(v).Some? {
      var items := [ReadItem(v).value] + [];
      assert ReadField(value) == Some(items);
      assert AllOk(items, min, max) <==> Ok(items[0], min, max);
    }
  }

  lemma ListUnfolds(value: string, min: nat, max: nat)
    requires ',' in ComposeText.Trim(value)
    ensures ValidateCronField(value, min, max) == Every(SplitOn(ComposeText.Trim(value), ','), min, max, |value|)
  {
    hide Every, ComposeText.Trim, SplitOn, IsRange, ComposeText.IndexOf;
    if ComposeText.Trim(value) == "*" || IsStep(ComposeText.Trim(value)) {
      ItemHasNoComma(ComposeText.Trim(value));
    }
  }

  lemma ListExact(value: string, min: nat, max: nat)
    requires ',' in ComposeText.Trim(value)
    ensures ValidateCronField(value, min, max) <==> ReadField(value).Some? && AllOk(ReadField(value).value, min, max)
  {
    hide ValidateCronField, ComposeText.Trim, SplitOn, ReadParts, AllOk;
    var parts := SplitOn(ComposeText.Trim(value), ',');
    TrimShorter(value);
    ListUnfolds(value, min, max);
    forall k | 0 <= k < |parts| ensures |ComposeText.Trim(parts[k])| < |value| {
      TrimShorter(parts[k]);
    }
    PartsExact(parts, min, max);
  }

  // An accepted item stands for at least one value, and for none outside the bounds; a number or a
  // range is accepted exactly then.
  lemma OkMeansInside(item: Item, min: nat, max: nat)
    requires min <= max
    ensures Ok(item, min, max) ==> (exists x: nat :: Matches(item, min, max, x)) && forall x: nat :: Matches(item, min, max, x) ==> min <= x <= max
    ensures (item.Num? || item.Range?) && (exists x: nat :: Matches(item, min, max, x)) && (forall x: nat :: Matches(item, min, max, x) ==> min <= x <= max) ==>
              Ok(item, min, max)
  {
    match item
    case Star => assert Matches(item, min, max, min);
    case Step(n) => assert Ok(item, min, max) ==> Matches(item, min, max, min);
    case Num(at) => assert Matches(item, min, max, at);
    case Range(lo, hi) =>
      if lo <= hi {
        assert Matches(item, min, max, lo) && Matches(item, min, max, hi);
      }
  }

  lemma {:induction false} OneItemAPart(parts: seq<string>)
    ensures ReadParts(parts).Some? ==> |ReadParts(parts).value| == |parts|
  {
    hide ReadItem, ComposeText.Trim;
    if parts != [] {
      OneItemAPart(parts[1..]);
    }
  }

  // The values a field stands for: those of its items.
  ghost predicate FieldMatches(items: seq<Item>, min: nat, max: nat, x: nat) {
    exists k :: 0 <= k < |items| && Matches(items[k], min, max, x)
  }

  // Every accepted field stands for at least one value, and for none outside the bounds.
  lemma AcceptedMeansInside(value: string, min: nat, max: nat)
    requires min <= max && ValidateCronField(value, min, max)
    ensures ReadField(value).Some?
    ensures var items := ReadField(value).value;
            && (exists x: nat :: FieldMatches(items, min, max, x))
            && forall x: nat :: FieldMatches(items, min, max, x) ==> min <= x <= max
  {
    hide ValidateCronField, ReadParts, Matches, Ok, ComposeText.Trim;
    ValidateExact(value, min, max);
    OneItemAPart(SplitOn(ComposeText.Trim(value), ','));
    var items := ReadField(value).value;
    OkMeansInside(items[0], min, max);
    var x: nat :| Matches(items[0], min, max, x);
    assert FieldMatches(items, min, max, x);
    forall y: nat | FieldMatches(items, min, max, y) ensures min <= y <= max {
      var k :| 0 <= k < |items| && Matches(items[k], min, max, y);
      OkMeansInside(items[k], min, max);
    }
  }

  // ----- printing ------------------------------------------------------------

  function PrintItem(item: Item): string {
    match item
    case Star => "*"
    case Step(n) => "*/" + Digits(n)
    case Num(at) => Digits(at)
    case Range(lo, hi) => Digits(lo) + "-" + Digits(hi)
  }

  function PrintAll(items: seq<Item>): (r: seq<string>)
    ensures |r| == |items| && forall k :: 0 <= k < |items| ==> r[k] == PrintItem(items[k])
  {
    seq(|items|, k requires 0 <= k < |items| => PrintItem(items[k]))
  }

  function PrintField(items: seq<Item>): string
    requires items != []
  {
    JoinOn(PrintAll(items), ',')
  }

  // No comma and no whitespace.
  predicate Word(s: string) {
    s != "" && ',' !in s && forall k :: 0 <= k < |s| ==> !LineScan.IsSpace(s[k])
  }

  lemma SplitFirst(a: string, c: char, rest: string)
    requires c !in a
    ensures SplitOn(a + [c] + rest, c) == [a] + SplitOn(rest, c)
  {
    hide ComposeText.IndexOf;
    ComposeText.IndexOfIs(a, c, rest);
    var all := a + [c] + rest;
    assert all[..|a|] == a && all[|a| + 1..] == rest;
  }

  lemma {:induction false} SplitJoined(parts: seq<string>, c: char)
    requires parts != [] && forall k :: 0 <= k < |parts| ==> c !in parts[k]
    ensures SplitOn(JoinOn(parts, c), c) == parts
    decreases |parts|
  {
    if |parts| == 1 {
      assert parts == [parts[0]];
    } else {
      SplitJoined(parts[1..], c);
      hide SplitOn;
      SplitFirst(parts[0], c, JoinOn(parts[1..], c));
      assert parts == [parts[0]] + parts[1..];
    }
  }

  lemma NumeralChars(s: string)
    requires IsNumeral(s)
    ensures Word(s) && '-' !in s && s[0] != '*'
  {
    assert LineScan.IsDigit(s[0]);
    forall k | 0 <= k < |s| ensures !LineScan.IsSpace(s[k]) && s[k] != ',' && s[k] != '-' {
      assert LineScan.IsDigit(s[k]);
    }
  }

  lemma ItemReadsBack(item: Item)
    ensures Word(PrintItem(item)) && ReadItem(PrintItem(item)) == Some(item)
  {
    hide Word;
    match item
    case Star => assert Word("*") by { StarIsWord(); }
    case Step(n) => StepReadsBack(n);
    case Num(at) => NumReadsBack(at);
    case Range(lo, hi) => RangeReadsBack(lo, hi);
  }

  lemma StarIsWord()
    ensures Word("*") && Word("*/")
  {
  }

  lemma StepReadsBack(n: nat)
    ensures Word("*/" + Digits(n)) && ReadItem("*/" + Digits(n)) == Some(Step(n))
  {
    hide Word, IsNumeral, Digits, IsRange;
    NumeralChars(Digits(n));
    DigitsReadBack(n);
    StarIsWord();
    WordsTogether("*/", Digits(n));
    var v := "*/" + Digits(n);
    assert v[2..] == Digits(n);
  }

  lemma PunctuationIsNoSpace()
    ensures !LineScan.IsSpace('*') && !LineScan.IsSpace('/') && !LineScan.IsSpace('-') && !LineScan.IsSpace(',')
  {
  }

  lemma NumReadsBack(n: nat)
    ensures Word(Digits(n)) && ReadItem(Digits(n)) == Some(Num(n))
  {
    NumeralChars(Digits(n));
    DigitsReadBack(n);
  }

  lemma RangeReadsBack(lo: nat, hi: nat)
    ensures Word(Digits(lo) + "-" + Digits(hi)) && ReadItem(Digits(lo) + "-" + Digits(hi)) == Some(Range(lo, hi))
  {
    hide Word, IsNumeral, IsRange, Digits;
    var a, b := Digits(lo), Digits(hi);
    NumeralChars(a);
    NumeralChars(b);
    DigitsReadBack(lo);
    DigitsReadBack(hi);
    DashIsWord();
    WordsTogether(a, "-");
    WordsTogether(a + "-", b);
    RangeIs(a, b);
    var v := a + "-" + b;
    assert v[0] == a[0];
  }

  lemma DashIsWord()
    ensures Word("-")
  {
  }

  lemma WordsTogether(a: string, b: string)
    requires Word(a) && Word(b)
    ensures Word(a + b)
  {
    hide LineScan.IsSpace;
  }

  lemma RangeIs(a: string, b: string)
    requires IsNumeral(a) && IsNumeral(b) && '-' !in a
    ensures var v := a + "-" + b; IsRange(v) && ComposeText.IndexOf(v, '-') == |a| && v[..|a|] == a && v[|a| + 1..] == b
  {
    hide IsNumeral, ComposeText.IndexOf;
    ComposeText.IndexOfIs(a, '-', b);
    var v := a + "-" + b;
    assert v == a + ['-'] + b;
    assert v[..|a|] == a && v[|a| + 1..] == b;
  }

  lemma {:induction false} PartsReadBack(items: seq<Item>)
    ensures ReadParts(PrintAll(items)) == Some(items)
  {
    hide ReadItem, PrintItem, ComposeText.Trim, LineScan.IsSpace, PrintAll;
    if items == [] {
      PrintNone();
    } else {
      PartsReadBack(items[1..]);
      ItemReadsBack(items[0]);
      TrimOfTrimmed(PrintItem(items[0]));
      PrintCons(items);
      ReadCons(PrintItem(items[0]), PrintAll(items[1..]));
      assert items == [items[0]] + items[1..];
    }
  }

  lemma PrintNone()
    ensures PrintAll([]) == []
  {
  }

  lemma PrintCons(items: seq<Item>)
    requires items != []
    ensures PrintAll(items) == [PrintItem(items[0])] + PrintAll(items[1..])
  {
    hide PrintItem;
  }

  lemma ReadCons(part: string, rest: seq<string>)
    ensures var first, more := ReadItem(ComposeText.Trim(part)), ReadParts(rest);
            ReadParts([part] + rest) == if first.None? || more.None? then None else Some([first.value] + more.value)
  {
    hide ReadItem, ComposeText.Trim;
    assert ([part] + rest)[1..] == rest;
  }

  lemma {:induction false} JoinedIsTrimmed(parts: seq<string>)
    requires parts != [] && forall k :: 0 <= k < |parts| ==> Word(parts[k])
    ensures var s := JoinOn(parts, ','); s != "" && NoSpaceIn(s)
    decreases |parts|
  {
    hide LineScan.IsSpace;
    if |parts| > 1 {
      JoinedIsTrimmed(parts[1..]);
      PunctuationIsNoSpace();
    }
  }

  predicate NoSpaceIn(s: string) {
    forall k :: 0 <= k < |s| ==> !LineScan.IsSpace(s[k])
  }

  lemma FieldReadsBack(items: seq<Item>)
    requires items != []
    ensures PrintField(items) != "" && NoSpaceIn(PrintField(items))
    ensures ReadField(PrintField(items)) == Some(items)
  {
    hide PrintItem, LineScan.IsSpace, ReadParts, JoinOn, SplitOn, ComposeText.Trim;
    var parts := PrintAll(items);
    forall k | 0 <= k < |parts| ensures Word(parts[k]) && ',' !in parts[k] {
      ItemReadsBack(items[k]);
    }
    JoinedIsTrimmed(parts);
    TrimOfTrimmed(PrintField(items));
    SplitJoined(parts, ',');
    PartsReadBack(items);
  }

  // Printing a list of items gives an accepted field exactly when every item is in range.
  lemma PrintAccepted(items: seq<Item>, min: nat, max: nat)
    requires items != []
    ensures ValidateCronField(PrintField(items), min, max) <==> AllOk(items, min, max)
  {
    hide *;
    ValidateExact(PrintField(items), min, max);
    FieldReadsBack(items);
  }

  // ----- expressions ---------------------------------------------------------

  function FirstSpace(s: string): (k: nat)
    ensures k <= |s| && (forall j :: 0 <= j < k ==> !LineScan.IsSpace(s[j])) && (k < |s| ==> LineScan.IsSpace(s[k]))
  {
    if s == "" || LineScan.IsSpace(s[0]) then 0 else 1 + FirstSpace(s[1..])
  }

  // split(/\s+/) of a trimmed text
  function SplitSpaces(s: string): seq<string>
    decreases |s|
  {
    var k := FirstSpace(s);
    if k == |s| then [s]
    else
      var rest := ComposeText.TrimStart(s[k + 1..]);
      [s[..k]] + SplitSpaces(rest)
  }

  predicate IsValidCronExpression(expr: string) {
    var parts := SplitSpaces(ComposeText.Trim(expr));
    && |parts| == 5
    && ValidateCronField(parts[0], 0, 59) && ValidateCronField(parts[1], 0, 23) && ValidateCronField(parts[2], 1, 31)
    && ValidateCronField(parts[3], 1, 12) && ValidateCronField(parts[4], 0, 6)
  }

  datatype Expression = Expression(minute: seq<Item>, hour: seq<Item>, day: seq<Item>, month: seq<Item>, weekday: seq<Item>)

  predicate Complete(e: Expression) {
    e.minute != [] && e.hour != [] && e.day != [] && e.month != [] && e.weekday != []
  }

  function Fields(e: Expression): seq<string>
    requires Complete(e)
  {
    [PrintField(e.minute), PrintField(e.hour), PrintField(e.day), PrintField(e.month), PrintField(e.weekday)]
  }

  predicate Bare(s: string) {
    s != "" && NoSpaceIn(s)
  }

  lemma FirstSpaceIs(a: string, rest: string)
    requires NoSpaceIn(a)
    ensures FirstSpace(a + " " + rest) == |a|
  {
    var s := a + " " + rest;
    assert s[|a|] == ' ';
    assert forall j :: 0 <= j < |a| ==> s[j] == a[j];
  }

  lemma SplitWord(a: string, rest: string)
    requires NoSpaceIn(a) && rest != "" && !LineScan.IsSpace(rest[0])
    ensures SplitSpaces(a + " " + rest) == [a] + SplitSpaces(rest)
  {
    FirstSpaceIs(a, rest);
    hide LineScan.IsSpace;
    var s := a + " " + rest;
    assert s[..|a|] == a && s[|a| + 1..] == rest;
  }

  lemma {:induction false} SplitBare(words: seq<string>)
    requires words != [] && forall k :: 0 <= k < |words| ==> Bare(words[k])
    ensures var s := JoinOn(words, ' '); SplitSpaces(s) == words && ComposeText.Trimmed(s) && s != ""
    decreases |words|
  {
    hide LineScan.IsSpace, SplitSpaces;
    if |words| == 1 {
      OneWord(words[0]);
      assert words == [words[0]];
    } else {
      SplitBare(words[1..]);
      var rest := JoinOn(words[1..], ' ');
      SplitWord(words[0], rest);
      assert words[0] + [' '] + rest == words[0] + " " + rest;
      assert words == [words[0]] + words[1..];
    }
  }

  lemma OneWord(s: string)
    requires Bare(s)
    ensures SplitSpaces(s) == [s]
  {
    var k := FirstSpace(s);
    hide LineScan.IsSpace;
  }

  // Five printed fields make an accepted expression exactly when every item of every field is in
  // the range of its place.
  lemma ExpressionAccepted(e: Expression)
    requires Complete(e)
    ensures IsValidCronExpression(JoinOn(Fields(e), ' ')) <==>
            && AllOk(e.minute, 0, 59) && AllOk(e.hour, 0, 23) && AllOk(e.day, 1, 31)
            && AllOk(e.month, 1, 12) && AllOk(e.weekday, 0, 6)
  {
    hide PrintField, AllOk, ValidateCronField, SplitSpaces, ComposeText.Trim, JoinOn, LineScan.IsSpace;
    FieldReadsBack(e.minute);
    FieldReadsBack(e.hour);
    FieldReadsBack(e.day);
    FieldReadsBack(e.month);
    FieldReadsBack(e.weekday);
    SplitBare(Fields(e));
    TrimOfTrimmed(JoinOn(Fields(e), ' '));
    PrintAccepted(e.minute, 0, 59);
    PrintAccepted(e.hour, 0, 23);
    PrintAccepted(e.day, 1, 31);
    PrintAccepted(e.month, 1, 12);
    PrintAccepted(e.weekday, 0, 6);
  }
}
