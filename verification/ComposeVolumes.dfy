// Named volumes of a compose file: the mounts in use, the names under root `volumes:`, and the pass
// that appends the missing declarations.
module ComposeVolumes {
  import opened Wrappers
  import opened LineScan
  import opened ComposeText

  // ----- what a line says ----------------------------------------------------

  function NameRun(s: string): (n: nat)
    ensures n <= |s| && (forall k :: 0 <= k < n ==> IsNameChar(s[k])) && (n < |s| ==> !IsNameChar(s[n]))
  {
    if s == "" || !IsNameChar(s[0]) then 0 else 1 + NameRun(s[1..])
  }

  function Unquoted(s: string): string {
    if s != "" && (s[0] == '\'' || s[0] == '"') then s[1..] else s
  }

  // `:/` or `:${` at position n
  predicate PathAt(s: string, n: nat) {
    n + 1 < |s| && s[n] == ':' && (s[n + 1] == '/' || (n + 2 < |s| && s[n + 1] == '$' && s[n + 2] == '{'))
  }

  function MountOf(t: string): Option<string> {
    var n := NameRun(t);
    if n > 0 && IsAlpha(t[0]) && PathAt(t, n) then Some(t[..n]) else None
  }

  // `- name:/path` or `- name:${VAR}`, the name possibly after an opening quote
  function MountName(body: string): Option<string> {
    if body == "" || body[0] != '-' then None else MountOf(Unquoted(TrimStart(body[1..])))
  }

  lemma MountIsName(body: string)
    ensures MountName(body).Some? ==> IsServiceName(MountName(body).value) && IsRootName(MountName(body).value)
  {
    hide TrimStart, Unquoted;
    if body != "" && body[0] == '-' {
      var t := Unquoted(TrimStart(body[1..]));
      var n := NameRun(t);
      if n > 0 {
        assert t[..n][0] == t[0];
      }
    }
  }

  // /^volumes:\s*(\{\})?\s*$/
  predicate IsVolumesHeader(l: Line) {
    && l.lead == ""
    && (l.body == "volumes:" ||
        (|l.body| >= 10 && l.body[..8] == "volumes:" && l.body[|l.body| - 2..] == "{}" && AllSpace(l.body[8..|l.body| - 2])))
  }

  // `name:` and nothing else, at any indent
  predicate IsBareKey(l: Line) {
    IsKeyBody(l.body) && IsRootName(KeyName(l.body))
  }

  // A line in the first column that ends the scan of the section.
  predicate Closes(l: Line) {
    !IsBlankOrComment(l) && l.lead == "" && !IsBareKey(l)
  }

  // ----- what the scans find -------------------------------------------------

  function Used(ls: seq<Line>): set<string> {
    set k | 0 <= k < |ls| && MountName(ls[k].body).Some? :: MountName(ls[k].body).value
  }

  function HeaderAt(ls: seq<Line>): (h: nat)
    ensures h <= |ls| && (h < |ls| ==> IsVolumesHeader(ls[h]))
    ensures forall k :: 0 <= k < h ==> !IsVolumesHeader(ls[k])
  {
    if ls == [] || IsVolumesHeader(ls[0]) then 0 else 1 + HeaderAt(ls[1..])
  }

  function KeysBelow(ls: seq<Line>): set<string> {
    if ls == [] || Closes(ls[0]) then {}
    else (if !IsBlankOrComment(ls[0]) && IsBareKey(ls[0]) then {KeyName(ls[0].body)} else {}) + KeysBelow(ls[1..])
  }

  function Declared(ls: seq<Line>): set<string> {
    var h := HeaderAt(ls);
    if h == |ls| then {} else KeysBelow(ls[h + 1..])
  }

  // The scan of root `volumes:` would see a line appended at the end.
  predicate Open(ls: seq<Line>) {
    forall k :: HeaderAt(ls) < k < |ls| ==> !Closes(ls[k])
  }

  // ----- the pass ------------------------------------------------------------

  // The names in use, each once; the source sorts them.
  ghost predicate Lists(names: seq<string>, s: set<string>) {
    && (forall n :: n in names <==> n in s)
    && forall i, j :: 0 <= i < j < |names| ==> names[i] != names[j]
  }

  function Missing(used: seq<string>, declared: set<string>): (r: seq<string>)
    ensures forall n :: n in r <==> n in used && n !in declared
  {
    if used == [] then []
    else (if used[0] in declared then [] else [used[0]]) + Missing(used[1..], declared)
  }

  function KeyText(name: string): string {
    "  " + name + ":"
  }

  function DriverText(): string {
    "    driver: local"
  }

  function BlockLines(names: seq<string>): seq<string> {
    if names == [] then [] else [KeyText(names[0]), DriverText()] + BlockLines(names[1..])
  }

  function HeaderText(): seq<string> {
    ["", "volumes:"]
  }

  // The lines appended to a file: a new section header if no name was declared.
  function Added(ls: seq<Line>, missing: seq<string>): seq<string> {
    (if Declared(ls) != {} then [] else HeaderText()) + BlockLines(missing)
  }

  // `used` lists the mounts of the text.
  function Ensured(text: string, used: seq<string>): string {
    var ls := LinesOf(Trim(text));
    var missing := Missing(used, Declared(ls));
    if Trim(text) == "" then ""
    else if missing == [] then text
    else TrimEnd(text) + "\n" + Join(Added(ls, missing)) + "\n"
  }

  // ----- reading the appended lines back -------------------------------------

  lemma {:induction false} SplitAppend(a: string, b: string)
    requires a == "" || a[|a| - 1] != '\r'
    ensures SplitLines(a + "\n" + b) == SplitLines(a) + SplitLines(b)
    decreases |a|
  {
    hide IndexOf;
    var k := IndexOf(a, '\n');
    if k == |a| {
      hide SplitLines;
      SplitCons(a, b);
      SplitOne(a);
    } else {
      var head, tail := a[..k], a[k + 1..];
      assert a == head + "\n" + tail;
      assert tail == "" || tail[|tail| - 1] == a[|a| - 1];
      SplitAppend(tail, b);
      hide SplitLines, DropCR;
      SplitStep(head, tail, b);
    }
  }

  lemma SplitStep(head: string, tail: string, b: string)
    requires '\n' !in head && SplitLines(tail + "\n" + b) == SplitLines(tail) + SplitLines(b)
    ensures SplitLines(head + "\n" + tail + "\n" + b) == SplitLines(head + "\n" + tail) + SplitLines(b)
  {
    hide SplitLines, DropCR;
    assert head + "\n" + tail + "\n" + b == head + "\n" + (tail + "\n" + b);
    SplitCons(head, tail + "\n" + b);
    SplitCons(head, tail);
  }

  function EntryLines(name: string): (r: seq<Line>)
    ensures |r| == 2
  {
    [Line("  ", name + ":", ""), Line("    ", "driver: local", "")]
  }

  function BlockOf(names: seq<string>): seq<Line> {
    if names == [] then [] else EntryLines(names[0]) + BlockOf(names[1..])
  }

  function AddedLines(ls: seq<Line>, missing: seq<string>): seq<Line> {
    (if Declared(ls) != {} then [] else NewHeader()) + BlockOf(missing)
  }

  predicate VolumeNames(names: seq<string>) {
    forall k :: 0 <= k < |names| ==> IsServiceName(names[k]) && IsRootName(names[k])
  }

  lemma NameIsWord(name: string)
    requires IsRootName(name)
    ensures Proper(Line("  ", name + ":", "")) && '\n' !in name && name + ":" != "" && (name + ":")[0] == name[0]
    ensures name[0] != '#' && name[0] != '-' && !IsSpace(name[0])
  {
    assert forall k :: 0 <= k < |name| ==> !IsSpace(name[k]);
  }

  lemma EntryParses(name: string)
    requires IsRootName(name)
    ensures Parse(KeyText(name)) == EntryLines(name)[0] && '\n' !in KeyText(name) && DropCR(KeyText(name)) == KeyText(name)
  {
    hide Parse;
    NameIsWord(name);
    hide IsRootName;
    var l := EntryLines(name)[0];
    ShowParses(l);
    assert Show(l) == KeyText(name);
  }

  lemma DriverParses(name: string)
    ensures Parse(DriverText()) == EntryLines(name)[1] && '\n' !in DriverText() && DropCR(DriverText()) == DriverText()
    ensures DriverText() != "" && DriverText()[|DriverText()| - 1] == 'l'
  {
    hide Parse;
    var l := EntryLines(name)[1];
    assert Proper(l);
    ShowParses(l);
    assert Show(l) == DriverText();
  }

  lemma HeaderParses()
    ensures Parse("") == Line("", "", "") && Parse("volumes:") == Line("", "volumes:", "")
    ensures Physical(["", "volumes:", ""])
  {
    hide Parse;
    var l := Line("", "volumes:", "");
    assert Proper(l);
    ShowParses(l);
    ShowParses(Line("", "", ""));
    assert Show(l) == "volumes:" && Show(Line("", "", "")) == "";
  }

  lemma PairParses(a: string, b: string, rest: seq<string>)
    requires '\n' !in a && '\n' !in b && DropCR(a) == a && DropCR(b) == b && Physical(rest)
    ensures Physical([a, b] + rest) && ParseAll([a, b] + rest) == [Parse(a), Parse(b)] + ParseAll(rest)
  {
    hide DropCR, Parse;
  }

  lemma {:induction false} BlockParses(names: seq<string>)
    requires VolumeNames(names)
    ensures ParseAll(BlockLines(names)) == BlockOf(names) && Physical(BlockLines(names))
    ensures names != [] ==> BlockLines(names) != [] && BlockLines(names)[|BlockLines(names)| - 1] == DriverText()
    decreases |names|
  {
    hide KeyText, DriverText, Physical, EntryLines, IsServiceName, IsRootName, Parse, DropCR;
    if names == [] {
      assert Physical([]) by { hide *; NoLines(); }
    } else {
      BlockParses(names[1..]);
      EntryParses(names[0]);
      DriverParses(names[0]);
      PairParses(KeyText(names[0]), DriverText(), BlockLines(names[1..]));
      assert EntryLines(names[0]) == [EntryLines(names[0])[0], EntryLines(names[0])[1]];
    }
  }

  lemma NoLines()
    ensures Physical([])
  {
  }

  // ----- scanning a longer file ----------------------------------------------

  predicate NoCloser(ls: seq<Line>) {
    forall k :: 0 <= k < |ls| ==> !Closes(ls[k])
  }

  lemma {:induction false} KeysConcat(a: seq<Line>, b: seq<Line>)
    ensures KeysBelow(a + b) == KeysBelow(a) + if NoCloser(a) then KeysBelow(b) else {}
  {
    hide IsBareKey, IsBlankOrComment, Closes;
    if a == [] {
      assert a + b == b;
    } else {
      assert (a + b)[1..] == a[1..] + b;
      KeysConcat(a[1..], b);
      if NoCloser(a[1..]) && !Closes(a[0]) {
        assert NoCloser(a);
      }
    }
  }

  lemma {:induction false} HeaderConcat(a: seq<Line>, b: seq<Line>)
    ensures HeaderAt(a + b) == if HeaderAt(a) < |a| then HeaderAt(a) else |a| + HeaderAt(b)
  {
    hide IsVolumesHeader;
    if a == [] {
      assert a + b == b;
    } else {
      assert (a + b)[1..] == a[1..] + b;
      HeaderConcat(a[1..], b);
    }
  }

  lemma UsedConcat(a: seq<Line>, b: seq<Line>)
    ensures Used(a + b) == Used(a) + Used(b)
  {
    hide MountName;
    forall n | n in Used(b) ensures n in Used(a + b) {
      var k :| 0 <= k < |b| && MountName(b[k].body) == Some(n);
      assert (a + b)[|a| + k] == b[k];
    }
    forall n | n in Used(a) ensures n in Used(a + b) {
      var k :| 0 <= k < |a| && MountName(a[k].body) == Some(n);
      assert (a + b)[k] == a[k];
    }
  }

  function Names(names: seq<string>): set<string> {
    set k | 0 <= k < |names| :: names[k]
  }

  lemma EntryScan(name: string)
    requires IsRootName(name)
    ensures var e := EntryLines(name);
            && NoCloser(e) && KeysBelow(e) == {name} && HeaderAt(e) == 2
            && MountName(e[0].body).None? && MountName(e[1].body).None?
  {
    EntryKeys(name);
    EntryIsNoMount(name);
    hide IsRootName, IsBareKey, EntryLines, Closes, IsVolumesHeader, MountName, KeysBelow, HeaderAt;
    var e := EntryLines(name);
    assert e == [e[0], e[1]];
    KeyAndOption(e[0], e[1]);
  }

  lemma EntryKeys(name: string)
    requires IsRootName(name)
    ensures var e := EntryLines(name);
            && IsBareKey(e[0]) && KeyName(e[0].body) == name && !IsBlankOrComment(e[0]) && !Closes(e[0]) && !IsVolumesHeader(e[0])
            && !IsBareKey(e[1]) && !Closes(e[1]) && !IsVolumesHeader(e[1])
  {
    NameIsWord(name);
    hide IsRootName;
    var e := EntryLines(name);
    assert KeyName(name + ":") == name;
    assert e[1].body[12] == 'l';
  }

  lemma EntryIsNoMount(name: string)
    requires IsRootName(name)
    ensures var e := EntryLines(name); MountName(e[0].body).None? && MountName(e[1].body).None?
  {
    NameIsWord(name);
    hide IsRootName;
  }

  // A key line and a line below it that is none.
  lemma KeyAndOption(key: Line, option: Line)
    requires IsBareKey(key) && !IsBlankOrComment(key) && !Closes(key) && !IsVolumesHeader(key)
    requires !IsBareKey(option) && !Closes(option) && !IsVolumesHeader(option)
    ensures var e := [key, option]; NoCloser(e) && KeysBelow(e) == {KeyName(key.body)} && HeaderAt(e) == 2
  {
    hide IsBareKey, IsBlankOrComment, Closes, IsVolumesHeader;
    assert [key, option][1..] == [option] && [option][1..] == [];
    assert KeysBelow([option]) == KeysBelow([]) && HeaderAt([option]) == 1 + HeaderAt([]);
    assert KeysBelow([]) == {};
  }

  lemma {:induction false} BlockScan(names: seq<string>)
    requires VolumeNames(names)
    ensures var b := BlockOf(names); NoCloser(b) && KeysBelow(b) == Names(names) && HeaderAt(b) == |b| && Used(b) == {}
    decreases |names|
  {
    hide IsServiceName, IsRootName, EntryLines, MountName, Closes, IsVolumesHeader;
    if names != [] {
      var e, rest := EntryLines(names[0]), BlockOf(names[1..]);
      BlockScan(names[1..]);
      EntryScan(names[0]);
      hide BlockOf, KeysBelow, HeaderAt;
      KeysConcat(e, rest);
      HeaderConcat(e, rest);
      UsedConcat(e, rest);
      assert Used(e) == {};
      assert BlockOf(names) == e + rest by { hide *; BlockOfCons(names); }
      assert Names(names) == {names[0]} + Names(names[1..]) by { NamesCons(names); }
    }
  }

  lemma BlockOfCons(names: seq<string>)
    requires names != []
    ensures BlockOf(names) == EntryLines(names[0]) + BlockOf(names[1..])
  {
  }

  lemma NamesCons(names: seq<string>)
    requires names != []
    ensures Names(names) == {names[0]} + Names(names[1..])
  {
    forall n | n in Names(names) ensures n in {names[0]} + Names(names[1..]) {
      var k :| 0 <= k < |names| && names[k] == n;
      if k > 0 {
        assert names[1..][k - 1] == n;
      }
    }
  }

  function NewHeader(): (r: seq<Line>)
    ensures |r| == 2
  {
    [Line("", "", ""), Line("", "volumes:", "")]
  }

  lemma NewHeaderScan()
    ensures var n := NewHeader();
            && NoCloser(n) && KeysBelow(n) == {"volumes"} && HeaderAt(n) == 1 && Used(n) == {}
  {
    var n := NewHeader();
    var v := "volumes:";
    assert v[..7] == "volumes" && |v| == 8 && v[7] == ':' && v[0] == 'v';
    assert IsRootName("volumes");
    assert IsBareKey(n[1]);
    hide IsRootName, IsBareKey;
    assert n[1..] == [n[1]] && [n[1]][1..] == [];
    assert KeysBelow([n[1]]) == {"volumes"};
  }

  lemma HeaderPresent(ls: seq<Line>, added: seq<Line>)
    requires HeaderAt(ls) < |ls|
    ensures Declared(ls + added) == Declared(ls) + if Open(ls) then KeysBelow(added) else {}
  {
    hide Open, NoCloser, IsVolumesHeader, KeysBelow, HeaderAt;
    HeaderConcat(ls, added);
    TailFrom(ls, added, HeaderAt(ls) + 1);
    KeysConcat(ls[HeaderAt(ls) + 1..], added);
    OpenTail(ls);
  }

  lemma TailFrom(ls: seq<Line>, added: seq<Line>, k: nat)
    requires k <= |ls|
    ensures (ls + added)[k..] == ls[k..] + added
  {
  }

  lemma HeaderFound(a: seq<Line>, x: Line, b: seq<Line>)
    requires HeaderAt(a) == |a| && IsVolumesHeader(x)
    ensures Declared(a + ([x] + b)) == KeysBelow(b)
  {
    hide KeysBelow, IsVolumesHeader;
    HeaderConcat(a, [x] + b);
    assert ([x] + b)[0] == x;
    assert (a + ([x] + b))[|a| + 1..] == b;
  }

  lemma HeaderAbsent(ls: seq<Line>, block: seq<Line>)
    requires HeaderAt(ls) == |ls|
    ensures Declared(ls + (NewHeader() + block)) == KeysBelow(block)
  {
    var blank, x := NewHeader()[0], NewHeader()[1];
    HeaderParts();
    hide IsVolumesHeader, KeysBelow, HeaderAt, Declared, NewHeader;
    HeaderConcat(ls, [blank]);
    HeaderFound(ls + [blank], x, block);
    Regroup(ls, blank, x, block);
  }

  lemma HeaderParts()
    ensures NewHeader() == [NewHeader()[0], NewHeader()[1]]
    ensures HeaderAt([NewHeader()[0]]) == 1 && IsVolumesHeader(NewHeader()[1])
  {
    var blank := Line("", "", "");
    assert !IsVolumesHeader(blank);
    hide IsVolumesHeader;
    assert [blank][1..] == [];
    assert HeaderAt([blank]) == 1;
    assert IsVolumesHeader(Line("", "volumes:", "")) by { hide *; VolumesIsHeader(); }
  }

  lemma VolumesIsHeader()
    ensures IsVolumesHeader(Line("", "volumes:", ""))
  {
  }

  lemma Regroup(ls: seq<Line>, a: Line, b: Line, rest: seq<Line>)
    ensures ls + ([a, b] + rest) == (ls + [a]) + ([b] + rest)
  {
  }

  // What is declared once the missing names are appended.
  lemma DeclaredAfter(ls: seq<Line>, missing: seq<string>)
    requires VolumeNames(missing)
    ensures Declared(ls + AddedLines(ls, missing)) ==
            if !Open(ls) then Declared(ls)
            else Declared(ls) + Names(missing) + if Declared(ls) == {} && HeaderAt(ls) < |ls| then {"volumes"} else {}
  {
    hide NewHeader, BlockOf, Closes, IsVolumesHeader, VolumeNames, KeysBelow, HeaderAt, NoCloser, AddedLines, Names;
    BlockScan(missing);
    AddedIs(ls, missing);
    if HeaderAt(ls) < |ls| {
      HeaderPresent(ls, AddedLines(ls, missing));
      AddedKeys(ls, missing);
    } else {
      HeaderAbsent(ls, BlockOf(missing));
    }
  }

  lemma AddedKeys(ls: seq<Line>, missing: seq<string>)
    requires VolumeNames(missing)
    ensures KeysBelow(AddedLines(ls, missing)) == Names(missing) + if Declared(ls) == {} then {"volumes"} else {}
    ensures Used(AddedLines(ls, missing)) == {}
  {
    hide NewHeader, BlockOf, VolumeNames, KeysBelow, Used, NoCloser, Names, Declared;
    BlockScan(missing);
    NewHeaderScan();
    KeysConcat(NewHeader(), BlockOf(missing));
    UsedConcat(NewHeader(), BlockOf(missing));
    assert [] + BlockOf(missing) == BlockOf(missing);
  }

  // Appending declarations adds no mount.
  lemma UsedAfter(ls: seq<Line>, missing: seq<string>)
    requires VolumeNames(missing)
    ensures Used(ls + AddedLines(ls, missing)) == Used(ls)
  {
    hide Used, AddedLines, VolumeNames;
    AddedKeys(ls, missing);
    UsedConcat(ls, AddedLines(ls, missing));
  }

  lemma AddedIs(ls: seq<Line>, missing: seq<string>)
    ensures AddedLines(ls, missing) == (if Declared(ls) != {} then [] else NewHeader()) + BlockOf(missing)
  {
  }

  lemma OpenTail(ls: seq<Line>)
    requires HeaderAt(ls) < |ls|
    ensures Open(ls) <==> NoCloser(ls[HeaderAt(ls) + 1..])
  {
    hide Closes, IsVolumesHeader, HeaderAt;
    var h := HeaderAt(ls);
    var tail := ls[h + 1..];
    assert forall k :: 0 <= k < |tail| ==> tail[k] == ls[h + 1 + k];
    if NoCloser(tail) {
      forall k | h < k < |ls| ensures !Closes(ls[k]) {
        assert ls[k] == tail[k - h - 1];
      }
    }
  }

  // ----- the text ------------------------------------------------------------

  lemma TrimParts(text: string) returns (a: string, b: string)
    ensures text == a + Trim(text) + b && AllSpace(a) && AllSpace(b)
    ensures Trim(text) != "" ==> TrimEnd(text) == a + Trim(text)
  {
    hide TrimStart, TrimEnd, AllSpace, IsSpace;
    var t := TrimStart(text);
    a := TrimmedStart(text);
    b := TrimmedEnd(t);
    Reassociated(a, Trim(text), b);
    if Trim(text) != "" {
      TrimEndOf(a, Trim(text), b);
    }
  }

  lemma TrimmedStart(s: string) returns (ws: string)
    ensures s == ws + TrimStart(s) && AllSpace(ws)
  {
    hide TrimStart, IsSpace;
    ws := s[..|s| - |TrimStart(s)|];
  }

  lemma Reassociated(a: string, b: string, c: string)
    ensures a + (b + c) == a + b + c
  {
  }

  lemma TrimEndOf(a: string, m: string, b: string)
    requires m != "" && !IsSpace(m[|m| - 1]) && AllSpace(b)
    ensures TrimEnd(a + m + b) == a + m
  {
    hide IsSpace, AllSpace, TrimEnd;
    TrimEndIs(a + m, b);
  }

  lemma TrimTrimmed(text: string)
    ensures Trimmed(Trim(text))
  {
    hide IsSpace;
    var t := TrimStart(text);
    if TrimEnd(t) != "" {
      assert TrimEnd(t)[0] == t[0];
    }
  }

  // The trimmed result: the trimmed input and the appended lines.
  lemma TrimEnsured(text: string, j: string)
    requires Trim(text) != "" && j != "" && !IsSpace(j[|j| - 1])
    ensures Trim(TrimEnd(text) + "\n" + j + "\n") == Trim(text) + "\n" + j
  {
    hide TrimStart, TrimEnd, IsSpace, Trim;
    var m := Trim(text);
    var a, b := TrimParts(text);
    TrimTrimmed(text);
    TrimSandwich(a, m + "\n" + j, "\n");
    assert a + (m + "\n" + j) + "\n" == a + m + "\n" + j + "\n";
  }

  lemma TrimSandwich(a: string, core: string, ws: string)
    requires AllSpace(a) && core != "" && !IsSpace(core[0]) && !IsSpace(core[|core| - 1]) && ws == "\n"
    ensures Trim(a + core + ws) == core
  {
    assert AllSpace(ws);
    hide TrimStart, TrimEnd, IsSpace;
    assert a + core + ws == a + (core + ws);
    TrimStartIs(a, core + ws);
    TrimEndIs(core, ws);
  }

  lemma {:induction false} JoinEnds(ss: seq<string>)
    requires ss != [] && ss[|ss| - 1] != ""
    ensures Join(ss) != "" && Join(ss)[|Join(ss)| - 1] == ss[|ss| - 1][|ss[|ss| - 1]| - 1]
    decreases |ss|
  {
    if |ss| > 1 {
      JoinEnds(ss[1..]);
      var t := Join(ss[1..]);
      assert (ss[0] + "\n" + t)[|ss[0] + "\n" + t| - 1] == t[|t| - 1];
    }
  }

  lemma AddedParses(ls: seq<Line>, missing: seq<string>)
    requires VolumeNames(missing)
    ensures Physical(Added(ls, missing)) && ParseAll(Added(ls, missing)) == AddedLines(ls, missing)
  {
    hide BlockLines, VolumeNames, Declared, ParseAll, Physical, BlockOf, NewHeader, HeaderText;
    BlockParses(missing);
    if Declared(ls) != {} {
      NothingBefore(BlockLines(missing));
      NothingBefore(BlockOf(missing));
    } else {
      HeaderStrings();
      Following(HeaderText(), BlockLines(missing));
    }
  }

  predicate EndsInL(ss: seq<string>) {
    ss != [] && ss[|ss| - 1] != "" && ss[|ss| - 1][|ss[|ss| - 1]| - 1] == 'l'
  }

  lemma AddedEnds(ls: seq<Line>, missing: seq<string>)
    requires VolumeNames(missing) && missing != []
    ensures EndsInL(Added(ls, missing))
  {
    assert EndsInL(BlockLines(missing)) by {
      hide BlockLines, VolumeNames, ParseAll, Physical, BlockOf, DriverText;
      BlockParses(missing);
      DriverParses(missing[0]);
    }
    hide BlockLines, VolumeNames, Declared, HeaderText, EndsInL;
    if Declared(ls) != {} {
      NothingBefore(BlockLines(missing));
    } else {
      EndsAfter(HeaderText(), BlockLines(missing));
    }
  }

  lemma EndsAfter(a: seq<string>, b: seq<string>)
    requires EndsInL(b)
    ensures EndsInL(a + b)
  {
  }

  lemma NothingBefore<T>(s: seq<T>)
    ensures [] + s == s
  {
  }

  lemma Following(a: seq<string>, b: seq<string>)
    requires Physical(a + [""]) && Physical(b)
    ensures Physical(a + b) && ParseAll(a + b) == ParseAll(a) + ParseAll(b)
  {
    hide Parse, DropCR;
    forall k | 0 <= k < |a + b| ensures '\n' !in (a + b)[k] && (k < |a + b| - 1 ==> DropCR((a + b)[k]) == (a + b)[k]) {
      if k < |a| {
        assert (a + b)[k] == (a + [""])[k];
      } else {
        assert (a + b)[k] == b[k - |a|];
      }
    }
  }

  lemma HeaderStrings()
    ensures ParseAll(HeaderText()) == NewHeader() && Physical(HeaderText() + [""])
  {
    hide Parse;
    HeaderParses();
    assert ["", "volumes:"] + [""] == ["", "volumes:", ""];
  }

  // The lines of the result are the lines of the input, then the appended ones.
  lemma EnsuredLines(text: string, used: seq<string>)
    requires Trim(text) != ""
    requires var missing := Missing(used, Declared(LinesOf(Trim(text)))); missing != [] && VolumeNames(missing)
    ensures var ls := LinesOf(Trim(text));
            LinesOf(Trim(Ensured(text, used))) == ls + AddedLines(ls, Missing(used, Declared(ls)))
  {
    var ls := LinesOf(Trim(text));
    var missing := Missing(used, Declared(ls));
    hide Added, AddedLines, Declared, Missing, Trim, TrimEnd, Physical, ParseAll, Join, EndsInL, VolumeNames, LinesOf;
    AddedParses(ls, missing);
    AddedEnds(ls, missing);
    TextWith(text, Added(ls, missing));
  }

  lemma TextWith(text: string, ss: seq<string>)
    requires Trim(text) != "" && EndsInL(ss) && Physical(ss)
    ensures LinesOf(Trim(TrimEnd(text) + "\n" + Join(ss) + "\n")) == LinesOf(Trim(text)) + ParseAll(ss)
    ensures Trim(TrimEnd(text) + "\n" + Join(ss) + "\n") != ""
    ensures TrimEnd(TrimEnd(text) + "\n" + Join(ss) + "\n") == TrimEnd(text) + "\n" + Join(ss)
  {
    hide IsSpace, Trim, TrimEnd, Physical, LinesOf, ParseAll, Join;
    JoinEnds(ss);
    LIsNoSpace();
    TrimTrimmed(text);
    LinesFollow(Trim(text), ss);
    TextTrims(text, Join(ss));
  }

  lemma TextTrims(text: string, j: string)
    requires Trim(text) != "" && j != "" && !IsSpace(j[|j| - 1])
    ensures var out := TrimEnd(text) + "\n" + j + "\n";
            Trim(out) == Trim(text) + "\n" + j && Trim(out) != "" && TrimEnd(out) == TrimEnd(text) + "\n" + j
  {
    hide IsSpace, Trim, TrimEnd;
    TrimEnsured(text, j);
    EndsSolid(TrimEnd(text) + "\n", j);
    OneBreak(TrimEnd(text) + "\n" + j);
  }

  lemma EndsSolid(a: string, j: string)
    requires j != "" && !IsSpace(j[|j| - 1])
    ensures a + j != "" && !IsSpace((a + j)[|a + j| - 1])
  {
    hide IsSpace;
  }

  lemma OneBreak(s: string)
    requires s != "" && !IsSpace(s[|s| - 1])
    ensures TrimEnd(s + "\n") == s
  {
    assert AllSpace("\n");
    hide IsSpace, TrimEnd;
    TrimEndIs(s, "\n");
  }

  lemma LinesFollow(m: string, ss: seq<string>)
    requires m != "" && Trimmed(m) && ss != [] && Physical(ss)
    ensures LinesOf(m + "\n" + Join(ss)) == LinesOf(m) + ParseAll(ss)
  {
    CRIsSpace();
    hide IsSpace, SplitLines, Parse, Physical, Join;
    SplitAppend(m, Join(ss));
    SplitJoin(ss);
  }

  lemma LIsNoSpace()
    ensures !IsSpace('l')
  {
  }

  lemma CRIsSpace()
    ensures IsSpace('\r')
  {
  }

  // ----- the results ---------------------------------------------------------

  function Body(text: string): seq<Line> {
    LinesOf(Trim(text))
  }

  lemma MissingNames(used: seq<string>, ls: seq<Line>, declared: set<string>)
    requires Lists(used, Used(ls))
    ensures VolumeNames(Missing(used, declared)) && Names(Missing(used, declared)) == Used(ls) - declared
    ensures Missing(used, declared) == [] <==> Used(ls) <= declared
  {
    hide MountName, IsServiceName, IsRootName;
    var missing := Missing(used, declared);
    forall k | 0 <= k < |missing| ensures IsServiceName(missing[k]) && IsRootName(missing[k]) {
      assert missing[k] in missing;
      var i :| 0 <= i < |ls| && MountName(ls[i].body) == Some(missing[k]);
      MountIsName(ls[i].body);
    }
    forall n ensures n in Names(missing) <==> n in Used(ls) && n !in declared {
      assert n in Names(missing) <==> n in missing;
    }
    if missing == [] {
      forall n | n in Used(ls) ensures n in declared {
        assert n in used && n !in missing;
      }
    } else {
      assert missing[0] in missing;
    }
  }

  // Every mount in use is declared after the pass exactly when it was before, or when the scan of
  // root `volumes:` reaches the end of the file; the mounts are the same, and nothing declared is lost.
  lemma VolumesDeclaredExact(text: string, used: seq<string>)
    requires Lists(used, Used(Body(text)))
    ensures var ls, out := Body(text), Body(Ensured(text, used));
            && Used(out) == Used(ls) && Declared(ls) <= Declared(out)
            && (Used(out) <= Declared(out) <==> Used(ls) <= Declared(ls) || Open(ls))
  {
    var ls := Body(text);
    var missing := Missing(used, Declared(ls));
    MissingNames(used, ls, Declared(ls));
    if Trim(text) == "" {
      hide *;
      NothingThere(text, used);
    } else if missing != [] {
      hide Used, Declared, AddedLines, VolumeNames, Names, HeaderAt, LinesOf, Trim, TrimEnd, Lists, Missing, Ensured, Open;
      EnsuredLines(text, used);
      DeclaredAfter(ls, missing);
      UsedAfter(ls, missing);
    }
  }

  lemma NothingThere(text: string, used: seq<string>)
    requires Trim(text) == ""
    ensures Ensured(text, used) == "" && Trim("") == ""
    ensures Used(Body(text)) == {} && Open(Body(text)) && Declared(Body(text)) == {}
  {
    hide Trim, LinesOf, Used, Open, Declared, Missing, TrimEnd, Join, Added;
    EmptyBody();
    BlankScan();
  }

  lemma EmptyBody()
    ensures LinesOf("") == [Line("", "", "")] && Trim("") == ""
  {
    EmptyTrim();
    hide SplitLines, Parse, Trim, Physical, NewHeader, IsSpace, DropCR;
    SplitOne("");
    HeaderParses();
    OneParsed("");
  }

  lemma OneParsed(s: string)
    ensures ParseAll([s]) == [Parse(s)]
  {
    hide Parse;
  }

  lemma EmptyTrim()
    ensures Trim("") == ""
  {
    assert TrimStart("") == "";
  }

  lemma BlankScan()
    ensures var ls := [Line("", "", "")]; Used(ls) == {} && Open(ls) && Declared(ls) == {}
  {
    var blank := Line("", "", "");
    assert !IsVolumesHeader(blank);
    hide IsVolumesHeader;
    assert HeaderAt([blank]) == 1;
  }

  // The pass only appends: the input, less its trailing whitespace, is a prefix of the result.
  lemma VolumesOnlyAppend(text: string, used: seq<string>)
    ensures TrimEnd(text) <= Ensured(text, used) || Trim(text) == ""
  {
    hide Missing, Declared, Added, LinesOf, Join, Trim, TrimEnd;
    if Trim(text) != "" {
      TrimEndPrefix(text);
      if Missing(used, Declared(Body(text))) != [] {
        AddedSome(Body(text), Missing(used, Declared(Body(text))));
        PrefixOf(TrimEnd(text), "\n", Join(Added(Body(text), Missing(used, Declared(Body(text))))), "\n");
      }
    }
  }

  lemma AddedSome(ls: seq<Line>, missing: seq<string>)
    requires missing != []
    ensures Added(ls, missing) != []
  {
    assert BlockLines(missing) != [];
  }

  lemma PrefixOf(a: string, b: string, c: string, d: string)
    ensures a <= a + b + c + d
  {
  }

  lemma TrimEndPrefix(text: string)
    ensures TrimEnd(text) <= text
  {
  }

  // A second pass changes nothing, exactly under the same condition.
  lemma VolumesIdempotentExact(text: string, used: seq<string>, again: seq<string>)
    requires Lists(used, Used(Body(text))) && Lists(again, Used(Body(Ensured(text, used))))
    ensures Ensured(Ensured(text, used), again) == Ensured(text, used) <==> Used(Body(text)) <= Declared(Body(text)) || Open(Body(text))
  {
    hide Used, Declared, LinesOf, Missing, Open, Trim, TrimEnd, Lists, Added, VolumeNames, Names, Ensured;
    var out := Ensured(text, used);
    VolumesDeclaredExact(text, used);
    MissingNames(again, Body(out), Declared(Body(out)));
    MissingNames(used, Body(text), Declared(Body(text)));
    if Trim(text) == "" {
      NothingThere(text, used);
      NothingThere("", again);
    } else if Missing(used, Declared(Body(text))) == [] {
      NoneMissing(text, used);
      NoneMissing(out, again);
    } else {
      Appends(text, used);
      if Missing(again, Declared(Body(out))) == [] {
        NoneMissing(out, again);
      } else {
        Longer(out, again);
      }
    }
  }

  lemma NoneMissing(text: string, used: seq<string>)
    requires Missing(used, Declared(Body(text))) == [] && (text == "" || Trim(text) != "")
    ensures Ensured(text, used) == text
  {
  }

  lemma Appends(text: string, used: seq<string>)
    requires Trim(text) != "" && Missing(used, Declared(Body(text))) != []
    requires VolumeNames(Missing(used, Declared(Body(text))))
    ensures var out := Ensured(text, used); Trim(out) != "" && |out| == |TrimEnd(out)| + 1
  {
    hide Added, Declared, Missing, Trim, TrimEnd, LinesOf, Join, Physical, ParseAll, EndsInL, VolumeNames;
    var missing := Missing(used, Declared(Body(text)));
    AddedParses(Body(text), missing);
    AddedEnds(Body(text), missing);
    TextWith(text, Added(Body(text), missing));
  }

  lemma Longer(out: string, again: seq<string>)
    requires Trim(out) != "" && Missing(again, Declared(Body(out))) != [] && |out| == |TrimEnd(out)| + 1
    ensures |Ensured(out, again)| > |out|
  {
    hide Missing, Declared, Added, LinesOf, Trim, TrimEnd, Join;
  }

  // ----- where the entries land ----------------------------------------------

  predicate IsRootLine(l: Line) {
    !IsBlankOrComment(l) && l.lead == ""
  }

  // Line `e` lies under a root `volumes:` line, with no other root line in between.
  predicate UnderVolumes(ls: seq<Line>, e: nat) {
    exists h :: 0 <= h < e && h < |ls| && IsVolumesHeader(ls[h]) && forall k :: h < k < e && k < |ls| ==> !IsRootLine(ls[k])
  }

  // Root `volumes:` is the last root section.
  predicate VolumesLast(ls: seq<Line>) {
    UnderVolumes(ls, |ls|)
  }

  // The appended entries land under root `volumes:` exactly when nothing was declared before, so
  // that a header comes with them, or when `volumes:` is the last root section.
  lemma LandsExact(ls: seq<Line>, missing: seq<string>)
    requires missing != []
    ensures var e := |ls| + if Declared(ls) == {} then 2 else 0;
            && (ls + AddedLines(ls, missing))[e..] == BlockOf(missing)
            && (UnderVolumes(ls + AddedLines(ls, missing), e) <==> Declared(ls) == {} || VolumesLast(ls))
  {
    var added := AddedLines(ls, missing);
    var all := ls + added;
    if Declared(ls) == {} {
      HeaderParts();
      hide IsVolumesHeader, IsRootLine, NewHeader, BlockOf;
      assert all[|ls| + 1] == NewHeader()[1];
      assert all[|ls| + 2..] == BlockOf(missing);
    } else {
      hide IsVolumesHeader, IsRootLine, NewHeader, BlockOf, Declared;
      NothingBefore(BlockOf(missing));
      assert forall k :: 0 <= k < |ls| ==> all[k] == ls[k];
      if UnderVolumes(all, |ls|) {
        var h :| 0 <= h < |ls| && IsVolumesHeader(all[h]) && forall k :: h < k < |ls| ==> !IsRootLine(all[k]);
        assert IsVolumesHeader(ls[h]);
      }
    }
  }

  predicate TwoHeaders(ls: seq<Line>) {
    exists i, j :: 0 <= i < j < |ls| && IsVolumesHeader(ls[i]) && IsVolumesHeader(ls[j])
  }

  // A second root `volumes:` line appears exactly when the file had one that declared nothing.
  lemma SecondHeaderExact(ls: seq<Line>, missing: seq<string>)
    requires missing != [] && VolumeNames(missing) && !TwoHeaders(ls)
    ensures TwoHeaders(ls + AddedLines(ls, missing)) <==> Declared(ls) == {} && HeaderAt(ls) < |ls|
  {
    var block := BlockOf(missing);
    BlockScan(missing);
    hide IsVolumesHeader, NewHeader, BlockOf, Declared, HeaderAt, KeysBelow, VolumeNames, Used, NoCloser, Names;
    NoHeaderIn(block);
    if Declared(ls) == {} {
      HeaderParts();
      NoHeaderIn([NewHeader()[0]]);
      OneHeaderMore(ls + [NewHeader()[0]], NewHeader()[1], block);
      Regroup(ls, NewHeader()[0], NewHeader()[1], block);
      if HeaderAt(ls) < |ls| {
        assert IsVolumesHeader((ls + [NewHeader()[0]])[HeaderAt(ls)]);
      } else {
        HeaderConcat(ls, [NewHeader()[0]]);
        NoHeaderIn(ls + [NewHeader()[0]]);
      }
    } else {
      NothingBefore(block);
      NoHeaderMore(ls, block);
    }
  }

  predicate Headerless(ls: seq<Line>) {
    forall k :: 0 <= k < |ls| ==> !IsVolumesHeader(ls[k])
  }

  lemma NoHeaderIn(ls: seq<Line>)
    requires HeaderAt(ls) == |ls|
    ensures Headerless(ls)
  {
  }

  lemma NoHeaderMore(a: seq<Line>, b: seq<Line>)
    requires Headerless(b)
    ensures TwoHeaders(a + b) <==> TwoHeaders(a)
  {
    hide IsVolumesHeader;
    if TwoHeaders(a) {
      var i, j :| 0 <= i < j < |a| && IsVolumesHeader(a[i]) && IsVolumesHeader(a[j]);
      assert (a + b)[i] == a[i] && (a + b)[j] == a[j];
    }
  }

  lemma OneHeaderMore(a: seq<Line>, x: Line, b: seq<Line>)
    requires Headerless(b) && IsVolumesHeader(x) && !TwoHeaders(a)
    ensures TwoHeaders(a + ([x] + b)) <==> !Headerless(a)
  {
    hide IsVolumesHeader;
    var all := a + ([x] + b);
    assert all[|a|] == x;
    assert forall k :: 0 <= k < |a| ==> all[k] == a[k];
    assert forall k :: |a| < k < |all| ==> all[k] == b[k - |a| - 1];
  }
}
