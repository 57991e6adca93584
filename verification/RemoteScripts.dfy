// Install scripts for remote hosts: quoting, env files and here-documents, and what a shell
// reads back from them.
module RemoteScripts {
  import opened Wrappers
  import opened ShellReader
  import ComposeText

  // ----- quoting -------------------------------------------------------------

  // value.replace(/'/g, with)
  function ReplaceQuotes(value: string, mark: string): string {
    if value == "" then "" else (if value[0] == '\'' then mark else [value[0]]) + ReplaceQuotes(value[1..], mark)
  }

  // Closes the quotes, adds an escaped quote, opens them again.
  function EnvFileQuote(value: string): string {
    "'" + ReplaceQuotes(value, "'\\''") + "'"
  }

  // The other form: the quote goes between double quotes.
  function ShSingleQuote(value: string): string {
    "'" + ReplaceQuotes(value, "'\"'\"'") + "'"
  }

  predicate WordEnds(rest: string) {
    rest == "" || EndsWord(rest[0])
  }

  lemma IndexOfFirst(s: string, c: char, k: nat)
    requires k < |s| && s[k] == c && forall i :: 0 <= i < k ==> s[i] != c
    ensures ComposeText.IndexOf(s, c) == k
  {
  }

  // One quoted stretch of a text, closed at n + 1.
  lemma ReadStretch(s: string, n: nat)
    requires n + 1 < |s| && s[0] == '\'' && ComposeText.IndexOf(s[1..], '\'') == n
    ensures var r := ReadWord(s[n + 2..]);
            ReadWord(s) == if r.None? then None else Some(Read(s[1..n + 1] + r.value.value, r.value.rest))
  {
    hide ComposeText.IndexOf;
  }

  lemma StretchCuts(plain: string, rest: string)
    ensures var s := "'" + plain + "'" + rest;
            && |plain| + 1 < |s| && s[0] == '\'' && s[1..|plain| + 1] == plain && s[|plain| + 2..] == rest
            && s[|plain| + 1] == '\'' && s[1..] == plain + ("'" + rest)
  {
  }

  // A quoted stretch without quotes inside reads as itself.
  lemma ReadPlain(plain: string, rest: string)
    requires forall i :: 0 <= i < |plain| ==> plain[i] != '\''
    ensures var r := ReadWord(rest);
            ReadWord("'" + plain + "'" + rest) == if r.None? then None else Some(Read(plain + r.value.value, r.value.rest))
  {
    hide ReadWord, ComposeText.IndexOf;
    var s := "'" + plain + "'" + rest;
    StretchCuts(plain, rest);
    IndexOfFirst(s[1..], '\'', |plain|);
    ReadStretch(s, |plain|);
  }

  lemma ReadEscapedQuote(rest: string)
    ensures var r := ReadWord(rest);
            ReadWord("\\'" + rest) == if r.None? then None else Some(Read("'" + r.value.value, r.value.rest))
  {
    assert ("\\'" + rest)[2..] == rest;
  }

  lemma DoubleQuotedQuote(rest: string)
    ensures ReadDouble("'" + ("\"" + rest)) == Some(Read("'", rest))
  {
    var t := "\"" + rest;
    var u := "'" + t;
    assert t[1..] == rest && u[1..] == t;
    assert ReadDouble(t) == Some(Read("", rest));
    assert ['\''] + "" == "'";
    assert ReadDouble(u) == Some(Read(['\''] + "", rest));
  }

  lemma ReadDoubledQuote(rest: string)
    ensures var r := ReadWord(rest);
            ReadWord("\"'\"" + rest) == if r.None? then None else Some(Read("'" + r.value.value, r.value.rest))
  {
    hide ReadDouble, ComposeText.IndexOf;
    var s := "\"'\"" + rest;
    DoubleQuotedQuote(rest);
    assert s[1..] == "'" + ("\"" + rest);
  }

  // The parts of a quoted text around an inner quote.
  lemma CutAtQuote(q: string, plain: string, quote: string, tail: string, rest: string)
    ensures q + plain + ((q + quote + q) + tail) + q + rest == q + plain + q + (quote + (q + "" + tail + q + rest))
  {
  }

  lemma CutAtChar(q: string, plain: string, c: string, tail: string, rest: string)
    ensures q + plain + (c + tail) + q + rest == q + (plain + c) + tail + q + rest
  {
  }

  lemma Join3(a: string, b: string, c: string)
    ensures a + (b + c) == a + b + c
  {
  }

  // Inside single quotes: what is left of the value reads back, `plain` having been read before it.
  lemma {:induction false} ReadRest(plain: string, value: string, escaped: bool, rest: string)
    requires WordEnds(rest) && forall i :: 0 <= i < |plain| ==> plain[i] != '\''
    ensures var mark := if escaped then "'\\''" else "'\"'\"'";
            ReadWord("'" + plain + ReplaceQuotes(value, mark) + "'" + rest) == Some(Read(plain + value, rest))
    decreases |value|
  {
    var mark := if escaped then "'\\''" else "'\"'\"'";
    if value == "" {
      ReadRestEnd(plain, mark, rest);
    } else if value[0] == '\'' {
      ReadRest("", value[1..], escaped, rest);
      ReadRestQuote(plain, value, escaped, rest);
    } else {
      ReadRest(plain + [value[0]], value[1..], escaped, rest);
      hide ReadWord;
      CutAtChar("'", plain, [value[0]], ReplaceQuotes(value[1..], mark), rest);
      assert value == [value[0]] + value[1..];
      Join3(plain, [value[0]], value[1..]);
    }
  }

  lemma ReadRestEnd(plain: string, mark: string, rest: string)
    requires WordEnds(rest) && forall i :: 0 <= i < |plain| ==> plain[i] != '\''
    ensures ReadWord("'" + plain + ReplaceQuotes("", mark) + "'" + rest) == Some(Read(plain + "", rest))
  {
    hide ReadWord;
    assert "'" + plain + "" + "'" + rest == "'" + plain + "'" + rest;
    ReadPlain(plain, rest);
    ReadNothing(rest);
  }

  lemma ReadRestQuote(plain: string, value: string, escaped: bool, rest: string)
    requires WordEnds(rest) && forall i :: 0 <= i < |plain| ==> plain[i] != '\''
    requires value != "" && value[0] == '\''
    requires var mark := if escaped then "'\\''" else "'\"'\"'";
             ReadWord("'" + "" + ReplaceQuotes(value[1..], mark) + "'" + rest) == Some(Read("" + value[1..], rest))
    ensures var mark := if escaped then "'\\''" else "'\"'\"'";
            ReadWord("'" + plain + ReplaceQuotes(value, mark) + "'" + rest) == Some(Read(plain + value, rest))
  {
    hide ReadWord;
    var mark := if escaped then "'\\''" else "'\"'\"'";
    var quote := if escaped then "\\'" else "\"'\"";
    var tail := ReplaceQuotes(value[1..], mark);
    var after := "'" + "" + tail + "'" + rest;
    assert mark == "'" + quote + "'";
    CutAtQuote("'", plain, quote, tail, rest);
    ReadPlain(plain, quote + after);
    if escaped { ReadEscapedQuote(after); } else { ReadDoubledQuote(after); }
    assert value == "'" + value[1..] && "" + value[1..] == value[1..];
    Join3(plain, "'", value[1..]);
  }

  lemma ReadNothing(rest: string)
    requires WordEnds(rest)
    ensures ReadWord(rest) == Some(Read("", rest))
  {
  }

  // A shell reads back exactly the value, quotes and line breaks included, from either form.
  lemma QuotesReadBack(value: string, rest: string)
    requires WordEnds(rest)
    ensures ReadWord(EnvFileQuote(value) + rest) == Some(Read(value, rest))
    ensures ReadWord(ShSingleQuote(value) + rest) == Some(Read(value, rest))
  {
    hide ReadWord;
    ReadRest("", value, true, rest);
    ReadRest("", value, false, rest);
    assert "'" + "" + ReplaceQuotes(value, "'\\''") + "'" + rest == EnvFileQuote(value) + rest;
    assert "'" + "" + ReplaceQuotes(value, "'\"'\"'") + "'" + rest == ShSingleQuote(value) + rest;
    assert "" + value == value;
  }

  // ----- env files -----------------------------------------------------------

  // Every line ended by a line break.
  function Unlines(lines: seq<string>): string {
    if lines == [] then "" else lines[0] + "\n" + Unlines(lines[1..])
  }

  function EnvLine(name: string, value: string): string {
    name + "=" + EnvFileQuote(value)
  }

  function EnvLines(vars: seq<(string, string)>): seq<string> {
    if vars == [] then [] else [EnvLine(vars[0].0, vars[0].1)] + EnvLines(vars[1..])
  }

  lemma NameCut(name: string, tail: string)
    requires IsName(name)
    ensures var s := name + "=" + tail;
            ComposeText.IndexOf(s, '=') == |name| && s[..|name|] == name && s[|name| + 1..] == tail && s != "" && s[0] != '\n'
  {
    var s := name + "=" + tail;
    IndexOfFirst(s, '=', |name|);
    assert s[0] == name[0];
    hide ComposeText.IndexOf, IsName;
  }

  // Sourcing one assignment whose word reads as the value, and what follows it.
  lemma SourceAssignment(name: string, word: string, value: string, rest: string)
    requires IsName(name) && ReadWord(word + ("\n" + rest)) == Some(Read(value, "\n" + rest))
    ensures var more := Source(rest);
            Source(name + "=" + (word + ("\n" + rest))) == if more.None? then None else Some([(name, value)] + more.value)
  {
    hide ReadWord, IsName, ComposeText.IndexOf;
    NameCut(name, word + ("\n" + rest));
    assert ("\n" + rest)[1..] == rest;
    assert Source("\n" + rest) == Source(rest);
  }

  lemma SourceLine(name: string, value: string, rest: string)
    requires IsName(name)
    ensures var more := Source(rest);
            Source(EnvLine(name, value) + "\n" + rest) == if more.None? then None else Some([(name, value)] + more.value)
  {
    hide ReadWord, EnvFileQuote, IsName, Source;
    QuotesReadBack(value, "\n" + rest);
    SourceAssignment(name, EnvFileQuote(value), value, rest);
    assert EnvLine(name, value) + "\n" + rest == name + "=" + (EnvFileQuote(value) + ("\n" + rest));
  }

  // Sourcing the env file gives back every value.
  lemma {:induction false} EnvFileReadsBack(vars: seq<(string, string)>)
    requires forall k :: 0 <= k < |vars| ==> IsName(vars[k].0)
    ensures Source(Unlines(EnvLines(vars))) == Some(vars)
    decreases |vars|
  {
    hide IsName, EnvLine, Source;
    if vars == [] {
      SourceNothing();
    } else {
      EnvFileReadsBack(vars[1..]);
      SourceLine(vars[0].0, vars[0].1, Unlines(EnvLines(vars[1..])));
      UnlinesCons(EnvLine(vars[0].0, vars[0].1), EnvLines(vars[1..]));
      hide Unlines;
      assert [(vars[0].0, vars[0].1)] + vars[1..] == vars;
    }
  }

  lemma UnlinesCons(line: string, rest: seq<string>)
    ensures Unlines([line] + rest) == line + "\n" + Unlines(rest)
  {
    assert ([line] + rest)[1..] == rest;
  }

  lemma SourceNothing()
    ensures Source("") == Some([])
  {
  }

  // ----- here-documents ------------------------------------------------------

  // Empty, or ended by a line break.
  predicate WholeLines(body: string) {
    body == "" || body[|body| - 1] == '\n'
  }

  // No physical line of the body is the delimiter.
  predicate HereSafe(body: string, delimiter: string)
    decreases |body|
  {
    var k := ComposeText.IndexOf(body, '\n');
    k == |body| || (body[..k] != delimiter && HereSafe(body[k + 1..], delimiter))
  }

  lemma IndexOfAppend(a: string, b: string)
    ensures ComposeText.IndexOf(a, '\n') < |a| ==> ComposeText.IndexOf(a + b, '\n') == ComposeText.IndexOf(a, '\n')
  {
    var k := ComposeText.IndexOf(a, '\n');
    if k < |a| {
      IndexOfFirst(a + b, '\n', k);
    }
  }

  // One line of the document.
  lemma HereStep(body: string, delimiter: string, tail: string)
    requires ComposeText.IndexOf(body, '\n') < |body|
    ensures var k := ComposeText.IndexOf(body, '\n');
            var r := ReadHere(body[k + 1..] + tail, delimiter);
            ReadHere(body + tail, delimiter) ==
            if body[..k] == delimiter then Some(Read("", body[k + 1..] + tail))
            else if r.None? then None
            else Some(Read(body[..k + 1] + r.value.value, r.value.rest))
  {
    var k := ComposeText.IndexOf(body, '\n');
    IndexOfAppend(body, tail);
    hide ComposeText.IndexOf;
    var s := body + tail;
    assert s[..k] == body[..k] && s[..k + 1] == body[..k + 1] && s[k + 1..] == body[k + 1..] + tail;
  }

  lemma HereEnd(delimiter: string, rest: string)
    requires '\n' !in delimiter
    ensures ReadHere(delimiter + "\n" + rest, delimiter) == Some(Read("", rest))
  {
    var s := delimiter + "\n" + rest;
    IndexOfFirst(s, '\n', |delimiter|);
    hide ComposeText.IndexOf;
    assert s[..|delimiter|] == delimiter && s[|delimiter| + 1..] == rest;
  }

  lemma CancelLine(line: string, a: string, b: string)
    ensures line + a == line + b <==> a == b
  {
    assert (line + a)[|line|..] == a && (line + b)[|line|..] == b;
  }

  lemma SafeStep(body: string, delimiter: string)
    requires ComposeText.IndexOf(body, '\n') < |body|
    ensures var k := ComposeText.IndexOf(body, '\n');
            HereSafe(body, delimiter) <==> body[..k] != delimiter && HereSafe(body[k + 1..], delimiter)
  {
    hide ComposeText.IndexOf;
  }

  lemma WholeHasBreak(body: string)
    requires WholeLines(body) && body != ""
    ensures ComposeText.IndexOf(body, '\n') < |body| && WholeLines(body[ComposeText.IndexOf(body, '\n') + 1..])
    ensures var k := ComposeText.IndexOf(body, '\n'); body == body[..k + 1] + body[k + 1..]
  {
    hide ComposeText.IndexOf;
    assert body[|body| - 1] == '\n';
    var k := ComposeText.IndexOf(body, '\n');
    WholeTail(body, k);
    hide WholeLines;
    CutLine(body, k + 1);
  }

  lemma CutLine(body: string, k: nat)
    requires k <= |body|
    ensures body == body[..k] + body[k..]
  {
  }

  // The document comes back whole exactly when no line of it is the delimiter.
  lemma {:induction false} HereReadsBack(body: string, delimiter: string, rest: string)
    requires WholeLines(body) && '\n' !in delimiter
    ensures ReadHere(body + (delimiter + "\n" + rest), delimiter) == Some(Read(body, rest)) <==> HereSafe(body, delimiter)
    decreases |body|
  {
    var tail := delimiter + "\n" + rest;
    if body == "" {
      assert body + tail == tail;
      HereEnd(delimiter, rest);
    } else {
      hide ReadHere, ComposeText.IndexOf, HereSafe, WholeLines;
      WholeHasBreak(body);
      var k := ComposeText.IndexOf(body, '\n');
      HereReadsBack(body[k + 1..], delimiter, rest);
      HereStep(body, delimiter, tail);
      SafeStep(body, delimiter);
      var r := ReadHere(body[k + 1..] + tail, delimiter);
      if r.Some? {
        CancelLine(body[..k + 1], r.value.value, body[k + 1..]);
      }
    }
  }

  lemma WholeTail(body: string, k: nat)
    requires WholeLines(body) && k < |body|
    ensures WholeLines(body[k + 1..])
  {
  }

  lemma {:induction false} UnlinesWhole(lines: seq<string>)
    ensures WholeLines(Unlines(lines))
  {
    if lines != [] {
      UnlinesWhole(lines[1..]);
    }
  }

  // ----- the install script --------------------------------------------------

  const ENV_END := "WEEHAWK_ENV"
  const SCRIPT_END := "WEEHAWK_EOF"
  const USER_END := "WEEHAWK_USER_SCRIPT"

  // What is installed: the target directory (already quoted by the caller), the two files, and
  // whether the user script runs on the host through the Docker socket.
  datatype Install = Install(parentQuoted: string, envPath: string, scriptPath: string, envLines: seq<string>,
                             userScript: string, onHost: bool)

  // The fixed parts of the wrapped script, given by the generator; bash text without meaning here.
  datatype Wrapper = Wrapper(before: seq<string>, after: seq<string>, hostRunner: seq<string>)

  // The lines of the wrapped script.
  function InnerLines(w: Wrapper, i: Install): seq<string> {
    w.before + ["ENV_FILE=" + EnvFileQuote(i.envPath)] + w.after
    + (if i.onHost then w.hostRunner + [i.userScript, USER_END] else [i.userScript])
  }

  function ScriptLines(w: Wrapper, i: Install): seq<string> {
    ["set -eu", "umask 077", "mkdir -p " + i.parentQuoted, "cat > " + EnvFileQuote(i.envPath) + " <<'" + ENV_END + "'"]
    + i.envLines
    + [ENV_END, "chmod 600 " + EnvFileQuote(i.envPath), "cat > " + EnvFileQuote(i.scriptPath) + " <<'" + SCRIPT_END + "'"]
    + InnerLines(w, i)
    + [SCRIPT_END, "chmod 700 " + EnvFileQuote(i.scriptPath)]
  }

  // The generator: the inner lines are pushed one group after the other, then everything is joined.
  method BuildInstallScript(w: Wrapper, i: Install) returns (script: string)
    ensures script == ComposeText.Join(ScriptLines(w, i))
  {
    var envPathQ := EnvFileQuote(i.envPath);
    var scriptPathQ := EnvFileQuote(i.scriptPath);
    var inner := w.before + ["ENV_FILE=" + envPathQ] + w.after;
    if i.onHost {
      inner := inner + (w.hostRunner + [i.userScript, USER_END]);
    } else {
      inner := inner + [i.userScript];
    }
    var lines := ["set -eu", "umask 077", "mkdir -p " + i.parentQuoted, "cat > " + envPathQ + " <<'" + ENV_END + "'"];
    lines := lines + i.envLines;
    lines := lines + [ENV_END, "chmod 600 " + envPathQ, "cat > " + scriptPathQ + " <<'" + SCRIPT_END + "'"];
    lines := lines + inner;
    lines := lines + [SCRIPT_END, "chmod 700 " + scriptPathQ];
    return ComposeText.Join(lines);
  }

  lemma {:induction false} JoinIsUnlines(lines: seq<string>, last: string)
    ensures ComposeText.Join(lines + [last]) == Unlines(lines) + last
    decreases |lines|
  {
    if lines != [] {
      assert (lines + [last])[1..] == lines[1..] + [last];
      JoinIsUnlines(lines[1..], last);
    }
  }

  lemma {:induction false} UnlinesAppend(a: seq<string>, b: seq<string>)
    ensures Unlines(a + b) == Unlines(a) + Unlines(b)
    decreases |a|
  {
    if a == [] {
      assert a + b == b;
    } else {
      assert (a + b)[1..] == a[1..] + b;
      UnlinesAppend(a[1..], b);
    }
  }

  // ----- what running it does ------------------------------------------------

  // A word of plain characters.
  predicate Plain(s: string) {
    forall k :: 0 <= k < |s| ==> !EndsWord(s[k]) && !IsSpecial(s[k]) && s[k] != '\'' && s[k] != '"' && s[k] != '\\'
  }

  lemma {:induction false} ReadPlainWord(s: string, rest: string)
    requires Plain(s) && WordEnds(rest)
    ensures ReadWord(s + rest) == Some(Read(s, rest))
    decreases |s|
  {
    if s == "" {
      assert s + rest == rest;
    } else {
      assert (s + rest)[1..] == s[1..] + rest;
      ReadPlainWord(s[1..], rest);
      assert s == [s[0]] + s[1..];
    }
  }

  const NO_COMMAND := Command([], None, None)

  // `word` followed by a blank: the word is taken, the blank skipped.
  lemma TakeWord(s: string, rest: string, c: Command)
    requires Plain(s) && s != ""
    ensures ReadCommand(s + " " + rest, c) == ReadCommand(rest, c.(words := c.words + [s]))
  {
    hide ReadWord, Plain, IsSpecial;
    assert s + " " + rest == s + (" " + rest);
    ReadPlainWord(s, " " + rest);
    PlainHead(s);
    assert (" " + rest)[1..] == rest;
  }

  lemma PlainHead(s: string)
    requires Plain(s) && s != ""
    ensures !EndsWord(s[0])
  {
  }

  // The last word of a line, quoted or plain, and the line break.
  lemma TakeLast(text: string, value: string, rest: string, c: Command)
    requires text != "" && !EndsWord(text[0]) && ReadWord(text + ("\n" + rest)) == Some(Read(value, "\n" + rest))
    ensures ReadCommand(text + "\n" + rest, c) == Some(Read(c.(words := c.words + [value]), rest))
  {
    hide ReadWord;
    assert text + "\n" + rest == text + ("\n" + rest);
    assert ("\n" + rest)[1..] == rest;
  }

  lemma QuotedHead(value: string)
    ensures EnvFileQuote(value) != "" && !EndsWord(EnvFileQuote(value)[0]) && EnvFileQuote(value)[0] == '\''
  {
  }

  // `cat > file <<'end'`
  function CatLine(path: string, delimiter: string): string {
    "cat > " + EnvFileQuote(path) + " <<'" + delimiter + "'"
  }

  lemma TakeOutput(path: string, rest: string, c: Command)
    ensures ReadCommand("> " + EnvFileQuote(path) + " " + rest, c) == ReadCommand(rest, c.(output := Some(path)))
  {
    hide ReadWord, EnvFileQuote;
    var s := "> " + EnvFileQuote(path) + " " + rest;
    QuotedHead(path);
    var from := EnvFileQuote(path) + (" " + rest);
    assert s[1..] == " " + from && s[1..][1..] == from;
    assert SkipBlanks(from) == from;
    assert SkipBlanks(s[1..]) == from;
    QuotesReadBack(path, " " + rest);
    assert (" " + rest)[1..] == rest;
    assert |from| > |" " + rest|;
  }

  lemma TakeHere(delimiter: string, rest: string, c: Command)
    requires '\'' !in delimiter
    ensures ReadCommand("<<'" + delimiter + "'\n" + rest, c) == Some(Read(c.(here := Some(delimiter)), rest))
  {
    hide ReadWord;
    var s := "<<'" + delimiter + "'\n" + rest;
    var after := "\n" + rest;
    assert s[2..] == "'" + delimiter + "'" + after;
    ReadPlain(delimiter, after);
    ReadNothing(after);
    assert after[1..] == rest && delimiter + "" == delimiter;
  }

  lemma ReadCatLine(path: string, delimiter: string, rest: string)
    requires '\'' !in delimiter
    ensures ReadCommand(CatLine(path, delimiter) + "\n" + rest, NO_COMMAND)
         == Some(Read(Command(["cat"], Some(path), Some(delimiter)), rest))
  {
    FixedWords();
    hide ReadWord, EnvFileQuote, ReadCommand, Plain;
    var q := EnvFileQuote(path);
    var here := "<<'" + delimiter + "'\n" + rest;
    assert CatLine(path, delimiter) + "\n" + rest == "cat" + " " + ("> " + q + " " + here);
    TakeWord("cat", "> " + q + " " + here, NO_COMMAND);
    TakeOutput(path, here, NO_COMMAND.(words := ["cat"]));
    assert NO_COMMAND.words + ["cat"] == ["cat"];
    TakeHere(delimiter, rest, Command(["cat"], Some(path), None));
  }

  // Running `cat` with a safe document writes it and goes on behind it.
  lemma RunCat(path: string, delimiter: string, body: string, rest: string, files: map<string, string>)
    requires '\'' !in delimiter && '\n' !in delimiter && WholeLines(body) && HereSafe(body, delimiter)
    ensures Run(CatLine(path, delimiter) + "\n" + (body + delimiter + "\n" + rest), files) == Run(rest, files[path := body])
  {
    hide ReadCommand, ReadHere, HereSafe, CatLine;
    ReadCatLine(path, delimiter, body + delimiter + "\n" + rest);
    assert body + delimiter + "\n" + rest == body + (delimiter + "\n" + rest);
    HereReadsBack(body, delimiter, rest);
  }

  lemma RunQuiet(line: string, words: seq<string>, rest: string, files: map<string, string>)
    requires line != "" && words != [] && words[0] in QUIET_COMMANDS
    requires ReadCommand(line + "\n" + rest, NO_COMMAND) == Some(Read(Command(words, None, None), rest))
    ensures Run(line + "\n" + rest, files) == Run(rest, files)
  {
    hide ReadCommand;
  }

  // A command with one plain option and a quoted or plain last word.
  lemma RunOption(name: string, option: string, last: string, value: string, rest: string, files: map<string, string>)
    requires name in QUIET_COMMANDS && Plain(name) && name != "" && Plain(option) && option != ""
    requires last != "" && !EndsWord(last[0]) && ReadWord(last + ("\n" + rest)) == Some(Read(value, "\n" + rest))
    ensures Run(name + " " + option + " " + last + "\n" + rest, files) == Run(rest, files)
  {
    hide ReadWord, Plain, ReadCommand;
    var line := name + " " + option + " " + last;
    assert line + "\n" + rest == name + " " + (option + " " + (last + "\n" + rest));
    TakeWord(name, option + " " + (last + "\n" + rest), NO_COMMAND);
    TakeWord(option, last + "\n" + rest, NO_COMMAND.(words := [name]));
    assert NO_COMMAND.words + [name] == [name] && [name] + [option] == [name, option] && [name, option] + [value] == [name, option, value];
    TakeLast(last, value, rest, NO_COMMAND.(words := [name, option]));
    RunQuiet(line, [name, option, value], rest, files);
  }

  lemma RunShort(name: string, last: string, rest: string, files: map<string, string>)
    requires name in QUIET_COMMANDS && Plain(name) && name != "" && Plain(last) && last != ""
    ensures Run(name + " " + last + "\n" + rest, files) == Run(rest, files)
  {
    PlainHead(last);
    ReadPlainWord(last, "\n" + rest);
    hide ReadWord, Plain, ReadCommand;
    var line := name + " " + last;
    assert line + "\n" + rest == name + " " + (last + "\n" + rest);
    TakeWord(name, last + "\n" + rest, NO_COMMAND);
    assert NO_COMMAND.words + [name] == [name] && [name] + [last] == [name, last];
    TakeLast(last, last, rest, NO_COMMAND.(words := [name]));
    RunQuiet(line, [name, last], rest, files);
  }

  // The script's last line has no line break.
  lemma RunFinal(path: string, files: map<string, string>)
    ensures Run("chmod 700 " + EnvFileQuote(path), files) == Some(files)
  {
    FixedWords();
    hide ReadWord, EnvFileQuote, Plain, ReadCommand;
    var q := EnvFileQuote(path);
    assert "chmod 700 " + q == "chmod" + " " + ("700" + " " + q);
    TakeWord("chmod", "700" + " " + q, NO_COMMAND);
    assert NO_COMMAND.words + ["chmod"] == ["chmod"] && ["chmod"] + ["700"] == ["chmod", "700"];
    TakeWord("700", q, NO_COMMAND.(words := ["chmod"]));
    TakeEnd(path, NO_COMMAND.(words := ["chmod", "700"]));
  }

  lemma TakeEnd(path: string, c: Command)
    ensures ReadCommand(EnvFileQuote(path), c) == Some(Read(c.(words := c.words + [path]), ""))
  {
    hide ReadWord, EnvFileQuote;
    QuotesReadBack(path, "");
    assert EnvFileQuote(path) + "" == EnvFileQuote(path);
    QuotedHead(path);
  }

  lemma FixedWords()
    ensures Plain("set") && Plain("-eu") && Plain("umask") && Plain("077") && Plain("mkdir") && Plain("-p")
    ensures Plain("chmod") && Plain("600") && Plain("700") && Plain("cat")
    ensures '\'' !in ENV_END && '\n' !in ENV_END && '\'' !in SCRIPT_END && '\n' !in SCRIPT_END
  {
    PlainLetters("set");
    PlainLetters("-eu");
    PlainLetters("umask");
    PlainLetters("077");
    PlainLetters("mkdir");
    PlainLetters("-p");
    PlainLetters("chmod");
    PlainLetters("600");
    PlainLetters("700");
    PlainLetters("cat");
    hide Plain;
  }

  predicate IsLetter(c: char) {
    'a' <= c <= 'z' || '0' <= c <= '9' || c == '-'
  }

  lemma PlainLetters(s: string)
    requires forall k :: 0 <= k < |s| ==> IsLetter(s[k])
    ensures Plain(s)
  {
  }

  // The text of the script, line group by line group.
  function FromScriptCat(i: Install, inner: string): string {
    CatLine(i.scriptPath, SCRIPT_END) + "\n" + (inner + SCRIPT_END + "\n" + ("chmod 700 " + EnvFileQuote(i.scriptPath)))
  }

  function FromEnvCat(i: Install, inner: string): string {
    CatLine(i.envPath, ENV_END) + "\n" + (Unlines(i.envLines) + ENV_END + "\n" +
      ("chmod 600 " + EnvFileQuote(i.envPath) + "\n" + FromScriptCat(i, inner)))
  }

  lemma ScriptText(w: Wrapper, i: Install)
    ensures ComposeText.Join(ScriptLines(w, i))
         == "set -eu" + "\n" + ("umask 077" + "\n" + ("mkdir -p " + i.parentQuoted + "\n" + FromEnvCat(i, Unlines(InnerLines(w, i)))))
  {
    hide InnerLines, EnvFileQuote;
    var q, p := EnvFileQuote(i.envPath), EnvFileQuote(i.scriptPath);
    var head := ["set -eu", "umask 077", "mkdir -p " + i.parentQuoted, CatLine(i.envPath, ENV_END)];
    var middle := [ENV_END, "chmod 600 " + q, CatLine(i.scriptPath, SCRIPT_END)];
    var inner := InnerLines(w, i);
    var all := head + i.envLines + middle + inner + [SCRIPT_END];
    assert ScriptLines(w, i) == all + ["chmod 700 " + p];
    JoinIsUnlines(all, "chmod 700 " + p);
    UnlinesAppend(head + i.envLines + middle + inner, [SCRIPT_END]);
    UnlinesAppend(head + i.envLines + middle, inner);
    UnlinesAppend(head + i.envLines, middle);
    UnlinesAppend(head, i.envLines);
    hide CatLine;
    UnlinesFour(head[0], head[1], head[2], head[3]);
    UnlinesThree(middle[0], middle[1], middle[2]);
    UnlinesOne(SCRIPT_END);
    Assemble(head[0], head[1], head[2], head[3], Unlines(i.envLines), middle[0], middle[1], middle[2], Unlines(inner), SCRIPT_END, "chmod 700 " + p);
  }

  lemma UnlinesOne(a: string)
    ensures Unlines([a]) == a + "\n"
  {
    assert [a][1..] == [];
  }

  lemma UnlinesThree(a: string, b: string, c: string)
    ensures Unlines([a, b, c]) == a + "\n" + (b + "\n" + (c + "\n"))
  {
    assert [a, b, c][1..] == [b, c] && [b, c][1..] == [c];
    UnlinesOne(c);
  }

  lemma UnlinesFour(a: string, b: string, c: string, d: string)
    ensures Unlines([a, b, c, d]) == a + "\n" + (b + "\n" + (c + "\n" + (d + "\n")))
  {
    assert [a, b, c, d][1..] == [b, c, d];
    UnlinesThree(b, c, d);
  }

  lemma Assemble(a: string, b: string, c: string, d: string, env: string, e: string, f: string, g: string,
                 inner: string, h: string, last: string)
    ensures (a + "\n" + (b + "\n" + (c + "\n" + (d + "\n")))) + env + (e + "\n" + (f + "\n" + (g + "\n"))) + inner + (h + "\n") + last
         == a + "\n" + (b + "\n" + (c + "\n" + (d + "\n" + (env + e + "\n" + (f + "\n" + (g + "\n" + (inner + h + "\n" + last)))))))
  {
  }

  // Running the script writes the env lines and the wrapped script, each as given, whenever no
  // physical line of them is the delimiter of its here-document.
  lemma InstallWrites(w: Wrapper, i: Install, dir: string)
    requires i.parentQuoted == EnvFileQuote(dir)
    requires HereSafe(Unlines(i.envLines), ENV_END) && HereSafe(Unlines(InnerLines(w, i)), SCRIPT_END)
    ensures Run(ComposeText.Join(ScriptLines(w, i)), map[])
         == Some(map[i.envPath := Unlines(i.envLines)][i.scriptPath := Unlines(InnerLines(w, i))])
  {
    hide Run, HereSafe, Unlines, InnerLines, ScriptLines, ComposeText.Join, EnvFileQuote, ReadWord, CatLine, Plain;
    FixedWords();
    UnlinesWhole(i.envLines);
    UnlinesWhole(InnerLines(w, i));
    var inner := Unlines(InnerLines(w, i));
    var q := EnvFileQuote(i.envPath);
    var f1 := map[i.envPath := Unlines(i.envLines)];
    var f2 := f1[i.scriptPath := inner];
    ScriptText(w, i);
    RunHead(i, dir, FromEnvCat(i, inner), map[]);
    var fromChmod := "chmod 600 " + q + "\n" + FromScriptCat(i, inner);
    RunCat(i.envPath, ENV_END, Unlines(i.envLines), fromChmod, map[]);
    RunChmod(i.envPath, FromScriptCat(i, inner), f1);
    RunCat(i.scriptPath, SCRIPT_END, inner, "chmod 700 " + EnvFileQuote(i.scriptPath), f1);
    RunFinal(i.scriptPath, f2);
  }

  lemma RunHead(i: Install, dir: string, rest: string, files: map<string, string>)
    requires i.parentQuoted == EnvFileQuote(dir)
    ensures Run("set -eu" + "\n" + ("umask 077" + "\n" + ("mkdir -p " + i.parentQuoted + "\n" + rest)), files) == Run(rest, files)
  {
    hide Run, EnvFileQuote, ReadWord, Plain;
    FixedWords();
    var r2 := "mkdir -p " + i.parentQuoted + "\n" + rest;
    var r1 := "umask 077" + "\n" + r2;
    assert "set" + " " + "-eu" == "set -eu" && "umask" + " " + "077" == "umask 077";
    RunShort("set", "-eu", r1, files);
    RunShort("umask", "077", r2, files);
    QuotesReadBack(dir, "\n" + rest);
    QuotedHead(dir);
    assert "mkdir" + " " + "-p" + " " + i.parentQuoted == "mkdir -p " + i.parentQuoted;
    RunOption("mkdir", "-p", i.parentQuoted, dir, rest, files);
  }

  lemma RunChmod(path: string, rest: string, files: map<string, string>)
    ensures Run("chmod 600 " + EnvFileQuote(path) + "\n" + rest, files) == Run(rest, files)
  {
    hide Run, EnvFileQuote, ReadWord, Plain;
    FixedWords();
    QuotesReadBack(path, "\n" + rest);
    QuotedHead(path);
    assert "chmod" + " " + "600" + " " + EnvFileQuote(path) == "chmod 600 " + EnvFileQuote(path);
    RunOption("chmod", "600", EnvFileQuote(path), path, rest, files);
  }

  // The line that closes the last argument of the helper container's command and opens the
  // here-document the user script goes through.
  function OpenUser(): string {
    "'" + " <<'" + USER_END + "'"
  }

  predicate OpensDocument(w: Wrapper) {
    w.hostRunner != [] && w.hostRunner[|w.hostRunner| - 1] == OpenUser()
  }

  // The here-document a command is fed with, and what follows it.
  function Fed(s: string, c: Command): Option<Read<string>> {
    var r := ReadCommand(s, c);
    if r.None? || r.value.value.here.None? then None else ReadHere(r.value.rest, r.value.value.here.value)
  }

  // A reader inside the quotes of an argument reaches the line that opens the document: the argument
  // ends there, and the command is fed with what starts on the next line.
  lemma ReadOpening(inside: string, doc: string, c: Command)
    requires '\'' !in inside
    ensures ReadCommand("'" + inside + (OpenUser() + "\n" + doc), c)
         == Some(Read(Command(c.words + [inside], c.output, Some(USER_END)), doc))
  {
    hide ReadWord, OpenUser, ReadCommand;
    var here := "<<'" + USER_END + "'\n" + doc;
    OpeningText(inside, doc, here);
    UserEndPlain();
    TakeHere(USER_END, doc, c.(words := c.words + [inside]));
    TakeArgument(inside, here, c);
  }

  lemma UserEndPlain()
    ensures '\'' !in USER_END
  {
  }

  lemma OpeningText(inside: string, doc: string, here: string)
    requires here == "<<'" + USER_END + "'\n" + doc
    ensures "'" + inside + (OpenUser() + "\n" + doc) == "'" + inside + "'" + (" " + here)
  {
  }

  // A quoted argument and the blank behind it.
  lemma TakeArgument(inside: string, here: string, c: Command)
    requires '\'' !in inside
    ensures ReadCommand("'" + inside + "'" + (" " + here), c) == ReadCommand(here, c.(words := c.words + [inside]))
  {
    var rest := " " + here;
    var s := "'" + inside + "'" + rest;
    ReadNothing(rest);
    ReadPlain(inside, rest);
    hide ReadWord;
    assert s[0] == '\'' && rest[0] == ' ' && rest[1..] == here && inside + "" == inside;
  }

  // Run on the host, the user script goes through a here-document inside the wrapped script. A reader
  // that has come to the opening line, with `inside` read of the quoted argument, finds the document
  // opened there and the script whole in it exactly when none of its lines is the delimiter.
  lemma UserScriptReadsBack(w: Wrapper, i: Install, inside: string, c: Command)
    requires i.onHost && OpensDocument(w) && '\'' !in inside
    ensures var above := w.before + ["ENV_FILE=" + EnvFileQuote(i.envPath)] + w.after + w.hostRunner[..|w.hostRunner| - 1];
            var user := i.userScript + "\n";
            var below := OpenUser() + "\n" + (user + (USER_END + "\n" + ""));
            && Unlines(InnerLines(w, i)) == Unlines(above) + below
            && (Fed("'" + inside + below, c) == Some(Read(user, "")) <==> HereSafe(user, USER_END))
  {
    hide ReadHere, HereSafe, EnvFileQuote, ReadCommand, OpenUser;
    var n := |w.hostRunner| - 1;
    var above := w.before + ["ENV_FILE=" + EnvFileQuote(i.envPath)] + w.after + w.hostRunner[..n];
    var doc := i.userScript + "\n" + (USER_END + "\n" + "");
    LastLines(w.before + ["ENV_FILE=" + EnvFileQuote(i.envPath)] + w.after, w.hostRunner, [i.userScript, USER_END]);
    assert [OpenUser()] + [i.userScript, USER_END] == [OpenUser(), i.userScript, USER_END];
    assert InnerLines(w, i) == above + [OpenUser(), i.userScript, USER_END];
    UnlinesAppend(above, [OpenUser(), i.userScript, USER_END]);
    UnlinesThree(OpenUser(), i.userScript, USER_END);
    assert Unlines([OpenUser(), i.userScript, USER_END]) == OpenUser() + "\n" + doc;
    ReadOpening(inside, doc, c);
    HereReadsBack(i.userScript + "\n", USER_END, "");
  }

  lemma LastLines(a: seq<string>, b: seq<string>, c: seq<string>)
    requires b != []
    ensures a + (b + c) == (a + b[..|b| - 1]) + ([b[|b| - 1]] + c)
  {
  }

  // ----- notification credentials --------------------------------------------

  datatype ChannelType = Telegram | Slack | Discord | Lark | MicrosoftTeams | Gotify | Ntfy | Pushover | Unsupported

  // `config` holds the string entries of the channel's configuration; others read as empty.
  datatype Channel = Channel(kind: ChannelType, typeName: string, name: string, config: map<string, string>)

  function ConfigString(c: Channel, key: string): string {
    if key in c.config then c.config[key] else ""
  }

  const DISABLED := ["WEEHAWK_NOTIFY_ENABLED=0"]

  // The variables a supported channel sets, beyond the three common ones.
  function ProviderVars(c: Channel): seq<(string, string)> {
    match c.kind
    case Telegram => [("WEEHAWK_NOTIFY_TOKEN", ConfigString(c, "token")), ("WEEHAWK_NOTIFY_TARGET", ConfigString(c, "target"))]
    case Slack => [("WEEHAWK_NOTIFY_WEBHOOK_URL", ConfigString(c, "webhookUrl"))]
    case Discord => [("WEEHAWK_NOTIFY_WEBHOOK_URL", ConfigString(c, "webhookUrl"))]
    case Lark => [("WEEHAWK_NOTIFY_WEBHOOK_URL", ConfigString(c, "webhookUrl"))]
    case MicrosoftTeams => [("WEEHAWK_NOTIFY_WEBHOOK_URL", ConfigString(c, "webhookUrl"))]
    case Gotify =>
      [("WEEHAWK_NOTIFY_SERVER_URL", ConfigString(c, "serverUrl")), ("WEEHAWK_NOTIFY_APP_TOKEN", ConfigString(c, "appToken")),
       ("WEEHAWK_NOTIFY_PRIORITY", if ConfigString(c, "priority") == "" then "5" else ConfigString(c, "priority"))]
    case Ntfy =>
      [("WEEHAWK_NOTIFY_SERVER_URL", ConfigString(c, "serverUrl")), ("WEEHAWK_NOTIFY_TOPIC", ConfigString(c, "topic")),
       ("WEEHAWK_NOTIFY_TOKEN", ConfigString(c, "token"))]
    case Pushover =>
      [("WEEHAWK_NOTIFY_APP_TOKEN", ConfigString(c, "appToken")), ("WEEHAWK_NOTIFY_USER_KEY", ConfigString(c, "userKey")),
       ("WEEHAWK_NOTIFY_DEVICE", ConfigString(c, "device"))]
    case Unsupported => []
  }

  // What a host sees of a channel.
  function CredentialVars(c: Option<Channel>): seq<(string, string)> {
    if c.None? || c.value.kind == Unsupported then [("WEEHAWK_NOTIFY_ENABLED", "0")]
    else [("WEEHAWK_NOTIFY_ENABLED", "1"), ("WEEHAWK_NOTIFY_TYPE", c.value.typeName), ("WEEHAWK_NOTIFY_CHANNEL_NAME", c.value.name)]
         + ProviderVars(c.value)
  }

  // The provider lines are pushed behind the common ones; an unsupported type throws all of them away.
  method AppendProviderEnvLines(given: seq<string>, c: Channel) returns (lines: seq<string>)
    ensures lines == if c.kind == Unsupported then DISABLED else given + EnvLines(ProviderVars(c))
  {
    hide EnvLine;
    lines := given;
    match c.kind {
      case Telegram =>
        lines := lines + [EnvLine("WEEHAWK_NOTIFY_TOKEN", ConfigString(c, "token")), EnvLine("WEEHAWK_NOTIFY_TARGET", ConfigString(c, "target"))];
        EnvLinesTwo(ProviderVars(c));
      case Gotify =>
        var priority := ConfigString(c, "priority");
        lines := lines + [EnvLine("WEEHAWK_NOTIFY_SERVER_URL", ConfigString(c, "serverUrl")),
                          EnvLine("WEEHAWK_NOTIFY_APP_TOKEN", ConfigString(c, "appToken")),
                          EnvLine("WEEHAWK_NOTIFY_PRIORITY", if priority == "" then "5" else priority)];
        EnvLinesThree(ProviderVars(c));
      case Ntfy =>
        lines := lines + [EnvLine("WEEHAWK_NOTIFY_SERVER_URL", ConfigString(c, "serverUrl")),
                          EnvLine("WEEHAWK_NOTIFY_TOPIC", ConfigString(c, "topic")),
                          EnvLine("WEEHAWK_NOTIFY_TOKEN", ConfigString(c, "token"))];
        EnvLinesThree(ProviderVars(c));
      case Pushover =>
        lines := lines + [EnvLine("WEEHAWK_NOTIFY_APP_TOKEN", ConfigString(c, "appToken")),
                          EnvLine("WEEHAWK_NOTIFY_USER_KEY", ConfigString(c, "userKey")),
                          EnvLine("WEEHAWK_NOTIFY_DEVICE", ConfigString(c, "device"))];
        EnvLinesThree(ProviderVars(c));
      case Unsupported =>
        lines := [];
        lines := lines + ["WEEHAWK_NOTIFY_ENABLED=0"];
      case _ =>
        lines := lines + [EnvLine("WEEHAWK_NOTIFY_WEBHOOK_URL", ConfigString(c, "webhookUrl"))];
        EnvLinesOne(ProviderVars(c));
    }
  }

  lemma EnvLinesOne(vars: seq<(string, string)>)
    requires |vars| == 1
    ensures EnvLines(vars) == [EnvLine(vars[0].0, vars[0].1)]
  {
  }

  lemma EnvLinesTwo(vars: seq<(string, string)>)
    requires |vars| == 2
    ensures EnvLines(vars) == [EnvLine(vars[0].0, vars[0].1), EnvLine(vars[1].0, vars[1].1)]
  {
    hide EnvLine;
    EnvLinesOne(vars[1..]);
  }

  lemma EnvLinesThree(vars: seq<(string, string)>)
    requires |vars| == 3
    ensures EnvLines(vars) == [EnvLine(vars[0].0, vars[0].1), EnvLine(vars[1].0, vars[1].1), EnvLine(vars[2].0, vars[2].1)]
  {
    hide EnvLine;
    EnvLinesTwo(vars[1..]);
  }

  method BuildCredentialEnvLines(c: Option<Channel>) returns (lines: seq<string>)
    ensures lines == CredentialLines(c)
  {
    if c.None? {
      return DISABLED;
    }
    lines := ["WEEHAWK_NOTIFY_ENABLED=1",
              EnvLine("WEEHAWK_NOTIFY_TYPE", c.value.typeName),
              EnvLine("WEEHAWK_NOTIFY_CHANNEL_NAME", c.value.name)];
    lines := AppendProviderEnvLines(lines, c.value);
  }

  function CredentialLines(c: Option<Channel>): seq<string> {
    if c.None? || c.value.kind == Unsupported then DISABLED
    else ["WEEHAWK_NOTIFY_ENABLED=1", EnvLine("WEEHAWK_NOTIFY_TYPE", c.value.typeName), EnvLine("WEEHAWK_NOTIFY_CHANNEL_NAME", c.value.name)]
         + EnvLines(ProviderVars(c.value))
  }

  lemma SourceFlag(flag: string, rest: string)
    requires flag == "0" || flag == "1"
    ensures var more := Source(rest);
            Source("WEEHAWK_NOTIFY_ENABLED=" + flag + "\n" + rest) ==
            if more.None? then None else Some([("WEEHAWK_NOTIFY_ENABLED", flag)] + more.value)
  {
    var name := "WEEHAWK_NOTIFY_ENABLED";
    assert IsName(name);
    assert "WEEHAWK_NOTIFY_ENABLED=" == name + "=";
    PlainLetters(flag);
    SourceWord(name, flag, rest);
  }

  lemma SourceWord(name: string, word: string, rest: string)
    requires IsName(name) && Plain(word)
    ensures var more := Source(rest);
            Source(name + "=" + word + "\n" + rest) == if more.None? then None else Some([(name, word)] + more.value)
  {
    hide ReadWord, IsName, Source;
    ReadPlainWord(word, "\n" + rest);
    hide Plain;
    SourceAssignment(name, word, word, rest);
    Regrouped(name, "=", word, "\n", rest);
  }

  lemma Regrouped(a: string, b: string, c: string, d: string, e: string)
    ensures a + b + c + d + e == a + b + (c + (d + e))
  {
  }

  lemma CommonNames()
    ensures IsName("WEEHAWK_NOTIFY_TYPE") && IsName("WEEHAWK_NOTIFY_CHANNEL_NAME") && IsName("WEEHAWK_NOTIFY_TOKEN")
  {
  }

  lemma TargetNames()
    ensures IsName("WEEHAWK_NOTIFY_TARGET") && IsName("WEEHAWK_NOTIFY_WEBHOOK_URL") && IsName("WEEHAWK_NOTIFY_SERVER_URL")
  {
  }

  lemma AppNames()
    ensures IsName("WEEHAWK_NOTIFY_APP_TOKEN") && IsName("WEEHAWK_NOTIFY_PRIORITY") && IsName("WEEHAWK_NOTIFY_TOPIC")
  {
  }

  lemma UserNames()
    ensures IsName("WEEHAWK_NOTIFY_USER_KEY") && IsName("WEEHAWK_NOTIFY_DEVICE")
  {
  }

  lemma VarNames(c: Channel)
    ensures forall k :: 0 <= k < |ProviderVars(c)| ==> IsName(ProviderVars(c)[k].0)
    ensures IsName("WEEHAWK_NOTIFY_TYPE") && IsName("WEEHAWK_NOTIFY_CHANNEL_NAME")
  {
    hide IsName;
    CommonNames();
    TargetNames();
    AppNames();
    UserNames();
  }

  lemma SupportedReadsBack(c: Channel)
    requires c.kind != Unsupported
    ensures Source(Unlines(CredentialLines(Some(c)))) == Some(CredentialVars(Some(c)))
  {
    hide EnvLine, Source, IsName;
    VarNames(c);
    hide ProviderVars, EnvLines, Unlines;
    var vars := [("WEEHAWK_NOTIFY_TYPE", c.typeName), ("WEEHAWK_NOTIFY_CHANNEL_NAME", c.name)] + ProviderVars(c);
    TwoMore(vars, ProviderVars(c));
    assert CredentialLines(Some(c)) == ["WEEHAWK_NOTIFY_ENABLED=1"] + EnvLines(vars);
    EnabledReadsBack(vars);
    assert CredentialVars(Some(c)) == [("WEEHAWK_NOTIFY_ENABLED", "1")] + vars;
  }

  lemma EnabledReadsBack(vars: seq<(string, string)>)
    requires forall k :: 0 <= k < |vars| ==> IsName(vars[k].0)
    ensures Source(Unlines(["WEEHAWK_NOTIFY_ENABLED=1"] + EnvLines(vars))) == Some([("WEEHAWK_NOTIFY_ENABLED", "1")] + vars)
  {
    hide Source, IsName, EnvLines;
    EnvFileReadsBack(vars);
    UnlinesAppend(["WEEHAWK_NOTIFY_ENABLED=1"], EnvLines(vars));
    UnlinesOne("WEEHAWK_NOTIFY_ENABLED=1");
    assert "WEEHAWK_NOTIFY_ENABLED=" + "1" == "WEEHAWK_NOTIFY_ENABLED=1";
    SourceFlag("1", Unlines(EnvLines(vars)));
  }

  lemma TwoMore(vars: seq<(string, string)>, rest: seq<(string, string)>)
    requires |vars| >= 2 && vars[2..] == rest
    ensures EnvLines(vars) == [EnvLine(vars[0].0, vars[0].1), EnvLine(vars[1].0, vars[1].1)] + EnvLines(rest)
  {
    hide EnvLine;
    assert vars[1..][1..] == rest;
  }

  // Sourcing the credential file sets exactly the channel's variables, whatever characters they hold.
  lemma CredentialsReadBack(c: Option<Channel>)
    ensures Source(Unlines(CredentialLines(c))) == Some(CredentialVars(c))
  {
    hide EnvLine, Source, IsName;
    if c.None? || c.value.kind == Unsupported {
      UnlinesOne(DISABLED[0]);
      assert DISABLED == [DISABLED[0]] && [("WEEHAWK_NOTIFY_ENABLED", "0")] + [] == [("WEEHAWK_NOTIFY_ENABLED", "0")];
      assert "WEEHAWK_NOTIFY_ENABLED=" + "0" + "\n" + "" == DISABLED[0] + "\n";
      SourceFlag("0", "");
      SourceNothing();
    } else {
      assert c == Some(c.value);
      SupportedReadsBack(c.value);
    }
  }
}
