// The part of a POSIX shell (XCU chapter 2 of POSIX.1-2017) that the generated scripts rely on:
// quoting (section 2.2), here-documents with a quoted delimiter (section 2.7.4), simple commands
// and assignments. Anything outside this part reads as unsupported.
module ShellReader {
  import opened Wrappers
  import ComposeText

  // A value read, and the text after it.
  datatype Read<+T> = Read(value: T, rest: string)

  // Characters that end an unquoted word.
  predicate EndsWord(c: char) {
    c == ' ' || c == '\t' || c == '\n' || c == '<' || c == '>'
  }

  // Unquoted characters with a meaning this reader does not give.
  predicate IsSpecial(c: char) {
    c in {'$', '`', ';', '&', '|', '(', ')', '*', '?', '[', ']', '{', '}', '~', '#', '!'}
  }

  // The inside of double quotes, up to the closing one; expansions are unsupported.
  function ReadDouble(s: string): (r: Option<Read<string>>)
    ensures r.Some? ==> |r.value.rest| < |s|
  {
    if s == "" || s[0] == '$' || s[0] == '`' then None
    else if s[0] == '"' then Some(Read("", s[1..]))
    else if s[0] == '\\' && |s| >= 2 && s[1] in {'$', '`', '"', '\\'} then
      var r := ReadDouble(s[2..]);
      if r.None? then None else Some(Read([s[1]] + r.value.value, r.value.rest))
    else if s[0] == '\\' && |s| >= 2 && s[1] == '\n' then ReadDouble(s[2..])
    else
      var r := ReadDouble(s[1..]);
      if r.None? then None else Some(Read([s[0]] + r.value.value, r.value.rest))
  }

  // One word, with its quotes removed, up to an unquoted blank, line break, redirection or the end.
  function ReadWord(s: string): (r: Option<Read<string>>)
    ensures r.Some? ==> |r.value.rest| <= |s|
    ensures r.Some? && s != "" && !EndsWord(s[0]) ==> |r.value.rest| < |s|
    decreases |s|
  {
    if s == "" || EndsWord(s[0]) then Some(Read("", s))
    else if s[0] == '\'' then
      var k := ComposeText.IndexOf(s[1..], '\'');
      if k == |s| - 1 then None
      else
        var r := ReadWord(s[k + 2..]);
        if r.None? then None else Some(Read(s[1..k + 1] + r.value.value, r.value.rest))
    else if s[0] == '"' then
      var q := ReadDouble(s[1..]);
      if q.None? then None
      else
        var r := ReadWord(q.value.rest);
        if r.None? then None else Some(Read(q.value.value + r.value.value, r.value.rest))
    else if s[0] == '\\' then
      if |s| == 1 then None
      else
        var r := ReadWord(s[2..]);
        if r.None? then None
        else Some(Read((if s[1] == '\n' then "" else [s[1]]) + r.value.value, r.value.rest))
    else if IsSpecial(s[0]) then None
    else
      var r := ReadWord(s[1..]);
      if r.None? then None else Some(Read([s[0]] + r.value.value, r.value.rest))
  }

  predicate IsName(s: string) {
    s != "" && !('0' <= s[0] <= '9')
    && forall k :: 0 <= k < |s| ==> 'a' <= s[k] <= 'z' || 'A' <= s[k] <= 'Z' || '0' <= s[k] <= '9' || s[k] == '_'
  }

  // `. file`: assignments, one per line; the value of each, in order.
  function Source(s: string): Option<seq<(string, string)>>
    decreases |s|
  {
    if s == "" then Some([])
    else if s[0] == '\n' then Source(s[1..])
    else
      var k := ComposeText.IndexOf(s, '=');
      if k == |s| || !IsName(s[..k]) then None
      else
        var w := ReadWord(s[k + 1..]);
        if w.None? || (w.value.rest != "" && w.value.rest[0] != '\n') then None
        else
          var more := Source(w.value.rest);
          if more.None? then None else Some([(s[..k], w.value.value)] + more.value)
  }

  // A here-document: the lines up to one that is exactly the delimiter.
  function ReadHere(s: string, delimiter: string): (r: Option<Read<string>>)
    ensures r.Some? ==> |r.value.rest| < |s| || (s == delimiter && r.value.rest == "")
    decreases |s|
  {
    var k := ComposeText.IndexOf(s, '\n');
    if k == |s| then (if s == delimiter then Some(Read("", "")) else None)
    else if s[..k] == delimiter then Some(Read("", s[k + 1..]))
    else
      var r := ReadHere(s[k + 1..], delimiter);
      if r.None? then None else Some(Read(s[..k + 1] + r.value.value, r.value.rest))
  }

  // A simple command: its words, the file its output goes to, and its here-document delimiter.
  datatype Command = Command(words: seq<string>, output: Option<string>, here: Option<string>)

  // The rest of a command line; consumes the line break.
  function ReadCommand(s: string, c: Command): (r: Option<Read<Command>>)
    ensures r.Some? ==> |r.value.rest| <= |s|
    ensures r.Some? && s != "" ==> |r.value.rest| < |s|
    decreases |s|
  {
    if s == "" then Some(Read(c, ""))
    else if s[0] == '\n' then Some(Read(c, s[1..]))
    else if s[0] == ' ' || s[0] == '\t' then ReadCommand(s[1..], c)
    else if s[0] == '>' then
      var from := SkipBlanks(s[1..]);
      var w := ReadWord(from);
      if w.None? || w.value.rest == from then None
      else ReadCommand(w.value.rest, c.(output := Some(w.value.value)))
    else if s[0] == '<' then
      // only `<<` with a delimiter that starts with a quote, so that nothing in the document expands
      if |s| < 3 || s[1] != '<' || s[2] != '\'' then None
      else
        var w := ReadWord(s[2..]);
        if w.None? then None else ReadCommand(w.value.rest, c.(here := Some(w.value.value)))
    else
      var w := ReadWord(s);
      if w.None? then None else ReadCommand(w.value.rest, c.(words := c.words + [w.value.value]))
  }

  function SkipBlanks(s: string): (r: string)
    ensures |r| <= |s|
  {
    if s != "" && (s[0] == ' ' || s[0] == '\t') then SkipBlanks(s[1..]) else s
  }

  const QUIET_COMMANDS := ["set", "umask", "mkdir", "chmod"]

  // Runs a script: the files it writes with `cat > file <<'end'`, on top of those given.
  function Run(s: string, files: map<string, string>): Option<map<string, string>>
    decreases |s|
  {
    if s == "" then Some(files)
    else
      var c := ReadCommand(s, Command([], None, None));
      if c.None? then None
      else
        var cmd := c.value.value;
        if cmd.here.Some? then
          var h := ReadHere(c.value.rest, cmd.here.value);
          if h.None? || cmd.words != ["cat"] || cmd.output.None? then None
          else Run(h.value.rest, files[cmd.output.value := h.value.value])
        else if cmd.output.Some? then None
        else if cmd.words == [] || cmd.words[0] in QUIET_COMMANDS then Run(c.value.rest, files)
        else None
  }
}
