// Exactly which lines of a compose file count as named mounts.
module ComposeMounts {
  import opened Wrappers
  import opened LineScan
  import opened ComposeText
  import opened ComposeVolumes

  // [a-zA-Z][a-zA-Z0-9_.-]*
  predicate IsMountName(s: string) {
    s != "" && AllNameChars(s) && IsAlpha(s[0])
  }

  predicate IsPath(s: string) {
    "/" <= s || "${" <= s
  }

  predicate IsQuote(s: string) {
    s == "" || s == "'" || s == "\""
  }

  function Mounted(name: string, path: string): string {
    name + (":" + path)
  }

  // A dash, whitespace, perhaps an opening quote, the name, a colon and a path or a variable.
  predicate Spells(body: string, ws: string, quote: string, name: string, path: string) {
    && AllSpace(ws) && IsQuote(quote) && IsMountName(name) && IsPath(path)
    && body == "-" + (ws + (quote + Mounted(name, path)))
  }

  ghost predicate IsMount(body: string, name: string) {
    exists ws: string, quote: string, path: string :: Spells(body, ws, quote, name, path)
  }

  lemma NameEnds(name: string, path: string)
    requires IsMountName(name)
    ensures NameRun(name + (":" + path)) == |name|
  {
    var s := name + (":" + path);
    assert !IsNameChar(':');
    assert s[|name|] == ':' && s[..|name|] == name;
    assert forall k :: 0 <= k < |name| ==> s[k] == name[k];
  }

  lemma TailReads(name: string, path: string)
    requires IsMountName(name) && IsPath(path)
    ensures MountOf(name + (":" + path)) == Some(name)
  {
    var s := name + (":" + path);
    NameEnds(name, path);
    hide NameRun;
    assert s[|name|] == ':' && s[|name| + 1] == path[0] && s[..|name|] == name && s[0] == name[0];
    if "${" <= path {
      assert s[|name| + 2] == path[1] == '{';
    }
  }

  lemma AfterDash(rest: string)
    ensures MountName("-" + rest) == MountOf(Unquoted(TrimStart(rest)))
  {
    hide MountOf, Unquoted, TrimStart;
    assert ("-" + rest)[1..] == rest;
  }

  lemma QuoteDrops(quote: string, tail: string)
    requires IsQuote(quote) && tail != "" && IsAlpha(tail[0])
    ensures Unquoted(quote + tail) == tail && !IsSpace((quote + tail)[0])
  {
    if quote == "" {
      assert quote + tail == tail;
    } else {
      assert (quote + tail)[0] == quote[0] && (quote + tail)[1..] == tail;
    }
  }

  lemma NameFirst(name: string, rest: string)
    requires IsMountName(name)
    ensures name + rest != "" && IsAlpha((name + rest)[0])
  {
  }

  lemma SpelledIsMount(body: string, ws: string, quote: string, name: string, path: string)
    requires Spells(body, ws, quote, name, path)
    ensures MountName(body) == Some(name)
  {
    hide MountOf, TrimStart, MountName, Unquoted, IsPath, IsSpace, IsMountName;
    var tail := name + (":" + path);
    TailReads(name, path);
    NameFirst(name, ":" + path);
    QuoteDrops(quote, tail);
    TrimStartIs(ws, quote + tail);
    AfterDash(ws + (quote + tail));
  }

  lemma MountIsSpelled(body: string)
    requires MountName(body).Some?
    ensures IsMount(body, MountName(body).value)
  {
    MountStarts(body);
    hide *;
    var rest := body[1..];
    var from := TrimStart(rest);
    var t := Unquoted(from);
    var n := NameRun(t);
    MountParts(t, n);
    DashCut(body);
    TrimCut(rest, from);
    UnquotedShorter(from);
    QuoteCut(from, from[..|from| - |t|], t);
    NameCut(t, n);
    Assembled(body, rest[..|rest| - |from|], from[..|from| - |t|], t[..n], t[n + 1..]);
    SpelledHolds(body, rest[..|rest| - |from|], from[..|from| - |t|], t[..n], t[n + 1..]);
  }

  lemma SpelledHolds(body: string, ws: string, quote: string, name: string, path: string)
    requires Spells(body, ws, quote, name, path)
    ensures IsMount(body, name)
  {
    hide Spells;
  }

  lemma MountStarts(body: string)
    requires MountName(body).Some?
    ensures body != "" && body[0] == '-' && MountName(body) == MountOf(Unquoted(TrimStart(body[1..])))
  {
    hide MountOf, TrimStart, Unquoted;
  }

  lemma TrimCut(rest: string, from: string)
    requires from == TrimStart(rest)
    ensures |from| <= |rest| && rest == rest[..|rest| - |from|] + from && AllSpace(rest[..|rest| - |from|])
  {
    hide TrimStart, IsSpace;
  }

  lemma UnquotedShorter(from: string)
    ensures |Unquoted(from)| <= |from|
  {
  }

  lemma DashCut(body: string)
    requires body != "" && body[0] == '-'
    ensures body == "-" + body[1..]
  {
  }

  lemma NameCut(t: string, n: nat)
    requires n < |t| && t[n] == ':'
    ensures t == Mounted(t[..n], t[n + 1..])
  {
  }

  lemma Assembled(body: string, ws: string, quote: string, name: string, path: string)
    requires AllSpace(ws) && IsQuote(quote) && IsMountName(name) && IsPath(path)
    requires body == "-" + (ws + (quote + Mounted(name, path)))
    ensures Spells(body, ws, quote, name, path)
  {
  }

  lemma QuoteCut(from: string, quote: string, t: string)
    requires t == Unquoted(from) && quote == from[..|from| - |t|]
    ensures IsQuote(quote) && from == quote + t
  {
    if from != "" && (from[0] == '\'' || from[0] == '"') {
      assert quote == [from[0]];
    }
  }

  lemma MountParts(t: string, n: nat)
    requires n == NameRun(t) && MountOf(t).Some?
    ensures n < |t| && t[n] == ':' && MountOf(t).value == t[..n] && IsMountName(t[..n]) && IsPath(t[n + 1..])
  {
    hide NameRun;
    assert t[..n][0] == t[0];
    if t[n + 1] == '$' {
      assert t[n + 1..][..2] == "${";
    }
  }

  // A line counts as a mount of `name` exactly when it spells one out.
  lemma MountExact(body: string, name: string)
    ensures MountName(body) == Some(name) <==> IsMount(body, name)
  {
    hide MountName, Spells;
    if MountName(body).Some? {
      MountIsSpelled(body);
    }
    if IsMount(body, name) {
      var ws: string, quote: string, path: string :| Spells(body, ws, quote, name, path);
      SpelledIsMount(body, ws, quote, name, path);
    }
  }
}
