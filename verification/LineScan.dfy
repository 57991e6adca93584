// Lines of a compose file and the one scanning primitive behind every index loop
// of the compose rewriters: the first line, from a given index on, that a probe hits.
module LineScan {

  // A physical line, split at its outer whitespace: `lead + body + trail`.
  // `|lead|` is what `/^\s*/` measures and `body` is what `trim()` returns.
  datatype Line = Line(lead: string, body: string, trail: string)

  function Spaces(n: nat): (s: string)
    ensures |s| == n && forall k :: 0 <= k < n ==> s[k] == ' '
  {
    seq(n, _ => ' ')
  }

  function Mk(indent: nat, body: string): Line {
    Line(Spaces(indent), body, "")
  }

  predicate IsAlpha(c: char) {
    'a' <= c <= 'z' || 'A' <= c <= 'Z'
  }

  predicate IsDigit(c: char) {
    '0' <= c <= '9'
  }

  // [a-zA-Z0-9_.-]
  predicate IsNameChar(c: char) {
    IsAlpha(c) || IsDigit(c) || c == '_' || c == '.' || c == '-'
  }

  predicate AllNameChars(s: string) {
    forall k :: 0 <= k < |s| ==> IsNameChar(s[k])
  }

  // [a-zA-Z0-9][a-zA-Z0-9_.-]*
  predicate IsServiceName(s: string) {
    s != "" && AllNameChars(s) && (IsAlpha(s[0]) || IsDigit(s[0]))
  }

  // [a-zA-Z_][\w.-]*
  predicate IsRootName(s: string) {
    s != "" && AllNameChars(s) && (IsAlpha(s[0]) || s[0] == '_')
  }

  // `name:` and nothing else
  predicate IsKeyBody(body: string) {
    |body| >= 2 && body[|body| - 1] == ':'
  }

  function KeyName(body: string): string
    requires IsKeyBody(body)
  {
    body[..|body| - 1]
  }

  predicate IsBlankOrComment(l: Line) {
    l.body == "" || l.body[0] == '#'
  }

  // What the loops look for. Indents are counted from the `services:` line.
  datatype Probe =
    | Services                          // /^(\s*)services:\s*$/
    | RegionEnd(d: nat)                 // first line back at the indent of `services:`
    | ServiceLine(d: nat)               // a line that names a service
    | NameLine(d: nat, name: string)    // the line of one given service
    | BlockEnd(d: nat)                  // next sibling, or end of the region
    | NetworksKey                       // trimmed line is `networks:`
    | Item(net: string)                 // trimmed line is `- net`
    | RootNetworks                      // /^networks:\s*(\{\})?\s*$/
    | RootKey                           // root key that closes the networks section
    | AnyDecl                           // key counted as a declared network
    | Decl(net: string)                 // declaration of one given network
    | RootVolumes                       // /^volumes:\s*/
    | Traefik                           // /traefik\.enable\s*=\s*true/i

  predicate IsSpace(c: char) {
    c == ' ' || '\t' <= c <= '\r' || c == '\U{00A0}' || c == '\U{1680}'
    || '\U{2000}' <= c <= '\U{200A}' || c == '\U{2028}' || c == '\U{2029}'
    || c == '\U{202F}' || c == '\U{205F}' || c == '\U{3000}' || c == '\U{FEFF}'
  }

  predicate AllSpace(s: string) {
    forall k :: 0 <= k < |s| ==> IsSpace(s[k])
  }

  // `networks:` optionally followed by whitespace and `{}`
  predicate IsNetworksHeaderBody(body: string) {
    body == "networks:"
    || (|body| >= 11 && body[..9] == "networks:" && body[|body| - 2..] == "{}"
        && AllSpace(body[9..|body| - 2]))
  }

  function Lower(c: char): char {
    if 'A' <= c <= 'Z' then (c as int + 32) as char else c
  }

  // body[i..] starts with `word`, ignoring case (`word` is given in lower case)
  predicate WordAt(body: string, i: nat, word: string) {
    i + |word| <= |body| && forall k :: 0 <= k < |word| ==> Lower(body[i + k]) == word[k]
  }

  predicate EnableAt(body: string, i: nat) {
    && WordAt(body, i, "traefik.enable")
    && exists eq, t | i + 14 <= eq < t <= |body| ::
         AllSpace(body[i + 14..eq]) && body[eq] == '=' && AllSpace(body[eq + 1..t]) && WordAt(body, t, "true")
  }

  predicate HasTraefikEnable(body: string) {
    exists i | 0 <= i <= |body| :: EnableAt(body, i)
  }

  predicate Hit(p: Probe, l: Line) {
    match p
    case Services => l.body == "services:"
    case RegionEnd(d) => !IsBlankOrComment(l) && |l.lead| <= d
    case ServiceLine(d) => |l.lead| == d + 2 && IsKeyBody(l.body) && IsServiceName(KeyName(l.body))
    case NameLine(d, name) =>
      // `^\s{d+2}name:`: a name that starts with a space may share the leading whitespace
      if name != "" && !IsSpace(name[0]) then |l.lead| == d + 2 && l.body == name + ":"
      else |l.lead| >= d + 2 && l.lead[d + 2..] + l.body == name + ":"
    case BlockEnd(d) =>
      !IsBlankOrComment(l)
      && (|l.lead| <= d || (|l.lead| == d + 2 && IsKeyBody(l.body) && AllNameChars(KeyName(l.body))))
    case NetworksKey => l.body == "networks:"
    case Item(net) => l.body == "- " + net
    case RootNetworks => l.lead == "" && IsNetworksHeaderBody(l.body)
    case RootKey => l.lead == "" && !IsBlankOrComment(l) && IsKeyBody(l.body) && IsRootName(KeyName(l.body))
    case AnyDecl => l.lead != "" && !IsBlankOrComment(l) && IsKeyBody(l.body) && IsRootName(KeyName(l.body))
    case Decl(net) => l.lead != "" && IsRootName(net) && l.body == net + ":"
    case RootVolumes => l.lead == "" && |l.body| >= 8 && l.body[..8] == "volumes:"
    case Traefik => HasTraefikEnable(l.body)
  }

  // Index of the first line at or after i that p hits; |lines| when there is none.
  function First(lines: seq<Line>, i: nat, p: Probe): (r: nat)
    requires i <= |lines|
    ensures i <= r <= |lines|
    ensures forall k :: i <= k < r ==> !Hit(p, lines[k])
    ensures r < |lines| ==> Hit(p, lines[r])
    decreases |lines| - i
  {
    if i == |lines| || Hit(p, lines[i]) then i else First(lines, i + 1, p)
  }

  function Insert(lines: seq<Line>, at: nat, ins: seq<Line>): (r: seq<Line>)
    requires at <= |lines|
    ensures |r| == |lines| + |ins|
    ensures forall k :: 0 <= k < at ==> r[k] == lines[k]
    ensures forall k :: at <= k < at + |ins| ==> r[k] == ins[k - at]
    ensures forall k :: at + |ins| <= k < |r| ==> r[k] == lines[k - |ins|]
  {
    lines[..at] + ins + lines[at..]
  }

  predicate NoHit(ins: seq<Line>, p: Probe) {
    forall k :: 0 <= k < |ins| ==> !Hit(p, ins[k])
  }

  lemma FirstIs(lines: seq<Line>, i: nat, p: Probe, r: nat)
    requires i <= r <= |lines|
    requires forall k :: i <= k < r ==> !Hit(p, lines[k])
    requires r < |lines| ==> Hit(p, lines[r])
    ensures First(lines, i, p) == r
  {
  }

  // An insertion above the place where the scan starts only shifts its result.
  lemma FirstInsertAbove(lines: seq<Line>, i: nat, p: Probe, at: nat, ins: seq<Line>)
    requires at <= i <= |lines|
    ensures First(Insert(lines, at, ins), i + |ins|, p) == First(lines, i, p) + |ins|
  {
    var r := First(lines, i, p);
    var out := Insert(lines, at, ins);
    forall k | i + |ins| <= k < r + |ins| ensures !Hit(p, out[k]) {
      assert out[k] == lines[k - |ins|];
    }
    FirstIs(out, i + |ins|, p, r + |ins|);
  }

  // An insertion of lines that p does not hit shifts the result exactly when it is at or below the insertion point.
  lemma FirstInsertQuiet(lines: seq<Line>, i: nat, p: Probe, at: nat, ins: seq<Line>)
    requires i <= at <= |lines| && NoHit(ins, p)
    ensures First(Insert(lines, at, ins), i, p)
         == if First(lines, i, p) < at then First(lines, i, p) else First(lines, i, p) + |ins|
  {
    var r := First(lines, i, p);
    var out := Insert(lines, at, ins);
    var r' := if r < at then r else r + |ins|;
    forall k | i <= k < r' ensures !Hit(p, out[k]) {
      if k < at {
      } else if k < at + |ins| {
        assert out[k] == ins[k - at];
      } else {
        assert out[k] == lines[k - |ins|];
      }
    }
    FirstIs(out, i, p, r');
  }

  // Whatever is inserted, a result above the insertion point stays, and no new result appears above it.
  lemma FirstInsertBelow(lines: seq<Line>, i: nat, p: Probe, at: nat, ins: seq<Line>)
    requires i <= at <= |lines|
    ensures First(lines, i, p) < at ==> First(Insert(lines, at, ins), i, p) == First(lines, i, p)
    ensures First(lines, i, p) >= at ==> First(Insert(lines, at, ins), i, p) >= at
  {
    var r := First(lines, i, p);
    var out := Insert(lines, at, ins);
    if r < at {
      FirstIs(out, i, p, r);
    }
  }

  // A hit inside [i, k] bounds the result.
  lemma FirstAtMost(lines: seq<Line>, i: nat, p: Probe, k: nat)
    requires i <= k < |lines| && Hit(p, lines[k])
    ensures First(lines, i, p) <= k
  {
  }

  // a is an ordered subsequence of b
  predicate Subseq<T(==)>(a: seq<T>, b: seq<T>)
    decreases |b|
  {
    a == [] || (b != [] && ((a[0] == b[0] && Subseq(a[1..], b[1..])) || Subseq(a, b[1..])))
  }

  lemma {:induction false} SubseqRefl<T>(a: seq<T>)
    ensures Subseq(a, a)
  {
    if a != [] {
      SubseqRefl(a[1..]);
    }
  }

  lemma {:induction false} SubseqTrans<T>(a: seq<T>, b: seq<T>, c: seq<T>)
    requires Subseq(a, b) && Subseq(b, c)
    ensures Subseq(a, c)
    decreases |c|
  {
    if a != [] {
      if Subseq(b, c[1..]) {
        SubseqTrans(a, b, c[1..]);
      } else if a[0] == b[0] && Subseq(a[1..], b[1..]) {
        SubseqTrans(a[1..], b[1..], c[1..]);
      } else {
        SubseqTrans(a, b[1..], c[1..]);
      }
    }
  }

  lemma {:induction false} SubseqInsert(lines: seq<Line>, at: nat, ins: seq<Line>)
    requires at <= |lines|
    ensures Subseq(lines, Insert(lines, at, ins))
    decreases at, |ins|
  {
    var out := Insert(lines, at, ins);
    if at > 0 {
      SubseqInsert(lines[1..], at - 1, ins);
      assert out[1..] == Insert(lines[1..], at - 1, ins);
    } else if ins != [] {
      SubseqInsert(lines, 0, ins[1..]);
      assert out[1..] == Insert(lines, 0, ins[1..]);
    } else {
      SubseqRefl(lines);
      assert out == lines;
    }
  }
}
