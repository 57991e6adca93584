// The Traefik label block of one service, and its injection after the attach pipeline.
module ComposeTraefik {
  import opened LineScan
  import opened Decimal
  import opened ComposeNetworks
  import opened ComposeAttach
  import opened ComposeText
  import opened ComposeSimilar
  import opened ComposePipeline

  datatype Route = Route(router: string, rule: string, port: nat, https: bool)

  datatype Ingress = Ingress(certResolver: string, httpEntrypoint: string, httpsEntrypoint: string, routes: seq<Route>)

  // ----- label values --------------------------------------------------------

  // Backslashes doubled, then double quotes escaped.
  function EscapeLabel(value: string): string {
    if value == "" then ""
    else (if value[0] == '\\' then "\\\\" else if value[0] == '"' then "\\\"" else [value[0]]) + EscapeLabel(value[1..])
  }

  // What a YAML double-quoted scalar (section 7.3.1 of YAML 1.2.2) reads up to its closing
  // quote, for the two escapes used here; the rest of the text comes back too.
  function ReadQuoted(s: string): (string, string) {
    if s == "" || s[0] == '"' then ("", s)
    else if s[0] == '\\' && |s| >= 2 then
      var (value, rest) := ReadQuoted(s[2..]);
      ([s[1]] + value, rest)
    else
      var (value, rest) := ReadQuoted(s[1..]);
      ([s[0]] + value, rest)
  }

  // An escaped value reads back, and its first bare quote is the one that follows it.
  lemma {:induction false} EscapeReadsBack(value: string, rest: string)
    ensures ReadQuoted(EscapeLabel(value) + "\"" + rest) == (value, "\"" + rest)
    decreases |value|
  {
    if value == "" {
      assert EscapeLabel(value) + "\"" + rest == "\"" + rest;
    } else {
      var head := if value[0] == '\\' then "\\\\" else if value[0] == '"' then "\\\"" else [value[0]];
      var tail := EscapeLabel(value[1..]) + "\"" + rest;
      var all := EscapeLabel(value) + "\"" + rest;
      assert all == head + tail;
      assert all[|head|..] == tail;
      EscapeReadsBack(value[1..], rest);
      assert value == [value[0]] + value[1..];
    }
  }

  // ----- label lines ---------------------------------------------------------

  function LabelLine(text: string): Line {
    Mk(8, "- \"" + text + "\"")
  }

  function PortLine(port: nat): Line {
    LabelLine("traefik.http.services.whlb_" + Digits(port) + ".loadbalancer.server.port=" + Digits(port))
  }

  function RouteLines(t: Ingress, r: Route): seq<Line> {
    var router := "traefik.http.routers." + r.router;
    [LabelLine(router + ".rule=" + EscapeLabel(r.rule)),
     LabelLine(router + ".entrypoints=" + (if r.https then t.httpsEntrypoint else t.httpEntrypoint)),
     LabelLine(router + ".service=whlb_" + Digits(r.port))]
    + (if r.https then [LabelLine(router + ".tls.certresolver=" + t.certResolver)] else [])
  }

  // The labels of the routes from i on; `seen` holds the ports that have their load balancer line.
  function RoutesLines(t: Ingress, i: nat, seen: set<nat>): seq<Line>
    requires i <= |t.routes|
    decreases |t.routes| - i
  {
    if i == |t.routes| then []
    else
      var r := t.routes[i];
      RouteLines(t, r) + (if r.port in seen then [] else [PortLine(r.port)]) + RoutesLines(t, i + 1, seen + {r.port})
  }

  function HeadLines(network: string): seq<Line> {
    [LabelLine("traefik.enable=true"), LabelLine("traefik.docker.network=" + network)]
  }

  function DeployBlock(t: Ingress, network: string): seq<Line> {
    [Mk(4, "deploy:"), Mk(6, "replicas: 1"), Mk(6, "restart_policy:"), Mk(8, "condition: on-failure"), Mk(6, "labels:")]
    + HeadLines(network) + RoutesLines(t, 0, {})
  }

  // ----- what the label lines are to the scanners ----------------------------

  // Indented lines no scan of services or root networks stops at, and that attach nothing.
  ghost predicate Inert(ins: seq<Line>) {
    forall k :: 0 <= k < |ins| ==> InertLine(ins[k])
  }

  predicate InertLine(l: Line) {
    |l.lead| >= 4 && l.body != "" && l.body != "services:" && l.body != "networks:"
  }

  lemma InertIsQuiet(ins: seq<Line>)
    requires Inert(ins)
    ensures Quiet(ins) && NoHit(ins, NetworksKey)
  {
  }

  lemma LabelIsInert(text: string)
    ensures InertLine(LabelLine(text))
  {
    assert LabelLine(text).body[0] == '-';
  }

  lemma RouteLinesInert(t: Ingress, r: Route)
    ensures Inert(RouteLines(t, r)) && InertLine(PortLine(r.port))
  {
    hide InertLine, LabelLine, Digits, EscapeLabel;
    var router := "traefik.http.routers." + r.router;
    LabelIsInert(router + ".rule=" + EscapeLabel(r.rule));
    LabelIsInert(router + ".entrypoints=" + (if r.https then t.httpsEntrypoint else t.httpEntrypoint));
    LabelIsInert(router + ".service=whlb_" + Digits(r.port));
    LabelIsInert(router + ".tls.certresolver=" + t.certResolver);
    LabelIsInert("traefik.http.services.whlb_" + Digits(r.port) + ".loadbalancer.server.port=" + Digits(r.port));
  }

  lemma {:induction false} RoutesInert(t: Ingress, i: nat, seen: set<nat>)
    requires i <= |t.routes|
    ensures Inert(RoutesLines(t, i, seen))
    decreases |t.routes| - i
  {
    hide InertLine, RouteLines, PortLine;
    if i < |t.routes| {
      RouteLinesInert(t, t.routes[i]);
      RoutesInert(t, i + 1, seen + {t.routes[i].port});
    }
  }

  lemma FixedLinesInert()
    ensures Inert([Mk(4, "deploy:"), Mk(6, "replicas: 1"), Mk(6, "restart_policy:"), Mk(8, "condition: on-failure"), Mk(6, "labels:")])
  {
    assert Mk(4, "deploy:").body[0] == 'd' && Mk(6, "replicas: 1").body[0] == 'r' && Mk(6, "restart_policy:").body[0] == 'r';
    assert Mk(8, "condition: on-failure").body[0] == 'c' && Mk(6, "labels:").body[0] == 'l';
  }

  lemma DeployBlockInert(t: Ingress, network: string)
    ensures Inert(DeployBlock(t, network))
    ensures |DeployBlock(t, network)| >= 7 && Hit(Traefik, DeployBlock(t, network)[5])
  {
    hide InertLine, LabelLine, Mk, RoutesLines, Hit;
    RoutesInert(t, 0, {});
    FixedLinesInert();
    LabelIsInert("traefik.enable=true");
    LabelIsInert("traefik.docker.network=" + network);
    EnableLineHits();
  }

  lemma WordInside(before: string, word: string, after: string)
    requires forall k :: 0 <= k < |word| ==> Lower(word[k]) == word[k]
    ensures WordAt(before + word + after, |before|, word)
  {
    forall k | 0 <= k < |word| ensures (before + word + after)[|before| + k] == word[k] {
    }
  }

  lemma EnableLineHits()
    ensures Hit(Traefik, LabelLine("traefik.enable=true"))
  {
    var word, yes := "traefik.enable", "true";
    var body := LabelLine("traefik.enable=true").body;
    assert body == "- \"traefik.enable=true\"";
    hide WordAt, HasTraefikEnable, LabelLine;
    EnableWord(body, word);
    TrueWord(body, yes);
    EnableSpelled(body, word, yes);
  }

  lemma EnableWord(body: string, word: string)
    requires body == "- \"traefik.enable=true\"" && word == "traefik.enable"
    ensures |body| >= 18 && body[17] == '=' && WordAt(body, 3, word)
  {
    WordInside("- \"", word, "=true\"");
  }

  lemma TrueWord(body: string, yes: string)
    requires body == "- \"traefik.enable=true\"" && yes == "true"
    ensures WordAt(body, 18, yes)
  {
    forall k | 0 <= k < |yes| ensures Lower(body[18 + k]) == yes[k] {
    }
  }

  lemma EnableSpelled(body: string, word: string, yes: string)
    requires word == "traefik.enable" && yes == "true" && |body| >= 18 && WordAt(body, 3, word) && body[17] == '=' && WordAt(body, 18, yes)
    ensures HasTraefikEnable(body)
  {
    hide WordAt;
    assert AllSpace(body[3 + 14..17]) && AllSpace(body[17 + 1..18]);
    assert EnableAt(body, 3);
  }

  // ----- injecting the block -------------------------------------------------

  // The block of `target` already carries the enable label.
  predicate Enabled(lines: seq<Line>, target: string) {
    var b := BlockStart(lines, target);
    b < |lines| && First(lines, b + 1, Traefik) < BlockStop(lines, target)
  }

  function InjectLines(lines: seq<Line>, target: string, block: seq<Line>): (r: seq<Line>)
    requires BlockStart(lines, target) < |lines|
    ensures |r| >= |lines|
  {
    if Enabled(lines, target) then lines else Insert(lines, BlockStop(lines, target), block)
  }

  // The end of any block, listed or not, splits no listed block.
  lemma BlockStopApart(lines: seq<Line>, target: string, name: string)
    requires Rooted(lines) && BlockStart(lines, target) < |lines| && name in ServiceNames(lines)
    ensures Apart(lines, BlockStop(lines, target), name)
  {
    hide Hit, First, ServiceNames;
    ListedBlock(lines, name);
  }

  lemma TargetBelowHeader(lines: seq<Line>, target: string)
    requires Rooted(lines) && BlockStart(lines, target) < |lines|
    ensures ServicesAt(lines) < BlockStart(lines, target) < BlockStop(lines, target) <= |lines|
  {
  }

  lemma InjectedBlock(lines: seq<Line>, target: string, block: seq<Line>)
    requires Rooted(lines) && BlockStart(lines, target) < |lines| && Inert(block)
    ensures var out := Insert(lines, BlockStop(lines, target), block);
            && Rooted(out) && ServicesAt(out) == ServicesAt(lines)
            && BlockStart(out, target) == BlockStart(lines, target) < |out|
            && BlockStop(out, target) == BlockStop(lines, target) + |block|
  {
    hide Hit, First, ServiceNames, Inert, Insert;
    TargetBelowHeader(lines, target);
    InertIsQuiet(block);
    var s, b, at := ServicesAt(lines), BlockStart(lines, target), BlockStop(lines, target);
    FirstInsertBelow(lines, 0, Services, at, block);
    FirstInsertBelow(lines, s + 1, NameLine(0, target), at, block);
    FirstInsertQuiet(lines, b + 1, BlockEnd(0), at, block);
  }

  lemma InjectedEnabled(lines: seq<Line>, target: string, block: seq<Line>, k: nat)
    requires Rooted(lines) && BlockStart(lines, target) < |lines| && Inert(block)
    requires k < |block| && Hit(Traefik, block[k])
    ensures Enabled(Insert(lines, BlockStop(lines, target), block), target)
  {
    hide Hit, First, ServiceNames, Inert, Insert, BlockStart, BlockStop, Rooted;
    InjectedBlock(lines, target, block);
    var at := BlockStop(lines, target);
    var out := Insert(lines, at, block);
    assert out[at + k] == block[k];
    FirstAtMost(out, BlockStart(lines, target) + 1, Traefik, at + k);
  }

  lemma InjectedKeeps(lines: seq<Line>, target: string, block: seq<Line>)
    requires Rooted(lines) && BlockStart(lines, target) < |lines| && Inert(block)
    ensures Keeps(lines, Insert(lines, BlockStop(lines, target), block))
  {
    hide Hit, First, ServiceNames, Inert, Insert, Attached, Declared, Subseq, BlockStart, Apart, InertLine;
    InertIsQuiet(block);
    TargetBelowHeader(lines, target);
    var at := BlockStop(lines, target);
    if at <= SectionEnd(lines, ServicesAt(lines)) {
      forall name | name in ServiceNames(lines) ensures Apart(lines, at, name) {
        BlockStopApart(lines, target, name);
      }
      InsideKeeps(lines, at, block);
    } else {
      BelowKeeps(lines, at, block);
    }
  }

  lemma BelowKeeps(lines: seq<Line>, at: nat, ins: seq<Line>)
    requires Below(lines, at, ins) && Quiet(ins)
    ensures Keeps(lines, Insert(lines, at, ins))
  {
    hide Hit, First, Insert, Attached, Declared, Subseq, ServiceNames;
    BelowStays(lines, at, ins);
    BelowNames(lines, at, ins);
    SubseqInsert(lines, at, ins);
    forall name, net | name in ServiceNames(lines) && Attached(lines, name, net)
      ensures Attached(Insert(lines, at, ins), name, net)
    {
      BelowAttached(lines, at, ins, name, net);
    }
    forall net | Declared(lines, net) ensures Declared(Insert(lines, at, ins), net) {
      QuietKeepsDeclared(lines, at, ins, net);
    }
  }

  // Injecting into settled lines keeps everything and leaves the target enabled.
  lemma InjectLinesResult(lines: seq<Line>, target: string, t: Ingress, network: string)
    requires Settled(lines, network) && BlockStart(lines, target) < |lines|
    ensures var out := InjectLines(lines, target, DeployBlock(t, network));
            Keeps(lines, out) && Settled(out, network) && Enabled(out, target)
  {
    hide Hit, First, ServiceNames, Inert, Insert, Attached, Declared, Subseq, BlockStart, BlockStop, DeployBlock, InertLine, Rooted;
    if Enabled(lines, target) {
      KeepsRefl(lines);
    } else {
      DeployBlockInert(t, network);
      InjectedKeeps(lines, target, DeployBlock(t, network));
      InjectedEnabled(lines, target, DeployBlock(t, network), 5);
    }
  }

  // ----- one load balancer line per port -------------------------------------

  function Count(lines: seq<Line>, l: Line): nat {
    if lines == [] then 0 else (if lines[0] == l then 1 else 0) + Count(lines[1..], l)
  }

  lemma {:induction false} CountAppend(a: seq<Line>, b: seq<Line>, l: Line)
    ensures Count(a + b, l) == Count(a, l) + Count(b, l)
    decreases |a|
  {
    if a == [] {
      assert a + b == b;
    } else {
      assert (a + b)[1..] == a[1..] + b;
      CountAppend(a[1..], b, l);
    }
  }

  lemma {:induction false} CountAbsent(a: seq<Line>, l: Line)
    requires l !in a
    ensures Count(a, l) == 0
  {
    if a != [] {
      CountAbsent(a[1..], l);
    }
  }

  lemma TwiceInjective(a: string, x: string, b: string, y: string, c: string)
    requires a + x + b + x + c == a + y + b + y + c
    ensures x == y
  {
    var s, t := a + x + b + x + c, a + y + b + y + c;
    assert |s| == |t| && |x| == |y|;
    assert s[|a|..|a| + |x|] == x && t[|a|..|a| + |y|] == y;
  }

  lemma PortLinesDiffer(p: nat, q: nat)
    requires p != q
    ensures PortLine(p) != PortLine(q)
  {
    DigitsReadBack(p);
    DigitsReadBack(q);
    hide Digits, Value;
    if PortLine(p).body == PortLine(q).body {
      var a, b, c := "- \"traefik.http.services.whlb_", ".loadbalancer.server.port=", "\"";
      PortLineBody(p, a, b, c);
      PortLineBody(q, a, b, c);
      TwiceInjective(a, Digits(p), b, Digits(q), c);
    }
  }

  lemma PortLineBody(p: nat, a: string, b: string, c: string)
    requires a == "- \"" + "traefik.http.services.whlb_" && b == ".loadbalancer.server.port=" && c == "\""
    ensures PortLine(p).body == a + Digits(p) + b + Digits(p) + c
  {
    hide Digits;
  }

  lemma RouteLineIsNoPortLine(t: Ingress, r: Route, p: nat)
    ensures PortLine(p) !in RouteLines(t, r)
  {
    var l := PortLine(p);
    assert l.body[16] == 's';
    var lines := RouteLines(t, r);
    forall k | 0 <= k < |lines| ensures lines[k].body[16] == 'r' {
    }
  }

  predicate HasPort(t: Ingress, i: nat, port: nat) {
    exists k :: i <= k < |t.routes| && t.routes[k].port == port
  }

  // Every port that some route names gets exactly one load balancer line, every other port none.
  lemma {:induction false} OneLinePerPort(t: Ingress, i: nat, seen: set<nat>, port: nat)
    requires i <= |t.routes|
    ensures Count(RoutesLines(t, i, seen), PortLine(port)) == if port !in seen && HasPort(t, i, port) then 1 else 0
    decreases |t.routes| - i
  {
    hide PortLine, RouteLines;
    if i < |t.routes| {
      var r := t.routes[i];
      var own := if r.port in seen then [] else [PortLine(r.port)];
      var rest := RoutesLines(t, i + 1, seen + {r.port});
      RouteLineIsNoPortLine(t, r, port);
      CountAbsent(RouteLines(t, r), PortLine(port));
      CountAppend(RouteLines(t, r) + own, rest, PortLine(port));
      CountAppend(RouteLines(t, r), own, PortLine(port));
      OneLinePerPort(t, i + 1, seen + {r.port}, port);
      if r.port != port {
        PortLinesDiffer(r.port, port);
      }
      assert HasPort(t, i, port) <==> r.port == port || HasPort(t, i + 1, port);
    }
  }

  // ----- on texts ------------------------------------------------------------

  function InjectText(text: string, target: string, t: Ingress, network: string): string {
    var raw := Trim(text);
    if raw == "" || t.routes == [] then text
    else
      var lines := LinesOf(AttachText(raw, network, Overlay));
      if ServicesAt(lines) == |lines| || BlockStart(lines, target) == |lines| then text
      else Finish(InjectLines(lines, target, DeployBlock(t, network)))
  }

  // No line break hides in a name or a rule.
  predicate OneLiners(t: Ingress) {
    '\n' !in t.certResolver && '\n' !in t.httpEntrypoint && '\n' !in t.httpsEntrypoint
    && forall k :: 0 <= k < |t.routes| ==> '\n' !in t.routes[k].router && '\n' !in t.routes[k].rule
  }

  lemma LabelClean(text: string)
    requires '\n' !in text
    ensures Clean(LabelLine(text))
  {
    MkClean(8, "- \"" + text + "\"");
  }

  lemma {:induction false} EscapeOneLine(value: string)
    requires '\n' !in value
    ensures '\n' !in EscapeLabel(value)
  {
    if value != "" {
      EscapeOneLine(value[1..]);
    }
  }

  lemma PortLineClean(port: nat)
    ensures Clean(PortLine(port))
  {
    hide Clean, LabelLine, Digits;
    assert '\n' !in Digits(port);
    LabelClean("traefik.http.services.whlb_" + Digits(port) + ".loadbalancer.server.port=" + Digits(port));
  }

  lemma RouteLinesClean(t: Ingress, i: nat)
    requires OneLiners(t) && i < |t.routes|
    ensures AllClean(RouteLines(t, t.routes[i]) + [PortLine(t.routes[i].port)])
  {
    hide LabelLine, Clean, EscapeLabel, Digits, PortLine;
    var r := t.routes[i];
    EscapeOneLine(r.rule);
    PortLineClean(r.port);
    assert '\n' !in Digits(r.port);
    var router := "traefik.http.routers." + r.router;
    LabelClean(router + ".rule=" + EscapeLabel(r.rule));
    LabelClean(router + ".entrypoints=" + (if r.https then t.httpsEntrypoint else t.httpEntrypoint));
    LabelClean(router + ".service=whlb_" + Digits(r.port));
    LabelClean(router + ".tls.certresolver=" + t.certResolver);
  }

  lemma {:induction false} RoutesClean(t: Ingress, i: nat, seen: set<nat>)
    requires OneLiners(t) && i <= |t.routes|
    ensures AllClean(RoutesLines(t, i, seen))
    decreases |t.routes| - i
  {
    hide PortLine, RouteLines, Clean, OneLiners;
    if i < |t.routes| {
      RouteLinesClean(t, i);
      RoutesClean(t, i + 1, seen + {t.routes[i].port});
      assert forall l :: l in RouteLines(t, t.routes[i]) + [PortLine(t.routes[i].port)] ==> Clean(l);
    }
  }

  lemma FixedBlockClean()
    ensures Clean(Mk(4, "deploy:")) && Clean(Mk(6, "replicas: 1")) && Clean(Mk(6, "restart_policy:"))
    ensures Clean(Mk(8, "condition: on-failure")) && Clean(Mk(6, "labels:"))
  {
    hide Clean, Mk;
    MkClean(4, "deploy:");
    MkClean(6, "replicas: 1");
    MkClean(6, "restart_policy:");
    MkClean(8, "condition: on-failure");
    MkClean(6, "labels:");
  }

  lemma DeployBlockClean(t: Ingress, network: string)
    requires OneLiners(t) && IsRootName(network)
    ensures AllClean(DeployBlock(t, network))
  {
    hide LabelLine, Clean, OneLiners, Mk, RoutesLines;
    FixedBlockClean();
    NameCharsTrimmed(network);
    LabelClean("traefik.enable=true");
    LabelClean("traefik.docker.network=" + network);
    RoutesClean(t, 0, {});
  }

  lemma SimilarEnabled(a: seq<Line>, b: seq<Line>, target: string)
    requires Similar(a, b)
    ensures Enabled(a, target) == Enabled(b, target)
  {
    hide Hit, First, Similar, BlockStart, BlockStop;
    SimilarBlock(a, b, target);
    SimilarLength(a, b);
    if BlockStart(a, target) < |a| {
      SimilarFirst(a, b, BlockStart(a, target) + 1, Traefik);
    }
  }
}
