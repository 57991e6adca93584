// The injected deploy block as a YAML reader sees it: which labels each route gets.
module ComposeLabels {
  import opened LineScan
  import opened Decimal
  import opened ComposeTraefik
  import opened ComposeOptions

  // No quote and no backslash.
  predicate Unescaped(s: string) {
    forall k :: 0 <= k < |s| ==> s[k] != '"' && s[k] != '\\'
  }

  // Only rules are escaped; the other parts of a label must not need it.
  predicate UnescapedParts(t: Ingress, network: string) {
    && Unescaped(network) && Unescaped(t.certResolver) && Unescaped(t.httpEntrypoint) && Unescaped(t.httpsEntrypoint)
    && forall k :: 0 <= k < |t.routes| ==> Unescaped(t.routes[k].router)
  }

  // A list item in double quotes, at the indent of the labels, with this value.
  predicate Reads(l: Line, value: string) {
    && l.lead == "        " && l.trail == "" && |l.body| >= 3 && l.body[..3] == "- \""
    && ReadQuoted(l.body[3..]) == (value, "\"")
  }

  lemma {:induction false} EscapeConcat(a: string, b: string)
    ensures EscapeLabel(a + b) == EscapeLabel(a) + EscapeLabel(b)
    decreases |a|
  {
    if a == "" {
      assert a + b == b;
    } else {
      assert (a + b)[1..] == a[1..] + b;
      EscapeConcat(a[1..], b);
    }
  }

  lemma {:induction false} EscapeNothing(s: string)
    requires Unescaped(s)
    ensures EscapeLabel(s) == s
    decreases |s|
  {
    if s != "" {
      EscapeNothing(s[1..]);
      assert s == [s[0]] + s[1..];
    }
  }

  lemma LabelReads(value: string)
    ensures Reads(LabelLine(EscapeLabel(value)), value)
  {
    hide EscapeLabel, ReadQuoted;
    var l := LabelLine(EscapeLabel(value));
    EscapeReadsBack(value, "");
    assert l.lead == "        ";
    assert l.body[3..] == EscapeLabel(value) + "\"" + "";
    assert l.body[..3] == "- \"";
    assert "\"" + "" == "\"";
  }

  // Only the part `rule` of a label is escaped.
  lemma PartReads(before: string, rule: string)
    requires Unescaped(before)
    ensures Reads(LabelLine(before + EscapeLabel(rule)), before + rule)
  {
    hide EscapeLabel, ReadQuoted, Reads, LabelLine;
    EscapeNothing(before);
    EscapeConcat(before, rule);
    LabelReads(before + rule);
  }

  lemma WholeReads(value: string)
    requires Unescaped(value)
    ensures Reads(LabelLine(value), value)
  {
    hide ReadQuoted, Reads, LabelLine;
    EscapeNothing(value);
    LabelReads(value);
  }

  lemma {:induction false} DigitsUnescaped(n: nat)
    ensures Unescaped(Digits(n))
  {
    assert forall k :: 0 <= k < |Digits(n)| ==> IsDigit(Digits(n)[k]);
  }

  lemma UnescapedConcat(a: string, b: string)
    requires Unescaped(a) && Unescaped(b)
    ensures Unescaped(a + b)
  {
  }

  // The labels of one route.
  function RouterLabel(r: Route, rest: string): string {
    "traefik.http.routers." + r.router + rest
  }

  ghost predicate RouteReads(ls: seq<Line>, t: Ingress, r: Route) {
    && |ls| == (if r.https then 4 else 3)
    && Reads(ls[0], RouterLabel(r, ".rule=") + r.rule)
    && Reads(ls[1], RouterLabel(r, ".entrypoints=") + if r.https then t.httpsEntrypoint else t.httpEntrypoint)
    && Reads(ls[2], RouterLabel(r, ".service=whlb_") + Digits(r.port))
    && (r.https ==> Reads(ls[3], RouterLabel(r, ".tls.certresolver=") + t.certResolver))
  }

  lemma RouteLinesRead(t: Ingress, r: Route)
    requires Unescaped(r.router) && Unescaped(t.certResolver) && Unescaped(t.httpEntrypoint) && Unescaped(t.httpsEntrypoint)
    ensures RouteReads(RouteLines(t, r), t, r)
  {
    LabelNames();
    hide ReadQuoted, Reads, LabelLine, EscapeLabel, Digits, Unescaped;
    var router := "traefik.http.routers." + r.router;
    UnescapedConcat("traefik.http.routers.", r.router);
    UnescapedConcat(router, ".rule=");
    UnescapedConcat(router, ".entrypoints=");
    UnescapedConcat(router, ".service=whlb_");
    UnescapedConcat(router, ".tls.certresolver=");
    DigitsUnescaped(r.port);
    PartReads(router + ".rule=", r.rule);
    PlainRead(router + ".entrypoints=", if r.https then t.httpsEntrypoint else t.httpEntrypoint);
    PlainRead(router + ".service=whlb_", Digits(r.port));
    PlainRead(router + ".tls.certresolver=", t.certResolver);
  }

  lemma PlainRead(a: string, b: string)
    requires Unescaped(a) && Unescaped(b)
    ensures Reads(LabelLine(a + b), a + b)
  {
    hide Reads, LabelLine;
    UnescapedConcat(a, b);
    WholeReads(a + b);
  }

  lemma LabelNames()
    ensures Unescaped("traefik.http.routers.") && Unescaped(".rule=") && Unescaped(".entrypoints=")
    ensures Unescaped(".service=whlb_") && Unescaped(".tls.certresolver=")
  {
  }

  lemma {:induction false} RoutesHold(t: Ingress, i: nat, seen: set<nat>, k: nat)
    requires i <= k < |t.routes|
    ensures exists j: nat :: HasAt(RoutesLines(t, i, seen), j, RouteLines(t, t.routes[k]))
    decreases k - i
  {
    hide RouteLines, PortLine, HasAt;
    var r := t.routes[i];
    var own := if r.port in seen then [] else [PortLine(r.port)];
    var rest := RoutesLines(t, i + 1, seen + {r.port});
    if k == i {
      HasBetween([], RouteLines(t, r), own + rest);
      assert RoutesLines(t, i, seen) == [] + RouteLines(t, r) + (own + rest);
    } else {
      assert RoutesLines(t, i, seen) == (RouteLines(t, r) + own) + rest;
      RoutesHold(t, i + 1, seen + {r.port}, k);
      var j: nat :| HasAt(rest, j, RouteLines(t, t.routes[k]));
      HasBehind(RouteLines(t, r) + own, rest, j, RouteLines(t, t.routes[k]));
    }
  }

  lemma HasBetween(a: seq<Line>, block: seq<Line>, b: seq<Line>)
    ensures HasAt(a + block + b, |a|, block)
  {
    assert (a + block + b)[|a|..|a| + |block|] == block;
  }

  lemma HasBehind(a: seq<Line>, b: seq<Line>, j: nat, block: seq<Line>)
    requires HasAt(b, j, block)
    ensures HasAt(a + b, |a| + j, block)
  {
    assert (a + b)[|a| + j..|a| + j + |block|] == b[j..j + |block|];
  }

  ghost predicate RouteIn(lines: seq<Line>, t: Ingress, r: Route) {
    exists j: nat, ls: seq<Line> :: HasAt(lines, j, ls) && RouteReads(ls, t, r)
  }

  // The deploy block starts with the fixed lines, enables Traefik on the network, and holds for every
  // route a run of labels with its rule, the entrypoint of its scheme, the load balancer of its port
  // and, for HTTPS only, the certificate resolver.
  lemma DeployBlockReads(t: Ingress, network: string)
    requires UnescapedParts(t, network)
    ensures var block := DeployBlock(t, network);
            && |block| >= 7
            && block[..5] == [Line("    ", "deploy:", ""), Line("      ", "replicas: 1", ""), Line("      ", "restart_policy:", ""),
                              Line("        ", "condition: on-failure", ""), Line("      ", "labels:", "")]
            && Reads(block[5], "traefik.enable=true") && Reads(block[6], "traefik.docker.network=" + network)
            && forall k :: 0 <= k < |t.routes| ==> RouteIn(block[7..], t, t.routes[k])
  {
    HeadReads(network);
    FixedLines();
    hide Reads, RouteReads, LabelLine, RouteLines, Unescaped, Mk, RoutesLines, HasAt;
    var block := DeployBlock(t, network);
    assert block[7..] == RoutesLines(t, 0, {});
    assert block[5] == HeadLines(network)[0] && block[6] == HeadLines(network)[1];
    forall k | 0 <= k < |t.routes| ensures RouteIn(block[7..], t, t.routes[k]) {
      RouteLinesRead(t, t.routes[k]);
      RoutesHold(t, 0, {}, k);
    }
  }

  lemma HeadReads(network: string)
    requires Unescaped(network)
    ensures Reads(HeadLines(network)[0], "traefik.enable=true") && Reads(HeadLines(network)[1], "traefik.docker.network=" + network)
  {
    HeadNames();
    hide Reads, LabelLine, Unescaped;
    WholeReads("traefik.enable=true");
    PlainRead("traefik.docker.network=", network);
  }

  lemma HeadNames()
    ensures Unescaped("traefik.enable=true") && Unescaped("traefik.docker.network=")
  {
  }

  lemma FixedLines()
    ensures [Mk(4, "deploy:"), Mk(6, "replicas: 1"), Mk(6, "restart_policy:"), Mk(8, "condition: on-failure"), Mk(6, "labels:")] ==
            [Line("    ", "deploy:", ""), Line("      ", "replicas: 1", ""), Line("      ", "restart_policy:", ""),
             Line("        ", "condition: on-failure", ""), Line("      ", "labels:", "")]
  {
    assert Spaces(4) == "    " && Spaces(6) == "      " && Spaces(8) == "        ";
  }
}
