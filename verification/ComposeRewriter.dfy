// The rewriter as it runs: index loops over the lines, with the block's end moved as lines go in.
module ComposeRewriter {
  import opened Wrappers
  import opened LineScan
  import opened Decimal
  import opened ComposeNetworks
  import opened ComposeAttach
  import opened ComposeText
  import opened ComposePipeline
  import opened ComposeTraefik

  datatype Section = Section(start: nat, indent: nat)

  class ServiceBlock {
    const start: nat
    var end: nat
    const childIndent: nat

    constructor (start: nat, end: nat, childIndent: nat)
      ensures this.start == start && this.end == end && this.childIndent == childIndent
    {
      this.start := start;
      this.end := end;
      this.childIndent := childIndent;
    }
  }

  method FindServicesSection(lines: seq<Line>) returns (r: Option<Section>)
    ensures r == if ServicesAt(lines) < |lines| then Some(Section(ServicesAt(lines), |lines[ServicesAt(lines)].lead|)) else None
  {
    for i := 0 to |lines|
      invariant forall k :: 0 <= k < i ==> !Hit(Services, lines[k])
    {
      if lines[i].body == "services:" {
        FirstIs(lines, 0, Services, i);
        return Some(Section(i, |lines[i].lead|));
      }
    }
    FirstIs(lines, 0, Services, |lines|);
    return None;
  }

  method FindServiceBlockRange(lines: seq<Line>, services: Section, name: string) returns (block: ServiceBlock?)
    requires services.start < |lines|
    ensures var b := First(lines, services.start + 1, NameLine(services.indent, name));
            if b == |lines| then block == null
            else block != null && fresh(block)
                 && block.start == b && block.end == First(lines, b + 1, BlockEnd(services.indent))
                 && block.childIndent == |lines[b].lead| + 2
  {
    var start := -1;
    var childIndent := services.indent + 4;
    for i := services.start + 1 to |lines|
      invariant start == -1
      invariant forall k :: services.start + 1 <= k < i ==> !Hit(NameLine(services.indent, name), lines[k])
    {
      if Hit(NameLine(services.indent, name), lines[i]) {
        start := i;
        childIndent := |lines[i].lead| + 2;
        break;
      }
    }
    if start < 0 {
      FirstIs(lines, services.start + 1, NameLine(services.indent, name), |lines|);
      return null;
    }
    FirstIs(lines, services.start + 1, NameLine(services.indent, name), start);
    var end := |lines|;
    for i := start + 1 to |lines|
      invariant end == |lines|
      invariant forall k :: start + 1 <= k < i ==> !Hit(BlockEnd(services.indent), lines[k])
    {
      var line := lines[i];
      if IsBlankOrComment(line) {
        continue;
      }
      if |line.lead| <= services.indent {
        end := i;
        break;
      }
      if |line.lead| == services.indent + 2 && IsKeyBody(line.body) && AllNameChars(KeyName(line.body)) {
        end := i;
        break;
      }
    }
    FirstIs(lines, start + 1, BlockEnd(services.indent), end);
    block := new ServiceBlock(start, end, childIndent);
  }

  method ServiceBlockHasTraefikEnable(lines: seq<Line>, start: nat, end: nat) returns (r: bool)
    requires start < end <= |lines|
    ensures r <==> First(lines, start + 1, Traefik) < end
  {
    for i := start + 1 to end
      invariant forall k :: start + 1 <= k < i ==> !Hit(Traefik, lines[k])
    {
      if HasTraefikEnable(lines[i].body) {
        FirstAtMost(lines, start + 1, Traefik, i);
        return true;
      }
    }
    return false;
  }

  method EnsureServiceNetworkAttached(lines: seq<Line>, block: ServiceBlock, net: string) returns (out: seq<Line>)
    requires block.start < block.end <= |lines|
    modifies block`end
    ensures var n, stop := First(lines, block.start + 1, NetworksKey), old(block.end);
            var item := NetItem(block.childIndent, net);
            if n >= stop then out == Insert(lines, stop, [Mk(block.childIndent, "networks:"), item]) && block.end == stop + 2
            else if First(lines, n + 1, Item(net)) < stop then out == lines && block.end == stop
            else out == Insert(lines, n + 1, [item]) && block.end == stop + 1
  {
    hide Insert, First, NetItem;
    var netKey := Mk(block.childIndent, "networks:");
    var netItem := NetItem(block.childIndent, net);
    var netLine := -1;
    for i := block.start + 1 to block.end
      invariant netLine == -1
      invariant forall k :: block.start + 1 <= k < i ==> !Hit(NetworksKey, lines[k])
    {
      if lines[i].body == "networks:" {
        FirstIs(lines, block.start + 1, NetworksKey, i);
        netLine := i;
        break;
      }
    }
    if netLine >= 0 {
      for i := netLine + 1 to block.end
        invariant forall k :: netLine + 1 <= k < i ==> !Hit(Item(net), lines[k])
      {
        if lines[i].body == "- " + net {
          FirstAtMost(lines, netLine + 1, Item(net), i);
          return lines;
        }
      }
      out := Insert(lines, netLine + 1, [netItem]);
      if block.end > netLine {
        block.end := block.end + 1;
      }
      return;
    }
    out := Insert(lines, block.end, [netKey, netItem]);
    block.end := block.end + 2;
  }

  method ListComposeServiceNames(lines: seq<Line>, services: Section) returns (names: seq<string>)
    requires services.start < |lines|
    ensures var e := First(lines, services.start + 1, RegionEnd(services.indent));
            names == NamesIn(lines, services.start + 1, e, services.indent)
  {
    names := [];
    ghost var s := services.start + 1;
    for i := services.start + 1 to |lines|
      invariant forall k :: s <= k < i ==> !Hit(RegionEnd(services.indent), lines[k])
      invariant names == NamesIn(lines, s, i, services.indent)
    {
      NamesInSplit(lines, s, i, i + 1, services.indent);
      var line := lines[i];
      if IsBlankOrComment(line) {
        continue;
      }
      if |line.lead| <= services.indent {
        FirstIs(lines, s, RegionEnd(services.indent), i);
        return;
      }
      if |line.lead| == services.indent + 2 && IsKeyBody(line.body) && IsServiceName(KeyName(line.body)) {
        names := names + [KeyName(line.body)];
      }
    }
    FirstIs(lines, s, RegionEnd(services.indent), |lines|);
  }

  datatype NetworksSection = NetworksSection(headerIdx: nat, insertIdx: nat, declared: set<string>)

  // The inner loop of the section scan: the declared names and the insertion index below header i.
  method ScanDeclared(lines: seq<Line>, i: nat) returns (insertIdx: nat, declared: set<string>)
    requires i < |lines|
    ensures var stop := First(lines, i + 1, RootKey);
            && insertIdx == (if stop < |lines| then stop else LastDeclEnd(lines, i + 1, stop, i + 1))
            && forall net :: net in declared <==> First(lines, i + 1, Decl(net)) < stop
  {
    hide Hit, LastDeclEnd;
    declared := {};
    insertIdx := i + 1;
    ghost var stop := |lines|;
    for j := i + 1 to |lines|
      invariant i + 1 <= insertIdx <= j && stop == |lines|
      invariant forall k :: i + 1 <= k < j ==> !Hit(RootKey, lines[k])
      invariant LastDeclEnd(lines, i + 1, |lines|, i + 1) == LastDeclEnd(lines, j, |lines|, insertIdx)
      invariant forall net :: net in declared <==> exists k :: i + 1 <= k < j && Hit(Decl(net), lines[k])
    {
      var line := lines[j];
      LastDeclStep(lines, j, insertIdx);
      if IsBlankOrComment(line) {
        BlankDeclaresNothing(line);
        continue;
      }
      KeyLines(line);
      if |line.lead| <= 0 && IsKeyBody(line.body) && IsRootName(KeyName(line.body)) {
        insertIdx := j;
        stop := j;
        break;
      }
      if IsKeyBody(line.body) && IsRootName(KeyName(line.body)) && |line.lead| > 0 {
        DeclaresKeyName(line);
        declared := declared + {KeyName(line.body)};
        insertIdx := j + 1;
      } else {
        NoKeyDeclaresNothing(line);
      }
    }
    FirstIs(lines, i + 1, RootKey, stop);
    if stop == |lines| {
      LastDeclDone(lines, insertIdx);
    }
    forall net ensures net in declared <==> First(lines, i + 1, Decl(net)) < stop {
      if net in declared {
        var k :| i + 1 <= k < stop && Hit(Decl(net), lines[k]);
        FirstAtMost(lines, i + 1, Decl(net), k);
      }
    }
  }

  lemma LastDeclStep(lines: seq<Line>, j: nat, last: nat)
    requires last <= j < |lines|
    ensures LastDeclEnd(lines, j, |lines|, last) == LastDeclEnd(lines, j + 1, |lines|, if Hit(AnyDecl, lines[j]) then j + 1 else last)
  {
  }

  lemma LastDeclDone(lines: seq<Line>, last: nat)
    requires last <= |lines|
    ensures LastDeclEnd(lines, |lines|, |lines|, last) == last
  {
  }

  lemma KeyLines(l: Line)
    requires !IsBlankOrComment(l)
    ensures Hit(RootKey, l) <==> l.lead == "" && IsKeyBody(l.body) && IsRootName(KeyName(l.body))
    ensures Hit(AnyDecl, l) <==> l.lead != "" && IsKeyBody(l.body) && IsRootName(KeyName(l.body))
  {
  }

  lemma BlankDeclaresNothing(l: Line)
    requires IsBlankOrComment(l)
    ensures forall net :: !Hit(Decl(net), l)
    ensures !Hit(AnyDecl, l) && !Hit(RootKey, l)
  {
  }

  lemma DeclaresKeyName(l: Line)
    requires Hit(AnyDecl, l)
    ensures forall net :: Hit(Decl(net), l) <==> net == KeyName(l.body)
  {
    assert l.body == KeyName(l.body) + ":";
    forall net | Hit(Decl(net), l) ensures net == KeyName(l.body) {
      assert net == l.body[..|l.body| - 1];
    }
  }

  lemma NoKeyDeclaresNothing(l: Line)
    requires !Hit(AnyDecl, l)
    ensures forall net :: !Hit(Decl(net), l)
  {
    forall net ensures !Hit(Decl(net), l) {
      if Hit(Decl(net), l) {
        assert false;
      }
    }
  }

  method FindNetworksSectionBounds(lines: seq<Line>) returns (r: Option<NetworksSection>)
    ensures r.None? <==> NetworksAt(lines) == |lines|
    ensures r.Some? ==> r.value.headerIdx == NetworksAt(lines) && r.value.insertIdx == RootInsertAt(lines)
                        && forall net :: net in r.value.declared <==> Declared(lines, net)
  {
    for i := 0 to |lines|
      invariant forall k :: 0 <= k < i ==> !Hit(RootNetworks, lines[k])
    {
      if !(lines[i].lead == "" && IsNetworksHeaderBody(lines[i].body)) {
        continue;
      }
      FirstIs(lines, 0, RootNetworks, i);
      var insertIdx, declared := ScanDeclared(lines, i);
      return Some(NetworksSection(i, insertIdx, declared));
    }
    FirstIs(lines, 0, RootNetworks, |lines|);
    return None;
  }

  method IndexBeforeVolumesOrAppend(lines: seq<Line>) returns (at: nat)
    ensures at == First(lines, 0, RootVolumes)
  {
    for i := 0 to |lines|
      invariant forall k :: 0 <= k < i ==> !Hit(RootVolumes, lines[k])
    {
      if lines[i].lead == "" && |lines[i].body| >= 8 && lines[i].body[..8] == "volumes:" {
        FirstIs(lines, 0, RootVolumes, i);
        return i;
      }
    }
    FirstIs(lines, 0, RootVolumes, |lines|);
    return |lines|;
  }

  method EnsureNetworkDeclared(lines: seq<Line>, net: string, spec: seq<Line>) returns (out: seq<Line>)
    ensures out == Declare(lines, net, spec)
  {
    var section := FindNetworksSectionBounds(lines);
    if section.Some? && net in section.value.declared {
      return lines;
    }
    var block := [Mk(2, net + ":")] + spec;
    if section.Some? {
      return Insert(lines, section.value.insertIdx, block);
    }
    var at := IndexBeforeVolumesOrAppend(lines);
    return Insert(lines, at, [Mk(0, "networks:")] + block + [Line("", "", "")]);
  }

  lemma {:induction false} AttachNamesNoServices(lines: seq<Line>, names: seq<string>, net: string)
    requires ServicesAt(lines) == |lines|
    ensures AttachNames(lines, names, net) == lines
    decreases |names|
  {
    if names != [] {
      AttachNamesNoServices(lines, names[1..], net);
    }
  }

  method AttachAllServicesToStackNetwork(lines: seq<Line>, net: string) returns (result: seq<Line>)
    ensures result == AttachNet(lines, net)
  {
    hide Hit, First, Insert, Attached, NamesIn, AttachOne, AttachNames, NetItem, BlockStart, BlockStop, ServiceNames;
    result := lines;
    var services := FindServicesSection(result);
    if services.None? {
      AttachNamesNoServices(result, ServiceNames(result), net);
      return;
    }
    var names := ListComposeServiceNames(result, services.value);
    NamesListed(lines, names);
    assert names[0..] == names;
    for i := 0 to |names|
      invariant AttachNames(lines, names, net) == AttachNames(result, names[i..], net)
    {
      AttachNamesStep(result, names, i, net);
      var svc := FindServicesSection(result);
      if svc.None? {
        AttachNamesNoServices(result, names[i..], net);
        return;
      }
      var block := FindServiceBlockRange(result, svc.value, names[i]);
      ghost var before := result;
      if block == null {
        NoBlockFound(result, names[i]);
        NoBlockToAttach(result, names[i], net);
        continue;
      }
      BlockFound(result, names[i], block.start, block.end);
      result := EnsureServiceNetworkAttached(result, block, net);
      BlockAttached(before, names[i], net, result);
    }
    AttachNamesStep(result, names, |names|, net);
  }

  lemma AttachNamesStep(lines: seq<Line>, names: seq<string>, i: nat, net: string)
    requires i <= |names|
    ensures AttachNames(lines, names[i..], net)
         == if i == |names| then lines else AttachNames(AttachOne(lines, names[i], net), names[i + 1..], net)
  {
    hide AttachOne;
    if i < |names| {
      assert names[i..][0] == names[i] && names[i..][1..] == names[i + 1..];
    }
  }

  lemma NamesListed(lines: seq<Line>, names: seq<string>)
    requires var s := ServicesAt(lines);
             s < |lines| && names == NamesIn(lines, s + 1, First(lines, s + 1, RegionEnd(|lines[s].lead|)), |lines[s].lead|)
    ensures names == ServiceNames(lines)
  {
    hide Hit, First, NamesIn;
  }

  lemma NoBlockFound(lines: seq<Line>, name: string)
    requires ServicesAt(lines) < |lines|
    requires First(lines, ServicesAt(lines) + 1, NameLine(|lines[ServicesAt(lines)].lead|, name)) == |lines|
    ensures BlockStart(lines, name) == |lines|
  {
    hide Hit, First;
  }

  lemma BlockFound(lines: seq<Line>, name: string, start: nat, end: nat)
    requires ServicesAt(lines) < |lines|
    requires start == First(lines, ServicesAt(lines) + 1, NameLine(|lines[ServicesAt(lines)].lead|, name)) < |lines|
    requires end == First(lines, start + 1, BlockEnd(|lines[ServicesAt(lines)].lead|))
    ensures BlockStart(lines, name) == start && BlockStop(lines, name) == end
  {
    hide Hit, First;
  }

  lemma NoBlockToAttach(lines: seq<Line>, name: string, net: string)
    requires BlockStart(lines, name) == |lines|
    ensures AttachOne(lines, name, net) == lines
  {
  }

  // What the edit of a block returns is what attaching its service means.
  lemma BlockAttached(lines: seq<Line>, name: string, net: string, out: seq<Line>)
    requires BlockStart(lines, name) < |lines|
    requires var n, stop := BlockNetworks(lines, name), BlockStop(lines, name);
             var child := |lines[BlockStart(lines, name)].lead| + 2;
             if n >= stop then out == Insert(lines, stop, [Mk(child, "networks:"), NetItem(child, net)])
             else if First(lines, n + 1, Item(net)) < stop then out == lines
             else out == Insert(lines, n + 1, [NetItem(child, net)])
    ensures out == AttachOne(lines, name, net)
  {
    hide Hit, First, Insert;
  }

  // `block.end` is not read again by the callers; each network is attached in its own sweep.
  method AttachAllServicesToWeehawkNetworks(text: string, external: string, driver: Driver) returns (out: string)
    ensures out == AttachText(text, external, driver)
  {
    var raw := Trim(text);
    if raw == "" {
      return text;
    }
    var lines := LinesOf(raw);
    var services := FindServicesSection(lines);
    if services.None? {
      return text;
    }
    AttachAllGrows(lines, external, driver);
    lines := EnsureNetworkDeclared(lines, INTERNAL_NETWORK, DriverSpec(driver));
    lines := EnsureNetworkDeclared(lines, external, ExternalSpec(external));
    lines := AttachAllServicesToStackNetwork(lines, INTERNAL_NETWORK);
    lines := AttachAllServicesToStackNetwork(lines, external);
    return Finish(lines);
  }

  lemma RoutesStep(t: Ingress, i: nat, seen: set<nat>, lines: seq<Line>, own: seq<Line>)
    requires i < |t.routes|
    requires own == if t.routes[i].port in seen then [] else [PortLine(t.routes[i].port)]
    ensures lines + RoutesLines(t, i, seen) == (lines + RouteLines(t, t.routes[i]) + own) + RoutesLines(t, i + 1, seen + {t.routes[i].port})
  {
    hide RouteLines, PortLine;
  }

  method BuildTraefikLabelEntries(t: Ingress, network: string) returns (lines: seq<Line>)
    ensures lines == HeadLines(network) + RoutesLines(t, 0, {})
  {
    hide LabelLine, Digits, EscapeLabel, HeadLines, RoutesLines, PortLine;
    lines := HeadLines(network);
    var lbPortsSeen: set<nat> := {};
    for i := 0 to |t.routes|
      invariant HeadLines(network) + RoutesLines(t, 0, {}) == lines + RoutesLines(t, i, lbPortsSeen)
    {
      var r := t.routes[i];
      var router := "traefik.http.routers." + r.router;
      var entries := [LabelLine(router + ".rule=" + EscapeLabel(r.rule)),
                      LabelLine(router + ".entrypoints=" + if r.https then t.httpsEntrypoint else t.httpEntrypoint),
                      LabelLine(router + ".service=whlb_" + Digits(r.port))];
      if r.https {
        entries := entries + [LabelLine(router + ".tls.certresolver=" + t.certResolver)];
      }
      assert entries == RouteLines(t, r);
      ghost var seen := lbPortsSeen;
      var own := [];
      if r.port !in lbPortsSeen {
        lbPortsSeen := lbPortsSeen + {r.port};
        own := [PortLine(r.port)];
      }
      RoutesStep(t, i, seen, lines, own);
      assert lbPortsSeen == seen + {r.port};
      lines := lines + entries + own;
    }
    NoMoreRoutes(t, lbPortsSeen);
  }

  lemma NoMoreRoutes(t: Ingress, seen: set<nat>)
    ensures RoutesLines(t, |t.routes|, seen) == []
  {
  }

  method InjectTraefikIntoComposeYaml(text: string, target: string, t: Ingress, network: string) returns (out: string)
    ensures out == InjectText(text, target, t, network)
  {
    hide Hit, First, Insert, Trim, LinesOf, Finish, AttachText, RoutesLines, HeadLines;
    var raw := Trim(text);
    if raw == "" || t.routes == [] {
      return text;
    }
    var attached := AttachAllServicesToWeehawkNetworks(raw, network, Overlay);
    var lines := LinesOf(attached);
    var services := FindServicesSection(lines);
    if services.None? {
      return text;
    }
    var block := FindServiceBlockRange(lines, services.value, target);
    if block == null {
      return text;
    }
    var enabled := ServiceBlockHasTraefikEnable(lines, block.start, block.end);
    if enabled {
      return Finish(lines);
    }
    var labels := BuildTraefikLabelEntries(t, network);
    var deploy := [Mk(4, "deploy:"), Mk(6, "replicas: 1"), Mk(6, "restart_policy:"), Mk(8, "condition: on-failure"), Mk(6, "labels:")];
    assert deploy + labels == DeployBlock(t, network);
    lines := Insert(lines, block.end, deploy + labels);
    return Finish(lines);
  }
}
