// The attach pipeline and the Traefik injection as wholes: what they guarantee for every
// compose file with `services:` at column 0, and exactly when they do.
module ComposeAttach {
  import opened LineScan
  import opened ComposeNetworks

  // Every service is on both networks, and the internal one is declared.
  ghost predicate AllAttached(lines: seq<Line>, external: string) {
    && Rooted(lines) && Declared(lines, INTERNAL_NETWORK)
    && forall name :: name in ServiceNames(lines) ==>
         Attached(lines, name, INTERNAL_NETWORK) && Attached(lines, name, external)
  }

  // Nothing is left for the pipeline to do.
  ghost predicate Settled(lines: seq<Line>, external: string) {
    AllAttached(lines, external) && Declared(lines, external)
  }

  lemma SpecsAreSpecs(external: string, driver: Driver)
    ensures IsSpec(DriverSpec(driver)) && IsSpec(ExternalSpec(external))
    ensures IsRootName(INTERNAL_NETWORK) && INTERNAL_NETWORK != "services"
  {
    assert INTERNAL_NETWORK[0] == 'w' && "services"[0] == 's';
    assert Mk(4, "external: true").body[0] == 'e';
    assert Mk(4, "name: " + external).body[0] == 'n';
    assert Mk(4, "driver: overlay").body[0] == 'd' && Mk(4, "driver: bridge").body[0] == 'd';
  }

  // The side of the services header on which root networks go does not change.
  lemma RootSideStays(lines: seq<Line>, net: string, spec: seq<Line>)
    requires Rooted(lines) && IsSpec(spec) && net != "services"
    ensures var out := Declare(lines, net, spec);
            Rooted(out) && (ServicesAt(out) < RootInsertAt(out) <==> ServicesAt(lines) < RootInsertAt(lines))
  {
    hide Hit, Insert, First, IsSpec, LastDeclEnd, Attached, ServiceNames, Subseq;
    DeclareKeeps(lines, net, spec);
    if !Declared(lines, net) {
      var at, ins := RootInsertAt(lines), DeclareLines(lines, net, spec);
      var out := Insert(lines, at, ins);
      RootInsertSide(lines);
      HeaderLines();
      NetworksAfterDeclare(lines, net, spec);
      if at <= ServicesAt(lines) {
        DeclareLinesNotServices(lines, net, spec);
        AboveShifts(lines, at, ins);
        HeaderAboveServices(out);
      } else {
        assert Below(lines, at, ins);
        BelowStays(lines, at, ins);
        if NetworksAt(lines) < ServicesAt(lines) {
          HeaderAboveServices(lines);
          assert false;
        }
      }
    }
  }

  // A networks header above the services header closes its section there at the latest.
  lemma HeaderAboveServices(lines: seq<Line>)
    requires Rooted(lines) && NetworksAt(lines) < ServicesAt(lines)
    ensures RootInsertAt(lines) <= ServicesAt(lines)
  {
    hide Hit, First, LastDeclEnd;
    ServicesLine(lines[ServicesAt(lines)]);
    FirstAtMost(lines, NetworksAt(lines) + 1, RootKey, ServicesAt(lines));
  }

  lemma NetworksAfterDeclare(lines: seq<Line>, net: string, spec: seq<Line>)
    requires Rooted(lines) && IsSpec(spec) && !Declared(lines, net)
    ensures NetworksAt(Declare(lines, net, spec)) == if NetworksAt(lines) < |lines| then NetworksAt(lines) else RootInsertAt(lines)
  {
    hide Hit, Insert, First, IsSpec, LastDeclEnd;
    var at, ins := RootInsertAt(lines), DeclareLines(lines, net, spec);
    FirstInsertBelow(lines, 0, RootNetworks, at, ins);
    HeaderLines();
    if NetworksAt(lines) == |lines| {
      var out := Insert(lines, at, ins);
      assert out[at] == ins[0];
      FirstIs(out, 0, RootNetworks, at);
    }
  }

  // Every service ends up on both networks, the internal one is declared, and nothing is lost. The
  // external network is declared too, as far as the scan can tell exactly when it can read the name.
  lemma AttachAllAttaches(lines: seq<Line>, external: string, driver: Driver)
    requires Rooted(lines) && NotShadowing(lines, external)
    ensures Keeps(lines, AttachAll(lines, external, driver))
    ensures AllAttached(AttachAll(lines, external, driver), external)
    ensures Settled(AttachAll(lines, external, driver), external) <==> IsRootName(external)
  {
    hide Hit, Insert, First, IsSpec, LastDeclEnd, Attached, ServiceNames, Subseq, Declared, Declare, AttachNet, Rooted, RootInsertAt;
    hide DriverSpec, ExternalSpec, IsRootName;
    SpecsAreSpecs(external, driver);
    var l1 := Declare(lines, INTERNAL_NETWORK, DriverSpec(driver));
    var l2 := Declare(l1, external, ExternalSpec(external));
    var l3 := AttachNet(l2, INTERNAL_NETWORK);
    var l4 := AttachNet(l3, external);
    DeclareKeeps(lines, INTERNAL_NETWORK, DriverSpec(driver));
    DeclareDeclares(lines, INTERNAL_NETWORK, DriverSpec(driver));
    RootSideStays(lines, INTERNAL_NETWORK, DriverSpec(driver));
    DeclareKeeps(l1, external, ExternalSpec(external));
    DeclareDeclares(l1, external, ExternalSpec(external));
    AttachNetAttaches(l2, INTERNAL_NETWORK);
    AttachNetAttaches(l3, external);
    KeepsTrans(lines, l1, l2);
    KeepsTrans(lines, l2, l3);
    KeepsTrans(lines, l3, l4);
    DeclaredIsReadable(l4, external);
  }

  // ----- idempotence ---------------------------------------------------------

  lemma {:induction false} AttachNamesSettled(lines: seq<Line>, names: seq<string>, net: string)
    requires forall name :: name in names ==> Attached(lines, name, net)
    ensures AttachNames(lines, names, net) == lines
    decreases |names|
  {
    hide Attached;
    if names != [] {
      AttachNamesSettled(lines, names[1..], net);
    }
  }

  lemma SettledIsFixed(lines: seq<Line>, external: string, driver: Driver)
    requires Settled(lines, external)
    ensures AttachAll(lines, external, driver) == lines
  {
    hide Attached, ServiceNames, AttachNames, Declared, Rooted;
    AttachNamesSettled(lines, ServiceNames(lines), INTERNAL_NETWORK);
    AttachNamesSettled(lines, ServiceNames(lines), external);
  }

  lemma {:induction false} AttachNamesGrows(lines: seq<Line>, names: seq<string>, net: string)
    ensures |AttachNames(lines, names, net)| >= |lines|
    decreases |names|
  {
    hide Attached, BlockStart, AttachPoint, AttachLines;
    if names != [] {
      AttachNamesGrows(AttachOne(lines, names[0], net), names[1..], net);
    }
  }

  // A name the declaration scan cannot read back is declared anew on every run.
  lemma UnreadableNameGrows(lines: seq<Line>, external: string, driver: Driver)
    requires !IsRootName(external)
    ensures |AttachAll(lines, external, driver)| > |lines|
  {
    hide Insert, RootInsertAt, DriverSpec, ExternalSpec, ServiceNames, AttachNames;
    var l1 := Declare(lines, INTERNAL_NETWORK, DriverSpec(driver));
    var l2 := Declare(l1, external, ExternalSpec(external));
    AttachNamesGrows(l2, ServiceNames(l2), INTERNAL_NETWORK);
    var l3 := AttachNet(l2, INTERNAL_NETWORK);
    AttachNamesGrows(l3, ServiceNames(l3), external);
  }

  // Running the pipeline twice equals running it once, exactly for the network names that can be read back.
  lemma AttachAllIdempotent(lines: seq<Line>, external: string, driver: Driver)
    requires Rooted(lines) && NotShadowing(lines, external)
    ensures var once := AttachAll(lines, external, driver);
            AttachAll(once, external, driver) == once <==> IsRootName(external)
  {
    hide Attached, ServiceNames, Declared, Rooted, AttachAll, Keeps, NotShadowing, IsRootName, Settled;
    var once := AttachAll(lines, external, driver);
    if IsRootName(external) {
      AttachAllAttaches(lines, external, driver);
      SettledIsFixed(once, external, driver);
    } else {
      UnreadableNameGrows(once, external, driver);
    }
  }

  // ----- the external network called `services` ------------------------------

  lemma AttachOneHeader(lines: seq<Line>, name: string, net: string)
    ensures var out := AttachOne(lines, name, net);
            ServicesAt(lines) < |lines| ==> ServicesAt(out) == ServicesAt(lines) < |out| && out[ServicesAt(out)] == lines[ServicesAt(lines)]
  {
    hide Hit, Insert, First, Attached;
    if ServicesAt(lines) < BlockStart(lines, name) < |lines| && !Attached(lines, name, net) {
      FirstInsertBelow(lines, 0, Services, AttachPoint(lines, name), AttachLines(lines, name, net));
    }
  }

  lemma {:induction false} AttachNamesHeader(lines: seq<Line>, names: seq<string>, net: string)
    requires ServicesAt(lines) < |lines|
    ensures var out := AttachNames(lines, names, net);
            ServicesAt(out) == ServicesAt(lines) < |out| && out[ServicesAt(out)] == lines[ServicesAt(lines)]
    decreases |names|
  {
    hide ServicesAt, AttachOne;
    if names != [] {
      AttachOneHeader(lines, names[0], net);
      AttachNamesHeader(AttachOne(lines, names[0], net), names[1..], net);
    }
  }

  // Declaring `services` above the services header makes the declaration the header every later scan finds.
  lemma ShadowedHeader(lines: seq<Line>, spec: seq<Line>)
    requires Rooted(lines) && NetworksAt(lines) < |lines| && RootInsertAt(lines) <= ServicesAt(lines)
    ensures var out := Declare(lines, "services", spec);
            ServicesAt(out) < |out| && |out[ServicesAt(out)].lead| == 2
  {
    hide Hit, Insert, First, LastDeclEnd;
    var h, s := NetworksAt(lines), ServicesAt(lines);
    NetworkLine("services");
    if Declared(lines, "services") {
      var m := First(lines, h + 1, Decl("services"));
      DeclServicesIsHeader(lines[m]);
      ServicesLine(lines[s]);
      assert false;
    }
    var at, ins := RootInsertAt(lines), DeclareLines(lines, "services", spec);
    var out := Insert(lines, at, ins);
    assert out[at] == ins[0] == Mk(2, "services" + ":");
    FirstIs(out, 0, Services, at);
  }

  lemma DeclServicesIsHeader(l: Line)
    requires Hit(Decl("services"), l)
    ensures Hit(Services, l) && l.lead != ""
  {
    assert "services" + ":" == "services:";
  }

  // The services header stays the root one exactly when the external network does not shadow it.
  lemma ShadowingExact(lines: seq<Line>, external: string, driver: Driver)
    requires Rooted(lines)
    ensures Rooted(AttachAll(lines, external, driver)) <==> NotShadowing(lines, external)
  {
    hide Hit, Insert, First, Attached, ServiceNames, Declared, Declare, IsRootName, LastDeclEnd, DriverSpec, ExternalSpec, AttachNames, Subseq;
    if NotShadowing(lines, external) {
      AttachAllAttaches(lines, external, driver);
    } else {
      SpecsAreSpecs(external, driver);
      var l1 := Declare(lines, INTERNAL_NETWORK, DriverSpec(driver));
      RootSideStays(lines, INTERNAL_NETWORK, DriverSpec(driver));
      DeclareDeclares(lines, INTERNAL_NETWORK, DriverSpec(driver));
      DeclaredHasHeader(l1, INTERNAL_NETWORK);
      var l2 := Declare(l1, external, ExternalSpec(external));
      ShadowedHeader(l1, ExternalSpec(external));
      AttachNamesHeader(l2, ServiceNames(l2), INTERNAL_NETWORK);
      var l3 := AttachNet(l2, INTERNAL_NETWORK);
      AttachNamesHeader(l3, ServiceNames(l3), external);
    }
  }

  lemma DeclaredHasHeader(lines: seq<Line>, net: string)
    requires Declared(lines, net)
    ensures NetworksAt(lines) < |lines|
  {
  }
}
