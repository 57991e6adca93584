// A compose file as the deploy path meets it: one service, no networks and no volumes.
module ComposeDriverExample {
  import opened LineScan
  import opened ComposeNetworks
  import opened ComposeText
  import opened ComposePipeline
  import opened ComposeOptions
  import ComposeCarriage
  import ComposeVolumeExamples

  datatype Sample = Sample(services: Line, web: Line, image: Line)

  function Lines(): Sample {
    Sample(Mk(0, "services:"), Mk(2, "web:"), Mk(4, "image: x"))
  }

  // What the scans see in the lines of the file.
  ghost predicate FileLines(s: Sample) {
    && s.services.lead == "" && s.web.lead == "  "
    && Hit(Services, s.services) && !Hit(RootNetworks, s.services) && !Hit(RootVolumes, s.services)
    && !Hit(RootNetworks, s.web) && !Hit(RootVolumes, s.web) && !Hit(RegionEnd(0), s.web)
    && Hit(ServiceLine(0), s.web) && KeyName(s.web.body) == "web" && Hit(NameLine(0, "web"), s.web)
    && !Hit(RootNetworks, s.image) && !Hit(RootVolumes, s.image) && !Hit(RegionEnd(0), s.image)
    && !Hit(ServiceLine(0), s.image) && !Hit(BlockEnd(0), s.image) && !Hit(NetworksKey, s.image)
  }

  lemma FileLinesSeen()
    ensures FileLines(Lines())
  {
    WebSeen();
    ImageSeen();
    hide Hit, Mk;
    assert Lines().services == Mk(0, "services:");
    ServicesSeen();
  }

  lemma ServicesSeen()
    ensures var l := Mk(0, "services:"); l.lead == "" && Hit(Services, l) && !Hit(RootNetworks, l) && !Hit(RootVolumes, l)
  {
    ServicesLine(Mk(0, "services:"));
  }

  lemma WebSeen()
    ensures var l := Mk(2, "web:");
            && l.lead == "  " && !Hit(RootNetworks, l) && !Hit(RootVolumes, l) && !Hit(RegionEnd(0), l)
            && Hit(ServiceLine(0), l) && KeyName(l.body) == "web" && Hit(NameLine(0, "web"), l)
  {
    var l := Mk(2, "web:");
    assert l.lead == "  " && l.body[0] == 'w' && KeyName(l.body) == "web";
  }

  lemma ImageSeen()
    ensures var l := Mk(4, "image: x");
            && !Hit(RootNetworks, l) && !Hit(RootVolumes, l) && !Hit(RegionEnd(0), l)
            && !Hit(ServiceLine(0), l) && !Hit(BlockEnd(0), l) && !Hit(NetworksKey, l)
  {
    var l := Mk(4, "image: x");
    assert l.body[0] == 'i' && l.body[|l.body| - 1] == 'x' && |l.lead| == 4;
  }

  // What they see in the lines that are written.
  ghost predicate HeaderSeen(l: Line) {
    Hit(RootNetworks, l) && Hit(RegionEnd(0), l) && Hit(BlockEnd(0), l) && Hit(NetworksKey, l)
  }

  ghost predicate InBlock(l: Line) {
    !Hit(BlockEnd(0), l) && !Hit(RegionEnd(0), l) && !Hit(ServiceLine(0), l) && !Hit(RootNetworks, l)
  }

  lemma HeaderIsSeen()
    ensures HeaderSeen(Mk(0, "networks:"))
  {
    var l := Mk(0, "networks:");
    assert l.body[0] == 'n' && l.lead == "";
  }

  lemma KeyIsSeen()
    ensures InBlock(Mk(4, "networks:")) && Hit(NetworksKey, Mk(4, "networks:"))
  {
    var l := Mk(4, "networks:");
    assert l.body[0] == 'n' && |l.lead| == 4;
  }

  lemma ItemIsSeen(net: string)
    ensures InBlock(Mk(6, "- " + net)) && !Hit(NetworksKey, Mk(6, "- " + net))
    ensures NetItem(4, net) == Mk(6, "- " + net)
  {
    var l := Mk(6, "- " + net);
    assert l.body[0] == '-' && |l.lead| == 6 && "networks:"[0] == 'n';
  }

  lemma OtherItem()
    ensures !Hit(Item("proxy"), Mk(6, "- " + "weehawk-internal"))
  {
    assert Mk(6, "- " + "weehawk-internal").body[2] == 'w' && ("- " + "proxy")[2] == 'p';
  }

  // ----- one step after the other --------------------------------------------

  // No networks and no volumes: the section goes to the end.
  lemma DeclaredFirst(s: Line, w: Line, i: Line, driver: Driver)
    requires !Hit(RootNetworks, s) && !Hit(RootNetworks, w) && !Hit(RootNetworks, i)
    requires !Hit(RootVolumes, s) && !Hit(RootVolumes, w) && !Hit(RootVolumes, i)
    ensures Declare([s, w, i], INTERNAL_NETWORK, DriverSpec(driver)) ==
            [s, w, i, Mk(0, "networks:"), InternalLine(), OptionLine(driver), Line("", "", "")]
    ensures Written([s, w, i, Mk(0, "networks:"), InternalLine(), OptionLine(driver), Line("", "", "")], 4, driver)
  {
    hide Hit, Mk, InternalLine, OptionLine, First, DriverSpec, Written;
    var lines := [s, w, i];
    FirstIs(lines, 0, RootNetworks, 3);
    FirstIs(lines, 0, RootVolumes, 3);
    Literals("", driver);
    NewSection(lines, driver);
    var ins := [Mk(0, "networks:"), InternalLine(), OptionLine(driver), Line("", "", "")];
    AtEnd(lines, ins);
    assert lines + ins == [s, w, i, ins[0], ins[1], ins[2], ins[3]];
  }

  lemma AtEnd(lines: seq<Line>, ins: seq<Line>)
    ensures Insert(lines, |lines|, ins) == lines + ins
  {
  }

  // No key behind the internal network: the external one goes right below its header.
  lemma DeclaredSecond(s: Line, w: Line, i: Line, n: Line, d: Line, o: Line, b: Line, driver: Driver)
    requires Written([s, w, i, n, d, o, b], 4, driver) && d == InternalLine() && o == OptionLine(driver) && b == Line("", "", "")
    requires HeaderSeen(n) && !Hit(RootNetworks, s) && !Hit(RootNetworks, w) && !Hit(RootNetworks, i)
    ensures var e := ExternalLines("proxy");
            Declare([s, w, i, n, d, o, b], "proxy", ExternalSpec("proxy")) == [s, w, i, n, d] + e + [o, b]
  {
    InternalProbes(driver, "proxy");
    BlankProbes();
    ProxyIsOther();
    hide Hit, InternalLine, OptionLine, First, ExternalSpec, Written, LastDeclEnd, ExternalLines, RootInsertAt;
    var lines := [s, w, i, n, d, o, b];
    FirstIs(lines, 0, RootNetworks, 3);
    FirstIs(lines, 4, Decl("proxy"), 7);
    Literals("proxy", driver);
    InsertionGoes(lines, 4, "proxy", driver);
    assert !KeyBehind(lines, 5);
    assert lines[..5] == [s, w, i, n, d] && lines[5..] == [o, b];
  }

  lemma ProxyIsOther()
    ensures "proxy" != "weehawk-internal" && "proxy" != "services"
  {
    assert "proxy"[0] == 'p' && "weehawk-internal"[0] == 'w' && "services"[0] == 's';
  }

  // The service that is listed, and where its block ends.
  lemma OneService(lines: seq<Line>, e: nat)
    requires 3 <= e < |lines| && lines[0].lead == "" && Hit(Services, lines[0])
    requires Hit(ServiceLine(0), lines[1]) && KeyName(lines[1].body) == "web" && Hit(NameLine(0, "web"), lines[1]) && !Hit(RegionEnd(0), lines[1])
    requires forall k :: 2 <= k < e ==> !Hit(BlockEnd(0), lines[k]) && !Hit(RegionEnd(0), lines[k]) && !Hit(ServiceLine(0), lines[k])
    requires Hit(BlockEnd(0), lines[e]) && Hit(RegionEnd(0), lines[e])
    ensures ServiceNames(lines) == ["web"] && BlockStart(lines, "web") == 1 && BlockStop(lines, "web") == e
  {
    hide Hit, First, NamesIn;
    FirstIs(lines, 0, Services, 0);
    FirstIs(lines, 1, RegionEnd(0), e);
    FirstIs(lines, 1, NameLine(0, "web"), 1);
    FirstIs(lines, 2, BlockEnd(0), e);
    NamesInNone(lines, 2, e, 0);
    FirstName(lines, 1, e, "web");
  }

  lemma FirstName(lines: seq<Line>, i: nat, e: nat, name: string)
    requires i < e <= |lines| && Hit(ServiceLine(0), lines[i]) && KeyName(lines[i].body) == name
    requires NamesIn(lines, i + 1, e, 0) == []
    ensures NamesIn(lines, i, e, 0) == [name]
  {
    hide Hit;
  }

  // The first network brings the `networks:` line along.
  lemma AttachedFirst(lines: seq<Line>, head: seq<Line>, rest: seq<Line>, net: string)
    requires lines == head + rest && |head| == 3 && rest != [] && HeaderSeen(rest[0])
    requires ServiceNames(lines) == ["web"] && BlockStart(lines, "web") == 1 && BlockStop(lines, "web") == 3
    requires |lines[1].lead| == 2 && !Hit(NetworksKey, head[2])
    ensures AttachNet(lines, net) == head + [Mk(4, "networks:"), Mk(6, "- " + net)] + rest
  {
    hide Hit, First, ServiceNames, BlockStart, BlockStop, Mk;
    FirstIs(lines, 2, NetworksKey, 3);
    ItemIsSeen(net);
    assert lines[..3] == head && lines[3..] == rest;
    OneAttached(lines, net);
  }

  lemma OneAttached(lines: seq<Line>, net: string)
    requires ServiceNames(lines) == ["web"]
    ensures AttachNet(lines, net) == AttachOne(lines, "web", net)
  {
    hide AttachOne, ServiceNames;
    assert ["web"][1..] == [];
    assert AttachNames(AttachOne(lines, "web", net), [], net) == AttachOne(lines, "web", net);
  }

  // The second one goes right below that line.
  lemma AttachedSecond(lines: seq<Line>, head: seq<Line>, key: Line, item: Line, rest: seq<Line>, net: string)
    requires lines == head + [key, item] + rest && |head| == 3 && rest != []
    requires ServiceNames(lines) == ["web"] && BlockStart(lines, "web") == 1 && BlockStop(lines, "web") == 5
    requires |lines[1].lead| == 2 && !Hit(NetworksKey, head[2]) && Hit(NetworksKey, key) && !Hit(Item(net), item)
    ensures AttachNet(lines, net) == head + [key, Mk(6, "- " + net), item] + rest
  {
    hide Hit, First, ServiceNames, BlockStart, BlockStop, Mk;
    FirstIs(lines, 2, NetworksKey, 3);
    assert lines[2] == head[2] && lines[3] == key && lines[4] == item;
    assert First(lines, 4, Item(net)) >= 5;
    ItemIsSeen(net);
    assert lines[..4] == head + [key] && lines[4..] == [item] + rest;
    OneAttached(lines, net);
  }

  // ----- the whole file ------------------------------------------------------

  function Head(): seq<Line> {
    [Lines().services, Lines().web, Lines().image]
  }

  function Tail(driver: Driver): seq<Line> {
    [Mk(0, "networks:"), InternalLine()] + ExternalLines("proxy") + [OptionLine(driver), Line("", "", "")]
  }

  lemma Declarations(driver: Driver)
    ensures var l1 := Declare(Head(), INTERNAL_NETWORK, DriverSpec(driver));
            Declare(l1, "proxy", ExternalSpec("proxy")) == Head() + Tail(driver)
  {
    FileLinesSeen();
    HeaderIsSeen();
    hide Hit, Mk, InternalLine, OptionLine, DriverSpec, ExternalSpec, ExternalLines, Written, Declare, Lines;
    var s := Lines();
    DeclaredFirst(s.services, s.web, s.image, driver);
    DeclaredSecond(s.services, s.web, s.image, Mk(0, "networks:"), InternalLine(), OptionLine(driver), Line("", "", ""), driver);
    var e := ExternalLines("proxy");
    assert [s.services, s.web, s.image, Mk(0, "networks:"), InternalLine()] + e + [OptionLine(driver), Line("", "", "")] == Head() + Tail(driver);
  }

  lemma TailStarts(driver: Driver)
    ensures Tail(driver) != [] && Tail(driver)[0] == Mk(0, "networks:")
  {
    hide Mk, ExternalLines, OptionLine, InternalLine;
  }

  lemma Attachments(driver: Driver)
    ensures AttachNet(AttachNet(Head() + Tail(driver), INTERNAL_NETWORK), "proxy") ==
            Head() + [Mk(4, "networks:"), Mk(6, "- proxy"), Mk(6, "- weehawk-internal")] + Tail(driver)
  {
    FileLinesSeen();
    HeaderIsSeen();
    KeyIsSeen();
    ItemIsSeen("weehawk-internal");
    OtherItem();
    TailStarts(driver);
    hide Hit, Mk, Tail, Lines, AttachNet, ServiceNames, BlockStart, BlockStop;
    var key, item := Mk(4, "networks:"), Mk(6, "- " + "weehawk-internal");
    var l2 := Head() + Tail(driver);
    var l3 := Head() + [key, item] + Tail(driver);
    OneService(l2, 3);
    AttachedFirst(l2, Head(), Tail(driver), INTERNAL_NETWORK);
    OneService(l3, 5);
    AttachedSecond(l3, Head(), key, item, Tail(driver), "proxy");
    assert "- " + "proxy" == "- proxy" && "- " + "weehawk-internal" == "- weehawk-internal";
    assert Head() + [key, Mk(6, "- " + "proxy"), item] + Tail(driver) == Head() + [key, Mk(6, "- proxy"), item] + Tail(driver);
  }

  // ----- as text -------------------------------------------------------------

  lemma HeadReads()
    ensures LinesOf(Trim(Join(ShowAll(Head())))) == Head() && Trim(Join(ShowAll(Head()))) != "" && ServicesAt(Head()) == 0
  {
    HeadClean();
    FileLinesSeen();
    HeadEnds();
    hide Hit, Lines, Clean, LinesOf, Trim, Join, Show, First;
    ComposeVolumeExamples.TextReads(Head());
    FirstIs(Head(), 0, Services, 0);
  }

  lemma HeadClean()
    ensures AllClean(Head())
  {
    hide Clean, Mk;
    MkClean(0, "services:");
    MkClean(2, "web:");
    MkClean(4, "image: x");
  }

  lemma HeadEnds()
    ensures StartsAtRoot(Head()) && ComposeCarriage.Solid(Head())
  {
    assert Lines().services.body[0] == 's' && Lines().image.body[0] == 'i';
  }

  function Attached(): seq<Line> {
    [Mk(4, "networks:"), Mk(6, "- proxy"), Mk(6, "- weehawk-internal")]
  }

  function Section(): seq<Line> {
    [Mk(0, "networks:"), Mk(2, "weehawk-internal:"), Mk(2, "proxy:"), Mk(4, "external: true"), Mk(4, "name: proxy")]
  }

  function Before(): seq<Line> {
    Head() + Attached() + Section()
  }

  lemma OptionClean(driver: Driver)
    ensures Clean(OptionLine(driver)) && OptionLine(driver).body != "" && OptionLine(driver).trail == ""
  {
    DriverClean(driver);
    Literals("proxy", driver);
    assert NetworkBlock(INTERNAL_NETWORK, DriverSpec(driver))[1] == DriverSpec(driver)[0];
    assert OptionLine(driver).body[0] == 'd';
  }

  lemma AttachedClean()
    ensures AllClean(Attached())
  {
    hide Clean, Mk;
    FixedClean();
    MkClean(6, "- proxy");
    MkClean(6, "- weehawk-internal");
  }

  lemma SectionClean()
    ensures AllClean(Section())
  {
    hide Clean, Mk;
    FixedClean();
    MkClean(2, "weehawk-internal:");
    MkClean(2, "proxy:");
    MkClean(4, "name: proxy");
  }

  lemma BeforeClean(driver: Driver)
    ensures AllClean(Before() + [OptionLine(driver)])
  {
    HeadClean();
    AttachedClean();
    SectionClean();
    OptionClean(driver);
    hide Clean, Head, Attached, Section, OptionLine;
  }

  lemma LiteralLines()
    ensures InternalLine() == Mk(2, "weehawk-internal:")
    ensures ExternalLines("proxy") == [Mk(2, "proxy:"), Mk(4, "external: true"), Mk(4, "name: proxy")]
  {
    assert Spaces(2) == "  " && Spaces(4) == "    ";
    assert "proxy" + ":" == "proxy:" && "name: " + "proxy" == "name: proxy";
  }

  lemma Finished(lines: seq<Line>, option: Line)
    requires AllClean(lines + [option]) && option.body != "" && option.trail == ""
    ensures Finish(lines + [option] + [Line("", "", "")]) == Join(ShowAll(lines + [option])) + "\n"
  {
    hide Clean, Join, TrimEnd, Show;
    var all := lines + [option] + [Line("", "", "")];
    forall k | 0 <= k < |all| ensures Proper(all[k]) {
      if k < |lines| + 1 {
        assert all[k] == (lines + [option])[k];
        CleanIsProper(all[k]);
      } else {
        assert all[k] == Line("", "", "");
      }
    }
    assert all[|lines|] == option && HasText(all);
    TrimEndJoin(all);
    assert all[..|all| - 1] == lines + [option] && (lines + [option])[..|lines|] == lines;
    assert option.(trail := "") == option;
  }

  lemma CleanIsProper(l: Line)
    requires Clean(l)
    ensures Proper(l)
  {
  }

  lemma AttachedLines(driver: Driver)
    ensures AttachAll(Head(), "proxy", driver) == Before() + [OptionLine(driver)] + [Line("", "", "")]
  {
    hide Head, Mk, Declare, AttachNet, DriverSpec, ExternalSpec, OptionLine, InternalLine, ExternalLines;
    Declarations(driver);
    Attachments(driver);
    LiteralLines();
    assert Tail(driver) == Section() + [OptionLine(driver), Line("", "", "")];
  }

  // ----- the text ------------------------------------------------------------

  function FileText(): string {
    Join(["services:", "  web:", "    image: x"])
  }

  function OptionText(driver: Driver): string {
    match driver case Overlay => "    driver: overlay" case Bridge => "    driver: bridge"
  }

  function ResultText(driver: Driver): string {
    Join(["services:", "  web:", "    image: x", "    networks:", "      - proxy", "      - weehawk-internal",
          "networks:", "  weehawk-internal:", "  proxy:", "    external: true", "    name: proxy", OptionText(driver)])
    + "\n"
  }

  lemma Padded(n: nat, body: string)
    ensures Show(Mk(n, body)) == Spaces(n) + body
  {
  }

  lemma Margins()
    ensures Spaces(0) == "" && Spaces(2) == "  " && Spaces(4) == "    " && Spaces(6) == "      "
  {
  }

  lemma HeadShows()
    ensures ShowAll(Head()) == ["services:", "  web:", "    image: x"]
  {
    Margins();
    hide Show, Mk, Spaces;
    Padded(0, "services:");
    Padded(2, "web:");
    Padded(4, "image: x");
    assert "" + "services:" == "services:" && "  " + "web:" == "  web:" && "    " + "image: x" == "    image: x";
    assert ShowAll(Head()) == [Show(Head()[0]), Show(Head()[1]), Show(Head()[2])];
  }

  lemma AttachedShows()
    ensures ShowAll(Attached()) == ["    networks:", "      - proxy", "      - weehawk-internal"]
  {
    Margins();
    hide Show, Mk, Spaces;
    Padded(4, "networks:");
    Padded(6, "- proxy");
    Padded(6, "- weehawk-internal");
    assert "    " + "networks:" == "    networks:" && "      " + "- proxy" == "      - proxy";
    assert "      " + "- weehawk-internal" == "      - weehawk-internal";
    assert ShowAll(Attached()) == [Show(Attached()[0]), Show(Attached()[1]), Show(Attached()[2])];
  }

  lemma SectionShows()
    ensures ShowAll(Section()) == ["networks:", "  weehawk-internal:", "  proxy:", "    external: true", "    name: proxy"]
  {
    ShortShows();
    LongShows();
    hide Show, Mk;
    assert ShowAll(Section()) == [Show(Section()[0]), Show(Section()[1]), Show(Section()[2]), Show(Section()[3]), Show(Section()[4])];
  }

  lemma ShortShows()
    ensures Show(Mk(0, "networks:")) == "networks:" && Show(Mk(2, "proxy:")) == "  proxy:"
    ensures Show(Mk(2, "weehawk-internal:")) == "  weehawk-internal:"
  {
    Margins();
    hide Show, Mk, Spaces;
    Padded(0, "networks:");
    Padded(2, "weehawk-internal:");
    Padded(2, "proxy:");
    assert "" + "networks:" == "networks:" && "  " + "weehawk-internal:" == "  weehawk-internal:" && "  " + "proxy:" == "  proxy:";
  }

  lemma LongShows()
    ensures Show(Mk(4, "external: true")) == "    external: true" && Show(Mk(4, "name: proxy")) == "    name: proxy"
  {
    Margins();
    hide Show, Mk, Spaces;
    Padded(4, "external: true");
    Padded(4, "name: proxy");
    assert "    " + "external: true" == "    external: true" && "    " + "name: proxy" == "    name: proxy";
  }

  lemma OptionShows(driver: Driver)
    ensures ShowAll([OptionLine(driver)]) == [OptionText(driver)]
  {
    assert "    " + "driver: overlay" + "" == "    driver: overlay" && "    " + "driver: bridge" + "" == "    driver: bridge";
    assert ShowAll([OptionLine(driver)]) == [Show(OptionLine(driver))];
  }

  lemma ShowConcat(a: seq<Line>, b: seq<Line>)
    ensures ShowAll(a + b) == ShowAll(a) + ShowAll(b)
  {
  }

  // Attaching the smallest service file, byte by byte: with no key behind the networks, the external
  // network ends up between the internal one and its driver.
  lemma DriverExample(driver: Driver)
    ensures AttachText(FileText(), "proxy", driver) == ResultText(driver)
  {
    hide LinesOf, Trim, Join, AttachAll, ServicesAt, Finish, Show, Head, Attached, Section, OptionLine, OptionText;
    HeadReads();
    HeadShows();
    AttachedLines(driver);
    BeforeClean(driver);
    OptionClean(driver);
    Finished(Before(), OptionLine(driver));
    TextIs(driver);
  }

  lemma TextIs(driver: Driver)
    ensures ShowAll(Before() + [OptionLine(driver)]) ==
            ["services:", "  web:", "    image: x", "    networks:", "      - proxy", "      - weehawk-internal",
             "networks:", "  weehawk-internal:", "  proxy:", "    external: true", "    name: proxy", OptionText(driver)]
  {
    hide Show, Head, Attached, Section, OptionLine, OptionText;
    HeadShows();
    AttachedShows();
    SectionShows();
    OptionShows(driver);
    ShowConcat(Head() + Attached() + Section(), [OptionLine(driver)]);
    ShowConcat(Head() + Attached(), Section());
    ShowConcat(Head(), Attached());
  }
}
