// Compose files on which the rewriters do what their exact conditions exclude.
module ComposeExamples {
  import opened Wrappers
  import opened LineScan
  import opened ComposeNetworks
  import opened ComposeAttach
  import opened ComposeText
  import opened ComposePipeline
  import opened ComposeCarriage
  import opened ComposeTraefik
  import opened ComposeInjection

  // ----- an external network called `services` -------------------------------

  // A file that starts with root volumes: the root networks go above it, the one called `services`
  // becomes the services header, and the section is no longer a root one.
  lemma ShadowingExample(driver: Driver)
    ensures var lines := [Mk(0, "volumes:"), Mk(0, "services:"), Mk(2, "web:")];
            Rooted(lines) && ServiceNames(lines) == ["web"] && !Rooted(AttachAll(lines, "services", driver))
  {
    var volumes, services, web := Mk(0, "volumes:"), Mk(0, "services:"), Mk(2, "web:");
    var lines := [volumes, services, web];
    ExampleLines(volumes, services, web);
    hide Hit, Mk, AttachAll;
    FirstIs(lines, 0, Services, 1);
    FirstIs(lines, 0, RootNetworks, 3);
    FirstIs(lines, 0, RootVolumes, 0);
    OneName(lines, 1, web, "web");
    ShadowingExact(lines, "services", driver);
  }

  lemma ExampleLines(volumes: Line, services: Line, web: Line)
    requires volumes == Mk(0, "volumes:") && services == Mk(0, "services:") && web == Mk(2, "web:")
    ensures services.lead == "" && Hit(Services, services) && !Hit(Services, volumes)
    ensures Hit(RootVolumes, volumes)
    ensures !Hit(RootNetworks, volumes) && !Hit(RootNetworks, services) && !Hit(RootNetworks, web)
    ensures Hit(ServiceLine(0), web) && KeyName(web.body) == "web" && !Hit(RegionEnd(0), web)
  {
    assert volumes.body[0] == 'v' && services.body[0] == 's' && web.body[0] == 'w' && |web.lead| == 2;
    assert volumes.lead == "" && services.lead == "";
    ServicesLine(services);
  }

  // A services section whose only line names one service.
  lemma OneName(lines: seq<Line>, s: nat, l: Line, name: string)
    requires |lines| == s + 2 && ServicesAt(lines) == s && lines[s].lead == "" && lines[s + 1] == l
    requires Hit(ServiceLine(0), l) && KeyName(l.body) == name && !Hit(RegionEnd(0), l)
    ensures ServiceNames(lines) == [name]
  {
    hide Hit;
    FirstIs(lines, s + 1, RegionEnd(0), s + 2);
    assert NamesIn(lines, s + 2, s + 2, 0) == [];
    assert NamesIn(lines, s + 1, s + 2, 0) == [name] + [];
  }

  // ----- carriage returns ----------------------------------------------------

  function Web(): string {
    "  web:"
  }

  function Header(crs: string): string {
    "services:" + crs
  }

  // `services:` with some carriage returns before its line break, and one service.
  function CRText(crs: string): string {
    Header(crs) + "\n" + Web()
  }

  predicate AllCR(crs: string) {
    forall k :: 0 <= k < |crs| ==> crs[k] == '\r'
  }

  lemma HeaderDrops(crs: string)
    requires AllCR(crs) && crs != ""
    ensures '\n' !in Header(crs) && '\n' !in Web() && DropCR(Header(crs)) == Header(crs[..|crs| - 1])
    ensures DropCR(Header(crs)) != Header(crs)
  {
    var head := Header(crs);
    assert head[|head| - 1] == crs[|crs| - 1] == '\r';
    assert head[..|head| - 1] == Header(crs[..|crs| - 1]);
  }

  lemma CRTextSplit(crs: string)
    requires AllCR(crs) && crs != ""
    ensures SplitLines(CRText(crs)) == [Header(crs[..|crs| - 1]), Web()]
  {
    HeaderDrops(crs);
    hide SplitLines, Header, DropCR;
    SplitCons(Header(crs), Web());
    SplitOne(Web());
  }

  lemma HeaderParses(crs: string)
    requires AllCR(crs)
    ensures Parse(Header(crs)) == Line("", "services:", crs)
  {
    var l := Line("", "services:", crs);
    assert IsSpace('\r');
    assert Proper(l);
    ShowParses(l);
    assert Show(l) == Header(crs);
  }

  lemma WebParses()
    ensures Parse(Web()) == Mk(2, "web:")
  {
    var l := Mk(2, "web:");
    assert l.lead == "  " && Proper(l);
    ShowParses(l);
    assert Show(l) == Web();
  }

  lemma CRTextLines(crs: string)
    requires AllCR(crs) && crs != ""
    ensures LinesOf(CRText(crs)) == [Line("", "services:", crs[..|crs| - 1]), Mk(2, "web:")]
  {
    hide SplitLines, Header, Web, Parse, Mk, CRText;
    CRTextSplit(crs);
    HeaderParses(crs[..|crs| - 1]);
    WebParses();
    TwoParsed(Header(crs[..|crs| - 1]), Web());
  }

  lemma TwoParsed(a: string, b: string)
    ensures ParseAll([a, b]) == [Parse(a), Parse(b)]
  {
    hide Parse;
  }

  lemma CRTextTrimmed(crs: string)
    ensures Trim(CRText(crs)) == CRText(crs) && CRText(crs) != ""
  {
    var t := CRText(crs);
    assert t[0] == 's' && t[|t| - 1] == Web()[|Web()| - 1] == ':';
    assert !IsSpace('s') && !IsSpace(':');
    hide IsSpace, CRText;
    TrimStartIs("", t);
    TrimEndIs(t, "");
    assert "" + t == t && t + "" == t;
  }

  lemma CRTextRooted(crs: string, external: string)
    requires AllCR(crs) && crs != "" && external != "services"
    ensures RootedText(CRText(crs), external) && ServiceNames(LinesOf(Trim(CRText(crs)))) == ["web"] && !Idle(CRText(crs))
  {
    hide Hit, Mk, Trim, LinesOf, CRText, First, RootedText, ServiceNames, ServicesAt;
    CRTextLines(crs);
    CRTextTrimmed(crs);
    CRScans(LinesOf(CRText(crs))[0], LinesOf(CRText(crs))[1]);
    RootedIs(CRText(crs), external);
  }

  lemma RootedIs(text: string, external: string)
    requires Trim(text) == text && text != "" && external != "services"
    requires var lines := LinesOf(text); ServicesAt(lines) == 0 && lines != [] && lines[0].lead == ""
    ensures RootedText(text, external) && !Idle(text)
  {
    hide Hit, Trim, LinesOf, First;
  }

  lemma CRScans(services: Line, web: Line)
    requires services.lead == "" && services.body == "services:" && web == Mk(2, "web:")
    ensures var lines := [services, web]; ServicesAt(lines) == 0 && ServiceNames(lines) == ["web"]
  {
    ExampleLines(Mk(0, "volumes:"), Mk(0, "services:"), web);
    assert Hit(Services, services);
    hide Hit, Mk;
    FirstIs([services, web], 0, Services, 0);
    OneName([services, web], 0, web, "web");
  }

  lemma ProxyIsReadable()
    ensures IsRootName("proxy") && PlainName("proxy") && "proxy" != "services"
  {
    assert "proxy"[0] == 'p' && "services"[0] == 's';
    RootNameIsPlain("proxy");
  }

  lemma CRRemains(crs: string)
    requires AllCR(crs) && |crs| >= 2
    ensures !NoStrayCR(CRText(crs)) && (|crs| >= 3 ==> !NoTripleCR(CRText(crs)))
  {
    CRTextSplit(crs);
    HeaderDrops(crs[..|crs| - 1]);
    if |crs| >= 3 {
      HeaderDrops(crs[..|crs| - 1][..|crs| - 2]);
    }
    hide SplitLines, Header, CRText, DropCR;
    assert SplitLines(CRText(crs))[0] == Header(crs[..|crs| - 1]);
  }

  // Two carriage returns: the second run drops the one the first run left.
  lemma AttachStrayExample(driver: Driver)
    ensures var once := AttachText(CRText("\r\r"), "proxy", driver); AttachText(once, "proxy", driver) != once
  {
    StrayAttached("\r\r", "proxy", driver);
  }

  lemma StrayAttached(crs: string, external: string, driver: Driver)
    requires AllCR(crs) && |crs| >= 2 && external == "proxy"
    ensures var once := AttachText(CRText(crs), external, driver); AttachText(once, external, driver) != once
  {
    ProxyIsReadable();
    hide RootedText, IsRootName, PlainName, CRText, Trim, NoStrayCR, NoTripleCR, AllCR, LinesOf, ServiceNames;
    CRTextRooted(crs, external);
    CRTextTrimmed(crs);
    CRRemains(crs);
    AttachTextIdempotentExact(CRText(crs), external, driver);
  }

  // Three carriage returns: two readings drop two, the next injection drops the third.
  lemma InjectStrayExample(t: Ingress)
    requires t.routes != [] && OneLiners(t)
    ensures var once := InjectText(CRText("\r\r\r"), "web", t, "proxy"); InjectText(once, "web", t, "proxy") != once
  {
    StrayInjected("\r\r\r", "web", t, "proxy");
  }

  lemma StrayInjected(crs: string, target: string, t: Ingress, network: string)
    requires AllCR(crs) && |crs| >= 3 && target == "web" && network == "proxy" && t.routes != [] && OneLiners(t)
    ensures var once := InjectText(CRText(crs), target, t, network); InjectText(once, target, t, network) != once
  {
    ProxyIsReadable();
    hide RootedText, IsRootName, PlainName, CRText, Trim, NoStrayCR, NoTripleCR, AllCR, OneLiners, InjectText, AttachText, LinesOf, DeployBlock, Enabled, ServiceNames, InjectLines;
    CRTextRooted(crs, network);
    CRTextTrimmed(crs);
    CRRemains(crs);
    InjectListedTarget(CRText(crs), target, t, network);
    InjectTextIdempotentExact(CRText(crs), target, t, network);
  }
}
