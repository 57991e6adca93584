// Compose files on which the volume pass does what its exact conditions exclude.
module ComposeVolumeExamples {
  import opened Wrappers
  import opened LineScan
  import opened ComposeText
  import opened ComposePipeline
  import opened ComposeCarriage
  import opened ComposeVolumes

  function Text(lines: seq<Line>): string
    requires lines != []
  {
    Join(ShowAll(lines))
  }

  // Clean lines that start in the first column and end in text are what their text reads as.
  lemma TextReads(lines: seq<Line>)
    requires AllClean(lines) && StartsAtRoot(lines) && Solid(lines)
    ensures Body(Text(lines)) == lines && Trim(Text(lines)) != ""
  {
    hide Clean, Show, Join, Trim, StripEnd, Proper, DropCR, SplitLines, Parse, Shave;
    forall k | 0 <= k < |lines| ensures Sound(lines[k]) && Shave(lines[k]) == lines[k] {
      CleanIsSound(lines[k]);
      ShaveParses(lines[k]);
    }
    StripEndTwice(lines);
    SoundFinish(lines);
    TrimTrims(Text(lines) + "\n");
    LinesShaved(lines);
    assert ShaveAll(lines) == lines;
  }

  lemma CleanIsSound(l: Line)
    requires Clean(l)
    ensures Sound(l)
  {
  }

  // ----- the lines -----------------------------------------------------------

  // Root `volumes:`, a volume, a root line with a value, root `services:`, a service, a mount.
  datatype Sample = Sample(volumes: Line, a: Line, name: Line, services: Line, web: Line, mount: Line)

  function Lines(): Sample {
    Sample(Mk(0, "volumes:"), Mk(2, "a:"), Mk(0, "name: x"), Mk(0, "services:"), Mk(2, "web:"), Mk(6, "- b:/data"))
  }

  lemma SampleClean()
    ensures var s := Lines(); Clean(s.volumes) && Clean(s.a) && Clean(s.name) && Clean(s.mount)
  {
    hide Clean, Mk;
    MkClean(0, "volumes:");
    MkClean(2, "a:");
    MkClean(0, "name: x");
    MkClean(6, "- b:/data");
  }

  lemma SampleHeaders()
    ensures var s := Lines();
            && IsVolumesHeader(s.volumes) && !IsVolumesHeader(s.a) && !IsVolumesHeader(s.name) && !IsVolumesHeader(s.services)
            && !IsVolumesHeader(s.web) && !IsVolumesHeader(s.mount)
  {
    var s := Lines();
    assert s.a.body[0] == 'a' && s.name.body[0] == 'n' && s.services.body[0] == 's' && s.web.body[0] == 'w' && s.mount.body[0] == '-';
    assert s.name.body != "volumes:" && s.services.body != "volumes:";
    assert |s.a.lead| == 2 && |s.web.lead| == 2 && |s.mount.lead| == 6;
  }

  lemma SampleKeys()
    ensures var s := Lines();
            && IsBareKey(s.a) && KeyName(s.a.body) == "a" && IsBareKey(s.services) && IsBareKey(s.web)
            && !IsBareKey(s.name) && !IsBareKey(s.mount)
            && !IsBlankOrComment(s.a) && !IsBlankOrComment(s.name) && !IsBlankOrComment(s.services) && !IsBlankOrComment(s.web)
            && Closes(s.name) && !Closes(s.a) && !Closes(s.services) && !Closes(s.web) && !Closes(s.mount)
            && |s.a.lead| == 2 && |s.mount.lead| == 6 && s.services.lead == ""
  {
    var s := Lines();
    assert s.a.body[0] == 'a' && s.name.body[|s.name.body| - 1] == 'x' && s.services.body[0] == 's' && s.web.body[0] == 'w';
    assert s.mount.body[|s.mount.body| - 1] == 'a';
    assert KeyName(s.a.body) == "a" && KeyName(s.services.body) == "services" && KeyName(s.web.body) == "web";
  }

  lemma MountRead()
    ensures MountName("- b:/data") == Some("b")
  {
    assert "- b:/data"[1..] == " " + "b:/data";
    hide NameRun, PathAt, IsNameChar;
    assert TrimStart(" " + "b:/data") == "b:/data" by { hide *; OneSpace(); }
    MountB("b:/data");
  }

  lemma OneSpace()
    ensures TrimStart(" " + "b:/data") == "b:/data"
  {
    assert IsSpace(' ') && !IsSpace('b');
    hide IsSpace;
    TrimStartIs(" ", "b:/data");
  }

  lemma MountB(t: string)
    requires |t| >= 3 && t[0] == 'b' && t[1] == ':' && t[2] == '/'
    ensures MountOf(t) == Some("b") && Unquoted(t) == t
  {
    assert !IsNameChar(':') && IsNameChar('b');
    hide IsNameChar;
    assert NameRun(t[1..]) == 0 && NameRun(t) == 1;
    assert t[..1] == "b";
  }

  lemma SampleMounts()
    ensures var s := Lines();
            && MountName(s.mount.body) == Some("b") && MountName(s.volumes.body).None? && MountName(s.a.body).None?
            && MountName(s.name.body).None? && MountName(s.services.body).None?
  {
    var s := Lines();
    MountRead();
    assert s.volumes.body[0] == 'v' && s.a.body[0] == 'a' && s.name.body[0] == 'n' && s.services.body[0] == 's';
    assert s.mount.body == "- b:/data";
    hide MountName, Lines;
    NoDash(s.volumes.body);
    NoDash(s.a.body);
    NoDash(s.name.body);
    NoDash(s.services.body);
  }

  lemma NoDash(body: string)
    requires body != "" && body[0] != '-'
    ensures MountName(body).None?
  {
  }

  lemma BIsName()
    ensures VolumeNames(["b"]) && Lists(["b"], {"b"})
  {
    assert "b"[0] == 'b';
  }

  // ----- a mount that stays undeclared ---------------------------------------

  lemma ClosedScan()
    ensures var s := Lines();
            var ls := [s.volumes, s.a, s.name, s.mount];
            && HeaderAt(ls) == 0 && Declared(ls) == {"a"} && Used(ls) == {"b"} && !Open(ls)
  {
    hide Mk, IsVolumesHeader, IsBareKey, Closes, MountName, IsBlankOrComment;
    SampleHeaders();
    SampleKeys();
    SampleMounts();
    var s := Lines();
    hide Lines;
    var ls := [s.volumes, s.a, s.name, s.mount];
    assert ls[1..] == [s.a, s.name, s.mount] && [s.a, s.name, s.mount][1..] == [s.name, s.mount];
    assert KeysBelow([s.name, s.mount]) == {};
    assert KeysBelow([s.a, s.name, s.mount]) == {"a"};
    assert ls[3] == s.mount && ls[2] == s.name;
    assert Used(ls) == {"b"};
  }

  // A root line with a value below root `volumes:` ends the scan: the appended volume is not seen, and
  // the next run appends it again.
  lemma UndeclaredExample()
    ensures var s := Lines();
            var text := Text([s.volumes, s.a, s.name, s.mount]);
            var once := Ensured(text, ["b"]);
            && Lists(["b"], Used(Body(text))) && Lists(["b"], Used(Body(once))) && "b" !in Declared(Body(once))
            && Ensured(once, ["b"]) != once
  {
    hide Lines, Clean, Ensured, Declared, Used, Open, StartsAtRoot, Solid, Text, Body, Lists, VolumeNames;
    var s := Lines();
    var ls := [s.volumes, s.a, s.name, s.mount];
    SampleClean();
    SampleEnds();
    ClosedScan();
    BIsName();
    assert "b" !in {"a"} by { hide *; assert "b"[0] != "a"[0]; }
    TextReads(ls);
    StaysUndeclared(Text(ls), ["b"], "b");
  }

  lemma SampleEnds()
    ensures var s := Lines(); var ls := [s.volumes, s.a, s.name, s.mount]; StartsAtRoot(ls) && Solid(ls)
  {
    var s := Lines();
    assert s.volumes.body[0] == 'v' && s.mount.body[0] == '-' && s.volumes.lead == "";
  }

  lemma StaysUndeclared(text: string, used: seq<string>, b: string)
    requires Lists(used, Used(Body(text))) && used == [b] && !Open(Body(text)) && b !in Declared(Body(text))
    requires Used(Body(text)) == {b}
    ensures var once := Ensured(text, used);
            Lists(used, Used(Body(once))) && b !in Declared(Body(once)) && Ensured(once, used) != once
  {
    hide Ensured, Declared, Used, Open, Body;
    VolumesDeclaredExact(text, used);
    VolumesIdempotentExact(text, used, used);
  }

  // ----- entries in the wrong section ----------------------------------------

  // With `services:` below `volumes:` the appended entry stands under `services:`.
  lemma MisplacedExample()
    ensures var s := Lines();
            var ls := [s.volumes, s.a, s.services, s.web, s.mount];
            "b" !in Declared(ls) && Declared(ls) != {} && !UnderVolumes(ls + AddedLines(ls, ["b"]), |ls|)
  {
    hide Mk, IsVolumesHeader, IsBareKey, Closes, IsBlankOrComment;
    SampleHeaders();
    SampleKeys();
    var s := Lines();
    assert KeyName(s.services.body) == "services" && KeyName(s.web.body) == "web" by { hide *; MoreKeys(); }
    hide Lines;
    var ls := [s.volumes, s.a, s.services, s.web, s.mount];
    assert HeaderAt(ls) == 0 && ls[1..] == [s.a, s.services, s.web, s.mount];
    assert ls[1..][1..] == [s.services, s.web, s.mount] && ls[1..][1..][1..] == [s.web, s.mount] && [s.web, s.mount][1..] == [s.mount];
    assert [s.mount][1..] == [] && KeysBelow([s.mount]) == {};
    assert KeysBelow([s.web, s.mount]) == {"web"};
    assert KeysBelow([s.services, s.web, s.mount]) == {"services", "web"};
    assert Declared(ls) == {"a", "services", "web"};
    assert ls[2] == s.services && IsRootLine(ls[2]);
    assert !VolumesLast(ls);
    LandsExact(ls, ["b"]);
  }

  lemma MoreKeys()
    ensures KeyName(Lines().services.body) == "services" && KeyName(Lines().web.body) == "web"
  {
  }

  // A file that ends in an empty root `volumes:` gets a second one.
  lemma TwoHeadersExample()
    ensures var s := Lines();
            var ls := [s.services, s.mount, s.volumes];
            Used(ls) == {"b"} && !TwoHeaders(ls) && TwoHeaders(ls + AddedLines(ls, ["b"]))
  {
    hide Mk, IsVolumesHeader, MountName;
    SampleHeaders();
    SampleMounts();
    BIsName();
    var s := Lines();
    hide Lines;
    var ls := [s.services, s.mount, s.volumes];
    assert ls[1..] == [s.mount, s.volumes] && ls[1..][1..] == [s.volumes];
    assert HeaderAt([s.volumes]) == 0 && HeaderAt(ls[1..]) == 1 && HeaderAt(ls) == 2;
    assert ls[3..] == [] && Declared(ls) == {};
    assert ls[1] == s.mount && Used(ls) == {"b"};
    assert !TwoHeaders(ls);
    SecondHeaderExact(ls, ["b"]);
  }
}
