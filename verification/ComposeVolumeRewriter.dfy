// The volume pass as it runs, loop by loop.
module ComposeVolumeRewriter {
  import opened Wrappers
  import opened LineScan
  import opened ComposeText
  import opened ComposeVolumes

  // The order of `sort()` on strings.
  predicate Before(a: string, b: string) {
    b != "" && (a == "" || a[0] < b[0] || (a[0] == b[0] && Before(a[1..], b[1..])))
  }

  predicate Sorted(names: seq<string>) {
    forall i, j :: 0 <= i < j < |names| ==> Before(names[i], names[j])
  }

  lemma {:induction false} OneComesFirst(a: string, b: string)
    ensures a == b || Before(a, b) || Before(b, a)
    ensures !Before(a, a)
    decreases |a|
  {
    if a != "" && b != "" {
      OneComesFirst(a[1..], b[1..]);
      assert a == [a[0]] + a[1..] && b == [b[0]] + b[1..];
    } else if a != "" {
      OneComesFirst(a[1..], "");
    }
  }

  lemma {:induction false} BeforeTransitive(a: string, b: string, c: string)
    requires Before(a, b) && Before(b, c)
    ensures Before(a, c)
    decreases |a|
  {
    if a != "" && a[0] == b[0] && b[0] == c[0] {
      BeforeTransitive(a[1..], b[1..], c[1..]);
    }
  }

  method SortNames(names: set<string>) returns (r: seq<string>)
    ensures Lists(r, names) && Sorted(r)
  {
    hide Before;
    r := [];
    var rest := names;
    while rest != {}
      invariant rest <= names && Sorted(r)
      invariant forall n :: n in r <==> n in names - rest
      invariant forall i, n :: 0 <= i < |r| && n in rest ==> Before(r[i], n)
      decreases rest
    {
      var first := FirstName(rest);
      r := r + [first];
      rest := rest - {first};
    }
    forall i, j | 0 <= i < j < |r| ensures r[i] != r[j] {
      OneComesFirst(r[i], r[j]);
    }
  }

  method FirstName(names: set<string>) returns (first: string)
    requires names != {}
    ensures first in names && forall n :: n in names && n != first ==> Before(first, n)
  {
    hide Before;
    first :| first in names;
    var rest := names - {first};
    while rest != {}
      invariant first in names && rest <= names && first !in rest
      invariant forall n :: n in names - rest && n != first ==> Before(first, n)
      decreases rest
    {
      var n :| n in rest;
      ghost var was := first;
      OneComesFirst(first, n);
      if Before(n, first) {
        first := n;
        forall m | m in names - (rest - {n}) && m != n ensures Before(n, m) {
          if m != was {
            BeforeTransitive(n, was, m);
          }
        }
      }
      rest := rest - {n};
    }
  }

  method ExtractNamedVolumeMountsFromCompose(composeYaml: string) returns (used: seq<string>)
    ensures Lists(used, Used(LinesOf(composeYaml))) && Sorted(used)
  {
    hide MountName, SplitLines, Parse;
    var lines := LinesOf(composeYaml);
    var names: set<string> := {};
    for i := 0 to |lines|
      invariant names == Used(lines[..i])
    {
      assert lines[..i + 1] == lines[..i] + [lines[i]];
      UsedConcat(lines[..i], [lines[i]]);
      var m := MountName(lines[i].body);
      UsedOne(lines[i]);
      if m.None? {
        continue;
      }
      names := names + {m.value};
    }
    assert lines[..|lines|] == lines;
    used := SortNames(names);
  }

  lemma UsedOne(l: Line)
    ensures Used([l]) == if MountName(l.body).None? then {} else {MountName(l.body).value}
  {
    hide MountName;
    assert [l][0] == l;
  }

  method ExtractDeclaredTopLevelVolumes(composeYaml: string) returns (declared: set<string>)
    ensures declared == Declared(LinesOf(composeYaml))
  {
    hide IsVolumesHeader, KeysBelow, SplitLines, Parse, HeaderAt;
    var lines := LinesOf(composeYaml);
    for i := 0 to |lines|
      invariant i <= HeaderAt(lines)
    {
      if !IsVolumesHeader(lines[i]) {
        continue;
      }
      declared := KeysFrom(lines, i + 1);
      return;
    }
    return {};
  }

  // The scan below the header.
  method KeysFrom(lines: seq<Line>, from: nat) returns (declared: set<string>)
    requires from <= |lines|
    ensures declared == KeysBelow(lines[from..])
  {
    declared := {};
    var j := from;
    while j < |lines|
      invariant from <= j <= |lines|
      invariant KeysBelow(lines[from..]) == declared + KeysBelow(lines[j..])
    {
      hide KeysBelow, IsBlankOrComment, IsBareKey;
      var l := lines[j];
      assert lines[j..] == [l] + lines[j + 1..];
      KeysCons(l, lines[j + 1..]);
      if IsBlankOrComment(l) {
        j := j + 1;
        continue;
      }
      if l.lead == "" && !IsBareKey(l) {
        return;
      }
      if IsBareKey(l) {
        declared := declared + {KeyName(l.body)};
      }
      j := j + 1;
    }
  }

  lemma KeysCons(l: Line, rest: seq<Line>)
    ensures KeysBelow([l] + rest) ==
            if Closes(l) then {} else (if !IsBlankOrComment(l) && IsBareKey(l) then {KeyName(l.body)} else {}) + KeysBelow(rest)
  {
    assert ([l] + rest)[1..] == rest;
  }

  // The sorted list of mounts in use.
  ghost predicate IsUsedList(names: seq<string>, text: string) {
    Lists(names, Used(Body(text))) && Sorted(names)
  }

  method EnsureComposeNamedVolumesDeclared(composeYaml: string) returns (out: string)
    ensures exists used :: IsUsedList(used, composeYaml) && out == Ensured(composeYaml, used)
  {
    hide Used, Declared, SplitLines, Parse, TrimStart, TrimEnd, KeyText, DriverText, HeaderText, Sorted, Lists;
    var raw := Trim(composeYaml);
    var names := ExtractNamedVolumeMountsFromCompose(raw);
    assert IsUsedList(names, composeYaml);
    if raw == "" {
      return raw;
    }
    if |names| == 0 {
      return composeYaml;
    }
    var declared := ExtractDeclaredTopLevelVolumes(raw);
    var missing := Missing(names, declared);
    if |missing| == 0 {
      return composeYaml;
    }
    var blocks: seq<string> := [];
    for k := 0 to |missing|
      invariant blocks == BlockLines(missing[..k])
    {
      assert missing[..k + 1] == missing[..k] + [missing[k]];
      BlockSnoc(missing[..k], missing[k]);
      blocks := blocks + [KeyText(missing[k]), DriverText()];
    }
    assert missing[..|missing|] == missing;
    BlocksThere(missing);
    if declared != {} {
      NothingBefore(blocks);
      return TrimEnd(composeYaml) + "\n" + Join(blocks) + "\n";
    }
    HeaderJoin(blocks);
    TwoBreaks(TrimEnd(composeYaml), Join(blocks));
    return TrimEnd(composeYaml) + "\n\nvolumes:\n" + Join(blocks) + "\n";
  }

  lemma BlocksThere(names: seq<string>)
    requires names != []
    ensures BlockLines(names) != []
  {
  }

  lemma {:induction false} BlockSnoc(names: seq<string>, name: string)
    ensures BlockLines(names + [name]) == BlockLines(names) + [KeyText(name), DriverText()]
    decreases |names|
  {
    hide KeyText, DriverText;
    if names == [] {
      assert names + [name] == [name];
      assert BlockLines([name][1..]) == [];
    } else {
      assert (names + [name])[1..] == names[1..] + [name];
      BlockSnoc(names[1..], name);
    }
  }

  lemma HeaderJoin(blocks: seq<string>)
    requires blocks != []
    ensures Join(HeaderText() + blocks) == "" + "\n" + ("volumes:" + "\n" + Join(blocks))
  {
    var all := ["", "volumes:"] + blocks;
    assert all[1..] == ["volumes:"] + blocks;
    assert all[1..][1..] == blocks;
  }

  lemma TwoBreaks(a: string, j: string)
    ensures a + "\n\nvolumes:\n" + j + "\n" == a + "\n" + ("" + "\n" + ("volumes:" + "\n" + j)) + "\n"
  {
  }
}
