/** Concrete runs: the run of tests/tests.cpp, facts about registrations
    of example/example.cpp, and three small inputs, one per rule of the scan. */
module Scenarios {
  import opened Options
  import opened Registration
  import opened Dispatch
  import opened Help
  import opened Internal

  /** Three value options `-i`, `-f`, `-s` and the input
      `-i 10 -f 1.5 -s abc`: each option is matched once and holds the
      conversion of the token after it; nothing is positional and there is
      no error. */
  lemma OptionTypes<V>(convert: string -> V)
    ensures var reg := Registry(map['i' := 0, 'f' := 1, 's' := 2], map[]);
      var descs: seq<Descriptor<V>> := [NewDescriptor(["-i"], true), NewDescriptor(["-f"], true), NewDescriptor(["-s"], true)];
      var tokens := ["-i", "10", "-f", "1.5", "-s", "abc"];
      var r := Run(reg, convert, ScanState(descs, [], []), tokens, 0, true);
      && |r.descs| == 3
      && r.descs[0].value == Some(convert("10")) && r.descs[0].count == 1
      && r.descs[1].value == Some(convert("1.5")) && r.descs[1].count == 1
      && r.descs[2].value == Some(convert("abc")) && r.descs[2].count == 1
      && r.args == [] && r.errors == []
  {
    var reg := Registry(map['i' := 0, 'f' := 1, 's' := 2], map[]);
    var descs: seq<Descriptor<V>> := [NewDescriptor(["-i"], true), NewDescriptor(["-f"], true), NewDescriptor(["-s"], true)];
    var tokens := ["-i", "10", "-f", "1.5", "-s", "abc"];
    var st0 := ScanState(descs, [], []);
    var s1 := Step(reg, convert, st0, tokens, 0, true);
    assert s1.next == 2;
    var s2 := Step(reg, convert, s1.state, tokens, 2, true);
    assert s2.next == 4;
    var s3 := Step(reg, convert, s2.state, tokens, 4, true);
    assert s3.next == 6;
  }

  /** Flags `-a`, `-b`, `-c` and the bundled token `-abc`: each count rises to one. */
  lemma BundledFlags<V>(convert: string -> V)
    ensures var reg := Registry(map['a' := 0, 'b' := 1, 'c' := 2], map[]);
      var descs: seq<Descriptor<V>> := [NewDescriptor(["-a"], false), NewDescriptor(["-b"], false), NewDescriptor(["-c"], false)];
      var r := Run(reg, convert, ScanState(descs, [], []), ["-abc"], 0, true);
      && |r.descs| == 3 && r.descs[0].count == 1 && r.descs[1].count == 1 && r.descs[2].count == 1
      && r.args == [] && r.errors == []
  {
    var reg := Registry(map['a' := 0, 'b' := 1, 'c' := 2], map[]);
    var descs: seq<Descriptor<V>> := [NewDescriptor(["-a"], false), NewDescriptor(["-b"], false), NewDescriptor(["-c"], false)];
    var st0 := ScanState(descs, [], []);
    var c1 := ShortCluster(reg, convert, st0, ["-abc"], 0, 1);
    var c2 := ShortCluster(reg, convert, st0.(descs := st0.descs[0 := Counted(st0.descs[0])]), ["-abc"], 0, 2);
    assert c1 == c2;
  }

  /** After `--`, a registered flag `-x` is not matched but stored. */
  lemma DoubleDashStopsFlags<V>(convert: string -> V)
    ensures var reg := Registry(map['x' := 0], map[]);
      var descs: seq<Descriptor<V>> := [NewDescriptor(["-x"], false)];
      var r := Run(reg, convert, ScanState(descs, [], []), ["--", "-x"], 0, true);
      r.descs == descs && r.args == ["-x"] && r.errors == []
  {
    var reg := Registry(map['x' := 0], map[]);
    var descs: seq<Descriptor<V>> := [NewDescriptor(["-x"], false)];
    RunAfterDoubleDash(reg, convert, ScanState(descs, [], []), ["--", "-x"], 0);
    assert ["--", "-x"][1..] == ["-x"];
  }

  /** An unknown long option is reported and the scan goes on: `-i` still
      receives its value. */
  lemma UnknownDoesNotAbort<V>(convert: string -> V)
    ensures var reg := Registry(map['i' := 0], map[]);
      var descs: seq<Descriptor<V>> := [NewDescriptor(["-i"], true)];
      var r := Run(reg, convert, ScanState(descs, [], []), ["--bogus", "-i", "5"], 0, true);
      && |r.descs| == 1 && r.descs[0].value == Some(convert("5"))
      && r.errors == [UnknownLong("--bogus")]
  {
    var reg := Registry(map['i' := 0], map[]);
    var descs: seq<Descriptor<V>> := [NewDescriptor(["-i"], true)];
    var tokens := ["--bogus", "-i", "5"];
    var st0 := ScanState(descs, [], []);
    assert FindChar("--bogus", '=') == 7;
    assert "--bogus"[..7] == "--bogus";
    var s1 := Step(reg, convert, st0, tokens, 0, true);
    assert s1.next == 1 && s1.state.errors == [UnknownLong("--bogus")];
    var s2 := Step(reg, convert, s1.state, tokens, 1, true);
    assert s2.next == 3;
  }

  /** Registering `-h`/`--help` binds both aliases to the one descriptor and
      adds it to the option list once per alias. */
  lemma HelpFlagRegistration()
    ensures var r := Bind(Registry(map[], map[]), [], 0, ["-h", "--help"]);
      && r.invalid.None? && r.list == [0, 0]
      && r.reg == Registry(map['h' := 0], map["--help" := 0])
  {
    var names := ["-h", "--help"];
    assert IsShortAlias(names[0]) && !IsLongAlias(names[0]);
    assert names[1..] == ["--help"] && ["--help"][1..] == [];
    assert IsLongAlias("--help") && !IsShortAlias("--help");
    var reg1 := Registry(map['h' := 0], map[]);
    assert Bind(Registry(map[], map[]), [], 0, names) == Bind(reg1, [0], 0, ["--help"]);
    assert Bind(reg1, [0], 0, ["--help"]) == Bind(reg1.(long := map["--help" := 0]), [0, 0], 0, []);
  }

  /** The usage item of the optional flag `-h`/`--help`. */
  lemma HelpFlagItem<V>()
    ensures UsageItem<V>(NewDescriptor(["-h", "--help"], false)) == "[" + "-h" + "|" + "--help" + "]"
  {
    assert ["-h", "--help"][..1] == ["-h"];
    assert Joined(["-h", "--help"], "|") == "-h" + "|" + "--help";
  }

  /** `-h`/`--help` occupies two option-list entries (`HelpFlagRegistration`),
      so the usage line shows its item twice. */
  lemma HelpListsEveryAlias<V>()
    ensures UsageItems<V>([NewDescriptor(["-h", "--help"], false)], [0, 0]) == " [-h|--help] [-h|--help]"
  {
    var descs: seq<Descriptor<V>> := [NewDescriptor(["-h", "--help"], false)];
    HelpFlagItem<V>();
    var list := [0, 0];
    var item := UsageItem(descs[0]);
    assert ListBound(list, |descs|);
    UsageItemsStep(descs, list, 0);
    UsageItemsStep(descs, list, 1);
    assert list[..0] == [] && list[..2] == list;
    assert UsageItems(descs, list) == "" + " " + item + " " + item;
  }

  /** A required option with two aliases that is never given yields one
      "required" error per alias. */
  lemma RequiredPerAlias<V>()
    ensures var d: Descriptor<V> := NewDescriptor(["-m", "--message"], true).(required := true);
      RequiredErrors([d], [0, 0]) == [MissingRequired(["-m", "--message"]), MissingRequired(["-m", "--message"])]
  {
    var d: Descriptor<V> := NewDescriptor(["-m", "--message"], true).(required := true);
    assert [0, 0][..1] == [0];
    assert [0][..0] == [];
    assert Missing(d);
    assert RequiredErrors([d], [0]) == [MissingRequired(["-m", "--message"])];
  }
}
