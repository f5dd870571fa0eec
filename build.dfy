/** The build script's own logic (build.go): command-line parsing, the
    build-settings file it writes and reads back, and the decision whether
    a target is out of date. Files, processes and the clock are left to
    the caller: file contents, the UTF-8 check and modification times are
    parameters. */
module Build {
  import opened Wrappers
  import opened GoStrings
  import opened Seqs

  // ---------------------------------------------------------------
  // Command line
  // ---------------------------------------------------------------

  const Helps: seq<string> := ["help", "-help", "--help", "h", "-h", "--h"]

  predicate ValidTarget(t: string)
  {
    t == "desktop" || t == "web" || t == "itch" || t == "all"
  }

  datatype BuildArgs = BuildArgs(target: string, isRelease: bool)

  /** The argument handling at the top of main. A failure carries the
      process exit status. */
  method ParseArgs(args: seq<string>) returns (r: Result<BuildArgs, int>)
    ensures |args| > 0 && args[0] in Helps ==> r == Failure(1)
    ensures |args| == 0 ==> r == Success(BuildArgs("desktop", false))
    ensures |args| == 1 && args[0] !in Helps ==>
      r == if args[0] == "release" then Success(BuildArgs("desktop", true))
           else if ValidTarget(args[0]) then Success(BuildArgs(args[0], false))
           else Failure(1)
    ensures |args| == 2 && args[0] !in Helps ==>
      r == if args[0] == "release" && ValidTarget(args[1]) then Success(BuildArgs(args[1], true)) else Failure(1)
    ensures |args| > 2 ==> r == Failure(1)
    ensures r.Success? ==> ValidTarget(r.value.target)
    ensures r.Failure? ==> r.error == 1
  {
    if |args| > 0 && args[0] in Helps {
      return Failure(1);
    }
    var buildTarget := "desktop";
    var isRelease := false;
    if |args| == 1 {
      if args[0] == "release" {
        isRelease := true;
      } else {
        buildTarget := args[0];
      }
    } else if |args| == 2 {
      if args[0] != "release" {
        return Failure(1);
      } else {
        isRelease := true;
      }
      buildTarget := args[1];
    } else if |args| > 2 {
      return Failure(1);
    }
    if !ValidTarget(buildTarget) {
      return Failure(1);
    }
    return Success(BuildArgs(buildTarget, isRelease));
  }

  // ---------------------------------------------------------------
  // The settings
  // ---------------------------------------------------------------

  const SettingsList: seq<string> :=
    ["always-draw", "screenshot", "pprof", "dev", "opt", "no-debug", "wasm-opt", "tsc", "no-vcs"]

  const DefaultSettings: map<string, bool> := map[
    "always-draw" := false, "screenshot" := false, "pprof" := false, "dev" := false, "opt" := true,
    "no-debug" := false, "wasm-opt" := false, "tsc" := false, "no-vcs" := false]

  const SettingsComments: map<string, string> := map[
    "always-draw" := "Always redraw frames. " + "Even if you are not doing anything.",
    "screenshot" := "Enable screenshot.",
    "pprof" := "Enable pporf debugging.",
    "dev" := "Enable dev related " + "features like debugging.",
    "opt" := "Optimize and inline.",
    "no-debug" := "Don't include " + "debugging informations.",
    "wasm-opt" := "Optimize wasm (requires " + "wasm-opt from https://" + "github.com/WebAssembly/" + "binaryen).",
    "tsc" := "Build typescript module.",
    "no-vcs" := "Stop Go compiler from " + "stamp binary with version " + "control information."]

  const ReleaseSettings: map<string, bool> := map[
    "always-draw" := false, "screenshot" := false, "pprof" := false, "dev" := false, "opt" := true,
    "no-debug" := true, "wasm-opt" := true, "tsc" := true, "no-vcs" := false]

  /** The check at the end of init passes: the release settings name
      exactly the known settings, which are exactly the listed ones. */
  lemma {:induction false} SettingsConsistent()
    ensures ReleaseSettings.Keys == DefaultSettings.Keys
    ensures forall k :: k in DefaultSettings <==> k in SettingsList
    ensures forall k :: k in SettingsList ==> k in SettingsComments
  {
  }

  /** The value Go reads for `name` from a map: false when absent. */
  function ValueOf(settings: map<string, bool>, name: string): bool
  {
    if name in settings then settings[name] else false
  }

  /** SetMissingSettingsToDefault over the names `names`: each name the
      map lacks gets its default, in order. */
  function FillDefaults(settings: map<string, bool>, names: seq<string>): map<string, bool>
    decreases |names|
  {
    if names == [] then settings
    else
      var s := if names[0] in settings then settings else settings[names[0] := ValueOf(DefaultSettings, names[0])];
      FillDefaults(s, names[1..])
  }

  /** Filling adds exactly the missing names, with their defaults, and
      never changes a value that is present. */
  lemma {:induction false} FillDefaultsMeaning(settings: map<string, bool>, names: seq<string>)
    ensures var r := FillDefaults(settings, names);
      && (forall k :: k in r <==> k in settings || k in names)
      && (forall k :: k in settings ==> r[k] == settings[k])
      && (forall k :: k in names && k !in settings ==> r[k] == ValueOf(DefaultSettings, k))
    decreases |names|
  {
    if names != [] {
      var s := if names[0] in settings then settings else settings[names[0] := ValueOf(DefaultSettings, names[0])];
      FillDefaultsMeaning(s, names[1..]);
      forall k | k in names
        ensures k == names[0] || k in names[1..]
      {
        var j :| 0 <= j < |names| && names[j] == k;
        if j > 0 {
          assert names[1..][j - 1] == k;
        }
      }
    }
  }

  /** The loop of SetMissingSettingsToDefault over a list of names. */
  method FillMissing(settings: map<string, bool>, names: seq<string>) returns (r: map<string, bool>)
    ensures r == FillDefaults(settings, names)
  {
    r := settings;
    var i := 0;
    while i < |names|
      invariant 0 <= i <= |names|
      invariant FillDefaults(r, names[i..]) == FillDefaults(settings, names)
    {
      var name := names[i];
      assert names[i..][1..] == names[i + 1..];
      if name !in r {
        r := r[name := ValueOf(DefaultSettings, name)];
      }
      i := i + 1;
    }
  }

  /** SetMissingSettingsToDefault. Go's map is updated in place; here the
      updated map is returned. */
  method SetMissingSettingsToDefault(settings: map<string, bool>) returns (r: map<string, bool>)
    ensures r == FillDefaults(settings, SettingsList)
    ensures forall k :: k in r <==> k in settings || k in SettingsList
    ensures forall k :: k in settings ==> r[k] == settings[k]
    ensures forall k :: k in SettingsList && k !in settings ==> r[k] == DefaultSettings[k]
  {
    r := FillMissing(settings, SettingsList);
    FillDefaultsMeaning(settings, SettingsList);
    SettingsConsistent();
  }

  /** CopySettings: a copy of the map, then the missing defaults. */
  method CopySettings(settings: map<string, bool>) returns (r: map<string, bool>)
    ensures r == FillDefaults(settings, SettingsList)
  {
    var copy: map<string, bool> := map[];
    var keys := settings.Keys;
    while keys != {}
      invariant keys <= settings.Keys
      invariant forall k :: k in copy <==> k in settings && k !in keys
      invariant forall k :: k in copy ==> copy[k] == settings[k]
      decreases keys
    {
      var k :| k in keys;
      copy := copy[k := settings[k]];
      keys := keys - {k};
    }
    assert copy == settings;
    r := SetMissingSettingsToDefault(copy);
  }

  // ---------------------------------------------------------------
  // The settings file
  // ---------------------------------------------------------------

  function ValueString(v: bool): string
  {
    if v then "true" else "false"
  }

  const HeaderLines: seq<string> := [
    "// settings file for building", "// lines starting with // are comments", "//",
    "// comment/uncomment these settings", "", ""]

  function Comment(name: string): string
  {
    if name in SettingsComments then SettingsComments[name] else ""
  }

  /** The three lines SaveSettings writes for one setting: its comment,
      its name and value, and a blank line. */
  function EntryLines(name: string, settings: map<string, bool>): seq<string>
  {
    ["// " + Comment(name), name + " " + ValueString(ValueOf(settings, name)), ""]
  }

  function EntriesLines(names: seq<string>, settings: map<string, bool>): seq<string>
  {
    if names == [] then [] else EntryLines(names[0], settings) + EntriesLines(names[1..], settings)
  }

  lemma {:induction false} EntriesLinesSnoc(names: seq<string>, name: string, settings: map<string, bool>)
    ensures EntriesLines(names + [name], settings) == EntriesLines(names, settings) + EntryLines(name, settings)
  {
    if names != [] {
      EntriesLinesSnoc(names[1..], name, settings);
      assert (names + [name])[1..] == names[1..] + [name];
    } else {
      assert [name][1..] == [];
    }
  }

  /** The text SaveSettings writes: the header, then each listed setting,
      every line ending in a newline. */
  function SavedText(settings: map<string, bool>): string
  {
    Terminated(HeaderLines + EntriesLines(SettingsList, settings), '\n')
  }

  lemma {:induction false} TerminatedAppend(a: seq<string>, b: seq<string>, c: char)
    ensures Terminated(a + b, c) == Terminated(a, c) + Terminated(b, c)
  {
    if a != [] {
      TerminatedAppend(a[1..], b, c);
      assert (a + b)[1..] == a[1..] + b;
    } else {
      assert a + b == b;
    }
  }

  /** SaveSettings, returning the text it writes to the settings file. */
  method SaveSettings(settings: map<string, bool>) returns (text: string)
    ensures text == SavedText(settings)
  {
    var sb := "// settings file for building\n";
    sb := sb + "// lines starting with // are comments\n";
    sb := sb + "//\n";
    sb := sb + "// comment/uncomment these settings\n";
    sb := sb + "\n";
    sb := sb + "\n";
    HeaderText();
    text := WriteEntries(sb, HeaderLines, SettingsList, settings);
  }

  /** The loop of SaveSettings over the listed names: each setting's
      comment line, its name and value, and a blank line. */
  method WriteEntries(sb0: string, ghost prefix: seq<string>, names: seq<string>, settings: map<string, bool>)
    returns (sb: string)
    requires sb0 == Terminated(prefix, '\n')
    ensures sb == Terminated(prefix + EntriesLines(names, settings), '\n')
  {
    sb := sb0;
    var i := 0;
    assert names[..0] == [] && prefix + [] == prefix;
    while i < |names|
      invariant 0 <= i <= |names|
      invariant sb == Terminated(prefix + EntriesLines(names[..i], settings), '\n')
    {
      var settingName := names[i];
      var comment := Comment(settingName);
      var value := ValueOf(settings, settingName);
      var entry := "// " + comment + "\n" + settingName + " " + ValueString(value) + "\n" + "\n";
      WriteStep(prefix, names[..i], settingName, settings, sb, entry);
      sb := sb + entry;
      assert names[..i + 1] == names[..i] + [settingName];
      i := i + 1;
    }
    assert names[..i] == names;
  }

  /** One step of SaveSettings' loop: appending three more lines. */
  lemma {:induction false} AppendThree(prefix: seq<string>, e: seq<string>, sb: string)
    requires |e| == 3 && sb == Terminated(prefix, '\n')
    ensures sb + (e[0] + "\n" + e[1] + "\n" + e[2] + "\n") == Terminated(prefix + e, '\n')
  {
    TerminatedAppend(prefix, e, '\n');
    TerminatedThree(e[0], e[1], e[2], '\n');
    assert e == [e[0], e[1], e[2]];
  }

  /** Appending one setting's text extends the written lines by its
      three lines. */
  lemma {:induction false} WriteStep(prefix: seq<string>, done: seq<string>, name: string, settings: map<string, bool>, sb: string, entry: string)
    requires sb == Terminated(prefix + EntriesLines(done, settings), '\n')
    requires entry == "// " + Comment(name) + "\n" + name + " " + ValueString(ValueOf(settings, name)) + "\n" + "\n"
    ensures sb + entry == Terminated(prefix + EntriesLines(done + [name], settings), '\n')
  {
    var e := EntryLines(name, settings);
    var d := EntriesLines(done, settings);
    EntryText(name, settings, entry, e);
    AppendThree(prefix + d, e, sb);
    EntriesLinesSnoc(done, name, settings);
    assert prefix + (d + e) == (prefix + d) + e;
  }

  /** The text one step of SaveSettings' loop appends is its three lines,
      each ended by a newline. */
  lemma {:induction false} EntryText(name: string, settings: map<string, bool>, entry: string, e: seq<string>)
    requires entry == "// " + Comment(name) + "\n" + name + " " + ValueString(ValueOf(settings, name)) + "\n" + "\n"
    requires e == EntryLines(name, settings)
    ensures |e| == 3 && entry == e[0] + "\n" + e[1] + "\n" + e[2] + "\n"
  {
    var c := "// " + Comment(name);
    var v := name + " " + ValueString(ValueOf(settings, name));
    assert e == [c, v, ""];
    assert c + "\n" + name + " " == c + "\n" + (name + " ");
    assert c + "\n" + v == c + "\n" + name + " " + ValueString(ValueOf(settings, name));
    assert e[2] + "\n" == "" + "\n" == "\n";
  }

  lemma {:induction false} TerminatedThree(a: string, b: string, c: string, nl: char)
    ensures Terminated([a, b, c], nl) == a + [nl] + b + [nl] + c + [nl]
  {
    assert [a, b, c][1..] == [b, c];
    assert [b, c][1..] == [c];
    assert [c][1..] == [];
    assert Terminated([c], nl) == c + [nl];
    assert Terminated([b, c], nl) == b + [nl] + (c + [nl]);
  }

  /** The six header lines SaveSettings writes first. */
  lemma {:induction false} HeaderText()
    ensures Terminated(HeaderLines, '\n') ==
      "// settings file for building\n" + "// lines starting with // are comments\n" + "//\n"
      + "// comment/uncomment these settings\n" + "\n" + "\n"
  {
    var h := HeaderLines;
    assert h[1..] == h[1..][..5];
    assert h[1..][1..][1..][1..][1..][1..] == [];
  }

  // ---------------------------------------------------------------
  // Reading the settings file
  // ---------------------------------------------------------------

  /** The effect of one line of the settings file: blank lines, comment
      lines, lines without exactly two fields, unknown names and values
      other than true or false are skipped (with a warning); any other
      line sets its setting. */
  function ParseLine(line: string): (r: Option<(string, bool)>)
    ensures r.Some? ==> r.value.0 in DefaultSettings && r.value.0 != [] && NoSpace(r.value.0)
  {
    var trimmed := TrimSpace(line);
    if |trimmed| <= 0 || HasPrefix(trimmed, "//") then None
    else
      var fields := Fields(line);
      if |fields| != 2 || fields[0] !in DefaultSettings then None
      else if fields[1] == "true" then Some((fields[0], true))
      else if fields[1] == "false" then Some((fields[0], false))
      else None
  }

  /** Each line's effect, in order. */
  function ParseLines(lines: seq<string>): (r: seq<Option<(string, bool)>>)
    ensures |r| == |lines|
  {
    MapSeq(ParseLine, lines)
  }

  /** The effects applied to `settings` in order. */
  function ApplyUpdates(settings: map<string, bool>, updates: seq<Option<(string, bool)>>): map<string, bool>
    decreases |updates|
  {
    if updates == [] then settings
    else
      var s := match updates[0]
        case None => settings
        case Some((name, value)) => settings[name := value];
      ApplyUpdates(s, updates[1..])
  }

  /** What LoadSettings returns for a file that passed the UTF-8 check. */
  function LoadedSettings(file: string): map<string, bool>
  {
    var lines := Split(NormalizeNewlines(file), '\n');
    FillDefaults(ApplyUpdates(FillDefaults(DefaultSettings, SettingsList), ParseLines(lines)), SettingsList)
  }

  /** LoadSettings on the bytes of the file. Reading the file is left to
      the caller, and `utf8Valid` is the outcome of utf8.Valid on them;
      invalid input is an error. */
  method LoadSettings(file: string, utf8Valid: bool) returns (r: Result<map<string, bool>, string>)
    ensures !utf8Valid ==> r == Failure("not a valid utf8 file")
    ensures utf8Valid ==> r == Success(LoadedSettings(file))
  {
    if !utf8Valid {
      return Failure("not a valid utf8 file");
    }
    var text := NormalizeNewlines(file);
    var lines := Split(text, '\n');
    var settings := CopySettings(DefaultSettings);
    settings := ApplyLines(settings, lines);
    settings := SetMissingSettingsToDefault(settings);
    return Success(settings);
  }

  /** The per-line loop of LoadSettings. */
  method ApplyLines(start: map<string, bool>, lines: seq<string>) returns (settings: map<string, bool>)
    ensures settings == ApplyUpdates(start, ParseLines(lines))
  {
    settings := start;
    ghost var updates := ParseLines(lines);
    var i := 0;
    while i < |lines|
      invariant 0 <= i <= |lines|
      invariant ApplyUpdates(settings, updates[i..]) == ApplyUpdates(start, updates)
    {
      assert updates[i..][1..] == updates[i + 1..];
      assert updates[i] == ParseLine(lines[i]);
      var update := ParseLine(lines[i]);
      if update.Some? {
        settings := settings[update.value.0 := update.value.1];
      }
      i := i + 1;
    }
  }

  // ---------------------------------------------------------------
  // Properties of the reader
  // ---------------------------------------------------------------

  lemma {:induction false} ApplyUpdatesAppend(s: map<string, bool>, a: seq<Option<(string, bool)>>, b: seq<Option<(string, bool)>>)
    ensures ApplyUpdates(s, a + b) == ApplyUpdates(ApplyUpdates(s, a), b)
    decreases |a|
  {
    if a != [] {
      assert (a + b)[1..] == a[1..] + b;
      var s' := match a[0]
        case None => s
        case Some((name, value)) => s[name := value];
      ApplyUpdatesAppend(s', a[1..], b);
    } else {
      assert a + b == b;
    }
  }

  /** Skipped lines change nothing. */
  lemma {:induction false} ApplySkipped(s: map<string, bool>, updates: seq<Option<(string, bool)>>)
    requires forall k :: 0 <= k < |updates| ==> updates[k].None?
    ensures ApplyUpdates(s, updates) == s
  {
    if updates != [] {
      ApplySkipped(s, updates[1..]);
    }
  }

  /** Lines that do not set `name` leave it as it is. */
  lemma {:induction false} KeepsUnsetName(s: map<string, bool>, updates: seq<Option<(string, bool)>>, name: string)
    requires name in s
    requires forall j :: 0 <= j < |updates| ==> updates[j].None? || updates[j].value.0 != name
    ensures name in ApplyUpdates(s, updates) && ApplyUpdates(s, updates)[name] == s[name]
    decreases |updates|
  {
    if updates != [] {
      var s' := match updates[0]
        case None => s
        case Some((n, v)) => s[n := v];
      KeepsUnsetName(s', updates[1..], name);
    }
  }

  /** A later line overrides an earlier one: after a line that sets
      `name`, only a later line that sets `name` changes it again. */
  lemma {:induction false} LastLineWins(s: map<string, bool>, lines: seq<string>, i: int, name: string, value: bool)
    requires 0 <= i < |lines| && ParseLine(lines[i]) == Some((name, value))
    requires forall j :: i < j < |lines| ==> ParseLine(lines[j]).None? || ParseLine(lines[j]).value.0 != name
    ensures name in ApplyUpdates(s, ParseLines(lines)) && ApplyUpdates(s, ParseLines(lines))[name] == value
  {
    var u := ParseLines(lines);
    assert u == u[..i] + u[i..];
    ApplyUpdatesAppend(s, u[..i], u[i..]);
    var t := ApplyUpdates(s, u[..i])[name := value];
    assert u[i..][1..] == u[i + 1..];
    KeepsUnsetName(t, u[i + 1..], name);
  }

  /** A line that starts with two slashes is a comment. */
  lemma {:induction false} CommentSkipped(line: string)
    requires |line| >= 2 && line[0] == '/' && line[1] == '/'
    ensures ParseLine(line) == None
  {
    TrimSpaceKeepsLead(line);
    var r := TrimSpace(line);
    assert 1 < |r|;
    assert r[..2] == line[..2];
  }

  /** A blank line is skipped. */
  lemma {:induction false} BlankSkipped()
    ensures ParseLine([]) == None
  {
    assert TrimLeftSpace([]) == [];
  }

  /** A setting's line parses to its name and value. */
  lemma {:induction false} SettingLineParses(name: string, value: bool)
    requires name in DefaultSettings && name != [] && NoSpace(name) && name[0] != '/'
    ensures ParseLine(name + " " + ValueString(value)) == Some((name, value))
  {
    var line := name + " " + ValueString(value);
    assert NoSpace(ValueString(value));
    FieldsOfPair(name, ValueString(value));
    assert line[0] == name[0];
    TrimSpaceKeepsLead(line);
    var r := TrimSpace(line);
    assert 0 < |r| && r[0] == name[0];
    assert !HasPrefix(r, "//");
  }

  /** Text without a line break. */
  predicate OneLine(s: string)
  {
    forall i :: 0 <= i < |s| ==> s[i] != '\n' && s[i] != '\r'
  }

  lemma {:induction false} OneLineAppend(a: string, b: string)
    requires OneLine(a) && OneLine(b)
    ensures OneLine(a + b)
  {
    assert forall i :: |a| <= i < |a + b| ==> (a + b)[i] == b[i - |a|];
  }

  /** What the round trip needs of a setting's name and comment. */
  predicate WellFormedName(name: string)
  {
    && name in DefaultSettings && name != [] && NoSpace(name) && name[0] != '/'
    && OneLine(name) && OneLine(Comment(name))
  }

  /** No setting's comment breaks its line. */
  lemma {:induction false} CommentsOneLine()
    ensures forall k :: k in SettingsComments ==> OneLine(SettingsComments[k])
  {
    LongCommentsOneLine1();
    LongCommentsOneLine2();
    LongCommentsOneLine3();
    assert OneLine("Enable screenshot.");
    assert OneLine("Enable pporf debugging.");
    assert OneLine("Optimize and inline.");
    assert OneLine("Build typescript module.");
  }

  lemma {:induction false} LongCommentsOneLine1()
    ensures OneLine("Always redraw frames. " + "Even if you are not doing anything.")
    ensures OneLine("Enable dev related " + "features like debugging.")
    ensures OneLine("Don't include " + "debugging informations.")
  {
    OneLineAppend("Always redraw frames. ", "Even if you are not doing anything.");
    OneLineAppend("Enable dev related ", "features like debugging.");
    OneLineAppend("Don't include ", "debugging informations.");
  }

  lemma {:induction false} LongCommentsOneLine2()
    ensures OneLine("Optimize wasm (requires " + "wasm-opt from https://" + "github.com/WebAssembly/" + "binaryen).")
  {
    OneLineAppend("Optimize wasm (requires ", "wasm-opt from https://");
    OneLineAppend("Optimize wasm (requires " + "wasm-opt from https://", "github.com/WebAssembly/");
    OneLineAppend("Optimize wasm (requires " + "wasm-opt from https://" + "github.com/WebAssembly/", "binaryen).");
  }

  lemma {:induction false} LongCommentsOneLine3()
    ensures OneLine("Stop Go compiler from " + "stamp binary with version " + "control information.")
  {
    OneLineAppend("Stop Go compiler from ", "stamp binary with version ");
    OneLineAppend("Stop Go compiler from " + "stamp binary with version ", "control information.");
  }

  lemma {:induction false} SettingsWellFormed()
    ensures forall k :: 0 <= k < |SettingsList| ==> WellFormedName(SettingsList[k])
  {
    CommentsOneLine();
    forall k | 0 <= k < |SettingsList|
      ensures WellFormedName(SettingsList[k])
    {
      if k == 0 { NameWellFormed0(); }
      else if k == 1 { NameWellFormed1(); }
      else if k == 2 { NameWellFormed2(); }
      else if k == 3 { NameWellFormed3(); }
      else if k == 4 { NameWellFormed4(); }
      else if k == 5 { NameWellFormed5(); }
      else if k == 6 { NameWellFormed6(); }
      else if k == 7 { NameWellFormed7(); }
      else { NameWellFormed8(); }
    }
  }

  // One lemma per listed setting keeps each proof about the map
  // literals small.

  lemma {:induction false} NameWellFormed0()
    requires forall k :: k in SettingsComments ==> OneLine(SettingsComments[k])
    ensures WellFormedName(SettingsList[0])
  {
    assert SettingsList[0] == "always-draw";
  }

  lemma {:induction false} NameWellFormed1()
    requires forall k :: k in SettingsComments ==> OneLine(SettingsComments[k])
    ensures WellFormedName(SettingsList[1])
  {
    assert SettingsList[1] == "screenshot";
  }

  lemma {:induction false} NameWellFormed2()
    requires forall k :: k in SettingsComments ==> OneLine(SettingsComments[k])
    ensures WellFormedName(SettingsList[2])
  {
    assert SettingsList[2] == "pprof";
  }

  lemma {:induction false} NameWellFormed3()
    requires forall k :: k in SettingsComments ==> OneLine(SettingsComments[k])
    ensures WellFormedName(SettingsList[3])
  {
    assert SettingsList[3] == "dev";
  }

  lemma {:induction false} NameWellFormed4()
    requires forall k :: k in SettingsComments ==> OneLine(SettingsComments[k])
    ensures WellFormedName(SettingsList[4])
  {
    assert SettingsList[4] == "opt";
  }

  lemma {:induction false} NameWellFormed5()
    requires forall k :: k in SettingsComments ==> OneLine(SettingsComments[k])
    ensures WellFormedName(SettingsList[5])
  {
    assert SettingsList[5] == "no-debug";
  }

  lemma {:induction false} NameWellFormed6()
    requires forall k :: k in SettingsComments ==> OneLine(SettingsComments[k])
    ensures WellFormedName(SettingsList[6])
  {
    assert SettingsList[6] == "wasm-opt";
  }

  lemma {:induction false} NameWellFormed7()
    requires forall k :: k in SettingsComments ==> OneLine(SettingsComments[k])
    ensures WellFormedName(SettingsList[7])
  {
    assert SettingsList[7] == "tsc";
  }

  lemma {:induction false} NameWellFormed8()
    requires forall k :: k in SettingsComments ==> OneLine(SettingsComments[k])
    ensures WellFormedName(SettingsList[8])
  {
    assert SettingsList[8] == "no-vcs";
  }

  /** The effects of the lines SaveSettings writes for `names`. */
  function EntryUpdates(names: seq<string>, settings: map<string, bool>): seq<Option<(string, bool)>>
  {
    if names == [] then []
    else [None, Some((names[0], ValueOf(settings, names[0]))), None] + EntryUpdates(names[1..], settings)
  }

  lemma {:induction false} ParseLinesAppend(a: seq<string>, b: seq<string>)
    ensures ParseLines(a + b) == ParseLines(a) + ParseLines(b)
  {
    MapAppend(ParseLine, a, b);
  }

  lemma {:induction false} ParseEntries(names: seq<string>, settings: map<string, bool>)
    requires forall k :: 0 <= k < |names| ==> WellFormedName(names[k])
    ensures ParseLines(EntriesLines(names, settings)) == EntryUpdates(names, settings)
  {
    if names != [] {
      var n := names[0];
      ParseLinesAppend(EntryLines(n, settings), EntriesLines(names[1..], settings));
      ParseEntries(names[1..], settings);
      EntryParses(n, settings);
    }
  }

  /** A setting's three saved lines: a comment, the setting, a blank. */
  lemma {:induction false} EntryParses(n: string, settings: map<string, bool>)
    requires WellFormedName(n)
    ensures ParseLines(EntryLines(n, settings)) == [None, Some((n, ValueOf(settings, n))), None]
  {
    var c := "// " + Comment(n);
    var l := n + " " + ValueString(ValueOf(settings, n));
    assert EntryLines(n, settings) == [c, l, []];
    CommentSkipped(c);
    SettingLineParses(n, ValueOf(settings, n));
    BlankSkipped();
    ParseThree(c, l, []);
  }

  lemma {:induction false} ParseThree(a: string, b: string, c: string)
    ensures ParseLines([a, b, c]) == [ParseLine(a), ParseLine(b), ParseLine(c)]
  {
    MapThree(ParseLine, a, b, c);
  }

  /** Applying the saved entries sets each name to its saved value and
      leaves every other setting alone. */
  lemma {:induction false} ApplyEntries(s: map<string, bool>, names: seq<string>, settings: map<string, bool>)
    ensures var r := ApplyUpdates(s, EntryUpdates(names, settings));
      && (forall k :: k in r <==> k in s || k in names)
      && (forall k :: k in names ==> r[k] == ValueOf(settings, k))
      && (forall k :: k !in names && k in s ==> r[k] == s[k])
    decreases |names|
  {
    if names != [] {
      var n := names[0];
      var e: seq<Option<(string, bool)>> := [None, Some((n, ValueOf(settings, n))), None];
      ApplyUpdatesAppend(s, e, EntryUpdates(names[1..], settings));
      ApplyEntry(s, n, ValueOf(settings, n));
      ApplyEntries(s[n := ValueOf(settings, n)], names[1..], settings);
      forall k | k in names
        ensures k == n || k in names[1..]
      {
        var j :| 0 <= j < |names| && names[j] == k;
        if j > 0 {
          assert names[1..][j - 1] == k;
        }
      }
    }
  }

  lemma {:induction false} ApplyEntry(s: map<string, bool>, n: string, v: bool)
    ensures ApplyUpdates(s, [None, Some((n, v)), None]) == s[n := v]
  {
    var e: seq<Option<(string, bool)>> := [None, Some((n, v)), None];
    assert e[1..] == [Some((n, v)), None];
    assert e[1..][1..] == [None];
    assert e[1..][1..][1..] == [];
    assert ApplyUpdates(s[n := v], [None]) == s[n := v];
  }

  lemma {:induction false} HeaderSkipped()
    ensures forall k :: 0 <= k < |HeaderLines| ==> ParseLines(HeaderLines)[k].None?
  {
    var h := HeaderLines;
    forall k | 0 <= k < |h|
      ensures ParseLines(h)[k].None?
    {
      if k < 4 {
        assert h[k][0] == '/' && h[k][1] == '/';
        CommentSkipped(h[k]);
      } else {
        assert h[k] == [];
        BlankSkipped();
      }
    }
  }

  /** Lines without breaks, each terminated by a newline, hold no
      carriage return. */
  lemma {:induction false} NoCRInTerminated(lines: seq<string>)
    requires forall k :: 0 <= k < |lines| ==> OneLine(lines[k])
    ensures '\r' !in Terminated(lines, '\n')
  {
    if lines != [] {
      NoCRInTerminated(lines[1..]);
      assert '\r' !in lines[0];
    }
  }

  lemma {:induction false} EntryClean(n: string, settings: map<string, bool>)
    requires WellFormedName(n)
    ensures var e := EntryLines(n, settings); OneLine(e[0]) && OneLine(e[1]) && OneLine(e[2])
  {
    assert OneLine("// ") && OneLine(" ") && OneLine(ValueString(ValueOf(settings, n)));
    OneLineAppend("// ", Comment(n));
    OneLineAppend(n, " ");
    OneLineAppend(n + " ", ValueString(ValueOf(settings, n)));
    assert OneLine([]);
  }

  /** No line of the saved text holds a newline or a carriage return. */
  lemma {:induction false} EntriesClean(names: seq<string>, settings: map<string, bool>)
    requires forall k :: 0 <= k < |names| ==> WellFormedName(names[k])
    ensures forall k :: 0 <= k < |EntriesLines(names, settings)| ==> OneLine(EntriesLines(names, settings)[k])
  {
    if names != [] {
      EntriesClean(names[1..], settings);
      EntryClean(names[0], settings);
      var e := EntryLines(names[0], settings);
      var rest := EntriesLines(names[1..], settings);
      var lines := EntriesLines(names, settings);
      assert |e| == 3 && lines == e + rest;
      forall k | 0 <= k < |lines|
        ensures OneLine(lines[k])
      {
        if k < 3 {
          assert OneLine(e[0]) && OneLine(e[1]) && OneLine(e[2]);
          assert lines[k] == e[k];
          assert OneLine(e[k]);
        } else {
          assert lines[k] == rest[k - 3] && OneLine(rest[k - 3]);
        }
      }
    }
  }

  /** Text written as newline-terminated lines without breaks splits
      back into those lines and one empty piece. */
  lemma {:induction false} SplitTerminated(lines: seq<string>)
    requires forall k :: 0 <= k < |lines| ==> OneLine(lines[k])
    ensures Split(NormalizeNewlines(Terminated(lines, '\n')), '\n') == lines + [[]]
  {
    NoCRInTerminated(lines);
    NormalizeNewlinesNoCR(Terminated(lines, '\n'));
    TerminatedIsJoin(lines, '\n');
    var parts := lines + [[]];
    forall k | 0 <= k < |parts|
      ensures '\n' !in parts[k]
    {
      if k < |lines| {
        assert parts[k] == lines[k] && OneLine(lines[k]);
      }
    }
    SplitJoin(parts, '\n');
  }

  /** Header lines followed by entries are free of line breaks when
      both parts are. */
  lemma {:induction false} LinesClean(header: seq<string>, names: seq<string>, settings: map<string, bool>)
    requires forall k :: 0 <= k < |header| ==> OneLine(header[k])
    requires forall k :: 0 <= k < |names| ==> WellFormedName(names[k])
    ensures forall k :: 0 <= k < |header + EntriesLines(names, settings)| ==> OneLine((header + EntriesLines(names, settings))[k])
  {
    var entries := EntriesLines(names, settings);
    var lines := header + entries;
    EntriesClean(names, settings);
    forall k | 0 <= k < |lines|
      ensures OneLine(lines[k])
    {
      if k >= |header| {
        assert lines[k] == entries[k - |header|];
      } else {
        assert lines[k] == header[k];
      }
    }
  }

  lemma {:induction false} HeaderOneLine()
    ensures forall k :: 0 <= k < |HeaderLines| ==> OneLine(HeaderLines[k])
  {
    HeaderOneLine1();
    HeaderOneLine2();
    assert OneLine("//");
    assert OneLine("");
  }

  lemma {:induction false} HeaderOneLine1()
    ensures OneLine("// settings file for building")
  {
    var s := "// settings file for building";
    assert forall i :: 0 <= i < |s| ==> s[i] != '\n' && s[i] != '\r';
  }

  lemma {:induction false} HeaderOneLine2()
    ensures OneLine("// lines starting with // are comments") && OneLine("// comment/uncomment these settings")
  {
    var s := "// lines starting with // are comments";
    assert forall i :: 0 <= i < |s| ==> s[i] != '\n' && s[i] != '\r';
    var t := "// comment/uncomment these settings";
    assert forall i :: 0 <= i < |t| ==> t[i] != '\n' && t[i] != '\r';
  }

  /** The saved text splits back into its lines and one empty piece. */
  lemma {:induction false} SavedLines(settings: map<string, bool>)
    requires forall k :: 0 <= k < |SettingsList| ==> WellFormedName(SettingsList[k])
    ensures Split(NormalizeNewlines(SavedText(settings)), '\n')
      == HeaderLines + EntriesLines(SettingsList, settings) + [[]]
  {
    HeaderOneLine();
    LinesClean(HeaderLines, SettingsList, settings);
    SplitTerminated(HeaderLines + EntriesLines(SettingsList, settings));
  }

  /** The effects of the saved text's lines: the skipped header, one
      update per setting between two skipped lines, and the empty piece
      after the last newline. */
  lemma {:induction false} SavedUpdates(settings: map<string, bool>)
    ensures ParseLines(Split(NormalizeNewlines(SavedText(settings)), '\n'))
      == ParseLines(HeaderLines) + EntryUpdates(SettingsList, settings) + [None]
  {
    SettingsWellFormed();
    SavedLines(settings);
    var entries := EntriesLines(SettingsList, settings);
    ParseLinesAppend(HeaderLines + entries, [[]]);
    ParseLinesAppend(HeaderLines, entries);
    ParseEntries(SettingsList, settings);
    BlankSkipped();
    MapOne(ParseLine, []);
  }

  /** Skipped lines around the updates change nothing. */
  lemma {:induction false} ApplyBetweenSkipped(s: map<string, bool>, h: seq<Option<(string, bool)>>, u: seq<Option<(string, bool)>>)
    requires forall k :: 0 <= k < |h| ==> h[k].None?
    ensures ApplyUpdates(s, h + u + [None]) == ApplyUpdates(s, u)
  {
    ApplyUpdatesAppend(s, h + u, [None]);
    ApplyUpdatesAppend(s, h, u);
    ApplySkipped(s, h);
    ApplySkipped(ApplyUpdates(s, h + u), [None]);
  }

  /** Reading back the saved text gives, for every listed setting, the
      value that was saved (false for one the map lacked), and no other
      setting. */
  lemma {:induction false} LoadSavedSettings(settings: map<string, bool>)
    ensures var r := LoadedSettings(SavedText(settings));
      && (forall k :: k in r <==> k in SettingsList)
      && (forall k :: k in SettingsList ==> r[k] == ValueOf(settings, k))
  {
    SavedUpdates(settings);
    HeaderSkipped();
    var s0 := FillDefaults(DefaultSettings, SettingsList);
    var u := EntryUpdates(SettingsList, settings);
    ApplyBetweenSkipped(s0, ParseLines(HeaderLines), u);
    FillDefaultsMeaning(DefaultSettings, SettingsList);
    SettingsConsistent();
    ApplyEntries(s0, SettingsList, settings);
    FillDefaultsMeaning(ApplyUpdates(s0, u), SettingsList);
  }

  // ---------------------------------------------------------------
  // NeedToBuild
  // ---------------------------------------------------------------

  /** The newest of some modification times; the zero time when there
      are none (times are counted from Go's zero time). */
  function Newest(times: seq<nat>): (r: nat)
    ensures forall k :: 0 <= k < |times| ==> times[k] <= r
    ensures times != [] ==> r in times
  {
    if times == [] then 0
    else
      var rest := Newest(times[1..]);
      if |times| == 1 || times[0] > rest then times[0] else rest
  }

  /** The oldest of some modification times; the zero time when there
      are none. */
  function Oldest(times: seq<nat>): (r: nat)
    ensures forall k :: 0 <= k < |times| ==> r <= times[k]
    ensures times != [] ==> r in times
  {
    if times == [] then 0
    else
      var rest := Oldest(times[1..]);
      if |times| == 1 || times[0] < rest then times[0] else rest
  }

  /** NeedToBuild: true when a target is missing, and otherwise exactly
      when the newest source is strictly newer than the oldest target.
      `targetExists` and the two lists of times are what the file system
      reports. */
  method NeedToBuild(targetExists: seq<bool>, srcTimes: seq<nat>, targetTimes: seq<nat>) returns (r: bool)
    requires |targetTimes| == |targetExists|
    ensures (exists k :: 0 <= k < |targetExists| && !targetExists[k]) ==> r
    ensures (forall k :: 0 <= k < |targetExists| ==> targetExists[k]) ==> r == (Newest(srcTimes) > Oldest(targetTimes))
  {
    var t := 0;
    while t < |targetExists|
      invariant 0 <= t <= |targetExists|
      invariant forall k :: 0 <= k < t ==> targetExists[k]
    {
      if !targetExists[t] {
        return true;
      }
      t := t + 1;
    }
    var srcNewest := NewestTime(srcTimes);
    var targetOldest := OldestTime(targetTimes);
    r := srcNewest > targetOldest;
  }

  /** The loop of NeedToBuild over the sources' modification times. */
  method NewestTime(srcTimes: seq<nat>) returns (srcNewest: nat)
    ensures srcNewest == Newest(srcTimes)
  {
    srcNewest := 0;
    var srcNewestSet := false;
    var i := 0;
    while i < |srcTimes|
      invariant 0 <= i <= |srcTimes| && srcNewestSet == (i > 0)
      invariant srcNewest == Newest(srcTimes[..i])
    {
      NewestSnoc(srcTimes[..i], srcTimes[i]);
      assert srcTimes[..i + 1] == srcTimes[..i] + [srcTimes[i]];
      if !srcNewestSet {
        srcNewest := srcTimes[i];
        srcNewestSet := true;
      } else if srcNewest < srcTimes[i] {
        srcNewest := srcTimes[i];
      }
      i := i + 1;
    }
    assert srcTimes[..i] == srcTimes;
  }

  /** The loop of NeedToBuild over the targets' modification times. */
  method OldestTime(targetTimes: seq<nat>) returns (targetOldest: nat)
    ensures targetOldest == Oldest(targetTimes)
  {
    targetOldest := 0;
    var targetOldestSet := false;
    var j := 0;
    while j < |targetTimes|
      invariant 0 <= j <= |targetTimes| && targetOldestSet == (j > 0)
      invariant targetOldest == Oldest(targetTimes[..j])
    {
      OldestSnoc(targetTimes[..j], targetTimes[j]);
      assert targetTimes[..j + 1] == targetTimes[..j] + [targetTimes[j]];
      if !targetOldestSet {
        targetOldest := targetTimes[j];
        targetOldestSet := true;
      } else if targetOldest > targetTimes[j] {
        targetOldest := targetTimes[j];
      }
      j := j + 1;
    }
    assert targetTimes[..j] == targetTimes;
  }

  lemma {:induction false} NewestSnoc(times: seq<nat>, t: nat)
    ensures Newest(times + [t]) == if times == [] || Newest(times) < t then t else Newest(times)
  {
    if |times| > 1 {
      NewestSnoc(times[1..], t);
      assert (times + [t])[1..] == times[1..] + [t];
    } else if |times| == 1 {
      assert (times + [t])[1..] == [t];
    }
  }

  lemma {:induction false} OldestSnoc(times: seq<nat>, t: nat)
    ensures Oldest(times + [t]) == if times == [] || Oldest(times) > t then t else Oldest(times)
  {
    if |times| > 1 {
      OldestSnoc(times[1..], t);
      assert (times + [t])[1..] == times[1..] + [t];
    } else if |times| == 1 {
      assert (times + [t])[1..] == [t];
    }
  }

  /** With at least one target, all present, a rebuild is needed exactly
      when some source is newer than some target. */
  lemma {:induction false} NeedToBuildMeansNewer(srcTimes: seq<nat>, targetTimes: seq<nat>)
    requires targetTimes != []
    ensures (Newest(srcTimes) > Oldest(targetTimes)) <==>
      exists i, j :: 0 <= i < |srcTimes| && 0 <= j < |targetTimes| && srcTimes[i] > targetTimes[j]
  {
    if Newest(srcTimes) > Oldest(targetTimes) {
      var i :| 0 <= i < |srcTimes| && srcTimes[i] == Newest(srcTimes);
      var j :| 0 <= j < |targetTimes| && targetTimes[j] == Oldest(targetTimes);
      assert srcTimes[i] > targetTimes[j];
    }
  }
}
