/** The generator of sound_srcs.go: it reads a list of "name path" lines
    and emits a Go file that declares one string constant per sound and
    the slice SoundSrcs of all the sound paths, in the order of the list. */
module SoundSrcsGen {
  import opened Wrappers
  import opened GoStrings
  import opened Seqs

  /** One kept line of the list. */
  datatype NameAndPath = NameAndPath(Name: string, Path: string)

  /** The runes strings.Trim strips from both ends of a path. */
  const Quotes: set<char> := {'"', '\''}

  /** What every kept entry satisfies: a non-empty name without white
      space, and a non-empty path without backslashes that neither starts
      nor ends with a quote. */
  predicate WellFormed(e: NameAndPath)
  {
    && e.Name != [] && NoSpace(e.Name)
    && e.Path != [] && '\\' !in e.Path
    && e.Path[0] !in Quotes && e.Path[|e.Path| - 1] !in Quotes
  }

  // ---------------------------------------------------------------
  // One line
  // ---------------------------------------------------------------

  /** The scan over the runes of a trimmed line: the name runs up to the
      first white-space rune and the rest starts there; a line with no
      white space has no name and stays whole. */
  function SplitName(line: string): (r: (string, string))
    ensures r.0 + r.1 == line && NoSpace(r.0)
    ensures r.1 != line ==> r.0 != [] && r.1 != [] && IsSpace(r.1[0])
    ensures NoSpace(line) ==> r.0 == [] && r.1 == line
  {
    var w := Word(line);
    if |w| == |line| then ([], line)
    else
      assert w + line[|w|..] == line;
      (w, line[|w|..])
  }

  /** The rune loop of the generator's main, as it is written. */
  method ScanName(line: string) returns (name: string, rest: string)
    ensures (name, rest) == SplitName(line)
  {
    name, rest := [], line;
    var i := 0;
    while i < |line|
      invariant 0 <= i <= |line| && NoSpace(line[..i])
    {
      if IsSpace(line[i]) {
        WordOf(line[..i], line[i..]);
        assert line[..i] + line[i..] == line;
        name, rest := line[..i], line[i..];
        return;
      }
      i := i + 1;
    }
    assert line[..i] == line;
  }

  /** The path part of a line: trimmed of white space, then of quotes,
      with backslashes turned into slashes. */
  function CleanPath(rest: string): (path: string)
    ensures path == [] || (path[0] !in Quotes && path[|path| - 1] !in Quotes)
    ensures '\\' !in path
  {
    ReplaceRune(Trim(TrimSpace(rest), Quotes), '\\', '/')
  }

  /** The body of the generator's line loop: trim the line, split off the
      name, clean the rest into the path, and keep the line only when both
      the name and the path are non-empty. */
  function ParseLine(raw: string): (r: Option<NameAndPath>)
    ensures r.Some? ==> WellFormed(r.value)
    ensures NoSpace(TrimSpace(raw)) ==> r.None?
  {
    var split := SplitName(TrimSpace(raw));
    var path := CleanPath(split.1);
    if |split.0| > 0 && |path| > 0 then Some(NameAndPath(split.0, path)) else None
  }

  /** strings.Trim only removes runes: every rune of the result is a rune
      of the input. */
  lemma {:induction false} TrimKeepsRunes(s: string, cutset: set<char>)
    ensures forall c :: c in Trim(s, cutset) ==> c in s
    decreases |s|
  {
    if s != [] {
      if s[0] in cutset {
        TrimKeepsRunes(s[1..], cutset);
      } else if s[|s| - 1] in cutset {
        TrimKeepsRunes(s[..|s| - 1], cutset);
      }
    }
  }

  lemma {:induction false} TrimSpaceNoNewline(s: string)
    requires '\n' !in s
    ensures '\n' !in TrimSpace(s)
  {
    var l := TrimLeftSpace(s);
    var r := TrimSpace(s);
    TrimSpaceParts(s, l, r);
    var i := |s| - |l|;
    forall j | 0 <= j < |r|
      ensures r[j] != '\n'
    {
      assert r[j] == s[i..i + |r|][j] == s[i + j];
    }
  }

  lemma {:induction false} CleanPathNoNewline(rest: string)
    requires '\n' !in rest
    ensures '\n' !in CleanPath(rest)
  {
    TrimSpaceNoNewline(rest);
    var t := Trim(TrimSpace(rest), Quotes);
    TrimKeepsRunes(TrimSpace(rest), Quotes);
    var p := CleanPath(rest);
    forall j | 0 <= j < |p|
      ensures p[j] != '\n'
    {
      assert p[j] == '/' || p[j] == t[j];
    }
  }

  /** A path holds a newline only if its line does. */
  lemma {:induction false} ParseLineNoNewline(raw: string)
    requires '\n' !in raw
    ensures ParseLine(raw).Some? ==> '\n' !in ParseLine(raw).value.Path
  {
    var line := TrimSpace(raw);
    TrimSpaceNoNewline(raw);
    var split := SplitName(line);
    forall j | 0 <= j < |split.1|
      ensures split.1[j] != '\n'
    {
      assert split.1[j] == line[|split.0| + j];
    }
    CleanPathNoNewline(split.1);
  }

  /** The generator's line loop body, with the rune scan as a loop. */
  method ParseSourceLine(raw: string) returns (r: Option<NameAndPath>)
    ensures r == ParseLine(raw)
  {
    var name, rest := ScanName(TrimSpace(raw));
    var path := CleanPath(rest);
    if |name| > 0 && |path| > 0 {
      r := Some(NameAndPath(name, path));
    } else {
      r := None;
    }
  }

  /** A list line in the form the sound list is written in: a name, a
      space, and the path in double quotes. */
  function QuotedLine(name: string, path: string): string
  {
    name + " \"" + path + "\""
  }

  /** Such a line parses back to its name and its path, with backslashes
      turned into slashes. */
  lemma {:induction false} ParseQuotedLine(name: string, path: string)
    requires name != [] && NoSpace(name)
    requires path != [] && path[0] !in Quotes && path[|path| - 1] !in Quotes
    ensures ParseLine(QuotedLine(name, path)) == Some(NameAndPath(name, ReplaceRune(path, '\\', '/')))
  {
    SplitQuotedLine(name, path);
    CleanQuoted(path);
  }

  /** The name of a quoted line is split off with the space after it. */
  lemma {:induction false} SplitQuotedLine(name: string, path: string)
    requires name != [] && NoSpace(name)
    ensures SplitName(TrimSpace(QuotedLine(name, path))) == (name, " \"" + path + "\"")
  {
    var quoted := "\"" + path + "\"";
    var raw := QuotedLine(name, path);
    assert raw == name + (" " + quoted);
    TrimSpaceUnchanged(raw);
    WordOf(name, " " + quoted);
    assert " " + quoted == " \"" + path + "\"";
  }

  /** The rest of a quoted line cleans to the path. */
  lemma {:induction false} CleanQuoted(path: string)
    requires path != [] && path[0] !in Quotes && path[|path| - 1] !in Quotes
    ensures CleanPath(" \"" + path + "\"") == ReplaceRune(path, '\\', '/')
  {
    TrimSpaceQuoted(path);
    TrimQuotes(path);
  }

  /** The space before a quoted path is trimmed and the quotes stay. */
  lemma {:induction false} TrimSpaceQuoted(path: string)
    ensures TrimSpace(" \"" + path + "\"") == "\"" + path + "\""
  {
    var quoted := "\"" + path + "\"";
    assert (" " + quoted)[1..] == quoted;
    assert " \"" + path + "\"" == " " + quoted;
    assert TrimLeftSpace(" " + quoted) == quoted;
    TrimSpaceUnchanged(quoted);
  }

  /** Quotes around a path that neither starts nor ends with one are
      stripped. */
  lemma {:induction false} TrimQuotes(path: string)
    requires path != [] && path[0] !in Quotes && path[|path| - 1] !in Quotes
    ensures Trim("\"" + path + "\"", Quotes) == path
  {
    var quoted := "\"" + path + "\"";
    assert Trim(path, Quotes) == path;
    assert (path + "\"")[..|path|] == path;
    assert Trim(path + "\"", Quotes) == path;
    assert quoted[1..] == path + "\"";
  }

  // ---------------------------------------------------------------
  // The list
  // ---------------------------------------------------------------

  /** The kept values of parsed lines, in order. */
  function Kept(parsed: seq<Option<NameAndPath>>): (r: seq<NameAndPath>)
    ensures |r| <= |parsed|
    ensures forall k :: 0 <= k < |r| ==> Some(r[k]) in parsed
  {
    if parsed == [] then []
    else Kept(parsed[..|parsed| - 1]) + (if parsed[|parsed| - 1].Some? then [parsed[|parsed| - 1].value] else [])
  }

  /** The entries the line loop appends, in the order of the lines. */
  function Entries(lines: seq<string>): (r: seq<NameAndPath>)
    ensures |r| <= |lines|
    ensures forall k :: 0 <= k < |r| ==> WellFormed(r[k])
  {
    Kept(MapSeq(ParseLine, lines))
  }

  /** Lines without newlines give paths without newlines. */
  lemma {:induction false} EntriesNoNewline(lines: seq<string>)
    requires forall k :: 0 <= k < |lines| ==> '\n' !in lines[k]
    ensures forall k :: 0 <= k < |Entries(lines)| ==> '\n' !in Entries(lines)[k].Path
  {
    var parsed := MapSeq(ParseLine, lines);
    forall k | 0 <= k < |lines|
      ensures parsed[k].Some? ==> '\n' !in parsed[k].value.Path
    {
      ParseLineNoNewline(lines[k]);
    }
  }

  /** A single line contributes its entry, if it is kept. */
  lemma {:induction false} EntriesOfLine(line: string)
    ensures Entries([line]) == if ParseLine(line).Some? then [ParseLine(line).value] else []
  {
    MapOne(ParseLine, line);
    var p := MapSeq(ParseLine, [line]);
    assert p[..0] == [];
  }

  lemma {:induction false} KeptAppend(a: seq<Option<NameAndPath>>, b: seq<Option<NameAndPath>>)
    ensures Kept(a + b) == Kept(a) + Kept(b)
    decreases |b|
  {
    if b == [] {
      assert a + b == a;
    } else {
      var b' := b[..|b| - 1];
      assert (a + b)[..|a + b| - 1] == a + b';
      KeptAppend(a, b');
    }
  }

  /** The entries of a list are those of its first part followed by those
      of the rest: the order of the lines is kept. */
  lemma {:induction false} EntriesAppend(a: seq<string>, b: seq<string>)
    ensures Entries(a + b) == Entries(a) + Entries(b)
  {
    MapAppend(ParseLine, a, b);
    KeptAppend(MapSeq(ParseLine, a), MapSeq(ParseLine, b));
  }

  /** A line whose trimmed text holds no white space contributes nothing. */
  lemma {:induction false} EntriesSkipNameOnly(a: seq<string>, line: string, b: seq<string>)
    requires NoSpace(TrimSpace(line))
    ensures Entries(a + [line] + b) == Entries(a) + Entries(b)
  {
    EntriesOfLine(line);
    assert ParseLine(line).None?;
    assert Entries([line]) == [];
    EntriesAppend(a, [line]);
    assert Entries(a + [line]) == Entries(a);
    EntriesAppend(a + [line], b);
  }

  /** The entries of a sound list file: CRLF turned into LF, then split
      into lines. */
  function Sources(srcTxt: string): seq<NameAndPath>
  {
    Entries(Split(NormalizeNewlines(srcTxt), '\n'))
  }

  /** One more line adds its own entries. */
  lemma {:induction false} EntriesSnoc(lines: seq<string>, i: nat)
    requires i < |lines|
    ensures Entries(lines[..i + 1]) == Entries(lines[..i]) + Entries([lines[i]])
  {
    assert lines[..i + 1] == lines[..i] + [lines[i]];
    EntriesAppend(lines[..i], [lines[i]]);
  }

  /** The generator's main loop over the lines, appending the kept ones. */
  method CollectEntries(lines: seq<string>) returns (entries: seq<NameAndPath>)
    ensures entries == Entries(lines)
  {
    entries := [];
    var i := 0;
    while i < |lines|
      invariant 0 <= i <= |lines| && entries == Entries(lines[..i])
    {
      entries := AppendLine(entries, lines, i);
      i := i + 1;
    }
    assert lines[..i] == lines;
  }

  /** One turn of the line loop: parse line `i` and append it if kept. */
  method AppendLine(entries: seq<NameAndPath>, lines: seq<string>, i: nat) returns (r: seq<NameAndPath>)
    requires i < |lines| && entries == Entries(lines[..i])
    ensures r == Entries(lines[..i + 1])
  {
    var parsed := ParseSourceLine(lines[i]);
    r := entries;
    if parsed.Some? {
      r := r + [parsed.value];
    }
    EntriesSnoc(lines, i);
    EntriesOfLine(lines[i]);
  }

  // ---------------------------------------------------------------
  // The emitted file
  // ---------------------------------------------------------------

  /** The line of the const block for one entry. */
  function ConstLine(e: NameAndPath): string
  {
    "\t" + e.Name + " = \"" + e.Path + "\""
  }

  /** The line of the SoundSrcs literal for one entry. */
  function SrcLine(e: NameAndPath): string
  {
    "\t\"" + e.Path + "\","
  }

  function ConstLines(es: seq<NameAndPath>): seq<string>
  {
    seq(|es|, k requires 0 <= k < |es| => ConstLine(es[k]))
  }

  function SrcLines(es: seq<NameAndPath>): seq<string>
  {
    seq(|es|, k requires 0 <= k < |es| => SrcLine(es[k]))
  }

  /** A `{{- range}}` body: every line preceded by a newline. */
  function Block(lines: seq<string>): string
  {
    if lines == [] then [] else "\n" + lines[0] + Block(lines[1..])
  }

  /** The fixed lines of the template. */
  const PackageClause := "package main"
  const ConstOpen := "const ("
  const ConstClose := ")"
  const SrcsOpen := "var SoundSrcs = []string {"
  const SrcsClose := "}"

  /** The template executed on the entries, before gofmt: each `{{-`
      trims the newline in front of it, so every range body starts with
      its own newline. */
  function Render(es: seq<NameAndPath>): string
  {
    PackageClause + "\n\n" + ConstOpen + Block(ConstLines(es)) + "\n" + ConstClose + "\n\n"
      + SrcsOpen + Block(SrcLines(es)) + "\n" + SrcsClose + "\n"
  }

  /** The lines of the emitted file: the header, one constant per entry,
      the slice header, one path per entry, and the closing brace. */
  function RenderLines(es: seq<NameAndPath>): seq<string>
  {
    [PackageClause, "", ConstOpen] + ConstLines(es)
      + [ConstClose, "", SrcsOpen] + SrcLines(es) + [SrcsClose, ""]
  }

  lemma {:induction false} JoinAppend(a: seq<string>, b: seq<string>, c: char)
    requires a != [] && b != []
    ensures Join(a + b, c) == Join(a, c) + [c] + Join(b, c)
  {
    if |a| > 1 {
      JoinAppend(a[1..], b, c);
      assert (a + b)[1..] == a[1..] + b;
      JoinCons(a[0], a[1..] + b, c);
      JoinCons(a[0], a[1..], c);
      assert [a[0]] + a[1..] == a;
      assert [a[0]] + (a[1..] + b) == a + b;
    } else {
      JoinCons(a[0], b, c);
      assert [a[0]] + b == a + b;
    }
  }

  /** A line followed by a block is the two joined by newlines. */
  lemma {:induction false} BlockJoin(p: string, lines: seq<string>)
    ensures p + Block(lines) == Join([p] + lines, '\n')
    decreases |lines|
  {
    if lines == [] {
      assert [p] + lines == [p];
    } else {
      BlockJoin(lines[0], lines[1..]);
      assert [lines[0]] + lines[1..] == lines;
      JoinCons(p, lines, '\n');
    }
  }

  /** The emitted text is its lines joined by newlines. */
  /** A line, an empty line, then a line and a block. */
  lemma {:induction false} JoinBlank(p: string, q: string, block: seq<string>)
    ensures Join([p, "", q] + block, '\n') == p + "\n\n" + (q + Block(block))
  {
    BlockJoin(q, block);
    JoinCons("", [q] + block, '\n');
    assert [p, "", q] + block == [p] + ([""] + ([q] + block));
    JoinCons(p, [""] + ([q] + block), '\n');
  }

  /** The emitted text is its lines joined by newlines. */
  lemma {:induction false} RenderIsJoin(es: seq<NameAndPath>)
    ensures Render(es) == Join(RenderLines(es), '\n')
  {
    var l1 := [PackageClause, "", ConstOpen] + ConstLines(es);
    var l2 := [ConstClose, "", SrcsOpen] + SrcLines(es);
    var l3 := [SrcsClose, ""];
    var j1 := PackageClause + "\n\n" + (ConstOpen + Block(ConstLines(es)));
    var j2 := ConstClose + "\n\n" + (SrcsOpen + Block(SrcLines(es)));
    JoinBlank(PackageClause, ConstOpen, ConstLines(es));
    JoinBlank(ConstClose, SrcsOpen, SrcLines(es));
    JoinCons(SrcsClose, [""], '\n');
    assert Join(l3, '\n') == SrcsClose + "\n";
    JoinAppend(l1, l2, '\n');
    JoinAppend(l1 + l2, l3, '\n');
    assert RenderLines(es) == l1 + l2 + l3;
    assert Join(RenderLines(es), '\n') == j1 + "\n" + j2 + "\n" + (SrcsClose + "\n");
    var b1 := Block(ConstLines(es));
    var b2 := Block(SrcLines(es));
    var x := PackageClause + "\n\n" + ConstOpen + b1 + "\n";
    assert j1 + "\n" == x;
    var y := x + ConstClose + "\n\n" + SrcsOpen + b2;
    assert x + j2 == y;
    assert y + "\n" + (SrcsClose + "\n") == y + "\n" + SrcsClose + "\n";
  }

  /** Splitting the emitted text at newlines gives one constant line and
      one SoundSrcs line per entry, in order, between the fixed lines. */
  lemma {:induction false} RenderSplit(es: seq<NameAndPath>)
    requires forall k :: 0 <= k < |es| ==> NoSpace(es[k].Name) && '\n' !in es[k].Path
    ensures Split(Render(es), '\n') == RenderLines(es)
  {
    RenderIsJoin(es);
    var lines := RenderLines(es);
    forall k | 0 <= k < |lines|
      ensures '\n' !in lines[k]
    {
      if 3 <= k < 3 + |es| {
        var e := es[k - 3];
        assert forall j :: 0 <= j < |e.Name| ==> e.Name[j] != '\n';
        assert lines[k] == ConstLine(e);
      } else if 6 + |es| <= k < 6 + 2 * |es| {
        assert lines[k] == SrcLine(es[k - 6 - |es|]);
      }
    }
    SplitJoin(lines, '\n');
  }

  /** The sound-list generator up to gofmt: reads the list text, keeps the
      well-formed lines in order and renders the Go file. */
  method Generate(srcTxt: string) returns (out: string)
    ensures out == Render(Sources(srcTxt))
    ensures Split(out, '\n') == RenderLines(Sources(srcTxt))
  {
    var lines := Split(NormalizeNewlines(srcTxt), '\n');
    var entries := CollectEntries(lines);
    EntriesNoNewline(lines);
    RenderSplit(entries);
    out := Render(entries);
  }
}
