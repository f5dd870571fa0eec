/** The parts of Go's `strings` and `unicode` packages the build tools and
    utilities use, on strings as sequences of runes. */
module GoStrings {

  /** unicode.IsSpace: the Latin-1 white space characters and the other
      characters of Unicode's White_Space property. */
  predicate IsSpace(c: char)
  {
    || c == '\t' || c == '\n' || c == '\U{B}' || c == '\U{C}' || c == '\r' || c == ' '
    || c == '\U{85}' || c == '\U{A0}' || c == '\U{1680}'
    || ('\U{2000}' <= c <= '\U{200A}')
    || c == '\U{2028}' || c == '\U{2029}' || c == '\U{202F}' || c == '\U{205F}' || c == '\U{3000}'
  }

  predicate NoSpace(s: string)
  {
    forall i :: 0 <= i < |s| ==> !IsSpace(s[i])
  }

  predicate AllSpace(s: string)
  {
    forall i :: 0 <= i < |s| ==> IsSpace(s[i])
  }

  predicate HasPrefix(s: string, prefix: string)
  {
    |prefix| <= |s| && s[..|prefix|] == prefix
  }

  predicate HasSuffix(s: string, suffix: string)
  {
    |suffix| <= |s| && s[|s| - |suffix|..] == suffix
  }

  /** strings.ToLower on ASCII letters; other runes are left as they are. */
  function LowerChar(c: char): (r: char)
    ensures 'A' <= c <= 'Z' ==> 'a' <= r <= 'z'
    ensures !('A' <= c <= 'Z') ==> r == c
  {
    if 'A' <= c <= 'Z' then (c as int - 'A' as int + 'a' as int) as char else c
  }

  function ToLower(s: string): (r: string)
    ensures |r| == |s| && forall i :: 0 <= i < |s| ==> r[i] == LowerChar(s[i])
  {
    seq(|s|, i requires 0 <= i < |s| => LowerChar(s[i]))
  }

  /** Lowering twice is lowering once. */
  lemma {:induction false} ToLowerIdempotent(s: string)
    ensures ToLower(ToLower(s)) == ToLower(s)
  {
  }

  // ---------------------------------------------------------------
  // Trimming
  // ---------------------------------------------------------------

  /** strings.TrimLeftFunc(s, unicode.IsSpace). */
  function TrimLeftSpace(s: string): (r: string)
    ensures HasSuffix(s, r) && AllSpace(s[..|s| - |r|])
    ensures r == [] || !IsSpace(r[0])
    decreases |s|
  {
    if s != [] && IsSpace(s[0]) then
      var r := TrimLeftSpace(s[1..]);
      assert s[..|s| - |r|] == [s[0]] + s[1..][..|s[1..]| - |r|];
      r
    else s
  }

  /** strings.TrimRightFunc(s, unicode.IsSpace). */
  function TrimRightSpace(s: string): (r: string)
    ensures HasPrefix(s, r) && AllSpace(s[|r|..])
    ensures r == [] || !IsSpace(r[|r| - 1])
    decreases |s|
  {
    if s != [] && IsSpace(s[|s| - 1]) then
      var r := TrimRightSpace(s[..|s| - 1]);
      assert s[|r|..] == s[..|s| - 1][|r|..] + [s[|s| - 1]];
      r
    else s
  }

  /** strings.TrimSpace: the result sits in the string with nothing but
      white space before and after it, and neither starts nor ends with
      white space. */
  function TrimSpace(s: string): (r: string)
    ensures r == [] || (!IsSpace(r[0]) && !IsSpace(r[|r| - 1]))
    ensures |r| <= |s|
  {
    TrimRightSpace(TrimLeftSpace(s))
  }

  /** Where the trimmed string `r` sits: after the white space that
      TrimLeftSpace drops, and followed by nothing but white space. */
  lemma {:induction false} TrimSpaceParts(s: string, l: string, r: string)
    requires l == TrimLeftSpace(s) && r == TrimRightSpace(l)
    ensures var i := |s| - |l|;
      i + |r| <= |s| && s[i..i + |r|] == r && AllSpace(s[..i]) && AllSpace(s[i + |r|..])
  {
    TrimmedParts(s, l, r);
  }

  /** White space, then a middle part, then white space. */
  lemma {:induction false} TrimmedParts(s: string, l: string, r: string)
    requires HasSuffix(s, l) && AllSpace(s[..|s| - |l|])
    requires HasPrefix(l, r) && AllSpace(l[|r|..])
    ensures var i := |s| - |l|;
      i + |r| <= |s| && s[i..i + |r|] == r && AllSpace(s[..i]) && AllSpace(s[i + |r|..])
  {
    var i := |s| - |l|;
    assert s[i + |r|..] == l[|r|..];
    assert s[i..i + |r|] == l[..|r|];
  }

  /** Trimming a string that starts with a non-space keeps a prefix of it,
      and only white space follows that prefix. */
  lemma {:induction false} TrimSpaceKeepsLead(s: string)
    requires s != [] && !IsSpace(s[0])
    ensures var r := TrimSpace(s);
      |r| <= |s| && r == s[..|r|] && forall j :: |r| <= j < |s| ==> IsSpace(s[j])
  {
    assert TrimLeftSpace(s) == s;
    var r := TrimSpace(s);
    TrimSpaceParts(s, s, r);
    forall j | |r| <= j < |s|
      ensures IsSpace(s[j])
    {
      assert s[|r|..][j - |r|] == s[j];
    }
  }

  /** A string that neither starts nor ends with white space is its own
      TrimSpace. */
  lemma {:induction false} TrimSpaceUnchanged(s: string)
    requires s == [] || (!IsSpace(s[0]) && !IsSpace(s[|s| - 1]))
    ensures TrimSpace(s) == s
  {
  }

  /** strings.Trim(s, cutset): drops every leading and trailing rune that
      is in `cutset`. */
  function Trim(s: string, cutset: set<char>): (r: string)
    ensures r == [] || (r[0] !in cutset && r[|r| - 1] !in cutset)
    ensures |r| <= |s|
    decreases |s|
  {
    if s == [] then s
    else if s[0] in cutset then Trim(s[1..], cutset)
    else if s[|s| - 1] in cutset then Trim(s[..|s| - 1], cutset)
    else s
  }

  // ---------------------------------------------------------------
  // Split and Join on one separator rune
  // ---------------------------------------------------------------

  /** The first position of `c` in `s`. */
  function IndexOf(s: string, c: char): (i: nat)
    requires c in s
    ensures i < |s| && s[i] == c && c !in s[..i]
  {
    if s[0] == c then 0
    else
      var i := 1 + IndexOf(s[1..], c);
      assert s[..i] == [s[0]] + s[1..][..i - 1];
      i
  }

  /** strings.Split(s, string(c)): the pieces between the separators; one
      more piece than there are separators. */
  function Split(s: string, c: char): (r: seq<string>)
    ensures |r| >= 1 && forall k :: 0 <= k < |r| ==> c !in r[k]
    decreases |s|
  {
    if c !in s then [s]
    else
      var i := IndexOf(s, c);
      [s[..i]] + Split(s[i + 1..], c)
  }

  /** strings.Join(parts, string(c)). */
  function Join(parts: seq<string>, c: char): string
  {
    if parts == [] then []
    else if |parts| == 1 then parts[0]
    else parts[0] + [c] + Join(parts[1..], c)
  }

  /** Split at the first separator. */
  lemma {:induction false} SplitFirst(s: string, c: char)
    requires c in s
    ensures var i := IndexOf(s, c);
      Split(s, c) == [s[..i]] + Split(s[i + 1..], c) && s == s[..i] + [c] + s[i + 1..]
  {
  }

  lemma {:induction false} JoinCons(p: string, rest: seq<string>, c: char)
    requires rest != []
    ensures Join([p] + rest, c) == p + [c] + Join(rest, c)
  {
    assert ([p] + rest)[1..] == rest;
  }

  /** Joining the pieces of a split gives the string back. */
  lemma {:induction false} JoinSplit(s: string, c: char)
    ensures Join(Split(s, c), c) == s
    decreases |s|
  {
    if c in s {
      var i := IndexOf(s, c);
      SplitFirst(s, c);
      JoinSplit(s[i + 1..], c);
      JoinCons(s[..i], Split(s[i + 1..], c), c);
    }
  }

  /** A piece without the separator, then the separator: the piece is the
      first part of the split. */
  lemma {:induction false} SplitCons(p: string, t: string, c: char)
    requires c !in p
    ensures Split(p + [c] + t, c) == [p] + Split(t, c)
  {
    var s := p + [c] + t;
    assert s[|p|] == c && s[..|p|] == p;
    assert IndexOf(s, c) == |p|;
    assert s[|p| + 1..] == t;
  }

  /** Splitting joined pieces that hold no separator gives the pieces
      back. */
  lemma {:induction false} SplitJoin(parts: seq<string>, c: char)
    requires |parts| >= 1 && forall k :: 0 <= k < |parts| ==> c !in parts[k]
    ensures Split(Join(parts, c), c) == parts
  {
    if |parts| > 1 {
      SplitJoin(parts[1..], c);
      JoinCons(parts[0], parts[1..], c);
      assert [parts[0]] + parts[1..] == parts;
      SplitCons(parts[0], Join(parts[1..], c), c);
    }
  }

  /** Lines each terminated by `c`, the form a text file writer emits. */
  function Terminated(lines: seq<string>, c: char): string
  {
    if lines == [] then [] else lines[0] + [c] + Terminated(lines[1..], c)
  }

  /** Terminated lines are the lines followed by one empty piece, joined. */
  lemma {:induction false} TerminatedIsJoin(lines: seq<string>, c: char)
    ensures Terminated(lines, c) == Join(lines + [[]], c)
  {
    if lines != [] {
      TerminatedIsJoin(lines[1..], c);
      assert (lines + [[]])[1..] == lines[1..] + [[]];
    }
  }

  // ---------------------------------------------------------------
  // Fields
  // ---------------------------------------------------------------

  /** The longest prefix without white space. */
  function Word(s: string): (w: string)
    ensures HasPrefix(s, w) && NoSpace(w)
    ensures |w| == |s| || IsSpace(s[|w|])
  {
    if s == [] || IsSpace(s[0]) then []
    else
      var w := [s[0]] + Word(s[1..]);
      assert s[..|w|] == [s[0]] + s[1..][..|w| - 1];
      w
  }

  /** strings.Fields: the maximal runs of non-white-space runes, in order. */
  function Fields(s: string): (r: seq<string>)
    ensures forall k :: 0 <= k < |r| ==> r[k] != [] && NoSpace(r[k])
    decreases |s|
  {
    if s == [] then []
    else if IsSpace(s[0]) then Fields(s[1..])
    else
      var w := Word(s);
      [w] + Fields(s[|w|..])
  }

  lemma {:induction false} WordOf(w: string, rest: string)
    requires NoSpace(w) && (rest == [] || IsSpace(rest[0]))
    ensures Word(w + rest) == w
    decreases |w|
  {
    if w != [] {
      WordOf(w[1..], rest);
      assert (w + rest)[1..] == w[1..] + rest;
    }
  }

  /** A word followed by nothing or by white space is the first field. */
  lemma {:induction false} FieldsOfWord(w: string, rest: string)
    requires w != [] && NoSpace(w) && (rest == [] || IsSpace(rest[0]))
    ensures Fields(w + rest) == [w] + Fields(rest)
  {
    WordOf(w, rest);
    assert (w + rest)[|w|..] == rest;
  }

  /** Two words with one space between them are two fields. */
  lemma {:induction false} FieldsOfPair(a: string, b: string)
    requires a != [] && b != [] && NoSpace(a) && NoSpace(b)
    ensures Fields(a + " " + b) == [a, b]
  {
    assert a + " " + b == a + (" " + b);
    FieldsOfWord(a, " " + b);
    assert (" " + b)[1..] == b;
    FieldsOfWord(b, []);
    assert b + [] == b;
  }

  // ---------------------------------------------------------------
  // Replacing
  // ---------------------------------------------------------------

  /** strings.ReplaceAll(s, "\r\n", "\n"): every carriage return that
      starts a CRLF pair, scanning left to right, is dropped. */
  function NormalizeNewlines(s: string): (r: string)
    ensures |r| <= |s|
    decreases |s|
  {
    if |s| >= 2 && s[0] == '\r' && s[1] == '\n' then "\n" + NormalizeNewlines(s[2..])
    else if s == [] then []
    else [s[0]] + NormalizeNewlines(s[1..])
  }

  /** A text without carriage returns is left alone. */
  lemma {:induction false} NormalizeNewlinesNoCR(s: string)
    requires '\r' !in s
    ensures NormalizeNewlines(s) == s
    decreases |s|
  {
    if s != [] {
      NormalizeNewlinesNoCR(s[1..]);
    }
  }

  /** strings.ReplaceAll(s, string(a), string(b)) for single runes. */
  function ReplaceRune(s: string, a: char, b: char): (r: string)
    ensures |r| == |s|
    ensures forall i :: 0 <= i < |s| ==> r[i] == (if s[i] == a then b else s[i])
  {
    seq(|s|, i requires 0 <= i < |s| => if s[i] == a then b else s[i])
  }
}
