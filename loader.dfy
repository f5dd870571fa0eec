/** The page-side loader of the WebAssembly build
    (web_build/scripts/loader.ts): it streams the module with progress
    reports, keeps the last lines the Go runtime writes as a crash log,
    and shows that log when the program exits with a failure status.
    The network, the DOM, TextDecoder and the Go runtime are outside the
    model: the Content-Length header arrives already parsed, the body
    arrives as its sequence of chunks, and each write arrives together
    with its decoded text. */
module Loader {
  import opened Wrappers

  type Byte = b: int | 0 <= b < 256

  // ---------------------------------------------------------------
  // loadData
  // ---------------------------------------------------------------

  /** The arguments of one onProgress call. */
  datatype Progress = Progress(ReadData: nat, DataSize: int, ContentLengthMissing: bool)

  /** The chunks of the body joined in arrival order. */
  function Concat(chunks: seq<seq<Byte>>): seq<Byte>
  {
    if chunks == [] then [] else Concat(chunks[..|chunks| - 1]) + chunks[|chunks| - 1]
  }

  /** The total size loadData reports: the parsed Content-Length, or
      `knownDataSize` when parseInt gave NaN (`contentLength` is None). */
  function DataSize(contentLength: Option<int>, knownDataSize: int): int
  {
    if contentLength.None? then knownDataSize else contentLength.value
  }

  /** The onProgress calls for a body that arrives as `chunks`: one per
      chunk, with the bytes read so far. */
  function Reports(contentLength: Option<int>, knownDataSize: int, chunks: seq<seq<Byte>>): seq<Progress>
  {
    seq(|chunks|, k requires 0 <= k < |chunks| =>
      Progress(|Concat(chunks[..k + 1])|, DataSize(contentLength, knownDataSize), contentLength.None?))
  }

  /** loadData: reads every chunk of the body, appending its bytes one by
      one and reporting progress after each chunk; returns the bytes and
      the onProgress calls made. */
  method LoadData(contentLength: Option<int>, knownDataSize: int, chunks: seq<seq<Byte>>)
    returns (data: seq<Byte>, reports: seq<Progress>)
    ensures data == Concat(chunks)
    ensures reports == Reports(contentLength, knownDataSize, chunks)
  {
    var dataSize := 0;
    var contentLengthMissing := false;
    if contentLength.None? {
      dataSize := knownDataSize;
      contentLengthMissing := true;
    } else {
      dataSize := contentLength.value;
    }
    data := [];
    reports := [];
    var dataRead := 0;
    var n := 0;
    while n < |chunks|
      invariant 0 <= n <= |chunks|
      invariant data == Concat(chunks[..n]) && dataRead == |data|
      invariant reports == Reports(contentLength, knownDataSize, chunks[..n])
    {
      var value := chunks[n];
      dataRead := dataRead + |value|;
      data := PushAll(data, value);
      assert chunks[..n + 1][..n] == chunks[..n];
      reports := reports + [Progress(dataRead, dataSize, contentLengthMissing)];
      n := n + 1;
      ReportsSnoc(contentLength, knownDataSize, chunks[..n]);
    }
    assert chunks[..n] == chunks;
  }

  lemma {:induction false} ReportsSnoc(contentLength: Option<int>, knownDataSize: int, chunks: seq<seq<Byte>>)
    requires chunks != []
    ensures Reports(contentLength, knownDataSize, chunks)
      == Reports(contentLength, knownDataSize, chunks[..|chunks| - 1])
         + [Progress(|Concat(chunks)|, DataSize(contentLength, knownDataSize), contentLength.None?)]
  {
    var init := chunks[..|chunks| - 1];
    forall k | 0 <= k < |init|
      ensures Reports(contentLength, knownDataSize, init)[k] == Reports(contentLength, knownDataSize, chunks)[k]
    {
      assert init[..k + 1] == chunks[..k + 1];
    }
    assert chunks[..|chunks|] == chunks;
  }

  /** The inner loop of loadData: each byte of a chunk pushed in turn. */
  method PushAll(data: seq<Byte>, value: seq<Byte>) returns (r: seq<Byte>)
    ensures r == data + value
  {
    r := data;
    var i := 0;
    while i < |value|
      invariant 0 <= i <= |value|
      invariant r == data + value[..i]
    {
      r := r + [value[i]];
      assert value[..i + 1] == value[..i] + [value[i]];
      i := i + 1;
    }
    assert value[..i] == value;
  }

  /** Joining a prefix of the chunks gives a prefix of the body. */
  lemma {:induction false} ConcatPrefix(chunks: seq<seq<Byte>>, k: nat)
    requires k <= |chunks|
    ensures |Concat(chunks[..k])| <= |Concat(chunks)|
    ensures Concat(chunks[..k]) == Concat(chunks)[..|Concat(chunks[..k])|]
    decreases |chunks|
  {
    if k == |chunks| {
      assert chunks[..k] == chunks;
    } else {
      var init := chunks[..|chunks| - 1];
      assert init[..k] == chunks[..k];
      ConcatPrefix(init, k);
    }
  }

  /** Each report's count is the previous one plus the size of its own
      chunk; the size and the missing-length flag are the same in every
      report. */
  lemma {:induction false} ReportsAccumulate(contentLength: Option<int>, knownDataSize: int, chunks: seq<seq<Byte>>)
    ensures var r := Reports(contentLength, knownDataSize, chunks);
      && |r| == |chunks|
      && (forall k :: 0 < k < |r| ==> r[k].ReadData == r[k - 1].ReadData + |chunks[k]|)
      && (forall k :: 0 <= k < |r| ==>
            r[k].DataSize == DataSize(contentLength, knownDataSize) && (r[k].ContentLengthMissing <==> contentLength.None?))
  {
    var r := Reports(contentLength, knownDataSize, chunks);
    forall k | 0 < k < |r|
      ensures r[k].ReadData == r[k - 1].ReadData + |chunks[k]|
    {
      assert chunks[..k + 1][..k] == chunks[..k];
    }
  }

  /** The first report counts the first chunk and the last one the whole
      body. */
  lemma {:induction false} ReportsFirstLast(contentLength: Option<int>, knownDataSize: int, chunks: seq<seq<Byte>>)
    requires chunks != []
    ensures var r := Reports(contentLength, knownDataSize, chunks);
      r[0].ReadData == |chunks[0]| && r[|r| - 1].ReadData == |Concat(chunks)|
  {
    var first := chunks[..1];
    assert first[..0] == [] && first[0] == chunks[0];
    assert Concat(first) == Concat([]) + chunks[0];
    assert chunks[..|chunks|] == chunks;
  }

  /** The reported counts never go down and never exceed the body's
      size. */
  lemma {:induction false} ReportsMonotone(contentLength: Option<int>, knownDataSize: int, chunks: seq<seq<Byte>>, i: int, j: int)
    requires 0 <= i <= j < |chunks|
    ensures var r := Reports(contentLength, knownDataSize, chunks);
      r[i].ReadData <= r[j].ReadData <= |Concat(chunks)|
  {
    ConcatPrefix(chunks[..j + 1], i + 1);
    assert chunks[..j + 1][..i + 1] == chunks[..i + 1];
    ConcatPrefix(chunks, j + 1);
  }

  // ---------------------------------------------------------------
  // countNewLine
  // ---------------------------------------------------------------

  /** The number of '\n' characters in `s`. */
  function Newlines(s: string): nat
  {
    if s == [] then 0 else Newlines(s[..|s| - 1]) + (if s[|s| - 1] == '\n' then 1 else 0)
  }

  /** String.prototype.indexOf(c, from) for a `from` inside the string:
      the first position at or after `from` holding `c`, or -1. */
  function IndexOfFrom(s: string, c: char, from: nat): (r: int)
    requires from <= |s|
    ensures r == -1 || from <= r < |s|
    decreases |s| - from
  {
    if from == |s| then -1
    else if s[from] == c then from
    else IndexOfFrom(s, c, from + 1)
  }

  /** indexOf finds the first `c` at or after `from`, and -1 only when
      there is none. */
  lemma {:induction false} IndexOfFromSpec(s: string, c: char, from: nat)
    requires from <= |s|
    ensures var r := IndexOfFrom(s, c, from);
      && (r < 0 ==> forall k :: from <= k < |s| ==> s[k] != c)
      && (r >= 0 ==> s[r] == c && forall k :: from <= k < r ==> s[k] != c)
    decreases |s| - from
  {
    if from < |s| && s[from] != c {
      IndexOfFromSpec(s, c, from + 1);
    }
  }

  lemma {:induction false} NewlinesAppend(a: string, b: string)
    ensures Newlines(a + b) == Newlines(a) + Newlines(b)
    decreases |b|
  {
    if b == [] {
      assert a + b == a;
    } else {
      assert (a + b)[..|a + b| - 1] == a + b[..|b| - 1];
      NewlinesAppend(a, b[..|b| - 1]);
    }
  }

  /** A string without '\n' counts none, and one that counts none has
      none. */
  lemma {:induction false} NewlinesNone(s: string)
    ensures Newlines(s) == 0 <==> forall k :: 0 <= k < |s| ==> s[k] != '\n'
  {
    if s != [] {
      NewlinesNone(s[..|s| - 1]);
      assert forall k :: 0 <= k < |s| - 1 ==> s[..|s| - 1][k] == s[k];
    }
  }

  /** countNewLine: repeatedly finds the next '\n' after the previous
      one, counting. */
  method CountNewLine(str: string) returns (counter: nat)
    ensures counter == Newlines(str)
  {
    counter := 0;
    var index := 0;
    while true
      invariant 0 <= index <= |str|
      invariant counter == Newlines(str[..index])
      decreases |str| - index
    {
      var newIndex := IndexOfFrom(str, '\n', index);
      CountStep(str, index, newIndex);
      if newIndex < 0 {
        break;
      }
      counter := counter + 1;
      index := newIndex + 1;
    }
  }

  /** One step of countNewLine: the next '\n' from `index` ends one more
      line; when there is none, the text from `index` on holds none. */
  lemma {:induction false} CountStep(str: string, index: nat, newIndex: int)
    requires index <= |str| && newIndex == IndexOfFrom(str, '\n', index)
    ensures newIndex >= 0 ==> str[newIndex] == '\n' && Newlines(str[..newIndex + 1]) == Newlines(str[..index]) + 1
    ensures newIndex < 0 ==> Newlines(str) == Newlines(str[..index])
  {
    IndexOfFromSpec(str, '\n', index);
    if newIndex >= 0 {
      NewlineStep(str, index, newIndex);
    } else {
      NewlinesNone(str[index..]);
      NewlinesAppend(str[..index], str[index..]);
      assert str[..index] + str[index..] == str;
    }
  }

  /** Moving from `index` past the next '\n' at `j` counts one more. */
  lemma {:induction false} NewlineStep(s: string, index: nat, j: nat)
    requires index <= j < |s| && s[j] == '\n' && forall k :: index <= k < j ==> s[k] != '\n'
    ensures Newlines(s[..j + 1]) == Newlines(s[..index]) + 1
  {
    var gap := s[index..j];
    NewlinesNone(gap);
    assert s[..j + 1] == s[..index] + gap + ['\n'];
    NewlinesAppend(s[..index] + gap, ['\n']);
    NewlinesAppend(s[..index], gap);
    assert Newlines(['\n']) == 1 by {
      assert ['\n'][..0] == [];
    }
  }

  // ---------------------------------------------------------------
  // The crash log
  // ---------------------------------------------------------------

  /** logTextMax: the number of lines the crash log keeps. */
  const LogTextMax := 500

  /** Where the text kept after dropping `n` lines starts, searching
      from `from` as the trimming loop of the writeSync override does:
      each step moves past the next '\n'; when there is none left the
      position stays where it is. */
  function SkipIndex(s: string, n: int, from: nat): (r: nat)
    requires from <= |s|
    ensures from <= r <= |s|
    decreases if n <= 0 then 0 else n
  {
    if n <= 0 then from
    else
      var j := IndexOfFrom(s, '\n', from);
      if j < 0 then from else SkipIndex(s, n - 1, j + 1)
  }

  /** The text without its first `n` lines (all of it when it has fewer
      newlines than that, but for an unterminated last line). */
  function DropLines(s: string, n: int): string
  {
    s[SkipIndex(s, n, 0)..]
  }

  /** Skipping `n` lines from a position with at least `n` newlines after
      it moves past exactly `n` newlines and stops right after one. */
  lemma {:induction false} SkipIndexCount(s: string, n: nat, from: nat, r: nat)
    requires from <= |s| && r == SkipIndex(s, n, from)
    requires Newlines(s[..from]) + n <= Newlines(s)
    ensures Newlines(s[..r]) == Newlines(s[..from]) + n
    ensures n > 0 ==> 0 < r && s[r - 1] == '\n'
  {
    if n > 0 {
      var j := IndexOfFrom(s, '\n', from);
      CountStep(s, from, j);
      if j < 0 {
        assert false;
      }
      SkipIndexCount(s, n - 1, j + 1, r);
    }
  }

  /** Dropping `n` lines from a text that has at least `n` of them leaves
      its end, holding `n` fewer newlines, cut right after a newline. */
  lemma {:induction false} DropLinesCount(s: string, n: nat)
    requires n <= Newlines(s)
    ensures var m := SkipIndex(s, n, 0);
      && DropLines(s, n) == s[m..]
      && Newlines(s[m..]) == Newlines(s) - n
      && (n > 0 ==> 0 < m && s[m - 1] == '\n')
  {
    var m := SkipIndex(s, n, 0);
    assert s[..0] == [];
    SkipIndexCount(s, n, 0, m);
    NewlinesAppend(s[..m], s[m..]);
    assert s[..m] + s[m..] == s;
  }

  /** The trimming loop of the writeSync override: skips `diff` lines,
      giving the index where the kept text starts. */
  method SkipLines(text: string, diff: int) returns (index: nat)
    ensures index == SkipIndex(text, diff, 0)
  {
    index := 0;
    var i := 0;
    while i < diff
      invariant 0 <= i && (i <= diff || i == 0)
      invariant 0 <= index <= |text|
      invariant SkipIndex(text, diff - i, index) == SkipIndex(text, diff, 0)
    {
      var newIndex := IndexOfFrom(text, '\n', index);
      if newIndex < 0 {
        break;
      }
      index := newIndex + 1;
      i := i + 1;
    }
  }

  /** The log after a write appended `all` to it: trimmed to its last
      LogTextMax lines once it holds more. */
  function TrimLog(all: string): string
  {
    if Newlines(all) > LogTextMax then DropLines(all, Newlines(all) - LogTextMax) else all
  }

  /** The trimmed log keeps min(lines, LogTextMax) newlines, is the end
      of the text, and begins right after a newline of it when anything
      was cut. */
  lemma {:induction false} TrimLogKeeps(all: string)
    ensures var r := TrimLog(all);
      && |r| <= |all| && all[|all| - |r|..] == r
      && Newlines(r) == (if Newlines(all) > LogTextMax then LogTextMax else Newlines(all))
      && (|r| < |all| ==> all[|all| - |r| - 1] == '\n')
  {
    if Newlines(all) > LogTextMax {
      var n := Newlines(all) - LogTextMax;
      DropLinesCount(all, n);
      var m := SkipIndex(all, n, 0);
      assert TrimLog(all) == all[m..];
      assert |all| - |all[m..]| == m;
    } else {
      assert all[0..] == all;
    }
  }

  lemma {:induction false} SuffixOfSuffix(log: string, written: string, more: string, r: string)
    requires |log| <= |written| && written[|written| - |log|..] == log
    requires |r| <= |log + more| && (log + more)[|log + more| - |r|..] == r
    ensures |r| <= |written + more| && (written + more)[|written + more| - |r|..] == r
  {
    var w := written + more;
    forall k | 0 <= k < |r|
      ensures w[|w| - |r| + k] == r[k]
    {
      var x := log + more;
      assert r[k] == x[|x| - |r| + k];
      if |x| - |r| + k < |log| {
        assert x[|x| - |r| + k] == log[|x| - |r| + k];
      }
    }
  }

  /** The body of the writeSync override on the log: counts the new
      text's lines, appends it, and trims the log when it holds more than
      LogTextMax lines. */
  method AppendLog(log: string, counter: int, bufText: string) returns (text: string, newCounter: int)
    requires counter == Newlines(log)
    ensures text == TrimLog(log + bufText) && newCounter == Newlines(text)
    ensures |text| <= |log + bufText| && (log + bufText)[|log + bufText| - |text|..] == text
    ensures newCounter <= LogTextMax
  {
    var newLineCount := CountNewLine(bufText);
    newCounter := counter + newLineCount;
    text := log + bufText;
    NewlinesAppend(log, bufText);
    ghost var all := text;
    TrimLogKeeps(all);
    if newCounter > LogTextMax {
      var diff := newCounter - LogTextMax;
      var index := SkipLines(text, diff);
      text := text[index..];
      newCounter := LogTextMax;
    }
  }

  /** The state of the loader's writeSync override: the captured log and
      its newline count, every text written so far, and the calls passed
      on to the runtime's own writeSync. The exit handler shows the log
      on the crash screen. */
  class CrashLog {
    var LogText: string
    var NewLineCounter: int
    ghost var Written: string
    var Forwarded: seq<(int, seq<Byte>)>
    var CrashScreenShown: bool
    var CrashErrorText: string

    /** The count matches the log, the log keeps at most LogTextMax
        lines, and it is the end of everything written. */
    ghost predicate Valid()
      reads this
    {
      && NewLineCounter == Newlines(LogText) && NewLineCounter <= LogTextMax
      && |LogText| <= |Written| && Written[|Written| - |LogText|..] == LogText
    }

    constructor ()
      ensures Valid() && LogText == [] && Written == [] && Forwarded == []
      ensures !CrashScreenShown && CrashErrorText == []
    {
      LogText := [];
      NewLineCounter := 0;
      Written := [];
      Forwarded := [];
      CrashScreenShown := false;
      CrashErrorText := [];
    }

    /** The override of fs.writeSync for a write of `buf`, which
        TextDecoder decodes to `bufText`: appends the text, trims the log
        back to LogTextMax lines, and hands the write on unchanged. */
    method WriteSync(fd: int, buf: seq<Byte>, bufText: string)
      requires Valid()
      modifies this`LogText, this`NewLineCounter, this`Written, this`Forwarded
      ensures Valid()
      ensures Written == old(Written) + bufText
      ensures Forwarded == old(Forwarded) + [(fd, buf)]
      ensures LogText == TrimLog(old(LogText) + bufText)
    {
      ghost var oldLog := LogText;
      var text, counter := AppendLog(LogText, NewLineCounter, bufText);
      SuffixOfSuffix(oldLog, Written, bufText, text);
      LogText := text;
      NewLineCounter := counter;
      Written := Written + bufText;
      Forwarded := Forwarded + [(fd, buf)];
    }

    /** go.exit: a non-zero status shows the crash screen with the log. */
    method Exit(code: int)
      modifies this`CrashScreenShown, this`CrashErrorText
      ensures code != 0 ==> CrashScreenShown && CrashErrorText == LogText
      ensures code == 0 ==> CrashScreenShown == old(CrashScreenShown) && CrashErrorText == old(CrashErrorText)
    {
      if code != 0 {
        CrashScreenShown := true;
        CrashErrorText := LogText;
      }
    }
  }
}
