/** Small helpers of the game: splitting a duration into clock
    components, a case-insensitive file extension test and a
    two-dimensional slice allocator. */
module Util {
  import opened GoInt
  import GoStrings

  /** time.Duration units, in nanoseconds. */
  const Second: int := 1_000_000_000
  const Minute: int := 60 * Second
  const Hour: int := 60 * Minute

  /** util.go GetHourMinuteSeconds: whole hours, the minutes and the
      seconds left over, each with Go's truncating division. */
  function GetHourMinuteSeconds(d: int): (r: (int, int, int))
    ensures d >= 0 ==> r.0 >= 0 && r.1 >= 0 && r.2 >= 0
    ensures d <= 0 ==> r.0 <= 0 && r.1 <= 0 && r.2 <= 0
    ensures -60 < r.1 < 60 && -60 < r.2 < 60
  {
    (Quot(d, Hour), Quot(Rem(d, Hour), Minute), Quot(Rem(d, Minute), Second))
  }

  /** For a non-negative duration the minutes and seconds are clock
      digits and the three parts add up to the whole seconds. */
  lemma {:induction false} HourMinuteSecondsNonNegative(d: int)
    requires d >= 0
    ensures var (h, m, s) := GetHourMinuteSeconds(d);
      h >= 0 && 0 <= m < 60 && 0 <= s < 60 && h * 3600 + m * 60 + s == d / Second
  {
    var t, r0 := d / Second, d % Second;
    var h, u := t / 3600, t % 3600;
    var m, s := u / 60, u % 60;
    ClockParts(d, t, r0, h, u, m, s);
    NonNegativeAgree(d, Hour);
    NonNegativeAgree(d, Minute);
    NonNegativeAgree(d % Hour, Minute);
    NonNegativeAgree(d % Minute, Second);
  }

  /** The arithmetic behind the clock digits, on Euclidean operators. */
  lemma {:induction false} ClockParts(d: nat, t: nat, r0: nat, h: nat, u: nat, m: nat, s: nat)
    requires d == t * Second + r0 && r0 < Second
    requires t == h * 3600 + u && u < 3600
    requires u == m * 60 + s && s < 60
    ensures d / Hour == h && (d % Hour) / Minute == m
    ensures (d % Minute) / Second == s && d / Second == t
  {
    DivModUnique(d, t, r0, Second);
    DivModUnique(d, h, u * Second + r0, Hour);
    DivModUnique(u * Second + r0, m, s * Second + r0, Minute);
    DivModUnique(d, h * 60 + m, s * Second + r0, Minute);
    DivModUnique(s * Second + r0, s, r0, Second);
  }

  /** A negative duration gives the negated parts of its magnitude. */
  lemma {:induction false} HourMinuteSecondsNegative(d: int)
    requires d < 0
    ensures var (h, m, s) := GetHourMinuteSeconds(d);
      var (h', m', s') := GetHourMinuteSeconds(-d);
      h == -h' && m == -m' && s == -s'
  {
    QuotRemNegate(-d, Hour);
    QuotRemNegate(-d, Minute);
    QuotRemNegate(Rem(-d, Hour), Minute);
    QuotRemNegate(Rem(-d, Minute), Second);
  }

  /** util.go CheckFileExt: does the path end in the extension, ignoring
      the case of ASCII letters. */
  function CheckFileExt(path: string, ext: string): (r: bool)
    ensures r ==> |ext| <= |path|
    ensures |ext| <= |path| && path[|path| - |ext|..] == ext ==> r
  {
    GoStrings.HasSuffix(GoStrings.ToLower(path), GoStrings.ToLower(ext))
  }

  /** The extension test compares the tail of the path letter by letter,
      up to case. */
  lemma {:induction false} CheckFileExtMeans(path: string, ext: string)
    ensures CheckFileExt(path, ext) <==>
      |ext| <= |path| &&
      forall i :: 0 <= i < |ext| ==>
        GoStrings.LowerChar(path[|path| - |ext| + i]) == GoStrings.LowerChar(ext[i])
  {
    var p, e := GoStrings.ToLower(path), GoStrings.ToLower(ext);
    if |ext| <= |path| {
      if forall i :: 0 <= i < |ext| ==> GoStrings.LowerChar(path[|path| - |ext| + i]) == GoStrings.LowerChar(ext[i]) {
        assert p[|p| - |e|..] == e;
      }
      if CheckFileExt(path, ext) {
        forall i | 0 <= i < |ext|
          ensures GoStrings.LowerChar(path[|path| - |ext| + i]) == GoStrings.LowerChar(ext[i])
        {
          assert p[|p| - |e|..][i] == e[i];
        }
      }
    }
  }

  /** The documented examples: same case, different case, different
      extension. */
  lemma {:induction false} CheckFileExtSameCase()
    ensures CheckFileExt("image.png", ".png")
  {
    assert GoStrings.ToLower("image.png") == "image.png";
    assert GoStrings.ToLower(".png") == ".png";
    assert "image.png"[5..] == ".png";
  }

  lemma {:induction false} CheckFileExtUpperCase()
    ensures CheckFileExt("image.PNG", ".png")
  {
    assert GoStrings.ToLower("image.PNG") == "image.png";
    assert GoStrings.ToLower(".png") == ".png";
    assert "image.png"[5..] == ".png";
  }

  lemma {:induction false} CheckFileExtOtherExt()
    ensures !CheckFileExt("image.jpg", ".png")
  {
    var p := GoStrings.ToLower("image.jpg");
    assert p[6] == 'j';
  }

  /** util.go New2DArray: `width` fresh rows of `height` zero values. */
  method New2DArray<T>(width: nat, height: nat, zero: T) returns (arr: array<array<T>>)
    ensures fresh(arr) && arr.Length == width
    ensures forall i :: 0 <= i < width ==> fresh(arr[i]) && arr[i].Length == height
    ensures forall i, j :: 0 <= i < width && 0 <= j < height ==> arr[i][j] == zero
    ensures forall i, k :: 0 <= i < k < width ==> arr[i] != arr[k]
  {
    var empty := new T[0];
    arr := new array<T>[width](_ => empty);
    for i := 0 to width
      invariant forall k :: 0 <= k < i ==> fresh(arr[k]) && arr[k].Length == height
      invariant forall k, j :: 0 <= k < i && 0 <= j < height ==> arr[k][j] == zero
      invariant forall k, l :: 0 <= k < l < i ==> arr[k] != arr[l]
    {
      var row := new T[height](_ => zero);
      arr[i] := row;
    }
  }
}
