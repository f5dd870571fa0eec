/** ColorTableIndex.String, as generated by stringer
    (colortableindex_string.go): the names of the 32 colour indices are
    stored back to back in one string, cut out by a table of offsets. */
module ColorTableIndexString {
  import opened GoConv

  /** The names, in index order; `NameData` is their concatenation, the
      generated `_ColorTableIndex_name`. */
  const Names: seq<string> := [
    "ColorBg", "ColorTopUIBg", "ColorTopUITitle", "ColorTopUIButton",
    "ColorTopUIButtonOnHover", "ColorTopUIButtonOnDown", "ColorTopUIFlag", "ColorTileNormal1",
    "ColorTileNormal2", "ColorTileNormalStroke", "ColorTileRevealed1", "ColorTileRevealed2",
    "ColorTileRevealedStroke", "ColorNumber1", "ColorNumber2", "ColorNumber3",
    "ColorNumber4", "ColorNumber5", "ColorNumber6", "ColorNumber7",
    "ColorNumber8", "ColorFlag", "ColorElementWon", "ColorMineBg1",
    "ColorMineBg2", "ColorMine", "ColorTileHighLight", "ColorWater1",
    "ColorWater2", "ColorWater3", "ColorWater4", "ColorTableSize"]

  /** `_ColorTableIndex_index`. */
  const Index: seq<int> := [0, 7, 19, 34, 50, 73, 95, 109, 125, 141, 162, 180, 198, 221, 233, 245,
                            257, 269, 281, 293, 305, 317, 326, 341, 353, 365, 374, 392, 403, 414,
                            425, 436, 450]

  function Concat(names: seq<string>): (s: string)
  {
    if names == [] then [] else Concat(names[..|names| - 1]) + names[|names| - 1]
  }

  const NameData: string := Concat(Names)

  /** colortableindex_string.go ColorTableIndex.String. */
  function String(i: int): (s: string)
    ensures s != []
    ensures 0 <= i < |Index| - 1 ==> |s| == Index[i + 1] - Index[i]
  {
    if i < 0 || i >= |Index| - 1 then Unknown(i)
    else
      NameDataLength();
      NameData[Index[i]..Index[i + 1]]
  }

  // ---------------------------------------------------------------
  // The offsets cut out exactly the names
  // ---------------------------------------------------------------

  /** Consecutive offsets differ by the length of the name between
      them. */
  lemma {:induction false} IndexSteps()
    ensures |Index| == |Names| + 1 && Index[0] == 0
    ensures forall i :: 0 <= i < |Names| ==> Index[i + 1] == Index[i] + |Names[i]|
  {
  }

  /** Each offset is the total length of the names before it. */
  lemma {:induction false} IndexIsPrefixLength(k: nat)
    requires k <= |Names|
    ensures Index[k] == |Concat(Names[..k])|
  {
    IndexSteps();
    if k > 0 {
      IndexIsPrefixLength(k - 1);
      assert Names[..k][..k - 1] == Names[..k - 1];
    }
  }

  /** Cutting a concatenation at the prefix lengths gives the pieces. */
  lemma {:induction false} ConcatSlice(names: seq<string>, i: nat)
    requires i < |names|
    ensures |Concat(names[..i])| + |names[i]| <= |Concat(names)|
    ensures Concat(names)[|Concat(names[..i])|..|Concat(names[..i])| + |names[i]|] == names[i]
  {
    var n := |names| - 1;
    var init := names[..n];
    assert Concat(names) == Concat(init) + names[n];
    if i < n {
      ConcatSlice(init, i);
      assert init[..i] == names[..i];
      assert init[i] == names[i];
    } else {
      assert names[..i] == init;
    }
  }

  /** The offsets stay inside the name data. */
  lemma {:induction false} NameDataLength()
    ensures |NameData| == 450
    ensures forall i :: 0 <= i < |Index| ==> 0 <= Index[i] <= 450
  {
    IndexIsPrefixLength(|Names|);
    assert Names[..|Names|] == Names;
  }

  /** An index in range names itself. */
  lemma {:induction false} StringIsName(i: int)
    requires 0 <= i < |Names|
    ensures String(i) == Names[i]
  {
    IndexSteps();
    IndexIsPrefixLength(i);
    IndexIsPrefixLength(i + 1);
    ConcatSlice(Names, i);
  }

  /** The offsets increase strictly, so no name is empty. */
  lemma {:induction false} IndexIncreasing()
    ensures forall i :: 0 <= i < |Index| - 1 ==> Index[i] < Index[i + 1]
  {
  }

  // ---------------------------------------------------------------
  // Every index has its own name
  // ---------------------------------------------------------------

  lemma {:induction false} NamesDistinct0()
    ensures forall i, j :: 0 <= i < 2 && i < j < |Names| ==> Names[i] != Names[j]
  {
  }

  lemma {:induction false} NamesDistinct1()
    ensures forall i, j :: 2 <= i < 4 && i < j < |Names| ==> Names[i] != Names[j]
  {
  }

  lemma {:induction false} NamesDistinct2()
    ensures forall i, j :: 4 <= i < 6 && i < j < |Names| ==> Names[i] != Names[j]
  {
  }

  lemma {:induction false} NamesDistinct3()
    ensures forall i, j :: 6 <= i < 8 && i < j < |Names| ==> Names[i] != Names[j]
  {
  }

  lemma {:induction false} NamesDistinct4()
    ensures forall i, j :: 8 <= i < 12 && i < j < |Names| ==> Names[i] != Names[j]
  {
  }

  lemma {:induction false} NamesDistinct5()
    ensures forall i, j :: 12 <= i < 16 && i < j < |Names| ==> Names[i] != Names[j]
  {
  }

  lemma {:induction false} NamesDistinct6()
    ensures forall i, j :: 16 <= i < 20 && i < j < |Names| ==> Names[i] != Names[j]
  {
  }

  lemma {:induction false} NamesDistinct7()
    ensures forall i, j :: 20 <= i < 24 && i < j < |Names| ==> Names[i] != Names[j]
  {
  }

  lemma {:induction false} NamesDistinct8()
    ensures forall i, j :: 24 <= i < 32 && i < j < |Names| ==> Names[i] != Names[j]
  {
  }

  lemma {:induction false} NamesDistinct()
    ensures forall i, j :: 0 <= i < j < |Names| ==> Names[i] != Names[j]
  {
    NamesDistinct0(); NamesDistinct1(); NamesDistinct2(); NamesDistinct3(); NamesDistinct4();
    NamesDistinct5(); NamesDistinct6(); NamesDistinct7(); NamesDistinct8();
  }

  /** The text printed for an index out of range. */
  function Unknown(i: int): string
  {
    "ColorTableIndex(" + FormatInt(i) + ")"
  }

  lemma {:induction false} UnknownInjective(i: int, j: int)
    requires Unknown(i) == Unknown(j)
    ensures i == j
  {
    var p := "ColorTableIndex(";
    assert FormatInt(i) == Unknown(i)[|p|..|Unknown(i)| - 1];
    assert FormatInt(j) == Unknown(j)[|p|..|Unknown(j)| - 1];
    FormatIntInjective(i, j);
  }

  lemma {:induction false} UnknownEndsInParen(i: int)
    ensures Unknown(i)[|Unknown(i)| - 1] == ')'
  {
  }

  /** String is one-to-one on all integers: in-range names are pairwise
      distinct, out-of-range ones carry a parenthesis no name has, and
      differ by their decimal digits. */
  lemma {:induction false} StringInjective(i: int, j: int)
    requires i != j
    ensures String(i) != String(j)
  {
    var inI, inJ := 0 <= i < |Names|, 0 <= j < |Names|;
    if inI && inJ {
      NamesDiffer(i, j);
    } else if !inI && !inJ {
      UnknownsDiffer(i, j);
    } else if inI {
      NameIsNotUnknown(i, j);
    } else {
      NameIsNotUnknown(j, i);
    }
  }

  lemma {:induction false} NamesDiffer(i: int, j: int)
    requires 0 <= i < |Names| && 0 <= j < |Names| && i != j
    ensures String(i) != String(j)
  {
    StringIsName(i);
    StringIsName(j);
    NamesDistinct();
  }

  lemma {:induction false} UnknownsDiffer(i: int, j: int)
    requires !(0 <= i < |Names|) && !(0 <= j < |Names|) && i != j
    ensures String(i) != String(j)
  {
    StringUnknown(i);
    StringUnknown(j);
    if Unknown(i) == Unknown(j) {
      UnknownInjective(i, j);
    }
  }

  lemma {:induction false} NameIsNotUnknown(k: int, out: int)
    requires 0 <= k < |Names| && !(0 <= out < |Names|)
    ensures String(k) != String(out)
  {
    NameEnd(k);
    UnknownEndsInParen(out);
    StringUnknown(out);
    LastDiffers(String(k), String(out));
  }

  lemma {:induction false} NameEnd(k: int)
    requires 0 <= k < |Names|
    ensures String(k) != [] && String(k)[|String(k)| - 1] != ')'
  {
    StringIsName(k);
    NoParenInNames(k);
  }

  lemma {:induction false} StringUnknown(i: int)
    requires !(0 <= i < |Names|)
    ensures String(i) == Unknown(i)
  {
  }

  lemma {:induction false} LastDiffers(a: string, b: string)
    requires a != [] && b != [] && a[|a| - 1] != b[|b| - 1]
    ensures a != b
  {
  }

  /** No name ends in a parenthesis. */
  lemma {:induction false} NoParenInNames(k: int)
    requires 0 <= k < |Names|
    ensures Names[k] != [] && Names[k][|Names[k]| - 1] != ')'
  {
    if k < 16 { NoParenLow(); } else { NoParenHigh(); }
  }

  lemma {:induction false} NoParenLow()
    ensures forall k :: 0 <= k < 16 ==> Names[k] != [] && Names[k][|Names[k]| - 1] != ')'
  {
  }

  lemma {:induction false} NoParenHigh()
    ensures forall k :: 16 <= k < 32 ==> Names[k] != [] && Names[k][|Names[k]| - 1] != ')'
  {
  }
}
