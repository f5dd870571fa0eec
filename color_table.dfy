/** The colour table (color_table.go): ten NRGBA colours indexed by
    ColorTableIndex, saved to and loaded from a JSON object keyed by the
    indices' String() names. */
module ColorTable {
  import opened Wrappers
  import NameTable
  import ColorTableIndexString

  /** color.NRGBA; each channel is a byte. */
  datatype NRGBA = NRGBA(R: int, G: int, B: int, A: int)

  const ZeroColor := NRGBA(0, 0, 0, 0)

  /** ColorTableSize in color_table.go's own enumeration (ColorBg through
      ColorFlag). */
  const ColorTableSize := 10

  /** The key of each index: ColorTableIndex(i).String(). */
  function Names(): (names: seq<string>)
    ensures |names| == ColorTableSize
  {
    seq(ColorTableSize, i requires 0 <= i < ColorTableSize => ColorTableIndexString.String(i))
  }

  /** The keys are pairwise distinct, since String is one-to-one. */
  lemma {:induction false} NamesDistinct()
    ensures NameTable.Distinct(Names())
  {
    forall i, j | 0 <= i < j < ColorTableSize
      ensures Names()[i] != Names()[j]
    {
      ColorTableIndexString.StringInjective(i, j);
    }
  }

  /** The table init installs, in index order: ColorBg,
      ColorTileNormal1, ColorTileNormal2, ColorTileNormalStroke,
      ColorTileRevealed1, ColorTileRevealed2, ColorTileRevealedStroke,
      ColorNumber, ColorMine, ColorFlag. */
  const DefaultColorTable: seq<NRGBA> := [
    NRGBA(10, 10, 10, 255),
    NRGBA(30, 30, 30, 255), NRGBA(50, 50, 50, 255), NRGBA(150, 150, 150, 255),
    NRGBA(255, 255, 255, 255), NRGBA(255, 255, 255, 255), NRGBA(150, 150, 150, 255),
    NRGBA(10, 10, 10, 255),
    NRGBA(255, 255, 255, 255), NRGBA(255, 200, 200, 255)]

  /** ColorTableToJson: one entry per index, under the index's name. */
  method ColorTableToJson(table: seq<NRGBA>) returns (tableMap: map<string, NRGBA>)
    requires |table| == ColorTableSize
    ensures forall k :: k in tableMap <==> k in Names()
    ensures forall i :: 0 <= i < ColorTableSize ==> tableMap[Names()[i]] == table[i]
  {
    tableMap := NameTable.ToJson(Names(), table);
    NamesDistinct();
    forall i | 0 <= i < ColorTableSize
      ensures tableMap[Names()[i]] == table[i]
    {
      NameTable.ToMapLast(Names(), table, i);
    }
  }

  /** ColorTableFromJson. `parsed` is the outcome of json.Unmarshal: on
      an error the zero table comes back with the error. Otherwise each
      index whose name is a key takes that key's colour; keys that are no
      index name are ignored and absent indices stay the zero colour. */
  method ColorTableFromJson(parsed: Option<map<string, NRGBA>>) returns (table: seq<NRGBA>, ok: bool)
    ensures ok <==> parsed.Some?
    ensures |table| == ColorTableSize
    ensures !ok ==> forall i :: 0 <= i < ColorTableSize ==> table[i] == ZeroColor
    ensures ok ==> table == NameTable.DecodeByKeys(Names(), parsed.value, ZeroColor)
    ensures ok ==> forall i :: 0 <= i < ColorTableSize ==>
      table[i] == if Names()[i] in parsed.value then parsed.value[Names()[i]] else ZeroColor
  {
    if parsed.None? {
      return seq(ColorTableSize, _ => ZeroColor), false;
    }
    table := NameTable.FromJsonByKeys(Names(), parsed.value, ZeroColor);
    ok := true;
    NamesDistinct();
  }

  /** Loading a saved table gives it back. */
  lemma {:induction false} ColorTableRoundTrip(table: seq<NRGBA>)
    requires |table| == ColorTableSize
    ensures NameTable.DecodeByKeys(Names(), NameTable.ToMap(Names(), table), ZeroColor) == table
  {
    NamesDistinct();
    NameTable.RoundTripByKeys(Names(), table, ZeroColor);
  }
}
