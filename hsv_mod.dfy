/** The HSV modifier table (hsv_mod.go), saved to and loaded from a JSON
    object keyed by the index names. The generated String method of
    HSVmodTableIndex is not part of this model; its names are taken to be
    the constants' identifiers, as stringer writes them. */
module HSVMod {
  import opened Wrappers
  import NameTable

  /** HSVmod; Go's float64 fields as exact reals. */
  datatype HSVmod = HSVmod(Hue: real, Saturation: real, Value: real)

  const ZeroHSVmod := HSVmod(0.0, 0.0, 0.0)

  const HSVmodTableSize := 1

  const Names: seq<string> := ["HSVmodBg"]

  lemma {:induction false} NamesDistinct()
    ensures NameTable.Distinct(Names)
  {
  }

  /** HSVmodTableToJson: one entry per index, under the index's name. */
  method HSVmodTableToJson(table: seq<HSVmod>) returns (tableMap: map<string, HSVmod>)
    requires |table| == HSVmodTableSize
    ensures forall k :: k in tableMap <==> k in Names
    ensures forall i :: 0 <= i < HSVmodTableSize ==> tableMap[Names[i]] == table[i]
  {
    tableMap := NameTable.ToJson(Names, table);
    NameTable.ToMapLast(Names, table, 0);
  }

  /** HSVmodTableFromJson. On an unmarshal error the zero table comes
      back with the error; otherwise every index takes its name's entry,
      and an index the object lacks is left as the zero HSVmod (there is
      no default, unlike the Bézier table). */
  method HSVmodTableFromJson(parsed: Option<map<string, HSVmod>>) returns (table: seq<HSVmod>, ok: bool)
    ensures ok <==> parsed.Some?
    ensures |table| == HSVmodTableSize
    ensures !ok ==> forall i :: 0 <= i < HSVmodTableSize ==> table[i] == ZeroHSVmod
    ensures ok ==> table == NameTable.DecodeByNames(Names, parsed.value, ZeroHSVmod, ZeroHSVmod)
    ensures ok ==> forall i :: 0 <= i < HSVmodTableSize ==>
      table[i] == if Names[i] in parsed.value then parsed.value[Names[i]] else ZeroHSVmod
  {
    if parsed.None? {
      return seq(HSVmodTableSize, _ => ZeroHSVmod), false;
    }
    table := NameTable.FromJsonByNames(Names, parsed.value, ZeroHSVmod, ZeroHSVmod);
    ok := true;
  }

  /** Loading a saved table gives it back. */
  lemma {:induction false} HSVmodTableRoundTrip(table: seq<HSVmod>)
    requires |table| == HSVmodTableSize
    ensures NameTable.DecodeByNames(Names, NameTable.ToMap(Names, table), ZeroHSVmod, ZeroHSVmod) == table
  {
    NameTable.RoundTripByNames(Names, table, ZeroHSVmod, ZeroHSVmod);
  }
}
