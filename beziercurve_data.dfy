/** The table of Bézier easing curves (beziercurve_data.go), saved to and
    loaded from a JSON object keyed by the index names. The generated
    String method of BezierTableIndex is not part of this model; its
    names are taken to be the constants' identifiers, as stringer writes
    them. */
module BezierData {
  import opened Wrappers
  import opened Math
  import NameTable

  /** BezierCurveData: the four control points of a cubic curve. Go's
      `[4]FPoint` is a value; `Points` holds exactly four. */
  datatype BezierCurveData = BezierCurveData(Points: seq<FPoint>)
  {
    predicate Valid() { |Points| == 4 }
  }

  /** The Go zero value: four points at the origin. */
  const ZeroCurve := BezierCurveData([FPoint(0.0, 0.0), FPoint(0.0, 0.0), FPoint(0.0, 0.0), FPoint(0.0, 0.0)])

  /** DefaultBezierCurveData: (0,0), (0.3,0), (0.7,1), (1,1). */
  const DefaultBezierCurveData :=
    BezierCurveData([FPoint(0.0, 0.0), FPoint(0.3, 0.0), FPoint(0.7, 1.0), FPoint(1.0, 1.0)])

  const BezierTableSize := 9

  const Names: seq<string> := [
    "BezierTileRevealScale", "BezierTileRevealOffsetY",
    "BezierBoardHideTile", "BezierBoardHideTileAlpha", "BezierBoardHideButton",
    "BezierBoardShowTileOffsetY", "BezierBoardShowTileAlpha", "BezierBoardShowTileScale",
    "BezierBoardZoomOut"]

  lemma {:induction false} NamesDistinct()
    ensures NameTable.Distinct(Names)
  {
  }

  /** init: every entry of the table is the default curve. */
  method InitBezierTable() returns (table: seq<BezierCurveData>)
    ensures |table| == BezierTableSize
    ensures forall i :: 0 <= i < BezierTableSize ==> table[i] == DefaultBezierCurveData
  {
    table := seq(BezierTableSize, _ => ZeroCurve);
    var i := 0;
    while i < BezierTableSize
      invariant 0 <= i <= BezierTableSize && |table| == BezierTableSize
      invariant forall j :: 0 <= j < i ==> table[j] == DefaultBezierCurveData
    {
      table := table[i := DefaultBezierCurveData];
      i := i + 1;
    }
  }

  /** BezierTableToJson: one entry per index, under the index's name. */
  method BezierTableToJson(table: seq<BezierCurveData>) returns (tableMap: map<string, BezierCurveData>)
    requires |table| == BezierTableSize
    ensures forall k :: k in tableMap <==> k in Names
    ensures forall i :: 0 <= i < BezierTableSize ==> tableMap[Names[i]] == table[i]
  {
    tableMap := NameTable.ToJson(Names, table);
    NamesDistinct();
    forall i | 0 <= i < BezierTableSize
      ensures tableMap[Names[i]] == table[i]
    {
      NameTable.ToMapLast(Names, table, i);
    }
  }

  /** BezierTableFromJson. On an unmarshal error the zero table comes
      back with the error; otherwise every index takes its name's entry,
      and an index the object lacks gets the default curve. */
  method BezierTableFromJson(parsed: Option<map<string, BezierCurveData>>)
    returns (table: seq<BezierCurveData>, ok: bool)
    ensures ok <==> parsed.Some?
    ensures |table| == BezierTableSize
    ensures !ok ==> forall i :: 0 <= i < BezierTableSize ==> table[i] == ZeroCurve
    ensures ok ==> table == NameTable.DecodeByNames(Names, parsed.value, DefaultBezierCurveData, ZeroCurve)
    ensures ok ==> forall i :: 0 <= i < BezierTableSize ==>
      table[i] == if Names[i] in parsed.value then parsed.value[Names[i]] else DefaultBezierCurveData
  {
    if parsed.None? {
      return seq(BezierTableSize, _ => ZeroCurve), false;
    }
    table := NameTable.FromJsonByNames(Names, parsed.value, DefaultBezierCurveData, ZeroCurve);
    ok := true;
    NamesDistinct();
  }

  /** Loading a saved table gives it back. */
  lemma {:induction false} BezierTableRoundTrip(table: seq<BezierCurveData>)
    requires |table| == BezierTableSize
    ensures NameTable.DecodeByNames(Names, NameTable.ToMap(Names, table), DefaultBezierCurveData, ZeroCurve) == table
  {
    NamesDistinct();
    NameTable.RoundTripByNames(Names, table, DefaultBezierCurveData, ZeroCurve);
  }
}
