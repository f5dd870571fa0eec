/** The on-screen debug messages (debug_print.go): a list of key/value
    messages cleared every frame, a list of persistent ones, and the text
    that DrawDebugMsgs assembles from both. */
module DebugPrint {
  import opened Wrappers
  import GoStrings

  datatype DebugMsg = DebugMsg(Key: string, Value: string)

  /** The position of the first message with `key`, or -1. */
  function FindKey(msgs: seq<DebugMsg>, key: string): (i: int)
    ensures -1 <= i < |msgs|
    ensures i >= 0 ==> msgs[i].Key == key
    ensures forall j :: 0 <= j < |msgs| && (i < 0 || j < i) ==> msgs[j].Key != key
  {
    if msgs == [] then -1
    else if msgs[0].Key == key then 0
    else
      var i := FindKey(msgs[1..], key);
      if i < 0 then -1 else i + 1
  }

  /** The value shown for `key`: that of its first message. */
  function Lookup(msgs: seq<DebugMsg>, key: string): Option<string>
  {
    var i := FindKey(msgs, key);
    if i < 0 then None else Some(msgs[i].Value)
  }

  predicate UniqueKeys(msgs: seq<DebugMsg>)
  {
    forall i, j :: 0 <= i < j < |msgs| ==> msgs[i].Key != msgs[j].Key
  }

  /** DebugPuts on a list: the first message with the key gets the new
      value in place; otherwise a message is appended. */
  function PutMsg(msgs: seq<DebugMsg>, key: string, value: string): (r: seq<DebugMsg>)
    ensures FindKey(msgs, key) >= 0 ==> |r| == |msgs|
    ensures FindKey(msgs, key) < 0 ==> r == msgs + [DebugMsg(key, value)]
    ensures forall j :: 0 <= j < |msgs| ==> r[j].Key == msgs[j].Key
    ensures forall j :: 0 <= j < |msgs| && j != FindKey(msgs, key) ==> r[j] == msgs[j]
  {
    var i := FindKey(msgs, key);
    if i >= 0 then msgs[i := msgs[i].(Value := value)] else msgs + [DebugMsg(key, value)]
  }

  /** After a put the key shows the new value, and every other key shows
      what it showed before. */
  lemma {:induction false} PutThenLookup(msgs: seq<DebugMsg>, key: string, value: string, other: string)
    requires other != key
    ensures Lookup(PutMsg(msgs, key, value), key) == Some(value)
    ensures Lookup(PutMsg(msgs, key, value), other) == Lookup(msgs, other)
  {
    var r := PutMsg(msgs, key, value);
    var i := FindKey(msgs, key);
    FindKeySameKeys(msgs, r, key);
    FindKeySameKeys(msgs, r, other);
    if i < 0 {
      assert r[|msgs|].Key == key;
      FindKeyAppend(msgs, DebugMsg(key, value), key);
      FindKeyAppend(msgs, DebugMsg(key, value), other);
    }
  }

  /** FindKey sees only the keys. */
  lemma {:induction false} FindKeySameKeys(a: seq<DebugMsg>, b: seq<DebugMsg>, key: string)
    requires |a| <= |b| && forall j :: 0 <= j < |a| ==> a[j].Key == b[j].Key
    ensures FindKey(a, key) >= 0 ==> FindKey(b, key) == FindKey(a, key)
  {
    var i := FindKey(a, key);
    if i >= 0 {
      var k := FindKey(b, key);
      assert b[i].Key == key;
      assert k >= 0 && k <= i;
      assert a[k].Key == key;
    }
  }

  lemma {:induction false} FindKeyAppend(a: seq<DebugMsg>, m: DebugMsg, key: string)
    requires FindKey(a, m.Key) < 0
    ensures FindKey(a + [m], key) == (if FindKey(a, key) >= 0 then FindKey(a, key) else if m.Key == key then |a| else -1)
  {
    var b := a + [m];
    FindKeySameKeys(a, b, key);
    var k := FindKey(b, key);
    assert b[|a|] == m;
    if FindKey(a, key) < 0 {
      if m.Key == key {
        assert k >= 0;
      }
    }
  }

  /** DebugPuts keeps the keys of a list unique. */
  lemma {:induction false} PutKeepsUnique(msgs: seq<DebugMsg>, key: string, value: string)
    requires UniqueKeys(msgs)
    ensures UniqueKeys(PutMsg(msgs, key, value))
  {
  }

  /** DebugPutsPersist as written: when the key is already persistent,
      the value is written into DebugMsgs at the persistent message's
      position, which panics if DebugMsgs is shorter. */
  function PutPersistAsWritten(debugMsgs: seq<DebugMsg>, persistent: seq<DebugMsg>, key: string, value: string)
    : (r: Option<(seq<DebugMsg>, seq<DebugMsg>)>)
    ensures FindKey(persistent, key) >= 0 ==> (r.None? <==> FindKey(persistent, key) >= |debugMsgs|)
    ensures FindKey(persistent, key) >= 0 && r.Some? ==> r.value.1 == persistent
    ensures FindKey(persistent, key) < 0 ==> r == Some((debugMsgs, persistent + [DebugMsg(key, value)]))
  {
    var i := FindKey(persistent, key);
    if i < 0 then Some((debugMsgs, persistent + [DebugMsg(key, value)]))
    else if i < |debugMsgs| then Some((debugMsgs[i := debugMsgs[i].(Value := value)], persistent))
    else None
  }

  /** Updating a persistent message as written either panics (nothing
      printed this frame yet) or overwrites an unrelated frame message
      while the persistent one keeps its old value. */
  lemma {:induction false} PutPersistAsWrittenWrongList()
    ensures PutPersistAsWritten([], [DebugMsg("fps", "60")], "fps", "30").None?
    ensures PutPersistAsWritten([DebugMsg("mouse", "1,2")], [DebugMsg("fps", "60")], "fps", "30")
         == Some(([DebugMsg("mouse", "30")], [DebugMsg("fps", "60")]))
  {
    var persistent := [DebugMsg("fps", "60")];
    assert persistent[0].Key == "fps";
    assert FindKey(persistent, "fps") == 0;
    var debugMsgs := [DebugMsg("mouse", "1,2")];
    assert debugMsgs[0 := debugMsgs[0].(Value := "30")] == [DebugMsg("mouse", "30")];
  }

  // ---------------------------------------------------------------
  // The assembled text
  // ---------------------------------------------------------------

  function Line(m: DebugMsg): string
  {
    m.Key + ": " + m.Value
  }

  function Lines(msgs: seq<DebugMsg>): (r: seq<string>)
    ensures |r| == |msgs| && forall i :: 0 <= i < |msgs| ==> r[i] == Line(msgs[i])
  {
    seq(|msgs|, i requires 0 <= i < |msgs| => Line(msgs[i]))
  }

  /** Joining is terminating every line but the last. */
  lemma {:induction false} JoinAsTerminated(ls: seq<string>, c: char)
    requires |ls| > 0
    ensures GoStrings.Join(ls, c) == GoStrings.Terminated(ls[..|ls| - 1], c) + ls[|ls| - 1]
  {
    if |ls| > 1 {
      JoinAsTerminated(ls[1..], c);
      assert ls[1..][..|ls| - 2] == ls[..|ls| - 1][1..];
    }
  }

  lemma {:induction false} TerminatedSnoc(ls: seq<string>, l: string, c: char)
    ensures GoStrings.Terminated(ls + [l], c) == GoStrings.Terminated(ls, c) + l + [c]
  {
    if ls != [] {
      TerminatedSnoc(ls[1..], l, c);
      assert (ls + [l])[1..] == ls[1..] + [l];
    }
  }

  /** When no key or value holds a newline, the text splits back into
      one line per message. */
  lemma {:induction false} TextSplitsIntoLines(msgs: seq<DebugMsg>)
    requires |msgs| > 0
    requires forall i :: 0 <= i < |msgs| ==> '\n' !in msgs[i].Key && '\n' !in msgs[i].Value
    ensures GoStrings.Split(GoStrings.Join(Lines(msgs), '\n'), '\n') == Lines(msgs)
  {
    var ls := Lines(msgs);
    forall k | 0 <= k < |ls|
      ensures '\n' !in ls[k]
    {
      assert ls[k] == msgs[k].Key + (": " + msgs[k].Value);
    }
    GoStrings.SplitJoin(ls, '\n');
  }

  class DebugPrintManager {
    var DebugMsgs: seq<DebugMsg>
    var PersistentDebugMsgs: seq<DebugMsg>

    constructor()
      ensures DebugMsgs == [] && PersistentDebugMsgs == []
    {
      DebugMsgs, PersistentDebugMsgs := [], [];
    }

    /** debug_print.go DebugPuts. */
    method DebugPuts(key: string, value: string)
      modifies this
      ensures DebugMsgs == PutMsg(old(DebugMsgs), key, value)
      ensures PersistentDebugMsgs == old(PersistentDebugMsgs)
    {
      var i := 0;
      while i < |DebugMsgs|
        invariant 0 <= i <= |DebugMsgs| && DebugMsgs == old(DebugMsgs)
        invariant forall j :: 0 <= j < i ==> DebugMsgs[j].Key != key
      {
        if DebugMsgs[i].Key == key {
          DebugMsgs := DebugMsgs[i := DebugMsgs[i].(Value := value)];
          return;
        }
        i := i + 1;
      }
      DebugMsgs := DebugMsgs + [DebugMsg(key, value)];
    }

    /** DebugPutsPersist with the update aimed at the persistent list,
        as its name and its append branch evidently intend. */
    method DebugPutsPersist(key: string, value: string)
      modifies this
      ensures PersistentDebugMsgs == PutMsg(old(PersistentDebugMsgs), key, value)
      ensures DebugMsgs == old(DebugMsgs)
    {
      var i := 0;
      while i < |PersistentDebugMsgs|
        invariant 0 <= i <= |PersistentDebugMsgs| && PersistentDebugMsgs == old(PersistentDebugMsgs)
        invariant forall j :: 0 <= j < i ==> PersistentDebugMsgs[j].Key != key
      {
        if PersistentDebugMsgs[i].Key == key {
          PersistentDebugMsgs := PersistentDebugMsgs[i := PersistentDebugMsgs[i].(Value := value)];
          return;
        }
        i := i + 1;
      }
      PersistentDebugMsgs := PersistentDebugMsgs + [DebugMsg(key, value)];
    }

    /** debug_print.go ClearDebugMsgs. */
    method ClearDebugMsgs()
      modifies this
      ensures DebugMsgs == [] && PersistentDebugMsgs == old(PersistentDebugMsgs)
    {
      DebugMsgs := DebugMsgs[..0];
    }

    /** The text DrawDebugMsgs builds: one "key: value" line per message,
        persistent ones first, newline-separated with none at the end. */
    method DebugText() returns (text: string)
      ensures text == GoStrings.Join(Lines(PersistentDebugMsgs + DebugMsgs), '\n')
    {
      var all := PersistentDebugMsgs + DebugMsgs;
      var lines := Lines(all);
      var total := |PersistentDebugMsgs| + |DebugMsgs|;
      text := "";
      var msgCounter := 0;
      for k := 0 to |PersistentDebugMsgs|
        invariant msgCounter == k
        invariant k < total ==> text == GoStrings.Terminated(lines[..k], '\n')
        invariant k == total ==> text == GoStrings.Join(lines, '\n')
      {
        text := AppendLine(text, lines, msgCounter, total, PersistentDebugMsgs[k]);
        msgCounter := msgCounter + 1;
      }
      for k := 0 to |DebugMsgs|
        invariant msgCounter == |PersistentDebugMsgs| + k
        invariant msgCounter < total ==> text == GoStrings.Terminated(lines[..msgCounter], '\n')
        invariant msgCounter == total ==> text == GoStrings.Join(lines, '\n')
      {
        text := AppendLine(text, lines, msgCounter, total, DebugMsgs[k]);
        msgCounter := msgCounter + 1;
      }
      if total == 0 {
        assert lines == [];
      }
    }
  }

  /** One step of the text assembly: the message's line, and a newline
      unless it is the last message. */
  method AppendLine(text: string, lines: seq<string>, counter: int, total: int, msg: DebugMsg)
    returns (text': string)
    requires 0 <= counter < total == |lines| && lines[counter] == Line(msg)
    requires text == GoStrings.Terminated(lines[..counter], '\n')
    ensures counter + 1 < total ==> text' == GoStrings.Terminated(lines[..counter + 1], '\n')
    ensures counter + 1 == total ==> text' == GoStrings.Join(lines, '\n')
  {
    text' := text + msg.Key + ": " + msg.Value;
    assert lines[..counter + 1] == lines[..counter] + [lines[counter]];
    if counter + 1 != total {
      TerminatedSnoc(lines[..counter], lines[counter], '\n');
      text' := text' + "\n";
    } else {
      JoinAsTerminated(lines, '\n');
    }
  }
}
