/** The two generic containers of common.go: a fixed-capacity ring buffer
    that overwrites its oldest element when full, and a slice-backed FIFO
    queue that shifts its elements on removal. */
module Common {
  import opened GoInt

  /** The three integer fields of a CircularQueue. */
  datatype Cursor = Cursor(Start: int, End: int, Length: int)

  /** The ring invariant over a buffer of capacity `n`. `Start` may reach
      `n` itself, because Dequeue reduces it modulo `n` before
      incrementing it. */
  predicate RingInv(c: Cursor, n: int)
  {
    && 0 <= n
    && 0 <= c.Length <= n
    && (n == 0 ==> c == Cursor(0, 0, 0))
    && (n > 0 ==> 0 <= c.Start <= n && 0 <= c.End < n && c.End == Wrap(c.Start + c.Length, n))
  }

  /** The logical contents: `Length` elements starting at `Start`, wrapping
      around the end of the buffer. */
  function View<T>(data: seq<T>, c: Cursor): (r: seq<T>)
    requires RingInv(c, |data|)
    ensures |r| == c.Length
  {
    if |data| == 0 then []
    else seq(c.Length, i requires 0 <= i < c.Length => data[Wrap(c.Start + i, |data|)])
  }

  /** `k % n` for `0 <= k < 3n`, by subtraction. Every index and cursor
      of the ring stays in that range, and the subtracting form keeps
      the ring's specification linear. */
  function Wrap(k: int, n: int): int
  {
    if k >= 2 * n then k - 2 * n else if k >= n then k - n else k
  }

  lemma {:induction false} WrapIsMod(k: int, n: int)
    requires 0 <= k < 3 * n
    ensures Wrap(k, n) == k % n
  {
    if k >= 2 * n {
      DivModUnique(k, 2, k - 2 * n, n);
    } else if k >= n {
      DivModUnique(k, 1, k - n, n);
    } else {
      DivModUnique(k, 0, k, n);
    }
  }

  /** The cursor update of Enqueue: when full, both ends advance; otherwise
      only the end advances and the length grows. */
  function EnqueueCursor(c: Cursor, n: int): (r: Cursor)
    requires n > 0
  {
    if c.Length >= n then Cursor(Wrap(c.Start + 1, n), Wrap(c.End + 1, n), c.Length)
    else Cursor(c.Start, Wrap(c.End + 1, n), c.Length + 1)
  }

  /** The cursor update of Dequeue: `Start % n + 1`, where `Start % n`
      is Wrap(Start, n) because `Start <= n`. */
  function DequeueCursor(c: Cursor, n: int): (r: Cursor)
    requires n > 0
  {
    Cursor(Wrap(c.Start, n) + 1, c.End, c.Length - 1)
  }

  lemma {:induction false} EnqueueKeepsRing(c: Cursor, n: int)
    requires n > 0 && RingInv(c, n)
    ensures RingInv(EnqueueCursor(c, n), n)
  {
  }

  lemma {:induction false} DequeueKeepsRing(c: Cursor, n: int)
    requires n > 0 && RingInv(c, n) && c.Length > 0
    ensures RingInv(DequeueCursor(c, n), n)
  {
  }

  /** Enqueue appends the item at the logical end; on a full buffer the
      oldest element is dropped first. */
  lemma {:induction false} EnqueueView<T>(data: seq<T>, c: Cursor, item: T)
    requires |data| > 0 && RingInv(c, |data|)
    ensures EnqueueKeepsRingHolds(c, |data|)
    ensures View(data[c.End := item], EnqueueCursor(c, |data|))
         == (if c.Length >= |data| then View(data, c)[1..] else View(data, c)) + [item]
  {
    EnqueueKeepsRing(c, |data|);
    if c.Length >= |data| {
      EnqueueFullView(data, c, item);
    } else {
      EnqueueRoomView(data, c, item);
    }
  }

  lemma {:induction false} EnqueueRoomView<T>(data: seq<T>, c: Cursor, item: T)
    requires |data| > 0 && RingInv(c, |data|) && c.Length < |data|
    requires RingInv(EnqueueCursor(c, |data|), |data|)
    ensures View(data[c.End := item], EnqueueCursor(c, |data|)) == View(data, c) + [item]
  {
    var n := |data|;
    var got := View(data[c.End := item], EnqueueCursor(c, n));
    var want := View(data, c) + [item];
    forall i | 0 <= i < |got|
      ensures got[i] == want[i]
    {
      assert got[i] == data[c.End := item][Wrap(c.Start + i, n)];
      if i < c.Length {
        assert Wrap(c.Start + i, n) != c.End;
        assert want[i] == data[Wrap(c.Start + i, n)];
      }
    }
  }

  lemma {:induction false} EnqueueFullView<T>(data: seq<T>, c: Cursor, item: T)
    requires |data| > 0 && RingInv(c, |data|) && c.Length == |data|
    requires RingInv(EnqueueCursor(c, |data|), |data|)
    ensures View(data[c.End := item], EnqueueCursor(c, |data|)) == View(data, c)[1..] + [item]
  {
    var n := |data|;
    var d := data[c.End := item];
    var got := View(d, EnqueueCursor(c, n));
    var want := View(data, c)[1..] + [item];
    assert c.End == Wrap(c.Start, n);
    forall i | 0 <= i < |got|
      ensures got[i] == want[i]
    {
      var r := EnqueueCursor(c, n);
      assert r.Start == Wrap(c.Start + 1, n);
      assert Wrap(r.Start + i, n) == Wrap(c.Start + (i + 1), n);
      assert got[i] == d[Wrap(c.Start + (i + 1), n)];
      if i < n - 1 {
        assert Wrap(c.Start + (i + 1), n) != c.End;
        assert want[i] == View(data, c)[i + 1] == data[Wrap(c.Start + (i + 1), n)];
      } else {
        assert Wrap(c.Start + (i + 1), n) == c.End;
      }
    }
  }

  /** The slot At reads for an index inside the queue is the slot View
      puts that element in. */
  lemma {:induction false} SlotOfIndex(c: Cursor, index: int, n: int)
    requires n > 0 && RingInv(c, n)
    ensures 0 <= index < c.Length ==> Rem(c.Start + index, n) == Wrap(c.Start + index, n)
  {
    if 0 <= index < c.Length {
      NonNegativeAgree(c.Start + index, n);
      WrapIsMod(c.Start + index, n);
    }
  }

  /** Names the conclusion of EnqueueKeepsRing so that EnqueueView can be
      stated over well-formed views. */
  predicate EnqueueKeepsRingHolds(c: Cursor, n: int)
    requires n > 0
  {
    RingInv(EnqueueCursor(c, n), n)
  }

  /** Dequeue yields the first element and leaves the rest. */
  lemma {:induction false} DequeueView<T>(data: seq<T>, c: Cursor)
    requires |data| > 0 && RingInv(c, |data|) && c.Length > 0
    ensures RingInv(DequeueCursor(c, |data|), |data|)
    ensures data[Wrap(c.Start, |data|)] == View(data, c)[0]
    ensures View(data, DequeueCursor(c, |data|)) == View(data, c)[1..]
  {
    var n := |data|;
    DequeueKeepsRing(c, n);
    var got := View(data, DequeueCursor(c, n));
    forall i | 0 <= i < |got|
      ensures got[i] == View(data, c)[i + 1]
    {
      assert Wrap(Wrap(c.Start, n) + 1 + i, n) == Wrap(c.Start + (i + 1), n);
    }
  }

  /** The index PeekLast reads, as written: `(End-1) % len(Data)` with Go's
      truncating remainder. */
  function PeekLastIndexAsWritten(c: Cursor, n: int): (r: int)
    requires n > 0
    ensures -n < r < n
  {
    Rem(c.End - 1, n)
  }

  /** The corrected index: one slot before End, wrapping to `n-1`. */
  function PeekLastIndex(c: Cursor, n: int): (r: int)
    requires n > 0 && RingInv(c, n) && c.Length > 0
    ensures 0 <= r < n
    ensures r == (c.Start + (c.Length - 1)) % n
  {
    PeekLastIndexIsLast(c, n);
    (c.End - 1 + n) % n
  }

  lemma {:induction false} PeekLastIndexIsLast(c: Cursor, n: int)
    requires n > 0 && RingInv(c, n) && c.Length > 0
    ensures (c.End - 1 + n) % n == (c.Start + (c.Length - 1)) % n
  {
    WrapIsMod(c.End - 1 + n, n);
    WrapIsMod(c.Start + (c.Length - 1), n);
  }

  /** Two enqueues into a queue of capacity 2 leave a full queue whose End
      is 0, and the written PeekLast index is then -1: an index-out-of-range
      panic on a non-empty queue. */
  lemma {:induction false} PeekLastAsWrittenOutOfRange()
    ensures var c := EnqueueCursor(EnqueueCursor(Cursor(0, 0, 0), 2), 2);
            RingInv(c, 2) && c.Length == 2 && PeekLastIndexAsWritten(c, 2) == -1
  {
  }

  /** In general, the written index is negative exactly when End is 0 on a
      buffer of capacity above 1, a state every wrapped queue reaches. */
  lemma {:induction false} PeekLastAsWrittenNegative(c: Cursor, n: int)
    requires n > 1 && RingInv(c, n)
    ensures PeekLastIndexAsWritten(c, n) < 0 <==> c.End == 0
  {
  }

  class CircularQueue<T(0)> {
    var End: int
    var Start: int
    var Length: int
    var Data: array<T>

    function Cur(): Cursor
      reads this
    {
      Cursor(Start, End, Length)
    }

    predicate Valid()
      reads this
    {
      RingInv(Cur(), Data.Length)
    }

    function Contents(): seq<T>
      reads this, Data
      requires Valid()
    {
      View(Data[..], Cur())
    }

    /** NewCircularQueue: an empty queue over a buffer of `size` slots. */
    constructor (size: nat)
      ensures Valid() && Contents() == [] && Data.Length == size
      ensures fresh(Data)
    {
      End, Start, Length := 0, 0, 0;
      Data := new T[size];
    }

    function IsFull(): (r: bool)
      reads this, Data
      requires Valid()
      ensures r <==> |Contents()| == Data.Length
    {
      Length >= Data.Length
    }

    function IsEmpty(): (r: bool)
      reads this, Data
      requires Valid()
      ensures r <==> Contents() == []
    {
      Length <= 0
    }

    method Enqueue(item: T)
      requires Valid() && Data.Length > 0
      modifies this, Data
      ensures Valid() && Data == old(Data)
      ensures Cur() == EnqueueCursor(old(Cur()), Data.Length)
      ensures Contents() == (if old(IsFull()) then old(Contents())[1..] else old(Contents())) + [item]
    {
      ghost var d0 := Data[..];
      EnqueueView(d0, Cur(), item);
      WrapIsMod(Start + 1, Data.Length);
      WrapIsMod(End + 1, Data.Length);
      var index := End;
      var isFull := IsFull();
      if isFull {
        Start := (Start + 1) % Data.Length;
        End := (End + 1) % Data.Length;
      } else {
        End := (End + 1) % Data.Length;
        Length := Length + 1;
      }
      Data[index] := item;
      assert Data[..] == d0[index := item];
    }

    method Dequeue() returns (item: T)
      requires Valid() && Length > 0
      modifies this
      ensures Valid() && Data == old(Data)
      ensures Cur() == DequeueCursor(old(Cur()), Data.Length)
      ensures item == old(Contents())[0]
      ensures Contents() == old(Contents())[1..]
    {
      DequeueView(Data[..], Cur());
      WrapIsMod(Start, Data.Length);
      Length := Length - 1;
      Start := Start % Data.Length;
      var returnIndex := Start;
      Start := Start + 1;
      item := Data[returnIndex];
    }

    function At(index: int): (r: T)
      reads this, Data
      requires Valid() && Data.Length > 0 && Rem(Start + index, Data.Length) >= 0
      ensures 0 <= index < Length ==> r == Contents()[index]
    {
      SlotOfIndex(Cur(), index, Data.Length);
      Data[Rem(Start + index, Data.Length)]
    }

    function PeekFirst(): (r: T)
      reads this, Data
      requires Valid() && Data.Length > 0
      ensures Length > 0 ==> r == Contents()[0]
    {
      WrapIsMod(Start, Data.Length);
      Data[Start % Data.Length]
    }

    /** PeekLast with the index corrected to wrap from 0 to `n-1`. */
    function PeekLast(): (r: T)
      reads this, Data
      requires Valid() && Data.Length > 0 && Length > 0
      ensures r == Contents()[Length - 1]
    {
      WrapIsMod(Start + (Length - 1), Data.Length);
      Data[PeekLastIndex(Cur(), Data.Length)]
    }

    method Clear()
      requires Valid()
      modifies this
      ensures Valid() && Contents() == [] && Data == old(Data)
      ensures Cur() == Cursor(0, 0, 0)
    {
      Length := 0;
      Start := 0;
      End := 0;
    }
  }

  /** Queue: a slice that grows at the end and shifts on removal. */
  class Queue<T> {
    var Data: seq<T>

    constructor ()
      ensures Data == []
    {
      Data := [];
    }

    function Length(): (r: nat)
      reads this
      ensures r == |Data|
    {
      |Data|
    }

    function IsEmpty(): (r: bool)
      reads this
      ensures r <==> Data == []
    {
      |Data| <= 0
    }

    method Enqueue(item: T)
      modifies this
      ensures Data == old(Data) + [item]
    {
      Data := Data + [item];
    }

    /** Returns the head, moving every later element one slot left. */
    method Dequeue() returns (item: T)
      requires |Data| > 0
      modifies this
      ensures item == old(Data)[0]
      ensures Data == old(Data)[1..]
    {
      item := Data[0];
      ghost var d0 := Data;
      var i := 0;
      while i + 1 < |Data|
        invariant 0 <= i < |Data| == |d0|
        invariant Data[..i] == d0[1..i + 1]
        invariant Data[i..] == d0[i..]
      {
        Data := Data[i := Data[i + 1]];
        i := i + 1;
      }
      Data := Data[..|Data| - 1];
    }

    function At(index: int): (r: T)
      reads this
      requires 0 <= index < |Data|
      ensures r == Data[index] && r in Data
    {
      Data[index]
    }

    method Set(index: int, item: T)
      requires 0 <= index < |Data|
      modifies this
      ensures Data == old(Data)[index := item]
    {
      Data := Data[index := item];
    }

    function PeekFirst(): (r: T)
      reads this
      requires |Data| > 0
      ensures r == Data[0] && Data == [r] + Data[1..]
    {
      Data[0]
    }

    function PeekLast(): (r: T)
      reads this
      requires |Data| > 0
      ensures r == Data[|Data| - 1] && Data == Data[..|Data| - 1] + [r]
    {
      Data[|Data| - 1]
    }

    method Clear()
      modifies this
      ensures Data == []
    {
      Data := Data[..0];
    }
  }
}
