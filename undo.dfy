/** The undo history of www/index.js: `UndoQueue`, a ring of 100 slots
    holding the last 100 edits, and the sorted, duplicate-free list of
    `UndoNode`s a flood fill collects with `binary_search`. */
module Undo {
  import opened Wrappers
  import Grid

  /** `UndoQueue.SIZE`. */
  const Size: nat := 100

  // ---------------------------------------------------------------------
  // The ring, as a value

  /** The slots of the queue and the slot the next edit goes to. */
  datatype Ring<T> = Ring(slots: seq<Option<T>>, next: nat)

  ghost predicate WellFormed<T>(r: Ring<T>)
  {
    |r.slots| == Size && r.next < Size
  }

  /** The slot before n, wrapping from 0 to Size - 1. */
  function Back(n: nat): (b: nat)
    requires n < Size
    ensures b < Size && (b + 1) % Size == n
  {
    (Size - 1 + n) % Size
  }

  /** The empty queue. */
  function Cleared<T>(): (r: Ring<T>)
    ensures WellFormed(r)
  {
    Ring(seq(Size, _ => None), 0)
  }

  /** `push_undo`: stores x in the next slot and moves on, overwriting the
      oldest edit once the ring is full. */
  function Push<T>(r: Ring<T>, x: T): (q: Ring<T>)
    requires WellFormed(r)
    ensures WellFormed(q)
  {
    Ring(r.slots[r.next := Some(x)], (r.next + 1) % Size)
  }

  /** `pop_undo`: steps back one slot, empties it and returns what it held
      (None when it was empty). */
  function Pop<T>(r: Ring<T>): (res: (Ring<T>, Option<T>))
    requires WellFormed(r)
    ensures WellFormed(res.0)
  {
    var n := Back(r.next);
    (Ring(r.slots[n := None], n), r.slots[n])
  }

  /** Undoing right after an edit gives back that edit and the position of
      the queue before it; only the slot it used is left empty. */
  lemma PushThenPop<T>(r: Ring<T>, x: T)
    requires WellFormed(r)
    ensures Pop(Push(r, x)) == (Ring(r.slots[r.next := None], r.next), Some(x))
  {
    SlotStep(r.next, 1);
    assert r.slots[r.next := Some(x)][r.next := None] == r.slots[r.next := None];
  }

  /** Storing again what an undo returned restores the queue. */
  lemma PopThenPush<T>(r: Ring<T>)
    requires WellFormed(r) && Pop(r).1.Some?
    ensures Push(Pop(r).0, Pop(r).1.value) == r
  {
    var n := Back(r.next);
    assert r.slots[n := None][n := r.slots[n]] == r.slots;
  }

  /** Undoing with nothing to undo returns None and keeps every slot empty. */
  lemma PopEmpty<T>(r: Ring<T>)
    requires WellFormed(r) && forall k :: 0 <= k < Size ==> r.slots[k] == None
    ensures Pop(r).1 == None
    ensures forall k :: 0 <= k < Size ==> Pop(r).0.slots[k] == None
  {
  }

  /** The queue after a run of edits. */
  function PushAll<T>(r: Ring<T>, xs: seq<T>): (q: Ring<T>)
    requires WellFormed(r)
    ensures WellFormed(q)
  {
    if |xs| == 0 then r else Push(PushAll(r, xs[..|xs| - 1]), xs[|xs| - 1])
  }

  /** The queue after k undos, and what they returned in order. */
  function PopMany<T>(r: Ring<T>, k: nat): (res: (Ring<T>, seq<Option<T>>))
    requires WellFormed(r)
    ensures WellFormed(res.0) && |res.1| == k
    decreases k
  {
    if k == 0 then (r, [])
    else
      var (q, v) := Pop(r);
      var (q2, vs) := PopMany(q, k - 1);
      (q2, [v] + vs)
  }

  /** The slot j steps after slot b. */
  function Slot(b: nat, j: nat): (s: nat)
    ensures s < Size
  {
    (b + j) % Size
  }

  lemma SlotStep(b: nat, k: nat)
    requires k >= 1
    ensures Back(Slot(b, k)) == Slot(b, k - 1)
    ensures (Slot(b, k - 1) + 1) % Size == Slot(b, k)
  {
    var p := (b + k - 1) % Size;
    assert (b + k) % Size == (p + 1) % Size;
  }

  lemma SlotApart(b: nat, i: nat, j: nat)
    requires i < j < i + Size
    ensures Slot(b, i) != Slot(b, j)
  {
  }

  /** After a run of at most Size edits from slot b, the j-th edit sits in
      slot b + j (mod Size) and the next slot is b + |xs|. */
  lemma {:induction false} PushAllLayout<T>(r: Ring<T>, xs: seq<T>)
    requires WellFormed(r) && |xs| <= Size
    ensures PushAll(r, xs).next == Slot(r.next, |xs|)
    ensures forall j :: 0 <= j < |xs| ==> PushAll(r, xs).slots[Slot(r.next, j)] == Some(xs[j])
  {
    if |xs| == 0 {
      assert Slot(r.next, 0) == r.next;
    } else {
      var k := |xs| - 1;
      var init := xs[..k];
      PushAllLayout(r, init);
      var q := PushAll(r, init);
      SlotStep(r.next, k + 1);
      assert PushAll(r, xs) == Push(q, xs[k]);
      forall j | 0 <= j < k
        ensures PushAll(r, xs).slots[Slot(r.next, j)] == Some(xs[j])
      {
        SlotApart(r.next, j, k);
        assert init[j] == xs[j];
      }
    }
  }

  /** Undoing k times from a queue whose last k edits ys sit just before
      its next slot returns them newest first. */
  lemma {:induction false} PopManyReverse<T>(q: Ring<T>, b: nat, ys: seq<T>)
    requires WellFormed(q) && |ys| <= Size
    requires q.next == Slot(b, |ys|)
    requires forall j :: 0 <= j < |ys| ==> q.slots[Slot(b, j)] == Some(ys[j])
    ensures PopMany(q, |ys|).1 == seq(|ys|, j requires 0 <= j < |ys| => Some(ys[|ys| - 1 - j]))
    decreases |ys|
  {
    if |ys| > 0 {
      var k := |ys| - 1;
      SlotStep(b, |ys|);
      var (q1, v) := Pop(q);
      assert q1.next == Slot(b, k);
      assert v == Some(ys[k]);
      forall j | 0 <= j < k
        ensures q1.slots[Slot(b, j)] == Some(ys[..k][j])
      {
        SlotApart(b, j, k);
      }
      PopManyReverse(q1, b, ys[..k]);
    }
  }

  /** The queue keeps the last Size edits: after at most Size edits, as many
      undos return them in reverse order. */
  lemma UndoReversesHistory<T>(r: Ring<T>, xs: seq<T>)
    requires WellFormed(r) && |xs| <= Size
    ensures PopMany(PushAll(r, xs), |xs|).1 == seq(|xs|, j requires 0 <= j < |xs| => Some(xs[|xs| - 1 - j]))
  {
    PushAllLayout(r, xs);
    PopManyReverse(PushAll(r, xs), r.next, xs);
  }

  /** The queue after fewer than Size edits ys from a cleared queue: edit j
      in slot j, every other slot empty, and the next slot after them. */
  function Filled<T>(ys: seq<T>): (r: Ring<T>)
    requires |ys| < Size
    ensures WellFormed(r) && r.next == |ys|
  {
    Ring(seq(Size, k requires 0 <= k < Size => if k < |ys| then Some(ys[k]) else None), |ys|)
  }

  lemma {:induction false} PushAllFilled<T>(xs: seq<T>)
    requires |xs| < Size
    ensures PushAll(Cleared(), xs) == Filled(xs)
  {
    if |xs| == 0 {
      assert Filled(xs).slots == Cleared<T>().slots;
    } else {
      var k := |xs| - 1;
      PushAllFilled(xs[..k]);
      assert Filled(xs[..k]).slots[k := Some(xs[k])] == Filled(xs).slots;
    }
  }

  lemma PopFilled<T>(ys: seq<T>)
    requires 0 < |ys| < Size
    ensures Pop(Filled(ys)) == (Filled(ys[..|ys| - 1]), Some(ys[|ys| - 1]))
  {
    var k := |ys| - 1;
    assert Back(|ys|) == k;
    assert Filled(ys).slots[k := None] == Filled(ys[..k]).slots;
  }

  /** Undoing every edit of ys returns them newest first and leaves the
      queue cleared; one more undo returns None, keeps every slot empty and
      steps the next slot back to Size - 1. */
  lemma {:induction false} UndoPastFilled<T>(ys: seq<T>)
    requires |ys| < Size
    ensures PopMany(Filled(ys), |ys|) ==
            (Cleared(), seq(|ys|, j requires 0 <= j < |ys| => Some(ys[|ys| - 1 - j])))
    ensures PopMany(Filled(ys), |ys| + 1) ==
            (Ring(Cleared<T>().slots, Size - 1),
             seq(|ys|, j requires 0 <= j < |ys| => Some(ys[|ys| - 1 - j])) + [None])
    decreases |ys|
  {
    var newest := seq(|ys|, j requires 0 <= j < |ys| => Some(ys[|ys| - 1 - j]));
    if |ys| == 0 {
      assert Filled(ys).slots == Cleared<T>().slots;
      assert Back(0) == Size - 1;
      assert Cleared<T>().slots[Size - 1 := None] == Cleared<T>().slots;
      assert Pop(Cleared<T>()) == (Ring(Cleared<T>().slots, Size - 1), None);
      assert Filled(ys) == Cleared();
      var empty := Ring(Cleared<T>().slots, Size - 1);
      var none: seq<Option<T>> := [None];
      assert PopMany(empty, 0) == (empty, []);
      assert none + [] == none;
      assert PopMany(Cleared<T>(), 1) == (empty, none);
      assert newest + [None] == [None];
    } else {
      var k := |ys| - 1;
      var init := ys[..k];
      PopFilled(ys);
      UndoPastFilled(init);
      var older := seq(|init|, j requires 0 <= j < |init| => Some(init[|init| - 1 - j]));
      assert PopMany(Filled(ys), |ys| + 1).1 == [Some(ys[k])] + PopMany(Filled(init), |init| + 1).1;
      assert [Some(ys[k])] + older == newest;
      assert [Some(ys[k])] + (older + [None]) == newest + [None];
    }
  }

  /** Once the history is used up, `pop_undo` returns null: after fewer than
      Size edits from a cleared queue, undoing them all returns them newest
      first and leaves the queue cleared, and the next undo returns None
      with every slot still empty. */
  lemma UndoUntilEmpty<T>(xs: seq<T>)
    requires |xs| < Size
    ensures PopMany(PushAll(Cleared(), xs), |xs|) ==
            (Cleared(), seq(|xs|, j requires 0 <= j < |xs| => Some(xs[|xs| - 1 - j])))
    ensures PopMany(PushAll(Cleared(), xs), |xs| + 1).1 ==
            seq(|xs|, j requires 0 <= j < |xs| => Some(xs[|xs| - 1 - j])) + [None]
    ensures PopMany(PushAll(Cleared(), xs), |xs| + 1).0.slots == Cleared<T>().slots
  {
    PushAllFilled(xs);
    UndoPastFilled(xs);
  }

  // ---------------------------------------------------------------------
  // The queue object

  /** `UndoQueue`: the ring kept in a fixed buffer of Size slots. */
  class UndoQueue<T> {
    const buf: array<Option<T>>
    var next: nat

    ghost predicate Valid()
      reads this
    {
      buf.Length == Size && next < Size
    }

    /** The buffer and the next slot as a ring. */
    ghost function State(): Ring<T>
      reads this, buf
    {
      Ring(buf[..], next)
    }

    constructor()
      ensures Valid() && fresh(buf) && State() == Cleared()
    {
      buf := new Option<T>[Size](_ => None);
      next := 0;
    }

    method PushUndo(x: T)
      requires Valid()
      modifies this`next, buf
      ensures Valid() && State() == Push(old(State()), x)
    {
      buf[next] := Some(x);
      next := (next + 1) % Size;
    }

    method PopUndo() returns (ret: Option<T>)
      requires Valid()
      modifies this`next, buf
      ensures Valid() && (State(), ret) == Pop(old(State()))
    {
      next := (Size - 1 + next) % Size;
      ret := buf[next];
      buf[next] := None;
    }

    method Clear()
      requires Valid()
      modifies this`next, buf
      ensures Valid() && State() == Cleared()
    {
      forall k | 0 <= k < buf.Length {
        buf[k] := None;
      }
      next := 0;
    }
  }

  // ---------------------------------------------------------------------
  // The tiles of one edit

  /** `UndoNode`: a tile and the kind it had before the edit. */
  datatype UndoNode = UndoNode(x: nat, y: nat, kind: nat)

  /** The row-major index `undo_node_ord` compares. */
  function Key(n: UndoNode, columns: nat): int
  {
    Grid.ToI(n.x, n.y, columns)
  }

  /** `undo_node_ord`: negative, zero or positive as lhs comes before, at
      or after rhs in row-major order. */
  function Ord(lhs: UndoNode, rhs: UndoNode, columns: nat): (d: int)
    ensures d == 0 <==> Key(lhs, columns) == Key(rhs, columns)
    ensures d < 0 <==> Key(lhs, columns) < Key(rhs, columns)
  {
    lhs.y * columns + lhs.x - rhs.y * columns - rhs.x
  }

  /** Two tiles of a board with `columns` columns share a key only when they
      are the same tile, so a list without repeated keys has no tile twice. */
  lemma KeyInjective(a: UndoNode, b: UndoNode, columns: nat)
    requires a.x < columns && b.x < columns
    requires Key(a, columns) == Key(b, columns)
    ensures a.x == b.x && a.y == b.y
  {
    Grid.IndexInjective(a.x, a.y, b.x, b.y, columns);
  }

  ghost predicate SortedBy(a: seq<UndoNode>, columns: nat)
  {
    forall i, j :: 0 <= i < j < |a| ==> Key(a[i], columns) <= Key(a[j], columns)
  }

  ghost predicate StrictlySortedBy(a: seq<UndoNode>, columns: nat)
  {
    forall i, j :: 0 <= i < j < |a| ==> Key(a[i], columns) < Key(a[j], columns)
  }

  /** `binary_search` with `undo_node_ord`: an index whose tile has the
      target's key, or -1 exactly when no tile has it. */
  method BinarySearch(a: seq<UndoNode>, target: UndoNode, columns: nat) returns (r: int)
    requires SortedBy(a, columns)
    ensures -1 <= r < |a|
    ensures r >= 0 ==> Key(a[r], columns) == Key(target, columns)
    ensures r == -1 <==> forall i :: 0 <= i < |a| ==> Key(a[i], columns) != Key(target, columns)
  {
    var left, right := 0, |a| - 1;
    while left <= right
      invariant 0 <= left <= right + 1 <= |a|
      invariant forall i :: 0 <= i < left ==> Key(a[i], columns) < Key(target, columns)
      invariant forall i :: right < i < |a| ==> Key(a[i], columns) > Key(target, columns)
      decreases right - left
    {
      var mid := (left + right) / 2;
      var d := Ord(a[mid], target, columns);
      if d == 0 {
        return mid;
      } else if d < 0 {
        left := mid + 1;
      } else {
        right := mid - 1;
      }
    }
    r := -1;
  }

  /** The list after pushing n and sorting it by key: n goes after every
      tile with a smaller key. */
  function Insert(a: seq<UndoNode>, n: UndoNode, columns: nat): (b: seq<UndoNode>)
    ensures |b| == |a| + 1
  {
    if |a| == 0 || Key(n, columns) < Key(a[0], columns) then [n] + a
    else [a[0]] + Insert(a[1..], n, columns)
  }

  /** Insertion adds exactly n: every entry is n or an entry of a. */
  lemma {:induction false} InsertElements(a: seq<UndoNode>, n: UndoNode, columns: nat)
    ensures multiset(Insert(a, n, columns)) == multiset(a) + multiset{n}
    ensures forall e :: e in Insert(a, n, columns) ==> e == n || e in a
  {
    if |a| == 0 || Key(n, columns) < Key(a[0], columns) {
    } else {
      InsertElements(a[1..], n, columns);
      assert a == [a[0]] + a[1..];
    }
  }

  /** Insertion keeps the list strictly sorted when the key is new. */
  lemma {:induction false} InsertSorted(a: seq<UndoNode>, n: UndoNode, columns: nat)
    requires StrictlySortedBy(a, columns)
    requires forall i :: 0 <= i < |a| ==> Key(a[i], columns) != Key(n, columns)
    ensures StrictlySortedBy(Insert(a, n, columns), columns)
  {
    if |a| == 0 || Key(n, columns) < Key(a[0], columns) {
    } else {
      var rest := a[1..];
      InsertSorted(rest, n, columns);
      InsertElements(rest, n, columns);
      var tail := Insert(rest, n, columns);
      assert Insert(a, n, columns) == [a[0]] + tail;
      forall j | 0 <= j < |tail|
        ensures Key(a[0], columns) < Key(tail[j], columns)
      {
        assert tail[j] in tail;
        if tail[j] != n {
          var k :| 0 <= k < |rest| && rest[k] == tail[j];
          assert a[k + 1] == tail[j];
        }
      }
    }
  }

  /** The dedup step of the flood fill: a tile whose key is not yet in the
      list is added and the list sorted again; otherwise the list stays. */
  method AddUnique(a: seq<UndoNode>, n: UndoNode, columns: nat) returns (b: seq<UndoNode>)
    requires StrictlySortedBy(a, columns)
    ensures StrictlySortedBy(b, columns)
    ensures exists i :: 0 <= i < |b| && Key(b[i], columns) == Key(n, columns)
    ensures (forall i :: 0 <= i < |a| ==> Key(a[i], columns) != Key(n, columns)) ==>
      multiset(b) == multiset(a) + multiset{n}
    ensures (exists i :: 0 <= i < |a| && Key(a[i], columns) == Key(n, columns)) ==> b == a
  {
    var r := BinarySearch(a, n, columns);
    if r == -1 {
      b := Insert(a, n, columns);
      InsertSorted(a, n, columns);
      InsertElements(a, n, columns);
      assert n in multiset(b);
      var i :| 0 <= i < |b| && b[i] == n;
    } else {
      b := a;
    }
  }
}
