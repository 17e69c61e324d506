/**
 The iterators of the newer list containers: `_ListIndexIter`
 (`exonum_runtime/merkledb/indices/list_index.py`) and `_ProofListIndexIter`
 (`exonum_runtime/merkledb/indices/proof_list_index.py`).

 An iterator captures the list's length when it is created and then reads
 position by position through the FFI. The list it reads may change between
 steps, so every step takes the list as it is at that moment.
 */
module ListIter {
  import opened Common
  import opened BinaryData
  import Containers

  /** The iterator's state: `_pos` and the captured `_len`. */
  datatype Iter = Iter(pos: nat, len: nat)

  /**
   One `__next__`: a value and the iterator after it, StopIteration, the
   size-change RuntimeError, or the IndexError of popping an empty
   `_MERKLEDB_ALLOCATED` in the proof list's `get`.
   */
  datatype Step = Yield(next: Iter, value: Bytes) | StopIteration | SizeChanged | FreeRaised

  /** How a whole iteration ended. */
  datatype End = Exhausted | RaisedSizeChanged

  /** `iter(index)`: position 0 and the length at this moment. */
  function Start(xs: seq<Bytes>): Iter {
    Iter(0, |xs|)
  }

  /** The element at `pos` as the storage holds it, None past the end. */
  function At(xs: seq<Bytes>, pos: nat): Option<Bytes> {
    if pos < |xs| then Some(xs[pos]) else None
  }

  /** The plain list's `index.get(pos)` as the iterator sees it: this read never touches the ledger. */
  function Fetch(xs: seq<Bytes>, pos: nat, alloc: Allocator): Option<Bytes> {
    Containers.ThroughPlainWrapper(At(xs, pos), alloc, Ledger(0)).value
  }

  /** `_ListIndexIter.__next__`. */
  function Next(it: Iter, xs: seq<Bytes>, alloc: Allocator): (r: Step)
    ensures r.Yield? ==> r.next == Iter(it.pos + 1, it.len) && it.pos < it.len
    ensures r.StopIteration? <==> it.pos >= it.len
  {
    if it.pos >= it.len then StopIteration
    else match Fetch(xs, it.pos, alloc)
      case None => SizeChanged
      case Some(v) => Yield(Iter(it.pos + 1, it.len), v)
  }

  /**
   `_ProofListIndexIter.__next__` as written: `_pos` is never advanced, and
   its `get` decodes with `into_bytes`, so a read past the end pops the
   ledger `l` before the size check can raise.
   */
  function NextProofListAsWritten(it: Iter, xs: seq<Bytes>, alloc: Allocator, l: Ledger): (r: Step)
    ensures r.Yield? ==> r.next == it
    ensures r.StopIteration? <==> it.pos >= it.len
    ensures r.FreeRaised? ==> l.outstanding == 0
  {
    if it.pos >= it.len then StopIteration
    else match Containers.ThroughIntoBytes(At(xs, it.pos), alloc, l)
      case PopFromEmpty => FreeRaised
      case Decoded(None, _) => SizeChanged
      case Decoded(Some(v), _) => Yield(it, v)
  }

  /** Running `Next` until it stops, over an unchanging list. */
  function Drain(it: Iter, xs: seq<Bytes>, alloc: Allocator): (seq<Bytes>, End)
    decreases it.len - it.pos
  {
    match Next(it, xs, alloc)
    case StopIteration => ([], Exhausted)
    case SizeChanged => ([], RaisedSizeChanged)
    case Yield(it', v) =>
      var rest := Drain(it', xs, alloc);
      ([v] + rest.0, rest.1)
  }

  /** `n` calls of the as-written proof-list `__next__`, collecting what they yield. */
  function RunProofListAsWritten(it: Iter, xs: seq<Bytes>, alloc: Allocator, l: Ledger, n: nat): seq<Bytes> {
    if n == 0 then []
    else match NextProofListAsWritten(it, xs, alloc, l)
      case Yield(it', v) => [v] + RunProofListAsWritten(it', xs, alloc, l, n - 1)
      case _ => []
  }

  // ----------------------------------------------------------------------
  // Properties

  /** Through the FFI a stored element reads back unchanged, given an allocator that never returns null. */
  lemma FetchInRange(xs: seq<Bytes>, pos: nat, alloc: Allocator)
    requires !alloc.nullOnEmpty
    ensures Fetch(xs, pos, alloc) == (if pos < |xs| then Some(xs[pos]) else None)
  {
  }

  /**
   Over a list holding at least the captured length, iteration yields the
   elements from the position up to the captured length, in order, then
   stops.
   */
  lemma {:induction false} DrainYieldsCapturedRange(it: Iter, xs: seq<Bytes>, alloc: Allocator)
    requires !alloc.nullOnEmpty && it.pos <= it.len <= |xs|
    ensures Drain(it, xs, alloc) == (xs[it.pos..it.len], Exhausted)
    decreases it.len - it.pos
  {
    if it.pos < it.len {
      FetchInRange(xs, it.pos, alloc);
      assert Next(it, xs, alloc) == Yield(Iter(it.pos + 1, it.len), xs[it.pos]);
      DrainYieldsCapturedRange(Iter(it.pos + 1, it.len), xs, alloc);
      assert xs[it.pos..it.len] == [xs[it.pos]] + xs[it.pos + 1..it.len];
      assert Drain(it, xs, alloc) == ([xs[it.pos]] + Drain(Iter(it.pos + 1, it.len), xs, alloc).0, Exhausted);
    } else {
      assert Next(it, xs, alloc) == StopIteration;
      assert xs[it.pos..it.len] == [];
      assert Drain(it, xs, alloc) == ([], Exhausted);
    }
  }

  /** Iterating a list yields exactly its elements. */
  lemma IterationYieldsList(xs: seq<Bytes>, alloc: Allocator)
    requires !alloc.nullOnEmpty
    ensures Drain(Start(xs), xs, alloc) == (xs, Exhausted)
  {
    DrainYieldsCapturedRange(Start(xs), xs, alloc);
    assert xs[0..|xs|] == xs;
  }

  /** Elements pushed after the iterator was created are not yielded. */
  lemma PushedLaterNotYielded(xs: seq<Bytes>, pushed: seq<Bytes>, alloc: Allocator)
    requires !alloc.nullOnEmpty
    ensures Drain(Start(xs), xs + pushed, alloc) == (xs, Exhausted)
  {
    DrainYieldsCapturedRange(Start(xs), xs + pushed, alloc);
    assert (xs + pushed)[0..|xs|] == xs;
  }

  /**
   If the list has shrunk below the captured length, iteration yields what
   is left from the position on and then raises RuntimeError.
   */
  lemma {:induction false} ShrunkListRaises(it: Iter, xs: seq<Bytes>, alloc: Allocator)
    requires !alloc.nullOnEmpty && it.pos <= |xs| < it.len
    ensures Drain(it, xs, alloc) == (xs[it.pos..], RaisedSizeChanged)
    decreases it.len - it.pos
  {
    FetchInRange(xs, it.pos, alloc);
    if it.pos < |xs| {
      ShrunkListRaises(Iter(it.pos + 1, it.len), xs, alloc);
      assert xs[it.pos..] == [xs[it.pos]] + xs[it.pos + 1..];
    }
  }

  /**
   As written, the proof-list iterator never advances: on a non-empty list
   every call yields the first element again, so it never stops.
   */
  lemma {:induction false} ProofListIteratorStuck(xs: seq<Bytes>, alloc: Allocator, l: Ledger, n: nat)
    requires !alloc.nullOnEmpty && xs != []
    ensures RunProofListAsWritten(Start(xs), xs, alloc, l, n) == seq(n, _ => xs[0])
  {
    RoundTrip(xs[0], alloc, l);
    if n > 0 {
      ProofListIteratorStuck(xs, alloc, l, n - 1);
      assert seq(n, _ => xs[0]) == [xs[0]] + seq(n - 1, _ => xs[0]);
    }
  }

  /**
   `list(index)` over an unchanging list: repeated `__next__` until
   StopIteration or RuntimeError, collecting the values.
   */
  method Collect(xs: seq<Bytes>, alloc: Allocator) returns (items: seq<Bytes>, end: End)
    ensures !alloc.nullOnEmpty ==> items == xs && end == Exhausted
    ensures end == RaisedSizeChanged <==> (alloc.nullOnEmpty && [] in xs)
    ensures items <= xs
  {
    var it := Start(xs);
    items := [];
    while true
      invariant it.len == |xs| && it.pos <= |xs|
      invariant items == xs[..it.pos]
      invariant alloc.nullOnEmpty ==> [] !in items
      decreases |xs| - it.pos
    {
      var step := Next(it, xs, alloc);
      match step {
        case StopIteration =>
          assert items == xs;
          return items, Exhausted;
        case SizeChanged =>
          assert alloc.nullOnEmpty && xs[it.pos] == [] by {
            if !alloc.nullOnEmpty {
              FetchInRange(xs, it.pos, alloc);
            }
          }
          return items, RaisedSizeChanged;
        case Yield(next, v) =>
          assert v == xs[it.pos] && (alloc.nullOnEmpty ==> v != []) by {
            assert xs[it.pos][..|xs[it.pos]|] == xs[it.pos];
          }
          assert xs[..it.pos + 1] == xs[..it.pos] + [xs[it.pos]];
          items := items + [v];
          it := next;
      }
    }
  }
}
