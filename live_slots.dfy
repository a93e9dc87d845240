/** The declarative meaning of the live-handle traversal: which slots it stops
    at, in which order, and which handles it yields. `n` is the number of
    slots and `free` the free list. */
module LiveSlots {
  import opened Objects

  /** The slot the iterator settles on when started at `i`: the first slot at
      or after `i` that is past the end or not free. */
  function NextValid(n: nat, free: seq<nat>, i: nat): (j: nat)
    decreases n - i
    ensures i <= j
    ensures i <= n ==> j <= n
    ensures j < n ==> j !in free
    ensures forall k :: i <= k < j ==> k in free
  {
    if i < n && i in free then NextValid(n, free, i + 1) else i
  }

  /** The slots of `[i, n)` that are not free, lowest first. */
  function LiveFrom(n: nat, free: seq<nat>, i: nat): (r: seq<nat>)
    decreases n - i
    ensures forall j :: 0 <= j < |r| ==> i <= r[j] < n && r[j] !in free
  {
    if i >= n then []
    else if i in free then LiveFrom(n, free, i + 1)
    else [i] + LiveFrom(n, free, i + 1)
  }

  /** Every non-free slot of `[i, n)` is visited. */
  lemma {:induction false} LiveFromComplete(n: nat, free: seq<nat>, i: nat, k: nat)
    requires i <= k < n && k !in free
    ensures k in LiveFrom(n, free, i)
    decreases n - i
  {
    if k != i {
      LiveFromComplete(n, free, i + 1, k);
    }
  }

  /** Slots are visited in strictly ascending order. */
  lemma {:induction false} LiveFromAscending(n: nat, free: seq<nat>, i: nat)
    ensures forall a, b :: 0 <= a < b < |LiveFrom(n, free, i)| ==> LiveFrom(n, free, i)[a] < LiveFrom(n, free, i)[b]
    decreases n - i
  {
    if i < n {
      LiveFromAscending(n, free, i + 1);
    }
  }

  /** The handles for the given slots, each carrying its slot's current generation. */
  function HandlesAt(generations: seq<nat>, slots: seq<nat>): (hs: seq<ObjectID>)
    requires forall j :: 0 <= j < |slots| ==> slots[j] < |generations|
    ensures |hs| == |slots|
    ensures forall j :: 0 <= j < |slots| ==> hs[j] == ObjectID(slots[j], generations[slots[j]])
  {
    if slots == [] then []
    else [ObjectID(slots[0], generations[slots[0]])] + HandlesAt(generations, slots[1..])
  }

  /** Skipping free slots does not change what remains to be visited. */
  lemma {:induction false} SkipFree(n: nat, free: seq<nat>, i: nat)
    ensures LiveFrom(n, free, i) == LiveFrom(n, free, NextValid(n, free, i))
    decreases n - i
  {
    if i < n && i in free {
      SkipFree(n, free, i + 1);
    }
  }

  /** Yielding the live slot `i` and moving on: what remains is the handle for
      `i` followed by what remains from the next slot the iterator settles on. */
  lemma VisitLive(n: nat, free: seq<nat>, generations: seq<nat>, i: nat)
    requires i < n <= |generations| && i !in free
    ensures HandlesAt(generations, LiveFrom(n, free, i))
         == [ObjectID(i, generations[i])] + HandlesAt(generations, LiveFrom(n, free, NextValid(n, free, i + 1)))
  {
    var rest := LiveFrom(n, free, i + 1);
    SkipFree(n, free, i + 1);
    assert LiveFrom(n, free, i) == [i] + rest;
    assert ([i] + rest)[1..] == rest;
  }

  /** One iteration of a traversal that collects handles: what was collected
      followed by what remains stays the same sequence. */
  lemma CollectLive(collected: seq<ObjectID>, total: seq<ObjectID>, n: nat, free: seq<nat>,
                    generations: seq<nat>, i: nat)
    requires i < n <= |generations| && i !in free
    requires collected + HandlesAt(generations, LiveFrom(n, free, i)) == total
    ensures (collected + [ObjectID(i, generations[i])])
            + HandlesAt(generations, LiveFrom(n, free, NextValid(n, free, i + 1))) == total
  {
    VisitLive(n, free, generations, i);
  }

  /** With an empty free list the traversal visits every slot of `[i, n)` in order. */
  lemma {:induction false} NoFreeVisitsAll(n: nat, i: nat)
    requires i <= n
    ensures |LiveFrom(n, [], i)| == n - i
    ensures forall k :: 0 <= k < n - i ==> LiveFrom(n, [], i)[k] == i + k
    decreases n - i
  {
    if i < n {
      NoFreeVisitsAll(n, i + 1);
    }
  }

  /** When every slot of `[i, n)` is free, the traversal started at `i` settles
      on the end (or stays at `i` if already past it) and visits nothing. */
  lemma {:induction false} AllFreeVisitsNothing(n: nat, free: seq<nat>, i: nat)
    requires forall k :: i <= k < n ==> k in free
    ensures NextValid(n, free, i) == if i <= n then n else i
    ensures LiveFrom(n, free, i) == []
    decreases n - i
  {
    if i < n {
      AllFreeVisitsNothing(n, free, i + 1);
    }
  }
}
