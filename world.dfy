/** The world: it owns the pool's storage and the gravity settings, hands out
    iterators over the live handles, and runs the per-frame step. */
module Worlds {
  import opened Vectors
  import opened Objects
  import opened LiveSlots
  import opened Pools
  import opened Dynamics

  class World {
    var objects: seq<Object>
    var generations: seq<nat>
    var freeIndexes: seq<nat>
    var enableGravity: bool
    var worldGravity: Vector2
    /** Every handle create_object has returned so far. */
    ghost var issued: set<ObjectID>

    /** The storage as a value. */
    function Snapshot(): (p: Pool)
      reads this
    {
      Pool(objects, generations, freeIndexes)
    }

    ghost predicate Valid()
      reads this
    {
      Pools.Valid(Snapshot())
    }

    ghost predicate Sound()
      reads this
    {
      Pools.Sound(Snapshot(), issued)
    }

    /** A new world: an empty pool, gravity off and the zero gravity vector. */
    constructor ()
      ensures Snapshot() == Empty && issued == {}
      ensures !enableGravity && worldGravity == Zero
      ensures Valid() && Sound()
    {
      objects := [];
      generations := [];
      freeIndexes := [];
      enableGravity := false;
      worldGravity := Zero;
      issued := {};
    }

    /** get_object, with the slot index standing for the pointer into storage. */
    function GetObject(h: ObjectID): (r: Option<nat>)
      reads this
      requires Valid()
      ensures r.Some? ==> r.value == h.index && r.value < |objects|
    {
      Resolve(Snapshot(), h)
    }

    method CreateObject(position: Vector2, size: Vector2, mass: real) returns (h: ObjectID)
      requires Valid()
      modifies this
      ensures Created(Snapshot(), h) == Create(old(Snapshot()), position, size, mass)
      ensures issued == old(issued) + {h}
      ensures old(Sound()) ==> Sound()
      ensures enableGravity == old(enableGravity) && worldGravity == old(worldGravity)
    {
      if freeIndexes == [] {
        h := ObjectID(|objects|, 0);
        objects := objects + [NewObject(position, size, mass)];
        generations := generations + [0];
      } else {
        var i := freeIndexes[|freeIndexes| - 1];
        freeIndexes := freeIndexes[..|freeIndexes| - 1];
        objects := objects[i := NewObject(position, size, mass)];
        h := ObjectID(i, generations[i]);
      }
      issued := issued + {h};
    }

    method DestroyObject(h: ObjectID)
      requires Valid()
      modifies this
      ensures Snapshot() == Destroy(old(Snapshot()), h)
      ensures issued == old(issued)
      ensures old(Sound()) && h in old(issued) ==> Sound()
      ensures enableGravity == old(enableGravity) && worldGravity == old(worldGravity)
    {
      if h.index < |objects| && generations[h.index] == h.generation {
        generations := generations[h.index := generations[h.index] + 1];
        freeIndexes := freeIndexes + [h.index];
      }
    }

    /** The handles a full traversal yields, in the order it yields them. */
    function LiveHandles(): (hs: seq<ObjectID>)
      reads this
      requires Valid()
    {
      HandlesAt(generations, LiveFrom(|objects|, freeIndexes, 0))
    }

    /** A full traversal yields one handle per non-free slot and nothing else,
        lowest slot first, each carrying its slot's current generation, so that
        every yielded handle resolves (and, in a sound pool, was issued). */
    lemma LiveHandlesExact()
      requires Valid()
      ensures var hs := LiveHandles();
        && (forall j :: 0 <= j < |hs| ==> GetObject(hs[j]) == Some(hs[j].index) && hs[j].index !in freeIndexes)
        && (forall j, k :: 0 <= j < k < |hs| ==> hs[j].index < hs[k].index)
        && (forall i :: 0 <= i < |objects| ==> (ObjectID(i, generations[i]) in hs <==> i !in freeIndexes))
        && (Sound() ==> forall j :: 0 <= j < |hs| ==> hs[j] in issued)
    {
      var slots := LiveFrom(|objects|, freeIndexes, 0);
      var hs := HandlesAt(generations, slots);
      LiveFromAscending(|objects|, freeIndexes, 0);
      forall i | 0 <= i < |objects| && i !in freeIndexes
        ensures ObjectID(i, generations[i]) in hs
      {
        LiveFromComplete(|objects|, freeIndexes, 0, i);
        var j :| 0 <= j < |slots| && slots[j] == i;
        assert hs[j] == ObjectID(i, generations[i]);
      }
    }

    method Begin() returns (it: Iterator)
      ensures fresh(it) && it.world == this
      ensures it.index == NextValid(|objects|, freeIndexes, 0)
    {
      it := new Iterator(this, 0);
    }

    method End() returns (it: Iterator)
      ensures fresh(it) && it.world == this
      ensures it.index == |objects|
    {
      it := new Iterator(this, |objects|);
    }

    /** A full traversal, from begin() to end(), collecting what it yields. */
    method Traverse() returns (hs: seq<ObjectID>)
      requires Valid()
      ensures hs == LiveHandles()
    {
      var it := Begin();
      var last := End();
      hs := [];
      ghost var n, free, gens := |objects|, freeIndexes, generations;
      ghost var total := HandlesAt(gens, LiveFrom(n, free, 0));
      SkipFree(n, free, 0);
      while it.NotEqual(last)
        invariant it != last && it.world == this && last.index == n
        invariant it.index <= n && (it.index < n ==> it.index !in free)
        invariant hs + HandlesAt(gens, LiveFrom(n, free, it.index)) == total
        decreases n - it.index
      {
        ghost var i := it.index;
        var h := it.Deref();
        assert h == ObjectID(i, gens[i]);
        CollectLive(hs, total, n, free, gens, i);
        hs := hs + [h];
        it.Next();
        assert it.index == NextValid(n, free, i + 1);
      }
      assert LiveFrom(n, free, n) == [];
    }

    /** step: one frame over the live handles, in traversal order. */
    method Step(deltaTime: real)
      requires Valid() && MassesNonZero(objects, freeIndexes)
      modifies this
      ensures objects == StepObjects(old(objects), old(freeIndexes), old(enableGravity), old(worldGravity), deltaTime)
      ensures generations == old(generations) && freeIndexes == old(freeIndexes) && issued == old(issued)
      ensures enableGravity == old(enableGravity) && worldGravity == old(worldGravity)
      ensures old(Sound()) ==> Sound()
    {
      var it := Begin();
      var last := End();
      while it.NotEqual(last)
        invariant it.world == this && last.index == |objects|
        invariant |objects| == |old(objects)|
        invariant generations == old(generations) && freeIndexes == old(freeIndexes) && issued == old(issued)
        invariant enableGravity == old(enableGravity) && worldGravity == old(worldGravity)
        invariant it.index <= |objects| && (it.index < |objects| ==> it.index !in freeIndexes)
        invariant forall k :: 0 <= k < |objects| ==>
          objects[k] == if k < it.index
            then StepSlot(old(objects)[k], k !in freeIndexes, enableGravity, worldGravity, deltaTime)
            else old(objects)[k]
        decreases |objects| - it.index
      {
        var h := it.Deref();
        var p := GetObject(h);
        if p.Some? && !objects[p.value].isSleeping {
          var o := SimulateGravity(objects[p.value], enableGravity, worldGravity);
          objects := objects[p.value := ApplyDynamics(o, deltaTime)];
        }
        it.Next();
      }
      SoundIgnoresContents(old(Snapshot()), Snapshot(), issued);
    }
  }

  /** The live-handle iterator: a position in the slot range that always rests
      on a non-free slot or at the end. */
  class Iterator {
    const world: World
    var index: nat

    constructor (world: World, start: nat)
      ensures this.world == world
      ensures index == NextValid(|world.objects|, world.freeIndexes, start)
    {
      this.world := world;
      index := start;
      new;
      AdvanceToNextValid();
    }

    /** Moves past free slots, stopping at the first non-free slot or at the end. */
    method AdvanceToNextValid()
      modifies this
      ensures index == NextValid(|world.objects|, world.freeIndexes, old(index))
    {
      while index < |world.objects| && index in world.freeIndexes
        invariant old(index) <= index
        invariant NextValid(|world.objects|, world.freeIndexes, index)
               == NextValid(|world.objects|, world.freeIndexes, old(index))
        decreases |world.objects| - index
      {
        index := index + 1;
      }
    }

    /** Iterators are compared by position only. */
    function NotEqual(other: Iterator): (r: bool)
      reads this, other
      ensures r <==> index != other.index
    {
      index != other.index
    }

    /** operator++: one slot on, then past any free slots. */
    method Next()
      modifies this
      ensures index == NextValid(|world.objects|, world.freeIndexes, old(index) + 1)
    {
      index := index + 1;
      AdvanceToNextValid();
    }

    /** operator*: the handle for the current slot, with the slot's current
        generation, so that it resolves. */
    function Deref(): (h: ObjectID)
      reads this, world
      requires index < |world.generations|
      ensures h.index == index
      ensures world.Valid() ==> world.GetObject(h) == Some(index)
    {
      ObjectID(index, world.generations[index])
    }
  }
}
