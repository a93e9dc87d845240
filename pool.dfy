/** The generational handle pool as a value: the three parallel vectors the
    world owns, and what create_object, get_object and destroy_object do to them. */
module Pools {
  import opened Vectors
  import opened Objects

  /** What get_object returns: the slot a handle resolves to, or nothing (a null pointer). */
  datatype Option<T> = None | Some(value: T)

  /** The world's storage: one object and one generation per slot, and the free list. */
  datatype Pool = Pool(objects: seq<Object>, generations: seq<nat>, freeIndexes: seq<nat>)

  /** The storage of a new world. */
  const Empty := Pool([], [], [])

  /** The result of create_object: the new storage and the handle it returns. */
  datatype Created = Created(pool: Pool, handle: ObjectID)

  /** The invariant every operation keeps, whatever handles it is given: the
      generations run parallel to the objects and every free index is a slot. */
  predicate Valid(p: Pool)
  {
    && |p.generations| == |p.objects|
    && forall k :: 0 <= k < |p.freeIndexes| ==> p.freeIndexes[k] < |p.objects|
  }

  predicate FreeDistinct(free: seq<nat>)
  {
    forall a, b :: 0 <= a < b < |free| ==> free[a] != free[b]
  }

  /** The invariant kept as long as callers pass only handles the pool issued:
      the free list has no duplicates, no issued handle names a generation its
      slot has not reached, every issued handle of a freed slot is behind that
      slot's generation, and the current handle of every live slot was issued. */
  ghost predicate Sound(p: Pool, issued: set<ObjectID>)
  {
    && Valid(p)
    && FreeDistinct(p.freeIndexes)
    && (forall h :: h in issued ==>
          h.index < |p.objects| && h.generation <= p.generations[h.index] &&
          (h.index in p.freeIndexes ==> h.generation < p.generations[h.index]))
    && (forall i :: 0 <= i < |p.objects| && i !in p.freeIndexes ==> ObjectID(i, p.generations[i]) in issued)
  }

  /** Generations never go down and slots are never removed. */
  predicate GenerationsGrow(before: seq<nat>, after: seq<nat>)
  {
    |before| <= |after| && forall k :: 0 <= k < |before| ==> before[k] <= after[k]
  }

  /** get_object: a handle resolves to its own slot when the index is in
      bounds and the generation matches; the free list is not consulted. */
  function Resolve(p: Pool, h: ObjectID): (r: Option<nat>)
    requires Valid(p)
    ensures r.Some? ==> r.value == h.index && r.value < |p.objects|
    ensures h.index < |p.objects| && h.index in p.freeIndexes && h.generation == p.generations[h.index] ==> r.Some?
  {
    if h.index < |p.objects| && p.generations[h.index] == h.generation then Some(h.index) else None
  }

  /** create_object: with no free slot a slot is appended at generation 0;
      otherwise the most recently freed slot is taken back, keeping the
      generation it reached when it was freed. Either way the slot holds a
      fresh object and the returned handle resolves to it. */
  function Create(p: Pool, position: Vector2, size: Vector2, mass: real): (r: Created)
    requires Valid(p)
    ensures Valid(r.pool)
    ensures p.freeIndexes == [] ==>
      && r.handle == ObjectID(|p.objects|, 0)
      && r.pool.objects == p.objects + [NewObject(position, size, mass)]
      && r.pool.generations == p.generations + [0]
      && r.pool.freeIndexes == []
    ensures p.freeIndexes != [] ==>
      && r.handle.index == p.freeIndexes[|p.freeIndexes| - 1]
      && r.handle.generation == p.generations[r.handle.index]
      && r.pool.freeIndexes == p.freeIndexes[..|p.freeIndexes| - 1]
      && r.pool.generations == p.generations
      && r.pool.objects == p.objects[r.handle.index := NewObject(position, size, mass)]
    ensures Resolve(r.pool, r.handle) == Some(r.handle.index)
    ensures r.pool.objects[r.handle.index] == NewObject(position, size, mass)
    ensures GenerationsGrow(p.generations, r.pool.generations)
  {
    var body := NewObject(position, size, mass);
    if p.freeIndexes == [] then
      Created(Pool(p.objects + [body], p.generations + [0], []), ObjectID(|p.objects|, 0))
    else
      var i := p.freeIndexes[|p.freeIndexes| - 1];
      Created(Pool(p.objects[i := body], p.generations, p.freeIndexes[..|p.freeIndexes| - 1]),
              ObjectID(i, p.generations[i]))
  }

  /** destroy_object: a handle that resolves moves its slot one generation on
      and puts it on the free list; any other handle changes nothing. The
      objects are not touched, and afterwards the handle does not resolve. */
  function Destroy(p: Pool, h: ObjectID): (q: Pool)
    requires Valid(p)
    ensures Valid(q) && q.objects == p.objects
    ensures Resolve(p, h).Some? ==>
      && q.generations == p.generations[h.index := p.generations[h.index] + 1]
      && q.freeIndexes == p.freeIndexes + [h.index]
    ensures Resolve(p, h).None? ==> q == p
    ensures Resolve(q, h) == None
    ensures GenerationsGrow(p.generations, q.generations)
  {
    if h.index < |p.objects| && p.generations[h.index] == h.generation then
      Pool(p.objects, p.generations[h.index := p.generations[h.index] + 1], p.freeIndexes + [h.index])
    else p
  }

  /** A second destroy of the same handle is a no-op. */
  lemma DestroyTwice(p: Pool, h: ObjectID)
    requires Valid(p)
    ensures Destroy(Destroy(p, h), h) == Destroy(p, h)
  {
  }

  /** A handle whose slot has moved past its generation never resolves again,
      whatever the pool does meanwhile. */
  lemma StaleStaysStale(h: ObjectID, before: Pool, after: Pool)
    requires Valid(before) && Valid(after) && GenerationsGrow(before.generations, after.generations)
    requires h.index < |before.objects| && h.generation < before.generations[h.index]
    ensures Resolve(after, h) == None
  {
  }

  lemma EmptyIsSound()
    ensures Sound(Empty, {})
  {
  }

  /** For a handle the pool issued, resolving means exactly that its slot is
      live and still at the handle's generation. */
  lemma IssuedResolves(p: Pool, issued: set<ObjectID>, h: ObjectID)
    requires Sound(p, issued) && h in issued
    ensures Resolve(p, h).Some? <==> h.index !in p.freeIndexes && p.generations[h.index] == h.generation
  {
  }

  /** create_object keeps the pool sound; the returned handle names a live
      slot, and when a slot is reused its generation is strictly later than
      that of every handle issued for it before. */
  lemma CreateKeepsSound(p: Pool, issued: set<ObjectID>, position: Vector2, size: Vector2, mass: real)
    requires Sound(p, issued)
    ensures var r := Create(p, position, size, mass);
      && Sound(r.pool, issued + {r.handle})
      && r.handle.index !in r.pool.freeIndexes
      && forall g :: g in issued && g.index == r.handle.index ==> g.generation < r.handle.generation
  {
    var r := Create(p, position, size, mass);
    var q := r.pool;
    if p.freeIndexes != [] {
      var last := |p.freeIndexes| - 1;
      var i := p.freeIndexes[last];
      assert forall k :: 0 <= k < last ==> q.freeIndexes[k] == p.freeIndexes[k] != i;
      assert i !in q.freeIndexes;
      assert forall k :: k in q.freeIndexes ==> k in p.freeIndexes;
    }
  }

  /** Soundness depends on the slot count, the generations and the free list,
      not on what the slots hold. */
  lemma SoundIgnoresContents(p: Pool, q: Pool, issued: set<ObjectID>)
    requires |q.objects| == |p.objects|
    requires q.generations == p.generations && q.freeIndexes == p.freeIndexes
    ensures Sound(p, issued) <==> Sound(q, issued)
  {
  }

  /** destroy_object keeps the pool sound when given a handle the pool issued. */
  lemma DestroyKeepsSound(p: Pool, issued: set<ObjectID>, h: ObjectID)
    requires Sound(p, issued) && h in issued
    ensures Sound(Destroy(p, h), issued)
  {
    var q := Destroy(p, h);
    if Resolve(p, h).Some? {
      assert h.index !in p.freeIndexes;
      assert forall k :: 0 <= k < |p.freeIndexes| ==> q.freeIndexes[k] == p.freeIndexes[k];
    }
  }

  /** The one way to break the free list, which get_object's missing free-list
      check allows: after a create and a destroy, the handle {0, 1} was never
      issued, yet it resolves, and destroying it puts slot 0 on the free list a
      second time. */
  lemma ForgedHandleRefreesSlot(position: Vector2, size: Vector2, mass: real)
    ensures var created := Create(Empty, position, size, mass);
      var destroyed := Destroy(created.pool, created.handle);
      var forged := ObjectID(0, 1);
      var refreed := Destroy(destroyed, forged);
      && Sound(destroyed, {created.handle})
      && forged !in {created.handle}
      && Resolve(destroyed, forged) == Some(0)
      && refreed.freeIndexes == [0, 0]
      && !FreeDistinct(refreed.freeIndexes)
  {
    var created := Create(Empty, position, size, mass);
    assert created.handle == ObjectID(0, 0);
    var destroyed := Destroy(created.pool, created.handle);
    assert destroyed.generations == [1] && destroyed.freeIndexes == [0];
    assert Sound(destroyed, {created.handle});
    assert Resolve(destroyed, ObjectID(0, 1)) == Some(0);
    var refreed := Destroy(destroyed, ObjectID(0, 1));
    assert refreed.freeIndexes == [0, 0];
    assert refreed.freeIndexes[0] == refreed.freeIndexes[1];
  }

  /** A slot on the free list twice is handed out twice: the next two
      creations return one and the same handle. */
  lemma DuplicateFreeSlotIssuedTwice(p: Pool, position: Vector2, size: Vector2, mass: real)
    requires Valid(p) && |p.freeIndexes| >= 2
    requires p.freeIndexes[|p.freeIndexes| - 1] == p.freeIndexes[|p.freeIndexes| - 2]
    ensures var first := Create(p, position, size, mass);
      Create(first.pool, position, size, mass).handle == first.handle
  {
    var first := Create(p, position, size, mass);
    assert first.pool.freeIndexes[|first.pool.freeIndexes| - 1] == first.handle.index;
  }
}
