# nuck: the generational handle pool and the simulation step

This project models the core of the nuck 2D physics sandbox in Dafny. The core is the `World`:

- It stores objects densely, in slots.
- It hands out handles. A handle is an `ObjectID`: a slot index plus the generation the slot had when the handle was issued.
- It recycles destroyed slots through a free list.
- It walks the live handles with an iterator.
- Once per frame, its `step` applies gravity to every live, awake object and integrates it.

The model has these modules:

- `Vectors`: the two-dimensional vector, covering only the operations the step uses (zero, add, scale). Components are `real`. This is an idealisation of 32-bit floats: there is no rounding, no NaN and no infinity.
- `Objects` (`include/nuck/object.hpp`): the `Object` record and its defaults, the `ObjectID` handle, and handle equality and inequality.
- `LiveSlots`: the declarative meaning of the live-handle iterator, over the slot count `n` and the free list.
  - `NextValid` gives the slot the iterator settles on.
  - `LiveFrom` gives the slots it visits, in order.
  - `HandlesAt` gives the handles it yields.
- `Pools` (`src/world.cpp`): the three parallel vectors as a value, `Pool`.
  - `Resolve`, `Create` and `Destroy` are `get_object`, `create_object` and `destroy_object` as functions on that value.
  - The lemmas prove the pool's invariants and the handle-validity properties.
- `Dynamics` (`src/world.cpp`): `simulate_gravity` and `apply_dynamics` on one object, and `StepObjects`, the whole storage after one step.
- `Worlds` (`include/nuck/world.hpp`, `src/world.cpp`): the imperative form.
  - `World` is a class. Its fields are `objects`, `generations`, `freeIndexes`, `enableGravity` and `worldGravity`, and its methods update them in place. Each method's `ensures` ties the new state to the `Pools` or `Dynamics` function of the old state.
  - `Iterator` is a class with a mutable `index`. `AdvanceToNextValid` is its `while` loop. `Next` is `operator++` and `Deref` is `operator*`.
  - `World.Traverse` runs the range-for from `begin()` to `end()`. `World.Step` is the per-frame loop, written with the iterator the way the source writes it.
- `Scenarios`: the behaviours a host relies on, stated on worlds built the way a host program drives the pool.

Two invariants are kept apart:

- `Pools.Valid`: the generations vector is as long as the objects vector, and every free index is a slot. Every operation keeps this, whatever handle it is given.
- `Pools.Sound`: `Valid`, plus three more facts:
  - the free list has no duplicates;
  - every issued handle's generation is at most its slot's current generation, and strictly less when the slot is free;
  - the current handle of every live slot has been issued.

  `Sound` holds as long as callers pass only handles the pool has issued. The model tracks them in the ghost set `World.issued`.

The split is needed because `get_object` checks bounds and generation but not the free list (`src/world.cpp:48-49`). `destroy_object` makes the same check. So the handle `{i, generations[i]}` for a freed slot `i` resolves, although the pool never issued it. Destroying that handle puts `i` on the free list a second time. `create_object` pops from the back of the free list (`src/world.cpp:39-40`). So if `i` was the slot freed most recently before the forged destroy, the next two creations return the same handle. Otherwise the second copy is handed out later, once the pops reach it. The model keeps this behaviour as written:

- `Pools.ForgedHandleRefreesSlot` shows the case.
- `Pools.DuplicateFreeSlotIssuedTwice` shows what follows when the last two free entries are equal.
- `Pools.DestroyKeepsSound` proves that the free list stays distinct for every handle the pool issued.

`World.GetObject` delegates to `Pools.Resolve`. The slot index stands for the returned pointer. `Iterator.NotEqual` compares positions only (`include/nuck/world.hpp:40-42`), whichever worlds the two iterators belong to. It is the loop guard of `Traverse` and `Step`.

## Model

| member | source | states |
|---|---|---|
| Objects.NewObject | include/nuck/object.hpp:8-16 | a fresh object has the given position, size and mass, zero velocity and force, is not sleeping, and has sleep timer 0 |
| Objects.Equal | include/nuck/object.hpp:21-23 | handle equality holds exactly when the two handles are the same value (same index and same generation) |
| Objects.NotEqual | include/nuck/object.hpp:24-26 | the disjunction of field inequalities is exactly the negation of handle equality |
| Objects.EqualIsEquivalence | include/nuck/object.hpp:21-23 | handle equality is reflexive, symmetric and transitive |
| LiveSlots.NextValid | include/nuck/world.hpp:27-33 | advancing from i stops at a slot at or after i that is past the end or not free; every slot skipped is free; started at or before the end, it never passes the end |
| LiveSlots.LiveFrom | include/nuck/world.hpp:27-33 | every slot visited from i lies in [i, n) and is not free |
| LiveSlots.LiveFromComplete | include/nuck/world.hpp:43-47 | every non-free slot of [i, n) is visited |
| LiveSlots.LiveFromAscending | include/nuck/world.hpp:43-47 | slots are visited in strictly ascending order |
| LiveSlots.HandlesAt | include/nuck/world.hpp:48-51 | one handle per visited slot, in the same order, each carrying that slot's current generation |
| LiveSlots.SkipFree | include/nuck/world.hpp:27-33 | skipping free slots does not change the slots that remain to be visited |
| LiveSlots.NoFreeVisitsAll | include/nuck/world.hpp:54-60 | with an empty free list, the traversal visits every slot 0, 1, ..., n-1 in order |
| LiveSlots.AllFreeVisitsNothing | include/nuck/world.hpp:54-60 | when every slot is free, begin settles on the end position and nothing is visited |
| Pools.Resolve | src/world.cpp:47-53 | a resolved handle refers to its own slot, which is in bounds; a handle naming a free slot at that slot's current generation still resolves |
| Pools.Create | src/world.cpp:28-45 | the pool stays valid; with no free slot, the handle is {old size, 0} and both vectors grow by one; otherwise the last free index is popped (LIFO), its stored generation is returned, the sizes and the generations are unchanged, and only that slot is overwritten; the new object is the default one; the handle resolves; generations never decrease |
| Pools.Destroy | src/world.cpp:55-61 | the pool stays valid and the objects are untouched; a resolving handle bumps its slot's generation by one and pushes its index onto the free list; any other handle changes nothing; afterwards the handle does not resolve; generations never decrease |
| Pools.DestroyTwice | src/world.cpp:55-61 | destroying the same handle a second time is a no-op |
| Pools.StaleStaysStale | src/world.cpp:58 | a handle behind its slot's generation never resolves again after any operations that only grow generations |
| Pools.EmptyIsSound | include/nuck/world.hpp:12-14 | the empty pool, with no handles issued, satisfies the full invariant |
| Pools.IssuedResolves | src/world.cpp:47-53 | for an issued handle in a sound pool, resolving is equivalent to its slot being live and at the handle's generation |
| Pools.CreateKeepsSound | src/world.cpp:33-43 | create keeps the full invariant; the returned handle names a live slot; a reused slot's generation is strictly greater than that of every handle issued for it before |
| Pools.DestroyKeepsSound | src/world.cpp:55-61 | destroying an issued handle keeps the free list duplicate-free and the rest of the full invariant |
| Pools.SoundIgnoresContents | src/world.cpp:63-72 | the full invariant depends only on the slot count, the generations and the free list, so changing what the slots hold, as step does, keeps it |
| Pools.ForgedHandleRefreesSlot | src/world.cpp:55-61 | after create then destroy, the never-issued handle {0,1} resolves, and destroying it leaves the free list [0,0] with duplicates |
| Pools.DuplicateFreeSlotIssuedTwice | src/world.cpp:38-43 | when the last two free entries are equal, the next two creations return the same handle |
| Dynamics.SimulateGravity | src/world.cpp:8-13 | only the force changes, and only when gravity is enabled: it grows by gravity times mass |
| Dynamics.ApplyDynamics | src/world.cpp:15-23 | semi-implicit Euler: velocity first gains force/mass times dt, then position moves by the new velocity times dt; force becomes zero; mass, size and the sleep fields are unchanged |
| Dynamics.StepObjects | src/world.cpp:63-72 | the length is kept; free and sleeping slots are unchanged; every live awake object gets gravity then integration, independently of the others, and ends with zero force; with gravity disabled no gravity is added |
| Worlds.World.constructor | include/nuck/world.hpp:20-21 | a new world has an empty pool, gravity disabled and the zero gravity vector, and is sound |
| Worlds.World.GetObject | src/world.cpp:47-53 | a resolved handle refers to a slot inside storage, its own index |
| Worlds.World.CreateObject | src/world.cpp:28-45 | the new storage and the returned handle are those of Pools.Create on the old storage; the handle is recorded as issued; the gravity settings are unchanged; a sound world stays sound |
| Worlds.World.DestroyObject | src/world.cpp:55-61 | the new storage is Pools.Destroy of the old one; nothing else changes; a sound world given an issued handle stays sound |
| Worlds.World.LiveHandlesExact | include/nuck/world.hpp:48-51 | the traversal yields a handle for exactly the non-free slots, in ascending slot order; each yielded handle resolves to its slot; in a sound pool each yielded handle was issued |
| Worlds.World.Begin | include/nuck/world.hpp:54-56 | begin() is an iterator on this world at the first non-free slot, or at the end |
| Worlds.World.End | include/nuck/world.hpp:58-60 | end() is an iterator on this world at position m_objects.size() |
| Worlds.World.Traverse | include/nuck/world.hpp:54-60 | the loop from begin() to end() with operator!=, operator* and operator++ yields exactly LiveHandles() |
| Worlds.World.Step | src/world.cpp:63-72 | the objects become StepObjects of the old storage and settings; generations, the free list, the issued handles and the gravity settings are unchanged; a sound world stays sound |
| Worlds.Iterator.constructor | include/nuck/world.hpp:36-38 | constructing at a start position settles on NextValid of that position |
| Worlds.Iterator.AdvanceToNextValid | include/nuck/world.hpp:27-33 | the loop ends at NextValid of the starting index, and only the index changes |
| Worlds.Iterator.NotEqual | include/nuck/world.hpp:40-42 | two iterators differ exactly when their positions differ; the worlds they belong to play no part |
| Worlds.Iterator.Next | include/nuck/world.hpp:43-47 | operator++ moves to NextValid of the next position |
| Worlds.Iterator.Deref | include/nuck/world.hpp:48-51 | operator* yields the handle for the current slot, and on a valid world it resolves to that slot |
| Scenarios.HandleLifecycle | src/world.cpp:28-61 | a created handle resolves; after destroy it does not; a second destroy leaves the free list unchanged; reusing the slot gives the same index with a strictly greater generation, and the old handle still does not resolve |
| Scenarios.TraversalCompleteness | include/nuck/world.hpp:54-60 | after creating any number of objects and destroying none, the traversal yields exactly the created handles, in creation order |
| Scenarios.TraversalExclusion | include/nuck/world.hpp:27-33 | after three creations and destroying the middle object, the traversal yields the first and third handles, in that order |
| Scenarios.SleepingIsSkipped | src/world.cpp:66-68 | a sleeping object is identical after any number of steps, even with gravity enabled |
| Scenarios.GravityIntegration | src/world.cpp:63-72 | unit mass at rest at the origin, gravity (0,-10) and dt 1: after one step velocity and position are (0,-10) and force is zero |
| Scenarios.GravityDisabled | src/world.cpp:8-13 | a body at rest, of any position, size and non-zero mass, with gravity disabled and any gravity vector set, keeps its position with zero velocity and zero force after a step of any length |
| Scenarios.ForceIsConsumed | src/world.cpp:15-23 | a force applied before the step is zero after it; without gravity the velocity gained is force/mass times dt |

## Left out

- Floating point: vectors, masses and times are `real`. Rounding, NaN and infinity are not modelled. The rest of `include/nuck/math.hpp` (length, angle, normalise, lerp and so on) is not used by the core and is not part of this model.
- Zero mass: the source divides by the mass and yields infinity or NaN for a zero mass. `Dynamics.ApplyDynamics`, `Dynamics.StepObjects` and `Worlds.World.Step` instead require a non-zero mass for every live, awake object.
- Worlds.World.Step: proved for reals rather than floats, so its result says nothing about float rounding.
- Integer widths: generations and indices are unbounded naturals. The `uint32_t` wrap-around of a generation after 2^32 destroys of one slot is not modelled. Neither is the `size_t` to `uint32_t` narrowing of a slot index beyond 2^32 slots. It happens in two places: `create_object` stores `m_objects.size()` into a `uint32_t` (`src/world.cpp:29,34`), and `operator*` casts the iterator position (`include/nuck/world.hpp:49`).
- Worlds.World.DestroyObject: keeps the free list duplicate-free (`Pools.DestroyKeepsSound`) only for handles the pool issued. A forged handle naming a freed slot at its current generation breaks this, as the source does (`Pools.ForgedHandleRefreesSlot`).
- Pointers: `get_object` returns a pointer into storage; the model returns the slot index. The dangling pointer after the vector reallocates, noted in the TODO at `src/world.cpp:27`, is not modelled.
- Mutating the pool during a traversal is unsupported in the source and is not modelled. `Step` changes only object contents while it iterates. It never changes the slot count or the free list.
- `sleep_timer` and the `delta_time` parameter of `simulate_gravity` are never read by the source, so nothing is proved about them. `sleep_timer` is kept as a field.
- The host sets `enable_gravity` and `world_gravity` by writing the public fields directly. The scenarios do the same.
- `m_objects` is private in the source. A host changes an object only through the pointer `get_object` returns. `Scenarios.SleepingIsSkipped` and `Scenarios.ForceIsConsumed` assign `World.objects` at the resolved slot. That assignment stands for a write through that pointer.
