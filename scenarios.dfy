/** The behaviours a host relies on, stated on concrete worlds built the way
    a host application drives the pool. */
module Scenarios {
  import opened Vectors
  import opened Objects
  import opened LiveSlots
  import opened Pools
  import opened Worlds
  import opened Dynamics

  /** A handle resolves right after creation and not after destruction; a second
      destroy of the same handle changes nothing; reusing the slot hands out a
      strictly later generation, so the old handle stays dead. */
  method HandleLifecycle(position: Vector2, size: Vector2, mass: real)
    returns (first: ObjectID, second: ObjectID, afterCreate: Option<nat>, afterDestroy: Option<nat>,
             freeAfterDoubleDestroy: seq<nat>, afterReuse: Option<nat>)
    ensures afterCreate == Some(first.index) && afterDestroy == None && afterReuse == None
    ensures freeAfterDoubleDestroy == [first.index]
    ensures second.index == first.index && second.generation > first.generation
  {
    var w := new World();
    first := w.CreateObject(position, size, mass);
    afterCreate := w.GetObject(first);
    w.DestroyObject(first);
    afterDestroy := w.GetObject(first);
    w.DestroyObject(first);
    freeAfterDoubleDestroy := w.freeIndexes;
    second := w.CreateObject(position, size, mass);
    afterReuse := w.GetObject(first);
  }

  /** After creating `count` objects and destroying none, a traversal yields
      exactly the created handles, in creation order. */
  method TraversalCompleteness(count: nat) returns (created: seq<ObjectID>, yielded: seq<ObjectID>)
    ensures yielded == created && |yielded| == count
  {
    var w := new World();
    created := [];
    while |created| < count
      invariant w.Valid() && w.freeIndexes == [] && |w.objects| == |created| <= count
      invariant forall j :: 0 <= j < |created| ==> w.generations[j] == 0 && created[j] == ObjectID(j, 0)
    {
      var h := w.CreateObject(Zero, Zero, 1.0);
      created := created + [h];
    }
    yielded := w.Traverse();
    NoFreeVisitsAll(|w.objects|, 0);
  }

  /** Three objects, the middle one destroyed: the traversal yields the other
      two, in their original order. */
  method TraversalExclusion() returns (a: ObjectID, b: ObjectID, c: ObjectID, yielded: seq<ObjectID>)
    ensures yielded == [a, c] && b != a && b != c
  {
    var w := new World();
    a := w.CreateObject(Zero, Zero, 1.0);
    b := w.CreateObject(Zero, Zero, 1.0);
    c := w.CreateObject(Zero, Zero, 1.0);
    w.DestroyObject(b);
    assert w.freeIndexes == [1] && |w.objects| == 3;
    yielded := w.Traverse();
    MiddleSlotFree();
  }

  lemma MiddleSlotFree()
    ensures LiveFrom(3, [1], 0) == [0, 2]
  {
    assert LiveFrom(3, [1], 2) == [2] + LiveFrom(3, [1], 3);
  }

  /** A sleeping object is left exactly as it was by any number of steps. */
  method SleepingIsSkipped(position: Vector2, velocity: Vector2, force: Vector2, steps: nat)
    returns (before: Object, after: Object)
    ensures after == before && after.position == position && after.velocity == velocity && after.force == force
  {
    var w := new World();
    w.enableGravity := true;
    w.worldGravity := Vector2(0.0, -10.0);
    var h := w.CreateObject(position, Zero, 1.0);
    // Stands for a write through the pointer get_object returns for h.
    w.objects := w.objects[h.index := w.objects[h.index].(velocity := velocity, force := force, isSleeping := true)];
    before := w.objects[h.index];
    var k := 0;
    while k < steps
      invariant w.Valid() && |w.objects| == 1 && w.objects[0] == before
    {
      w.Step(1.0);
      k := k + 1;
    }
    after := w.objects[h.index];
  }

  /** A world holding one unit mass at rest at the origin, with gravity (0, -10)
      switched on. */
  method FallingBodyWorld() returns (w: World, h: ObjectID)
    ensures fresh(w) && w.Valid()
    ensures h == ObjectID(0, 0)
    ensures w.objects == [NewObject(Zero, Vector2(1.0, 1.0), 1.0)] && w.freeIndexes == []
    ensures w.enableGravity && w.worldGravity == Vector2(0.0, -10.0)
  {
    w := new World();
    w.enableGravity := true;
    w.worldGravity := Vector2(0.0, -10.0);
    h := w.CreateObject(Zero, Vector2(1.0, 1.0), 1.0);
  }

  /** Unit mass at rest at the origin, gravity (0, -10) enabled, one step of a
      second: the velocity and the position are both (0, -10), the force is zero. */
  method GravityIntegration() returns (after: Object)
    ensures after.velocity == Vector2(0.0, -10.0) && after.position == Vector2(0.0, -10.0)
    ensures after.force == Zero
  {
    var w, h := FallingBodyWorld();
    w.Step(1.0);
    after := w.objects[h.index];
    UnitFall();
  }

  /** The arithmetic of one gravity step for a unit mass at rest at the origin. */
  lemma UnitFall()
    ensures var fell := ApplyDynamics(SimulateGravity(NewObject(Zero, Vector2(1.0, 1.0), 1.0), true, Vector2(0.0, -10.0)), 1.0);
      fell.velocity == Vector2(0.0, -10.0) && fell.position == Vector2(0.0, -10.0)
  {
    var pushed := SimulateGravity(NewObject(Zero, Vector2(1.0, 1.0), 1.0), true, Vector2(0.0, -10.0));
    assert pushed.force == Vector2(0.0, -10.0) && pushed.velocity == Zero && pushed.position == Zero;
  }

  /** A body at rest with gravity disabled, whatever gravity vector is set,
      does not move: its velocity and force stay zero and its position is kept. */
  method GravityDisabled(position: Vector2, size: Vector2, mass: real, gravity: Vector2, deltaTime: real)
    returns (after: Object)
    requires mass != 0.0
    ensures after.velocity == Zero && after.position == position && after.force == Zero
  {
    var w := new World();
    w.worldGravity := gravity;
    var h := w.CreateObject(position, size, mass);
    w.Step(deltaTime);
    after := w.objects[h.index];
  }

  /** A force applied by the host before the step is consumed by it: the
      velocity changes by force / mass * deltaTime and the force is zero after. */
  method ForceIsConsumed(force: Vector2, mass: real, deltaTime: real, gravity: bool) returns (after: Object)
    requires mass != 0.0
    ensures after.force == Zero
    ensures !gravity ==> after.velocity == Scale(Scale(force, 1.0 / mass), deltaTime)
  {
    var w := new World();
    w.enableGravity := gravity;
    w.worldGravity := Vector2(0.0, -10.0);
    var h := w.CreateObject(Zero, Zero, mass);
    // Stands for a write through the pointer get_object returns for h.
    w.objects := w.objects[h.index := w.objects[h.index].(force := force)];
    w.Step(deltaTime);
    after := w.objects[h.index];
  }
}
