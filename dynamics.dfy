/** What the per-frame step does to the bodies: the gravity contribution, the
    integration, and the whole storage after one pass. The numbers are reals,
    an idealisation of the source's floats. */
module Dynamics {
  import opened Vectors
  import opened Objects

  /** The gravity contribution: when enabled, the gravity vector scaled by the
      mass is added to the accumulated force, and nothing else changes. */
  function SimulateGravity(o: Object, enableGravity: bool, worldGravity: Vector2): (r: Object)
    ensures r.(force := o.force) == o
    ensures !enableGravity ==> r == o
    ensures enableGravity ==> r.force == Add(o.force, Scale(worldGravity, o.mass))
  {
    if enableGravity then o.(force := Add(o.force, Scale(worldGravity, o.mass))) else o
  }

  /** Semi-implicit Euler: the velocity takes the acceleration first, the position
      then moves by the already updated velocity, and the force is consumed. */
  function ApplyDynamics(o: Object, deltaTime: real): (r: Object)
    requires o.mass != 0.0
    ensures r.velocity == Add(o.velocity, Scale(Scale(o.force, 1.0 / o.mass), deltaTime))
    ensures r.position == Add(o.position, Scale(r.velocity, deltaTime))
    ensures r.force == Zero
    ensures r.(position := o.position, velocity := o.velocity, force := o.force) == o
  {
    var acceleration := Scale(o.force, 1.0 / o.mass);
    var velocity := Add(o.velocity, Scale(acceleration, deltaTime));
    o.(velocity := velocity, position := Add(o.position, Scale(velocity, deltaTime)), force := Zero)
  }

  /** Every object the step integrates has a mass it can divide by. */
  predicate MassesNonZero(objects: seq<Object>, free: seq<nat>)
  {
    forall k :: 0 <= k < |objects| && k !in free && !objects[k].isSleeping ==> objects[k].mass != 0.0
  }

  /** What one step does to the object in one slot. */
  function StepSlot(o: Object, live: bool, enableGravity: bool, worldGravity: Vector2, deltaTime: real): (r: Object)
    requires live && !o.isSleeping ==> o.mass != 0.0
  {
    if live && !o.isSleeping then ApplyDynamics(SimulateGravity(o, enableGravity, worldGravity), deltaTime)
    else o
  }

  /** The storage after one step: free and sleeping slots are untouched, every
      other object gets gravity (only when enabled) and is then integrated,
      each independently of the others. */
  function StepObjects(objects: seq<Object>, free: seq<nat>, enableGravity: bool, worldGravity: Vector2,
                       deltaTime: real): (r: seq<Object>)
    requires MassesNonZero(objects, free)
    ensures |r| == |objects|
    ensures forall k :: 0 <= k < |objects| && (k in free || objects[k].isSleeping) ==> r[k] == objects[k]
    ensures forall k :: 0 <= k < |objects| && k !in free && !objects[k].isSleeping ==>
      r[k] == ApplyDynamics(SimulateGravity(objects[k], enableGravity, worldGravity), deltaTime)
    ensures forall k :: 0 <= k < |objects| && k !in free && !objects[k].isSleeping ==>
      r[k].force == Zero && r[k].mass == objects[k].mass && r[k].size == objects[k].size &&
      !r[k].isSleeping && r[k].sleepTimer == objects[k].sleepTimer
    ensures !enableGravity ==> forall k :: 0 <= k < |objects| && k !in free && !objects[k].isSleeping ==>
      r[k] == ApplyDynamics(objects[k], deltaTime)
  {
    seq(|objects|, k requires 0 <= k < |objects| =>
      StepSlot(objects[k], k !in free, enableGravity, worldGravity, deltaTime))
  }
}
