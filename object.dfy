/** Physical bodies and the handles that name them. */
module Objects {
  import opened Vectors

  /** The physical state of one simulated body. */
  datatype Object = Object(
    position: Vector2,
    size: Vector2,
    velocity: Vector2,
    force: Vector2,
    mass: real,
    isSleeping: bool,
    sleepTimer: real)

  /** The body built by the designated initialiser that names only position,
      size and mass: every other member takes its default value. */
  function NewObject(position: Vector2, size: Vector2, mass: real): (o: Object)
    ensures o.position == position && o.size == size && o.mass == mass
    ensures o.velocity == Zero && o.force == Zero
    ensures !o.isSleeping && o.sleepTimer == 0.0
  {
    Object(position, size, Zero, Zero, mass, false, 0.0)
  }

  /** A handle: a slot index and the generation the slot had when the handle was issued. */
  datatype ObjectID = ObjectID(index: nat, generation: nat)

  /** Handle equality compares both fields; it coincides with equality of the values. */
  function Equal(one: ObjectID, other: ObjectID): (r: bool)
    ensures r <==> one == other
  {
    one.index == other.index && one.generation == other.generation
  }

  /** Handle inequality, written in the source as a disjunction of its own. */
  function NotEqual(one: ObjectID, other: ObjectID): (r: bool)
    ensures r <==> !Equal(one, other)
  {
    one.index != other.index || one.generation != other.generation
  }

  lemma EqualIsEquivalence(a: ObjectID, b: ObjectID, c: ObjectID)
    ensures Equal(a, a)
    ensures Equal(a, b) ==> Equal(b, a)
    ensures Equal(a, b) && Equal(b, c) ==> Equal(a, c)
  {
  }
}
