/**
 * The passenger spawner: a pool of passenger bodies built once, a countdown
 * that fires a spawn every `spawnRateInSeconds`, and a spawn that activates
 * the first inactive pooled passenger.
 *
 * Engine state is reduced to what the script writes: each pooled entry
 * records whether it is active, where it was placed, its rigid-body mass and
 * velocities, and the impulse handed to the physics engine when it spawned.
 * The spawner's position and its forward direction in world space are
 * parameters.
 */
module Passengers {

  datatype Vec3 = Vec3(x: real, y: real, z: real)

  const Zero: Vec3 := Vec3(0.0, 0.0, 0.0)

  function Scale(v: Vec3, k: real): Vec3 {
    Vec3(v.x * k, v.y * k, v.z * k)
  }

  datatype Quat = Quat(x: real, y: real, z: real, w: real)

  const Identity: Quat := Quat(0.0, 0.0, 0.0, 1.0)

  /** One pooled passenger body. */
  datatype Passenger = Passenger(
    active: bool,
    position: Vec3,
    rotation: Quat,
    mass: real,
    velocity: Vec3,
    angularVelocity: Vec3,
    impulse: Vec3)

  /** The mass, in kg, each spawned passenger is given. */
  const PassengerMass: real := 0.01

  /** The speed factor of the jump impulse given to a spawned passenger. */
  const JumpSpeed: real := 10.0

  /** A freshly pooled passenger: inactive, at rest, with the engine's default unit mass. */
  const Pooled: Passenger := Passenger(false, Zero, Identity, 1.0, Zero, Zero, Zero)

  /** The passenger `p` once spawned at `at`, jumping along `forward`. */
  function Spawned(p: Passenger, at: Vec3, forward: Vec3): Passenger {
    p.(active := true, position := at, rotation := Identity, mass := PassengerMass,
       velocity := Zero, angularVelocity := Zero,
       impulse := Scale(forward, JumpSpeed * PassengerMass))
  }

  /** The index of the lowest inactive entry of `pool`, or `|pool|` when all are active. */
  function FirstInactive(pool: seq<Passenger>): (k: nat)
    ensures k <= |pool|
    ensures forall j :: 0 <= j < k ==> pool[j].active
    ensures k < |pool| ==> !pool[k].active
    ensures k == |pool| <==> forall j :: 0 <= j < |pool| ==> pool[j].active
  {
    if pool == [] then 0
    else if !pool[0].active then 0
    else 1 + FirstInactive(pool[1..])
  }

  /** The pool after one spawn attempt at `at` along `forward`. */
  function SpawnInto(pool: seq<Passenger>, at: Vec3, forward: Vec3): (r: seq<Passenger>)
    ensures |r| == |pool|
    ensures forall j :: 0 <= j < |pool| && j != FirstInactive(pool) ==> r[j] == pool[j]
    ensures FirstInactive(pool) == |pool| ==> r == pool
    ensures FirstInactive(pool) < |pool| ==>
      var k := FirstInactive(pool);
      && r[k].active && r[k].position == at && r[k].rotation == Identity
      && r[k].mass == PassengerMass && r[k].velocity == Zero && r[k].angularVelocity == Zero
      && r[k].impulse == Scale(forward, JumpSpeed * PassengerMass)
  {
    var k := FirstInactive(pool);
    if k == |pool| then pool else pool[k := Spawned(pool[k], at, forward)]
  }

  /** The number of active entries of `pool`. */
  function ActiveCount(pool: seq<Passenger>): (n: nat)
    ensures n <= |pool|
    ensures n == 0 <==> forall j :: 0 <= j < |pool| ==> !pool[j].active
  {
    if pool == [] then 0
    else (if pool[0].active then 1 else 0) + ActiveCount(pool[1..])
  }

  /** Replacing one entry changes the active count by the difference of their flags. */
  lemma {:induction false} ActiveCountUpdate(pool: seq<Passenger>, k: nat, p: Passenger)
    requires k < |pool|
    ensures ActiveCount(pool[k := p]) ==
      ActiveCount(pool) - (if pool[k].active then 1 else 0) + (if p.active then 1 else 0)
  {
    if k == 0 {
      assert pool[k := p][1..] == pool[1..];
    } else {
      assert pool[k := p][1..] == pool[1..][k - 1 := p];
      ActiveCountUpdate(pool[1..], k - 1, p);
    }
  }

  /** A spawn activates exactly one more entry, or none when every entry is active. */
  lemma SpawnActivatesAtMostOne(pool: seq<Passenger>, at: Vec3, forward: Vec3)
    ensures ActiveCount(SpawnInto(pool, at, forward)) ==
      ActiveCount(pool) + (if FirstInactive(pool) < |pool| then 1 else 0)
  {
    var k := FirstInactive(pool);
    if k < |pool| {
      ActiveCountUpdate(pool, k, Spawned(pool[k], at, forward));
    }
  }

  class SpawnPassengers {
    /** How many passengers the pool is built with. */
    var pooledAmount: int
    /** Seconds left until the next spawn. */
    var spawnRateInSeconds: real
    /** The countdown's initial value, saved by Start. */
    var startSpawnRate: real
    var passengers: seq<Passenger>

    /** A spawner as configured in the scene (the script's defaults are 2000 and 1.0). */
    constructor (pooledAmount: int, spawnRateInSeconds: real)
      ensures this.pooledAmount == pooledAmount
      ensures this.spawnRateInSeconds == spawnRateInSeconds
      ensures passengers == []
    {
      this.pooledAmount := pooledAmount;
      this.spawnRateInSeconds := spawnRateInSeconds;
      startSpawnRate := 0.0;
      passengers := [];
    }

    /** Builds the pool: `pooledAmount` inactive passengers, and saves the countdown's start value. */
    method Start()
      modifies this`passengers, this`startSpawnRate
      ensures |passengers| == if pooledAmount < 0 then 0 else pooledAmount
      ensures forall j :: 0 <= j < |passengers| ==> passengers[j] == Pooled
      ensures ActiveCount(passengers) == 0
      ensures startSpawnRate == spawnRateInSeconds
    {
      passengers := [];
      var i := 0;
      while i < pooledAmount
        invariant 0 <= i <= if pooledAmount < 0 then 0 else pooledAmount
        invariant |passengers| == i
        invariant forall j :: 0 <= j < i ==> passengers[j] == Pooled
      {
        passengers := passengers + [Pooled];
        i := i + 1;
      }
      startSpawnRate := spawnRateInSeconds;
    }

    /**
     * One frame: the countdown drops by `deltaTime`; once it is below zero
     * one spawn is attempted and the countdown restarts from its start value.
     */
    method Update(deltaTime: real, at: Vec3, forward: Vec3)
      modifies this`spawnRateInSeconds, this`passengers
      ensures old(spawnRateInSeconds) - deltaTime < 0.0 ==>
        spawnRateInSeconds == startSpawnRate && passengers == SpawnInto(old(passengers), at, forward)
      ensures old(spawnRateInSeconds) - deltaTime >= 0.0 ==>
        spawnRateInSeconds == old(spawnRateInSeconds) - deltaTime && passengers == old(passengers)
    {
      spawnRateInSeconds := spawnRateInSeconds - deltaTime;
      if spawnRateInSeconds < 0.0 {
        SpawnPassenger(at, forward);
        spawnRateInSeconds := startSpawnRate;
      }
    }

    /** Activates the first inactive pooled passenger at `at`, jumping along `forward`. */
    method SpawnPassenger(at: Vec3, forward: Vec3)
      modifies this`passengers
      ensures passengers == SpawnInto(old(passengers), at, forward)
    {
      var i := 0;
      while i < |passengers|
        invariant 0 <= i <= |passengers|
        invariant passengers == old(passengers)
        invariant forall j :: 0 <= j < i ==> passengers[j].active
      {
        if !passengers[i].active {
          passengers := passengers[i := Spawned(passengers[i], at, forward)];
          break;
        }
        i := i + 1;
      }
    }
  }
}
