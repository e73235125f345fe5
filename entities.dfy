/** The `Enemy` entity of script.js and its ALIVE -> DYING -> removed state
    machine: construction from a vertex count, the per-frame `update`, and
    `startDeath`, which freezes the enemy and bursts it into one fragment per
    edge. Enemies are values here: the simulation replaces an enemy in its
    collection where the source updates the object's fields. */
module Entities {
  import opened Common

  const ENEMY_RADIUS: real := 15.0
  const CORE_RADIUS: real := 30.0
  const ENEMY_BASE_SPEED: real := 120.0
  const ROTATION_SPEED: real := 2.0
  const FLASH_DURATION: real := 0.1
  const DEATH_DURATION: real := 0.6

  /** One triangle of a dying enemy. Its outline (`p1`, `p2`) only matters for
      drawing and is not kept. */
  datatype Fragment = Fragment(pos: Point, vel: Point, rotation: real, rotationSpeed: real, life: real)

  /** An enemy. `id` stands for the object's identity: the simulation gives
      every spawned enemy a fresh one. */
  datatype Enemy = Enemy(
    id: nat,
    pos: Point,
    vertices: nat,
    maxHp: real,
    hp: real,
    baseSpeed: real,
    speed: real,
    damage: real,
    rotation: real,
    hitFlashTimer: real,
    isDying: bool,
    fragments: seq<Fragment>,
    deathTimer: real,
    markedForDeletion: bool)

  /** `new Enemy(x, y, type)`. The source divides by the vertex count. */
  function NewEnemy(id: nat, pos: Point, vertices: nat): (e: Enemy)
    requires vertices > 0
    ensures e.id == id && e.pos == pos && e.vertices == vertices
    ensures e.hp == e.maxHp > 0.0
    ensures e.speed == e.baseSpeed && e.baseSpeed * vertices as real == 3.0 * ENEMY_BASE_SPEED
    ensures e.damage == vertices as real
    ensures !e.isDying && !e.markedForDeletion && e.fragments == []
  {
    var maxHp := 10.0 * PowInt(1.6, vertices as int - 3);
    var baseSpeed := ENEMY_BASE_SPEED * (3.0 / vertices as real);
    Enemy(id, pos, vertices, maxHp, maxHp, baseSpeed, baseSpeed, vertices as real,
          0.0, 0.0, false, [], 0.0, false)
  }

  /** A triangle has 10 hit points and a square 16. */
  lemma BaseEnemyHitPoints(id: nat, pos: Point)
    ensures NewEnemy(id, pos, 3).maxHp == 10.0
    ensures NewEnemy(id, pos, 4).maxHp == 16.0
  {
  }

  /** More vertices make an enemy strictly tougher and strictly slower. */
  lemma MoreVerticesTougherAndSlower(id: nat, pos: Point, v: nat, w: nat)
    requires 3 <= v < w
    ensures NewEnemy(id, pos, v).maxHp < NewEnemy(id, pos, w).maxHp
    ensures NewEnemy(id, pos, v).baseSpeed > NewEnemy(id, pos, w).baseSpeed
  {
    PowStrictlyMonotone(1.6, v - 3, w - 3);
    var a := NewEnemy(id, pos, v).baseSpeed;
    var b := NewEnemy(id, pos, w).baseSpeed;
    assert a * v as real == b * w as real;
    MulCommutes(a, v as real);
    MulCommutes(b, w as real);
    if a <= b {
      MulNonNegative(b - a, v as real);
      MulDistributes(v as real, b, a);
      MulPositive(b, (w - v) as real);
      MulDistributes(b, w as real, v as real);
      MulCommutes(b - a, v as real);
      MulCommutes(b, v as real);
      MulCommutes(b, w as real);
      assert false;
    }
  }

  /** One fragment's step in `update`: it drifts and spins, and its life is
      what is left of the death animation. */
  function FragmentStep(f: Fragment, dt: real, progress: real): Fragment
  {
    Fragment(Point(f.pos.x + f.vel.x * dt, f.pos.y + f.vel.y * dt), f.vel,
             f.rotation + f.rotationSpeed * dt, f.rotationSpeed, 1.0 - progress)
  }

  /** Every fragment of a dying enemy after one step. */
  function StepFragments(fs: seq<Fragment>, dt: real, progress: real): (r: seq<Fragment>)
    ensures |r| == |fs|
    ensures forall k :: 0 <= k < |fs| ==> r[k] == FragmentStep(fs[k], dt, progress)
  {
    seq(|fs|, k requires 0 <= k < |fs| => FragmentStep(fs[k], dt, progress))
  }

  /** `Enemy.update(dt, target)`. A dying enemy only runs its death
      animation; a live one moves toward the target (`toward` is the unit
      vector from the first point to the second), spins and lets its hit
      flash fade. */
  function Stepped(e: Enemy, dt: real, target: Point, toward: (Point, Point) -> Point): (r: Enemy)
    ensures r.id == e.id && r.vertices == e.vertices && r.isDying == e.isDying
    ensures r.hp == e.hp && r.maxHp == e.maxHp && r.damage == e.damage && r.speed == e.speed
    ensures e.isDying ==>
              r.pos == e.pos && r.rotation == e.rotation && r.deathTimer == e.deathTimer + dt &&
              |r.fragments| == |e.fragments| &&
              (forall k :: 0 <= k < |r.fragments| ==> r.fragments[k].life == 1.0 - r.deathTimer / DEATH_DURATION) &&
              r.markedForDeletion == (e.markedForDeletion || r.deathTimer >= DEATH_DURATION)
    ensures !e.isDying ==>
              r.rotation == e.rotation + ROTATION_SPEED * dt && r.fragments == e.fragments &&
              r.markedForDeletion == e.markedForDeletion && r.deathTimer == e.deathTimer &&
              (r.pos != e.pos ==> SqDist(target, e.pos) > 0.0) &&
              r.hitFlashTimer == (if e.hitFlashTimer > 0.0 then e.hitFlashTimer - dt else e.hitFlashTimer)
  {
    if e.isDying then
      var timer := e.deathTimer + dt;
      var progress := timer / DEATH_DURATION;
      e.(deathTimer := timer,
         fragments := StepFragments(e.fragments, dt, progress),
         markedForDeletion := if progress >= 1.0 then true else e.markedForDeletion)
    else
      var pos :=
        if SqDist(target, e.pos) > 0.0 then
          var u := toward(e.pos, target);
          Point(e.pos.x + u.x * e.speed * dt, e.pos.y + u.y * e.speed * dt)
        else e.pos;
      e.(pos := pos,
         rotation := e.rotation + ROTATION_SPEED * dt,
         hitFlashTimer := if e.hitFlashTimer > 0.0 then e.hitFlashTimer - dt else e.hitFlashTimer)
  }

  /** `Enemy.update`, with the `fragments.forEach` loop of the death branch. */
  method UpdateEnemy(e: Enemy, dt: real, target: Point, toward: (Point, Point) -> Point) returns (r: Enemy)
    ensures r == Stepped(e, dt, target, toward)
  {
    if e.isDying {
      var timer := e.deathTimer + dt;
      var progress := timer / DEATH_DURATION;
      var frags := e.fragments;
      var i := 0;
      while i < |frags|
        invariant 0 <= i <= |frags| == |e.fragments|
        invariant forall k :: 0 <= k < i ==> frags[k] == FragmentStep(e.fragments[k], dt, progress)
        invariant forall k :: i <= k < |frags| ==> frags[k] == e.fragments[k]
      {
        frags := frags[i := FragmentStep(frags[i], dt, progress)];
        i := i + 1;
      }
      r := e.(deathTimer := timer, fragments := frags);
      if progress >= 1.0 {
        r := r.(markedForDeletion := true);
      }
    } else {
      r := e;
      if SqDist(target, e.pos) > 0.0 {
        var u := toward(e.pos, target);
        r := r.(pos := Point(e.pos.x + u.x * e.speed * dt, e.pos.y + u.y * e.speed * dt));
      }
      r := r.(rotation := e.rotation + ROTATION_SPEED * dt);
      if e.hitFlashTimer > 0.0 {
        r := r.(hitFlashTimer := e.hitFlashTimer - dt);
      }
    }
  }

  /** The fragment for edge `i` of a dying `n`-gon. Its four random draws are
      taken in source order: the two speed factors, the spin angle and the
      spin rate. */
  function FragmentAt(e: Enemy, i: nat, env: Oracle, drawn: nat): Fragment
  {
    var dir := env.edgeDir(i, e.vertices);
    var base := drawn + 4 * i;
    Fragment(e.pos,
             Point(dir.x * (150.0 + env.random(base) * 100.0), dir.y * (150.0 + env.random(base + 1) * 100.0)),
             env.random(base + 2) * PI,
             (env.random(base + 3) - 0.5) * 10.0,
             1.0)
  }

  /** `startDeath`, with the draws starting at `drawn`: the enemy stops, is
      dying, and holds exactly one full-life fragment per edge at its own
      position; it takes `4 * vertices` draws. */
  function Dying(e: Enemy, env: Oracle, drawn: nat): (r: Enemy)
    ensures r.isDying && r.speed == 0.0 && |r.fragments| == e.vertices
    ensures forall k :: 0 <= k < |r.fragments| ==> r.fragments[k].life == 1.0 && r.fragments[k].pos == e.pos
    ensures r.id == e.id && r.pos == e.pos && r.vertices == e.vertices && r.hp == e.hp && r.maxHp == e.maxHp
    ensures r.deathTimer == e.deathTimer && r.markedForDeletion == e.markedForDeletion
  {
    e.(isDying := true, speed := 0.0,
       fragments := seq(e.vertices, k requires 0 <= k < e.vertices => FragmentAt(e, k, env, drawn)))
  }

  /** `startDeath`, with its `for` loop pushing one fragment per edge. */
  method StartDeath(e: Enemy, env: Oracle, drawn: nat) returns (r: Enemy)
    ensures r == Dying(e, env, drawn)
  {
    var frags: seq<Fragment> := [];
    for i := 0 to e.vertices
      invariant |frags| == i
      invariant forall k :: 0 <= k < i ==> frags[k] == FragmentAt(e, k, env, drawn)
    {
      frags := frags + [FragmentAt(e, i, env, drawn)];
    }
    r := e.(isDying := true, speed := 0.0, fragments := frags);
  }

  /** The kill reward `floor(floor(maxHp * 0.4) * salvage)`. */
  function Reward(maxHp: real, salvage: real): int
  {
    (((maxHp * 0.4).Floor as real) * salvage).Floor
  }

  /** With a salvage multiplier of at least 1, the reward is never below the
      raw reward `floor(maxHp * 0.4)`, and it is never negative. */
  lemma RewardAtLeastRaw(maxHp: real, salvage: real)
    requires maxHp >= 0.0 && salvage >= 1.0
    ensures Reward(maxHp, salvage) >= (maxHp * 0.4).Floor >= 0
  {
    var raw := (maxHp * 0.4).Floor as real;
    MulNonNegative(raw, salvage - 1.0);
    MulDistributes(raw, salvage, 1.0);
  }
}
