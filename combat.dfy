/** Combat resolution of script.js as functions on a snapshot of the state it
    touches: the death reward and death transition (`handleEnemyDeath`), the
    area explosion (`tryExplosion`), chain lightning (`tryChainLightning`,
    `propagateChain`), the aura's stasis slow and damage tick
    (`auraSystem`) and an orbital's collision sweep (`Orbital.update`).
    The methods of the simulation are proved equal to these functions.

    The source recurses from a death into an explosion and from an
    explosion into further deaths. Its `startDeath` runs only after the
    explosion, so an enemy killed by the blast can blow up the enemy that
    is still dying, and `handleEnemyDeath` is entered again for it. The
    model counts the nesting depth with `fuel`; running out of it sets
    `crashed`, the JavaScript stack overflow that ends the game loop. */
module CombatRules {
  import opened Common
  import opened Entities
  import opened Effects
  import opened Progression

  /** How many nested deaths the JavaScript call stack takes in the model. */
  const STACK_DEPTH: nat := 10000

  const ORBITAL_RADIUS: real := 8.0
  const ORBITAL_HIT_INTERVAL: real := 0.2

  /** Everything a combat step reads and writes: the enemies, the currency,
      the texts and effects it adds, how many random draws have been taken
      and whether the call stack has overflowed. */
  datatype Combat = Combat(
    enemies: seq<Enemy>,
    currency: real,
    texts: seq<CombatText>,
    lightning: seq<Lightning>,
    explosions: seq<Explosion>,
    drawn: nat,
    crashed: bool)

  /** What combat never changes about an enemy: identity, position, size,
      strength and removal mark; and a dying enemy stays dying. */
  predicate SameBody(x: Enemy, y: Enemy)
  {
    y.id == x.id && y.pos == x.pos && y.maxHp == x.maxHp && y.vertices == x.vertices &&
    y.baseSpeed == x.baseSpeed && y.damage == x.damage && y.rotation == x.rotation &&
    y.deathTimer == x.deathTimer && y.markedForDeletion == x.markedForDeletion &&
    (x.isDying ==> y.isDying)
  }

  /** The enemy list after combat: the same enemies, in the same places. */
  predicate Evolves(a: seq<Enemy>, b: seq<Enemy>)
  {
    |a| == |b| && forall k :: 0 <= k < |a| ==> SameBody(a[k], b[k])
  }

  /** What a combat step may do to a snapshot beyond the enemies: take
      draws, add texts, lightning bolts and explosions after the ones there
      are, and overflow the stack, but never recover from an overflow. */
  predicate Grows(c: Combat, r: Combat)
  {
    Evolves(c.enemies, r.enemies) && r.drawn >= c.drawn &&
    |r.texts| >= |c.texts| && r.texts[..|c.texts|] == c.texts &&
    |r.lightning| >= |c.lightning| && r.lightning[..|c.lightning|] == c.lightning &&
    |r.explosions| >= |c.explosions| && r.explosions[..|c.explosions|] == c.explosions &&
    (c.crashed ==> r == c)
  }

  /** Pushing a `CombatText`: it takes the next draw for its drift. */
  function PushText(c: Combat, kind: TextKind, pos: Point, value: real, lifeTime: Option<real>, speedY: Option<real>, env: Oracle): (r: Combat)
    ensures r.enemies == c.enemies && r.currency == c.currency && r.lightning == c.lightning
    ensures r.explosions == c.explosions && r.crashed == c.crashed && r.drawn == c.drawn + 1
    ensures |r.texts| == |c.texts| + 1 && r.texts[..|c.texts|] == c.texts
    ensures r.texts[|c.texts|].kind == kind && r.texts[|c.texts|].value == value
  {
    var text := NewText(kind, pos, value, lifeTime, speedY, env.random(c.drawn));
    assert (c.texts + [text])[..|c.texts|] == c.texts;
    c.(texts := c.texts + [text], drawn := c.drawn + 1)
  }

  /** An enemy hit for `damage`: its hit points drop and it flashes. */
  function Hit(e: Enemy, damage: real): Enemy
  {
    e.(hp := e.hp - damage, hitFlashTimer := FLASH_DURATION)
  }

  /** The reward half of `handleEnemyDeath`: the enemy at index `i` is
      worth `floor(floor(maxHp * 0.4) * salvageScanner)`, which is paid and
      announced just above it. */
  function Rewarded(c: Combat, t: Tuning, env: Oracle, i: nat): (r: Combat)
    requires i < |c.enemies|
    ensures r.enemies == c.enemies && r.lightning == c.lightning && r.explosions == c.explosions && r.crashed == c.crashed
    ensures r.currency == c.currency + Reward(c.enemies[i].maxHp, t.salvageScanner) as real
    ensures r.drawn == c.drawn + 1 && |r.texts| == |c.texts| + 1 && r.texts[..|c.texts|] == c.texts
    ensures r.texts[|c.texts|].kind == RewardText && r.texts[|c.texts|].value == Reward(c.enemies[i].maxHp, t.salvageScanner) as real
  {
    var e := c.enemies[i];
    var reward := Reward(e.maxHp, t.salvageScanner) as real;
    PushText(c.(currency := c.currency + reward), RewardText, Point(e.pos.x, e.pos.y - 10.0), reward, None, None, env)
  }

  /** The `startDeath` that closes `handleEnemyDeath`, unless the stack
      overflowed before it. */
  function Finished(c: Combat, env: Oracle, i: nat): Combat
    requires i < |c.enemies|
  {
    if c.crashed then c
    else c.(enemies := c.enemies[i := Dying(c.enemies[i], env, c.drawn)], drawn := c.drawn + 4 * c.enemies[i].vertices)
  }

  /** `handleEnemyDeath(enemy)` for the enemy at index `i`: the reward is
      paid and announced, the explosion is tried, and only then does the
      enemy start dying. Unless the stack overflows, the enemy ends up
      dying, and no chain-lightning text or bolt appears. */
  function Death(c: Combat, t: Tuning, env: Oracle, i: nat, fuel: nat): (r: Combat)
    requires i < |c.enemies|
    ensures Grows(c, r)
    ensures !r.crashed ==> r.enemies[i].isDying
    ensures r.lightning == c.lightning
    ensures forall k :: |c.texts| <= k < |r.texts| ==> r.texts[k].kind != ChainText
    decreases fuel, 2
  {
    if c.crashed then c
    else Finished(Explode(Rewarded(c, t, env, i), t, env, i, fuel), env, i)
  }

  /** `tryExplosion(origin)`: with a positive chance one draw decides; on
      success an explosion is recorded and every other enemy in reach is
      hit for the origin's `maxHp * explodeDamage`. */
  function Explode(c: Combat, t: Tuning, env: Oracle, i: nat, fuel: nat): (r: Combat)
    requires i < |c.enemies|
    ensures Grows(c, r)
    ensures r.lightning == c.lightning
    ensures forall k :: |c.texts| <= k < |r.texts| ==> r.texts[k].kind != ChainText
    ensures t.explodeChance <= 0.0 ==> r == c
    decreases fuel, 1
  {
    if c.crashed || t.explodeChance <= 0.0 then c
    else
      var roll := env.random(c.drawn);
      var c1 := c.(drawn := c.drawn + 1);
      if roll * 100.0 < t.explodeChance then
        var o := c1.enemies[i];
        var c2 := c1.(explosions := c1.explosions + [Explosion(o.pos, t.explodeRadius, 0.0)]);
        assert c2.explosions[..|c.explosions|] == c.explosions;
        Blast(c2, t, env, i, o.pos, Mul(o.maxHp, t.explodeDamage), fuel, 0)
      else c1
  }

  /** The reach test of an explosion at `at`. */
  predicate InBlast(t: Tuning, at: Point, e: Enemy)
  {
    NoFarther(at, e.pos, t.explodeRadius + ENEMY_RADIUS)
  }

  /** Enemy `j` loses `damage` to an explosion and a text shows it
      rounded up. */
  function Struck(c: Combat, env: Oracle, damage: real, j: nat): Combat
    requires j < |c.enemies|
  {
    var e := c.enemies[j];
    PushText(c.(enemies := c.enemies[j := Hit(e, damage)]), BlastText, e.pos, Ceil(damage) as real, None, Some(100.0), env)
  }

  /** One target of an explosion: enemy `j` loses `damage`, a text shows
      it rounded up, and it dies if that brought it to 0 and it is not
      dying yet; with no stack left for that death, the stack overflows. */
  function BlastHit(c: Combat, t: Tuning, env: Oracle, at: Point, damage: real, fuel: nat, j: nat): (r: Combat)
    requires j < |c.enemies| && !c.crashed
    ensures Grows(c, r)
    ensures r.lightning == c.lightning
    ensures forall k :: |c.texts| <= k < |r.texts| ==> r.texts[k].kind != ChainText
    decreases fuel, 0, |c.enemies| - j
  {
    var hit := Hit(c.enemies[j], damage);
    var c1 := Struck(c, env, damage, j);
    if hit.hp <= 0.0 && !hit.isDying then
      if fuel == 0 then c1.(crashed := true)
      else
        var c2 := Death(c1, t, env, j, fuel - 1);
        GrowsTransitive(c, c1, c2);
        c2
    else c1
  }

  /** The `enemies.forEach` of `tryExplosion` from index `j` on: every
      target other than the origin within `explodeRadius + target.radius`
      of the origin is hit (`BlastHit`). */
  function Blast(c: Combat, t: Tuning, env: Oracle, i: nat, at: Point, damage: real, fuel: nat, j: nat): (r: Combat)
    requires j <= |c.enemies|
    ensures Grows(c, r)
    ensures r.lightning == c.lightning
    ensures forall k :: |c.texts| <= k < |r.texts| ==> r.texts[k].kind != ChainText
    decreases fuel, 0, |c.enemies| - j + 1
  {
    if c.crashed || j == |c.enemies| then c
    else if j != i && InBlast(t, at, c.enemies[j]) then
      var c1 := BlastHit(c, t, env, at, damage, fuel, j);
      var r := Blast(c1, t, env, i, at, damage, fuel, j + 1);
      GrowsTransitive(c, c1, r);
      r
    else Blast(c, t, env, i, at, damage, fuel, j + 1)
  }

  /** With no explosion (none unlocked, or the roll failing), a death pays
      exactly `floor(floor(maxHp * 0.4) * salvageScanner)`, announces it,
      and changes nothing but the dying enemy. That enemy is now dying, so
      every caller's `!isDying` guard keeps it from dying twice. */
  lemma DeathWithoutExplosion(c: Combat, t: Tuning, env: Oracle, i: nat, fuel: nat)
    requires i < |c.enemies| && !c.crashed
    requires t.explodeChance <= 0.0 || env.random(c.drawn + 1) * 100.0 >= t.explodeChance
    ensures var r := Death(c, t, env, i, fuel);
            var e := c.enemies[i];
            var reward := Reward(e.maxHp, t.salvageScanner) as real;
            !r.crashed && r.currency == c.currency + reward &&
            r.enemies == c.enemies[i := Dying(e, env, c.drawn + (if t.explodeChance <= 0.0 then 1 else 2))] &&
            |r.texts| == |c.texts| + 1 && r.texts[|c.texts|].kind == RewardText && r.texts[|c.texts|].value == reward &&
            r.explosions == c.explosions
  {
  }

  /** Two enemies in blast reach of each other, each one killed by the
      other's explosion: the setting of `MutualExplosionsNeverEnd`. */
  predicate MutualBlast(c: Combat, t: Tuning)
  {
    |c.enemies| == 2 && !c.crashed &&
    !c.enemies[0].isDying && !c.enemies[1].isDying &&
    c.enemies[0].maxHp >= 0.0 && c.enemies[1].maxHp >= 0.0 && t.explodeDamage >= 0.0 &&
    NoFarther(c.enemies[0].pos, c.enemies[1].pos, t.explodeRadius + ENEMY_RADIUS) &&
    c.enemies[0].hp <= Mul(c.enemies[1].maxHp, t.explodeDamage) &&
    c.enemies[1].hp <= Mul(c.enemies[0].maxHp, t.explodeDamage)
  }

  /** The re-entry of `handleEnemyDeath`: at an explosion chance of 100
      (explodeChance at its maxLevel), when one of two enemies in reach of
      each other dies, each one's explosion kills the other before either
      has started dying, so the deaths nest without end and overflow the
      stack however deep it is. */
  lemma {:induction false} MutualExplosionsNeverEnd(c: Combat, t: Tuning, env: Oracle, i: nat, fuel: nat)
    requires RandomInRange(env) && t.explodeChance >= 100.0
    requires MutualBlast(c, t) && i < 2
    ensures Death(c, t, env, i, fuel).crashed
    decreases fuel, 2
  {
    var c1 := Rewarded(c, t, env, i);
    assert MutualBlast(c1, t);
    MutualExplodeCrashes(c1, t, env, i, fuel);
  }

  lemma {:induction false} MutualExplodeCrashes(c: Combat, t: Tuning, env: Oracle, i: nat, fuel: nat)
    requires RandomInRange(env) && t.explodeChance >= 100.0
    requires MutualBlast(c, t) && i < 2
    ensures Explode(c, t, env, i, fuel).crashed
    decreases fuel, 1
  {
    var roll := env.random(c.drawn);
    assert 0.0 <= roll < 1.0;
    var c1 := c.(drawn := c.drawn + 1);
    var o := c1.enemies[i];
    var c2 := c1.(explosions := c1.explosions + [Explosion(o.pos, t.explodeRadius, 0.0)]);
    assert MutualBlast(c2, t);
    MutualBlastCrashes(c2, t, env, i, fuel);
    assert Explode(c, t, env, i, fuel) == Blast(c2, t, env, i, o.pos, Mul(o.maxHp, t.explodeDamage), fuel, 0);
  }

  lemma {:induction false} MutualBlastCrashes(c: Combat, t: Tuning, env: Oracle, i: nat, fuel: nat)
    requires RandomInRange(env) && t.explodeChance >= 100.0
    requires MutualBlast(c, t) && i < 2
    ensures Blast(c, t, env, i, c.enemies[i].pos, Mul(c.enemies[i].maxHp, t.explodeDamage), fuel, 0).crashed
    decreases fuel, 0
  {
    var o := c.enemies[i];
    var damage := Mul(o.maxHp, t.explodeDamage);
    var j := 1 - i;
    MutualHitCrashes(c, t, env, i, fuel);
    var c4 := BlastHit(c, t, env, o.pos, damage, fuel, j);
    if i == 0 {
      assert Blast(c, t, env, i, o.pos, damage, fuel, 1) == Blast(c4, t, env, i, o.pos, damage, fuel, 2);
    } else {
      assert Blast(c, t, env, i, o.pos, damage, fuel, 0) == Blast(c4, t, env, i, o.pos, damage, fuel, 1);
    }
  }

  /** The blast of one of two mutually lethal enemies hits the other, which
      is in reach and dies of it, and its death blasts back: the stack
      overflows. */
  lemma {:induction false} MutualHitCrashes(c: Combat, t: Tuning, env: Oracle, i: nat, fuel: nat)
    requires RandomInRange(env) && t.explodeChance >= 100.0
    requires MutualBlast(c, t) && i < 2
    ensures var o := c.enemies[i];
            InBlast(t, o.pos, c.enemies[1 - i]) &&
            BlastHit(c, t, env, o.pos, Mul(o.maxHp, t.explodeDamage), fuel, 1 - i).crashed
    decreases fuel, 0, 0
  {
    var o := c.enemies[i];
    var damage := Mul(o.maxHp, t.explodeDamage);
    var j := 1 - i;
    SqDistSymmetric(c.enemies[0].pos, c.enemies[1].pos);
    MutualStruck(c, t, env, i);
    if fuel > 0 {
      MutualExplosionsNeverEnd(Struck(c, env, damage, j), t, env, j, fuel - 1);
    }
  }

  /** Struck by the other's blast, an enemy of a mutually lethal pair drops
      to 0 without dying yet, and the pair stays mutually lethal. */
  lemma MutualStruck(c: Combat, t: Tuning, env: Oracle, i: nat)
    requires MutualBlast(c, t) && i < 2
    ensures var damage := Mul(c.enemies[i].maxHp, t.explodeDamage);
            var hit := Hit(c.enemies[1 - i], damage);
            hit.hp <= 0.0 && !hit.isDying && MutualBlast(Struck(c, env, damage, 1 - i), t)
  {
    MulNonNegative(c.enemies[i].maxHp, t.explodeDamage);
    MulNonNegative(c.enemies[1 - i].maxHp, t.explodeDamage);
  }

  /** When no target in reach dies from it, the blast from index `j` on
      takes exactly `damage` from every target in reach other than the
      origin, whatever the target's own hit points, and leaves every other
      enemy alone. */
  lemma {:induction false} BlastWithoutKills(c: Combat, t: Tuning, env: Oracle, i: nat, at: Point, damage: real, fuel: nat, j: nat)
    requires j <= |c.enemies| && !c.crashed
    requires forall k :: j <= k < |c.enemies| && k != i && InBlast(t, at, c.enemies[k]) ==>
               c.enemies[k].isDying || c.enemies[k].hp - damage > 0.0
    ensures var r := Blast(c, t, env, i, at, damage, fuel, j);
            !r.crashed && r.currency == c.currency && r.explosions == c.explosions && |r.enemies| == |c.enemies| &&
            forall k :: 0 <= k < |c.enemies| ==>
              r.enemies[k] == if j <= k && k != i && InBlast(t, at, c.enemies[k]) then Hit(c.enemies[k], damage) else c.enemies[k]
    decreases |c.enemies| - j
  {
    if j < |c.enemies| {
      if j == i || !InBlast(t, at, c.enemies[j]) {
        BlastWithoutKills(c, t, env, i, at, damage, fuel, j + 1);
      } else {
        BlastWithoutKills(Struck(c, env, damage, j), t, env, i, at, damage, fuel, j + 1);
      }
    }
  }

  /** `tryExplosion` when the roll succeeds and nobody in reach dies: every
      other enemy within `explodeRadius + radius` of the origin loses the
      origin's `maxHp * explodeDamage`, and one explosion is recorded. */
  lemma ExplosionScalesWithOrigin(c: Combat, t: Tuning, env: Oracle, i: nat, fuel: nat)
    requires i < |c.enemies| && !c.crashed
    requires t.explodeChance > 0.0 && env.random(c.drawn) * 100.0 < t.explodeChance
    requires forall k :: 0 <= k < |c.enemies| && k != i && InBlast(t, c.enemies[i].pos, c.enemies[k]) ==>
               c.enemies[k].isDying || c.enemies[k].hp - Mul(c.enemies[i].maxHp, t.explodeDamage) > 0.0
    ensures var r := Explode(c, t, env, i, fuel);
            var o := c.enemies[i];
            !r.crashed && r.currency == c.currency &&
            r.explosions == c.explosions + [Explosion(o.pos, t.explodeRadius, 0.0)] &&
            |r.enemies| == |c.enemies| &&
            forall k :: 0 <= k < |c.enemies| ==>
              r.enemies[k] == if k != i && InBlast(t, o.pos, c.enemies[k]) then Hit(c.enemies[k], Mul(o.maxHp, t.explodeDamage)) else c.enemies[k]
  {
    var o := c.enemies[i];
    var c2 := c.(drawn := c.drawn + 1, explosions := c.explosions + [Explosion(o.pos, t.explodeRadius, 0.0)]);
    BlastWithoutKills(c2, t, env, i, o.pos, Mul(o.maxHp, t.explodeDamage), fuel, 0);
  }

  // ---- Chain lightning ----

  /** An enemy the chain can jump to from link `link`: another enemy that is
      not dying. */
  predicate Candidate(es: seq<Enemy>, link: nat, k: nat)
  {
    k < |es| && k != link && !es[k].isDying
  }

  /** Squared distance from the link to enemy `k`. */
  function Gap(es: seq<Enemy>, link: nat, k: nat): real
    requires link < |es| && k < |es|
  {
    SqDist(es[link].pos, es[k].pos)
  }

  /** The search loop of `propagateChain` from index `j` on, with the best
      candidate so far: a candidate replaces it only when strictly nearer. */
  function ClosestFrom(es: seq<Enemy>, link: nat, j: nat, best: Option<nat>): (r: Option<nat>)
    requires link < |es| && j <= |es|
    requires best.Some? ==> best.value < |es|
    ensures r.Some? ==> r.value < |es|
    decreases |es| - j
  {
    if j == |es| then best
    else if !Candidate(es, link, j) then ClosestFrom(es, link, j + 1, best)
    else if best.None? || Gap(es, link, j) < Gap(es, link, best.value) then ClosestFrom(es, link, j + 1, Some(j))
    else ClosestFrom(es, link, j + 1, best)
  }

  function Closest(es: seq<Enemy>, link: nat): (r: Option<nat>)
    requires link < |es|
    ensures r.Some? ==> r.value < |es|
  {
    ClosestFrom(es, link, 0, None)
  }

  /** `k` is the first of the candidates below `upTo` at the least distance. */
  ghost predicate FirstNearest(es: seq<Enemy>, link: nat, k: nat, upTo: nat)
    requires link < |es| && upTo <= |es|
  {
    k < upTo && Candidate(es, link, k) &&
    forall m :: 0 <= m < upTo && Candidate(es, link, m) ==>
      Gap(es, link, k) <= Gap(es, link, m) && (m < k ==> Gap(es, link, k) < Gap(es, link, m))
  }

  lemma {:induction false} ClosestFromFindsFirstNearest(es: seq<Enemy>, link: nat, j: nat, best: Option<nat>)
    requires link < |es| && j <= |es|
    requires best.None? ==> forall m :: 0 <= m < j ==> !Candidate(es, link, m)
    requires best.Some? ==> FirstNearest(es, link, best.value, j)
    ensures var r := ClosestFrom(es, link, j, best);
            (r.None? ==> forall m :: 0 <= m < |es| ==> !Candidate(es, link, m)) &&
            (r.Some? ==> FirstNearest(es, link, r.value, |es|))
    decreases |es| - j
  {
    if j < |es| {
      if !Candidate(es, link, j) {
        ClosestFromFindsFirstNearest(es, link, j + 1, best);
      } else if best.None? || Gap(es, link, j) < Gap(es, link, best.value) {
        ClosestFromFindsFirstNearest(es, link, j + 1, Some(j));
      } else {
        ClosestFromFindsFirstNearest(es, link, j + 1, best);
      }
    }
  }

  /** The chain's next target is exactly the first strictly nearest live
      enemy other than the current link, and there is none exactly when no
      such enemy exists. Comparing squared distances is comparing distances
      (`NearerIsSquareNearer`). */
  lemma ClosestIsFirstNearest(es: seq<Enemy>, link: nat, k: nat)
    requires link < |es|
    ensures Closest(es, link).None? <==> forall m :: 0 <= m < |es| ==> !Candidate(es, link, m)
    ensures Closest(es, link) == Some(k) <==> FirstNearest(es, link, k, |es|)
  {
    ClosestFromFindsFirstNearest(es, link, 0, None);
    var r := Closest(es, link);
    if FirstNearest(es, link, k, |es|) {
      assert r.Some?;
      var k' := r.value;
      assert Gap(es, link, k) <= Gap(es, link, k') && Gap(es, link, k') <= Gap(es, link, k);
    }
  }

  /** How many hops a chain with `jumps` remaining can make: the
      recursion stops once `jumpsRemaining <= 0`. */
  function Hops(jumps: real): nat
  {
    if jumps <= 0.0 then 0 else Ceil(jumps) as nat
  }

  lemma HopsStep(jumps: real)
    requires jumps > 0.0
    ensures Hops(jumps - 1.0) == Hops(jumps) - 1
  {
    var c := Ceil(jumps);
    if jumps - 1.0 > 0.0 {
      var d := Ceil(jumps - 1.0);
      assert d as real < jumps && jumps <= c as real && c as real < jumps + 1.0 && jumps <= d as real + 1.0;
    }
  }

  /** A step that only grows the snapshot, followed by another, grows it. */
  lemma GrowsTransitive(a: Combat, b: Combat, c: Combat)
    requires Grows(a, b) && Grows(b, c)
    ensures Grows(a, c)
  {
    assert c.texts[..|a.texts|] == c.texts[..|b.texts|][..|a.texts|];
    assert c.lightning[..|a.lightning|] == c.lightning[..|b.lightning|][..|a.lightning|];
    assert c.explosions[..|a.explosions|] == c.explosions[..|b.explosions|][..|a.explosions|];
  }

  /** Every chain text from index `from` on shows `damage`. */
  predicate ChainTextsShow(texts: seq<CombatText>, from: nat, damage: real)
  {
    forall k :: from <= k < |texts| && texts[k].kind == ChainText ==> texts[k].value == damage
  }

  /** One hop of `propagateChain` from link `link` to target `k`: a bolt
      between them, the hit, a chain text showing `damage`, and the death
      of the target when the hit finished it and it is not dying. */
  function ChainHop(c: Combat, t: Tuning, env: Oracle, link: nat, k: nat, damage: real): (r: Combat)
    requires link < |c.enemies| && k < |c.enemies| && !c.crashed
    ensures Grows(c, r)
    ensures |r.lightning| == |c.lightning| + 1
    ensures r.lightning[|c.lightning|] == Lightning(c.enemies[link].pos, c.enemies[k].pos, 0.0)
    ensures ChainTextsShow(r.texts, |c.texts|, damage)
    ensures c.enemies[k].hp - damage > 0.0 ==>
              r.enemies == c.enemies[k := Hit(c.enemies[k], damage)] &&
              r.currency == c.currency && r.drawn == c.drawn + 1
  {
    var e := c.enemies[k];
    var c1 := c.(lightning := c.lightning + [Lightning(c.enemies[link].pos, e.pos, 0.0)],
                 enemies := c.enemies[k := Hit(e, damage)]);
    assert c1.lightning[..|c.lightning|] == c.lightning;
    var c2 := PushText(c1, ChainText, e.pos, damage, None, Some(80.0), env);
    if c2.enemies[k].hp <= 0.0 && !c2.enemies[k].isDying then
      var c3 := Death(c2, t, env, k, STACK_DEPTH);
      GrowsTransitive(c, c2, c3);
      assert c3.lightning[|c.lightning|] == c2.lightning[|c.lightning|];
      c3
    else c2
  }

  /** `propagateChain(origin, damage, jumpsRemaining)` from link `link`:
      each hop strikes the nearest live enemy and continues from it with one
      jump less, until the jumps run out or nobody is left. No more than
      `Hops(jumps)` bolts are drawn and every chain text shows exactly
      `damage`. */
  function Propagate(c: Combat, t: Tuning, env: Oracle, link: nat, damage: real, jumps: real): (r: Combat)
    requires link < |c.enemies|
    ensures Grows(c, r)
    ensures |r.lightning| <= |c.lightning| + Hops(jumps)
    ensures ChainTextsShow(r.texts, |c.texts|, damage)
    decreases Hops(jumps)
  {
    if c.crashed || jumps <= 0.0 then c
    else
      match Closest(c.enemies, link)
      case None => c
      case Some(k) =>
        var c1 := ChainHop(c, t, env, link, k, damage);
        HopsStep(jumps);
        var r := Propagate(c1, t, env, k, damage, jumps - 1.0);
        GrowsTransitive(c, c1, r);
        assert forall m :: |c.texts| <= m < |c1.texts| ==> r.texts[m] == c1.texts[m];
        r
  }

  /** `tryChainLightning(origin)`: nothing at all when the chance is not
      positive; otherwise one draw, and on `draw * 100 > chance` nothing
      more; otherwise a chain of `chainDamage` hits with `chainJumps` jumps. */
  function TryChain(c: Combat, t: Tuning, env: Oracle, i: nat): (r: Combat)
    requires i < |c.enemies|
    ensures Grows(c, r)
    ensures t.chainChance <= 0.0 ==> r == c
    ensures !c.crashed && t.chainChance > 0.0 && env.random(c.drawn) * 100.0 > t.chainChance ==>
              r == c.(drawn := c.drawn + 1)
    ensures |r.lightning| <= |c.lightning| + Hops(t.chainJumps)
    ensures ChainTextsShow(r.texts, |c.texts|, t.chainDamage)
  {
    if c.crashed || t.chainChance <= 0.0 then c
    else
      var c1 := c.(drawn := c.drawn + 1);
      if env.random(c.drawn) * 100.0 > t.chainChance then c1
      else Propagate(c1, t, env, i, t.chainDamage, t.chainJumps)
  }

  /** The chain always strikes the nearest live enemy first: with jumps
      left and a candidate, the first new bolt runs from the link to
      `Closest`; with no candidate nothing happens at all. With a single
      jump left and a hit that does not kill, the chain is exactly that
      one hit of `damage` on `Closest`. */
  lemma ChainStrikesNearestFirst(c: Combat, t: Tuning, env: Oracle, link: nat, damage: real, jumps: real)
    requires link < |c.enemies| && !c.crashed && jumps > 0.0
    ensures var r := Propagate(c, t, env, link, damage, jumps);
            match Closest(c.enemies, link)
            case None => r == c
            case Some(k) =>
              |r.lightning| > |c.lightning| &&
              r.lightning[|c.lightning|] == Lightning(c.enemies[link].pos, c.enemies[k].pos, 0.0) &&
              (jumps <= 1.0 && c.enemies[k].hp - damage > 0.0 ==>
                 r.enemies == c.enemies[k := Hit(c.enemies[k], damage)] &&
                 r.currency == c.currency && r.drawn == c.drawn + 1)
  {
    match Closest(c.enemies, link)
    case None =>
    case Some(k) =>
      var c1 := ChainHop(c, t, env, link, k, damage);
      var r := Propagate(c1, t, env, k, damage, jumps - 1.0);
      assert r.lightning[..|c1.lightning|] == c1.lightning;
      assert r.lightning[|c.lightning|] == c1.lightning[|c.lightning|];
  }

  // ---- Aura ----

  /** The aura's reach test `distance(mouse, enemy) < radius + enemy.radius`.
      Before the first mouse move the pointer's coordinates are not numbers
      (`None`), and every comparison with them is false. */
  predicate InAura(mouse: Option<Point>, e: Enemy, radius: real)
  {
    mouse.Some? && Closer(mouse.value, e.pos, radius + ENEMY_RADIUS)
  }

  /** The stasis pass of `auraSystem` for one enemy: inside the aura a
      positive stasis sets the speed to `baseSpeed * (1 - stasis / 100)`
      (otherwise the speed is left as it is); outside, the base speed is
      restored. Dying enemies are treated alike. */
  function Slowed(e: Enemy, t: Tuning, mouse: Option<Point>): (r: Enemy)
    ensures r == e.(speed := r.speed)
    ensures InAura(mouse, e, t.auraRadius) && t.stasisField > 0.0 ==> r.speed == Mul(e.baseSpeed, 1.0 - t.stasisField / 100.0)
    ensures InAura(mouse, e, t.auraRadius) && t.stasisField <= 0.0 ==> r.speed == e.speed
    ensures !InAura(mouse, e, t.auraRadius) ==> r.speed == e.baseSpeed
  {
    if InAura(mouse, e, t.auraRadius) then
      if t.stasisField > 0.0 then e.(speed := Mul(e.baseSpeed, 1.0 - t.stasisField / 100.0)) else e
    else e.(speed := e.baseSpeed)
  }

  /** The stasis pass over all enemies. */
  function SlowAll(es: seq<Enemy>, t: Tuning, mouse: Option<Point>): (r: seq<Enemy>)
    ensures |r| == |es|
    ensures forall k :: 0 <= k < |es| ==> r[k] == Slowed(es[k], t, mouse)
  {
    seq(|es|, k requires 0 <= k < |es| => Slowed(es[k], t, mouse))
  }

  /** A stasis of less than 100 (at most 80 is reachable through the shop)
      slows an enemy without stopping or reversing it. */
  lemma StasisSlowsButNeverStops(e: Enemy, t: Tuning, mouse: Option<Point>)
    requires e.baseSpeed > 0.0 && 0.0 < t.stasisField < 100.0
    requires InAura(mouse, e, t.auraRadius)
    ensures 0.0 < Slowed(e, t, mouse).speed < e.baseSpeed
  {
    var f := 1.0 - t.stasisField / 100.0;
    MulPositive(e.baseSpeed, f);
    MulPositive(e.baseSpeed, 1.0 - f);
    MulDistributes(e.baseSpeed, 1.0, f);
  }

  /** The damage of one aura hit: `auraDamage`, times `critFactor` on a
      critical hit. */
  function StrikeDamage(t: Tuning, crit: bool): real
  {
    if crit then Mul(t.auraDamage, t.critFactor) else t.auraDamage
  }

  /** The hit itself of an aura tick on enemy `j`: one draw decides a
      critical hit (`draw * 100 < critChance`); the enemy loses the damage
      and a text announces it, a critical one higher up, larger and faster. */
  function AuraTouch(c: Combat, t: Tuning, env: Oracle, j: nat, hitLife: real): (r: Combat)
    requires j < |c.enemies|
    ensures var crit := env.random(c.drawn) * 100.0 < t.critChance;
            r.enemies == c.enemies[j := Hit(c.enemies[j], StrikeDamage(t, crit))] &&
            r.currency == c.currency && r.lightning == c.lightning && r.explosions == c.explosions &&
            r.crashed == c.crashed && r.drawn == c.drawn + 2 &&
            |r.texts| == |c.texts| + 1 && r.texts[..|c.texts|] == c.texts &&
            r.texts[|c.texts|].kind == (if crit then CritText else HitText) &&
            r.texts[|c.texts|].value == Ceil(StrikeDamage(t, crit)) as real
  {
    var e := c.enemies[j];
    var crit := env.random(c.drawn) * 100.0 < t.critChance;
    var damage := StrikeDamage(t, crit);
    var c1 := c.(enemies := c.enemies[j := Hit(e, damage)], drawn := c.drawn + 1);
    if crit then PushText(c1, CritText, Point(e.pos.x, e.pos.y - 10.0), Ceil(damage) as real, Some(0.8), Some(80.0), env)
    else PushText(c1, HitText, e.pos, Ceil(damage) as real, Some(hitLife), None, env)
  }

  /** The aura tick's hit on enemy `j` (`AuraTouch`); if the hit finished
      an enemy that is not dying, it dies and may chain. */
  function AuraStrike(c: Combat, t: Tuning, env: Oracle, j: nat, hitLife: real): (r: Combat)
    requires j < |c.enemies| && !c.crashed
    ensures Grows(c, r)
    ensures r.drawn > c.drawn
  {
    var c2 := AuraTouch(c, t, env, j, hitLife);
    if c2.enemies[j].hp <= 0.0 && !c2.enemies[j].isDying then
      var c3 := Death(c2, t, env, j, STACK_DEPTH);
      var c4 := TryChain(c3, t, env, j);
      GrowsTransitive(c, c2, c3);
      GrowsTransitive(c, c3, c4);
      c4
    else c2
  }

  /** A hit that does not kill: exactly one text, a critical one exactly
      when the draw is below the crit chance, and the enemy loses
      `auraDamage`, multiplied by `critFactor` on a critical hit. */
  lemma AuraCritRule(c: Combat, t: Tuning, env: Oracle, j: nat, hitLife: real)
    requires j < |c.enemies| && !c.crashed
    requires c.enemies[j].hp - StrikeDamage(t, env.random(c.drawn) * 100.0 < t.critChance) > 0.0 || c.enemies[j].isDying
    ensures var r := AuraStrike(c, t, env, j, hitLife);
            var crit := env.random(c.drawn) * 100.0 < t.critChance;
            r.enemies == c.enemies[j := Hit(c.enemies[j], StrikeDamage(t, crit))] &&
            r.currency == c.currency && r.drawn == c.drawn + 2 && |r.texts| == |c.texts| + 1 &&
            r.texts[|c.texts|].kind == (if crit then CritText else HitText) &&
            r.texts[|c.texts|].value == Ceil(StrikeDamage(t, crit)) as real
  {
  }

  /** The `enemies.forEach` of an aura tick from index `j` on: every enemy
      in reach of the pointer is struck, dying or not. */
  function AuraSweep(c: Combat, t: Tuning, env: Oracle, mouse: Option<Point>, hitLife: real, j: nat): (r: Combat)
    requires j <= |c.enemies|
    ensures Grows(c, r)
    decreases |c.enemies| - j
  {
    if c.crashed || j == |c.enemies| then c
    else if InAura(mouse, c.enemies[j], t.auraRadius) then
      var c1 := AuraStrike(c, t, env, j, hitLife);
      var r := AuraSweep(c1, t, env, mouse, hitLife, j + 1);
      GrowsTransitive(c, c1, r);
      r
    else AuraSweep(c, t, env, mouse, hitLife, j + 1)
  }

  /** Before the pointer has moved nothing is in reach: a tick changes
      nothing at all. */
  lemma {:induction false} NoPointerNoStrike(c: Combat, t: Tuning, env: Oracle, hitLife: real, j: nat)
    requires j <= |c.enemies|
    ensures AuraSweep(c, t, env, None, hitLife, j) == c
    decreases |c.enemies| - j
  {
    if !c.crashed && j < |c.enemies| {
      NoPointerNoStrike(c, t, env, hitLife, j + 1);
    }
  }

  /** `r` is `e` after one aura hit, critical or not. */
  predicate AuraStruck(e: Enemy, r: Enemy, t: Tuning)
  {
    r == Hit(e, t.auraDamage) || r == Hit(e, Mul(t.auraDamage, t.critFactor))
  }

  /** No aura hit, critical or not, kills `e` now. */
  predicate SurvivesAura(e: Enemy, t: Tuning)
  {
    e.isDying || (e.hp - Mul(t.auraDamage, t.critFactor) > 0.0 && e.hp - t.auraDamage > 0.0)
  }

  /** One aura hit that kills nobody changes only the enemy struck. */
  lemma AuraStepSurvives(c: Combat, t: Tuning, env: Oracle, j: nat, hitLife: real)
    requires j < |c.enemies| && !c.crashed && SurvivesAura(c.enemies[j], t)
    ensures var r := AuraStrike(c, t, env, j, hitLife);
            !r.crashed && r.currency == c.currency && |r.enemies| == |c.enemies| &&
            AuraStruck(c.enemies[j], r.enemies[j], t) &&
            forall k :: 0 <= k < |c.enemies| && k != j ==> r.enemies[k] == c.enemies[k]
  {
    AuraCritRule(c, t, env, j, hitLife);
  }

  /** An aura tick in which nobody dies: each enemy from `j` on outside the
      reach is untouched, each one inside loses `auraDamage` or, on a
      critical hit, `auraDamage * critFactor`; the currency stays. */
  lemma {:induction false} AuraSweepWithoutKills(c: Combat, t: Tuning, env: Oracle, mouse: Option<Point>, hitLife: real, j: nat)
    requires j <= |c.enemies| && !c.crashed
    requires forall k :: j <= k < |c.enemies| && InAura(mouse, c.enemies[k], t.auraRadius) ==> SurvivesAura(c.enemies[k], t)
    ensures var r := AuraSweep(c, t, env, mouse, hitLife, j);
            !r.crashed && r.currency == c.currency && |r.enemies| == |c.enemies| &&
            forall k :: 0 <= k < |c.enemies| ==>
              if j <= k && InAura(mouse, c.enemies[k], t.auraRadius) then AuraStruck(c.enemies[k], r.enemies[k], t)
              else r.enemies[k] == c.enemies[k]
    decreases |c.enemies| - j
  {
    if j < |c.enemies| {
      if InAura(mouse, c.enemies[j], t.auraRadius) {
        AuraStepSurvives(c, t, env, j, hitLife);
        AuraSweepWithoutKills(AuraStrike(c, t, env, j, hitLife), t, env, mouse, hitLife, j + 1);
      } else {
        AuraSweepWithoutKills(c, t, env, mouse, hitLife, j + 1);
      }
    }
  }

  /** How long an aura hit text stays: `max(0.5, 1 / tickRate)`. */
  function HitLife(t: Tuning): (life: real)
    requires t.tickRate > 0.0
    ensures life >= 0.5 && life >= 1.0 / t.tickRate
  {
    Max(0.5, 1.0 / t.tickRate)
  }

  // ---- Orbitals ----

  /** The snapshot and an orbital's hit cooldowns, by enemy identity. */
  datatype Sweep = Sweep(combat: Combat, cooldowns: map<nat, real>)

  /** The contact test of `Orbital.update`: closer than
      `baseRadius + enemy.radius + 5`. */
  predicate Touches(at: Point, e: Enemy)
  {
    Closer(at, e.pos, ORBITAL_RADIUS + ENEMY_RADIUS + 5.0)
  }

  /** An enemy's cooldown as the sweep reads it: 0 for an enemy it has not
      met. */
  function CooldownOf(cds: map<nat, real>, id: nat): real
  {
    if id in cds then cds[id] else 0.0
  }

  /** The ids of the enemies. */
  function Ids(es: seq<Enemy>): (ids: set<nat>)
    ensures forall k :: 0 <= k < |es| ==> es[k].id in ids
    ensures forall id :: id in ids ==> exists k :: 0 <= k < |es| && es[k].id == id
  {
    set k | 0 <= k < |es| :: es[k].id
  }

  /** Combat keeps every enemy's identity, so the ids from any index on
      stay the same. */
  lemma EvolvesKeepsIds(a: seq<Enemy>, b: seq<Enemy>, j: nat)
    requires Evolves(a, b) && j <= |a|
    ensures Ids(a[j..]) == Ids(b[j..])
  {
    assert forall k :: 0 <= k < |a| - j ==> a[j..][k].id == b[j..][k].id;
  }

  /** The suffix from `j` holds the id of enemy `j` and those after it. */
  lemma IdsOfSuffix(es: seq<Enemy>, j: nat)
    requires j < |es|
    ensures Ids(es[j..]) == {es[j].id} + Ids(es[j + 1..])
  {
    assert es[j..] == [es[j]] + es[j + 1..];
    assert forall k :: 0 < k < |es| - j ==> es[j..][k] == es[j + 1..][k - 1];
  }

  /** Whether the orbital at `at` strikes `e` this frame: it touches the
      enemy, the enemy is not dying, and the cooldown, run down by `dt`,
      is over. */
  predicate OrbitalHits(cds: map<nat, real>, at: Point, dt: real, e: Enemy)
  {
    Touches(at, e) && !e.isDying && CooldownOf(cds, e.id) - dt <= 0.0
  }

  /** An enemy just hit by an orbital cannot be hit by it again before
      `hitInterval` has passed: with a frame shorter than that, the next
      collision step leaves the snapshot alone and only runs the cooldown
      down. */
  lemma OrbitalWaitsHitInterval(s: Sweep, t: Tuning, env: Oracle, at: Point, dt: real, j: nat)
    requires j < |s.combat.enemies| && !s.combat.crashed
    requires var id := s.combat.enemies[j].id; id in s.cooldowns && s.cooldowns[id] == ORBITAL_HIT_INTERVAL
    requires dt < ORBITAL_HIT_INTERVAL
    ensures OrbitalTouch(s, t, env, at, dt, j).combat == s.combat
  {
  }

  /** An orbital's hit on enemy `j`: it loses `orbitalDamage`, a text shows
      the damage rounded up, and it dies if the hit brought it to 0. */
  function OrbitalHit(c: Combat, t: Tuning, env: Oracle, j: nat): (r: Combat)
    requires j < |c.enemies| && !c.crashed
    ensures Grows(c, r)
    ensures var e := c.enemies[j];
            e.hp - t.orbitalDamage > 0.0 ==>
              r.enemies == c.enemies[j := Hit(e, t.orbitalDamage)] &&
              r.currency == c.currency && |r.texts| == |c.texts| + 1 &&
              r.texts[|c.texts|].kind == OrbitalText && r.texts[|c.texts|].value == Ceil(t.orbitalDamage) as real
  {
    var e := c.enemies[j];
    var hit := Hit(e, t.orbitalDamage);
    var c1 := PushText(c.(enemies := c.enemies[j := hit]), OrbitalText, e.pos, Ceil(t.orbitalDamage) as real, Some(1.0), None, env);
    if hit.hp <= 0.0 then
      var c2 := Death(c1, t, env, j, STACK_DEPTH);
      GrowsTransitive(c, c1, c2);
      c2
    else c1
  }

  /** The collision step of `Orbital.update` for enemy `j`, with the orbital
      at `at`: the enemy's cooldown runs down by `dt`; on a hit it is set to
      `hitInterval` instead. Other cooldowns stay. */
  function OrbitalTouch(s: Sweep, t: Tuning, env: Oracle, at: Point, dt: real, j: nat): (r: Sweep)
    requires j < |s.combat.enemies| && !s.combat.crashed
    ensures Grows(s.combat, r.combat)
    ensures r.cooldowns.Keys == s.cooldowns.Keys + {s.combat.enemies[j].id}
    ensures forall id :: id in s.cooldowns && id != s.combat.enemies[j].id ==> r.cooldowns[id] == s.cooldowns[id]
    ensures var e := s.combat.enemies[j];
            if OrbitalHits(s.cooldowns, at, dt, e) then
              r.cooldowns[e.id] == ORBITAL_HIT_INTERVAL && r.combat == OrbitalHit(s.combat, t, env, j)
            else r.combat == s.combat && r.cooldowns[e.id] == CooldownOf(s.cooldowns, e.id) - dt
  {
    var e := s.combat.enemies[j];
    if OrbitalHits(s.cooldowns, at, dt, e) then
      Sweep(OrbitalHit(s.combat, t, env, j), s.cooldowns[e.id := ORBITAL_HIT_INTERVAL])
    else
      Sweep(s.combat, s.cooldowns[e.id := CooldownOf(s.cooldowns, e.id) - dt])
  }

  /** The collision `forEach` of `Orbital.update` from index `j` on: every
      enemy it passes gets a cooldown entry. */
  function OrbitalSweep(s: Sweep, t: Tuning, env: Oracle, at: Point, dt: real, j: nat): (r: Sweep)
    requires j <= |s.combat.enemies|
    ensures Grows(s.combat, r.combat)
    ensures !r.combat.crashed ==> r.cooldowns.Keys == s.cooldowns.Keys + Ids(s.combat.enemies[j..])
    decreases |s.combat.enemies| - j
  {
    if s.combat.crashed then s
    else if j == |s.combat.enemies| then
      assert Ids(s.combat.enemies[j..]) == {};
      s
    else
      var s1 := OrbitalTouch(s, t, env, at, dt, j);
      var r := OrbitalSweep(s1, t, env, at, dt, j + 1);
      GrowsTransitive(s.combat, s1.combat, r.combat);
      IdsOfSuffix(s.combat.enemies, j);
      EvolvesKeepsIds(s.combat.enemies, s1.combat.enemies, j + 1);
      r
  }

  /** The cleanup loop of `Orbital.update`: only cooldowns of enemies still
      in the list are kept. */
  function Prune(cds: map<nat, real>, es: seq<Enemy>): (r: map<nat, real>)
    ensures r.Keys == cds.Keys * Ids(es)
    ensures forall id :: id in r ==> r[id] == cds[id]
  {
    map id | id in cds.Keys * Ids(es) :: cds[id]
  }
}
