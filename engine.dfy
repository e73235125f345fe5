/** The `Game` and `Orbital` classes of script.js: the game state machine
    (START, PLAYING, SHOP, GAME_OVER), the shop purchase, persistence, and the
    per-frame `update` with its systems (spawning, aura, core regeneration,
    enemy movement and contact, orbitals, cleanup). Each method changes the
    fields the source changes, and its contract ties the new state to the
    rule functions of the other modules.

    What the browser supplies is a parameter: `stored` stands for the one
    localStorage entry, `env` for `Math.random` and the trigonometry, the
    pointer is the last position the mouse listener recorded, and the frame
    time stamps and orbital directions (computed from `Date.now()`) are
    arguments of `Frame`. */
module Engine {
  import opened Common
  import opened MetaUpgrades
  import opened Progression
  import opened SpawnRules
  import opened Entities
  import opened Effects
  import opened CombatRules

  datatype GameState = Start | Playing | Shop | GameOver

  /** The core the enemies converge on. */
  datatype Core = Core(pos: Point, maxHp: real, hp: real)

  /** The middle of the 1280 x 720 world. */
  const WORLD_CENTER: Point := Point(640.0, 360.0)
  const ORBIT_DISTANCE: real := 90.0
  /** An enemy touches the core closer than `enemy.radius + core.radius`. */
  const CONTACT_RANGE: real := ENEMY_RADIUS + CORE_RADIUS
  const WAVE_BONUS: real := 100.0
  /** The game loop skips frames of 0.1 s or more (a pause, a hidden tab). */
  const MAX_FRAME: real := 0.1

  /** What the enemy pass of `update` leaves: the enemies, the core, and
      whether a contact brought the core to 0 and returned to the menu. */
  datatype Moved = Moved(enemies: seq<Enemy>, core: Core, closes: bool)

  /** Whether enemy `e`, after its move toward the core at `core`, is
      closer to it than `enemy.radius + core.radius`. */
  predicate Contact(e: Enemy, core: Point, dt: real, toward: (Point, Point) -> Point)
  {
    Closer(Stepped(e, dt, core, toward).pos, core, CONTACT_RANGE)
  }

  /** One enemy of the enemy pass of `update`: it moves, and if it then
      touches the core it is marked for removal. */
  function Advanced(e: Enemy, core: Point, dt: real, toward: (Point, Point) -> Point): Enemy
  {
    var moved := Stepped(e, dt, core, toward);
    if Contact(e, core, dt, toward) then moved.(markedForDeletion := true) else moved
  }

  /** The hit points the core loses to the enemies from index `j` on that
      touch it after their move: each one's `damage`. */
  function ContactDamage(es: seq<Enemy>, core: Point, dt: real, toward: (Point, Point) -> Point, j: nat): real
    requires j <= |es|
    decreases |es| - j
  {
    if j == |es| then 0.0
    else (if Contact(es[j], core, dt, toward) then es[j].damage else 0.0) + ContactDamage(es, core, dt, toward, j + 1)
  }

  /** The enemy `forEach` of `update` from index `j` on: each enemy moves,
      and one that then touches the core hurts it by its `damage` and is
      marked for removal; a contact that leaves the core at 0 or below
      returns to the menu. Dying enemies take part as well. The core ends
      up hurt by exactly the contacts, and a core that had hit points and
      has none left has always sent the game back to the menu. */
  function MoveFrom(es: seq<Enemy>, core: Core, dt: real, toward: (Point, Point) -> Point, j: nat): (r: Moved)
    requires j <= |es|
    ensures |r.enemies| == |es|
    ensures forall k :: 0 <= k < j ==> r.enemies[k] == es[k]
    ensures forall k :: j <= k < |es| ==> r.enemies[k] == Advanced(es[k], core.pos, dt, toward)
    ensures r.core == core.(hp := core.hp - ContactDamage(es, core.pos, dt, toward, j))
    ensures core.hp > 0.0 && r.core.hp <= 0.0 ==> r.closes
    decreases |es| - j
  {
    if j == |es| then Moved(es, core, false)
    else
      var touching := Contact(es[j], core.pos, dt, toward);
      var hurt := if touching then core.(hp := core.hp - es[j].damage) else core;
      var es1 := es[j := Advanced(es[j], core.pos, dt, toward)];
      var r := MoveFrom(es1, hurt, dt, toward, j + 1);
      ContactDamageFrom(es, es1, core.pos, dt, toward, j + 1);
      r.(closes := r.closes || (touching && hurt.hp <= 0.0))
  }

  /** The contact damage from `j` on depends only on the enemies from `j` on. */
  lemma {:induction false} ContactDamageFrom(a: seq<Enemy>, b: seq<Enemy>, core: Point, dt: real, toward: (Point, Point) -> Point, j: nat)
    requires j <= |a| == |b|
    requires forall k :: j <= k < |a| ==> a[k] == b[k]
    ensures ContactDamage(a, core, dt, toward, j) == ContactDamage(b, core, dt, toward, j)
    decreases |a| - j
  {
    if j < |a| {
      ContactDamageFrom(a, b, core, dt, toward, j + 1);
    }
  }

  /** One regeneration heal: `regen` more hit points, but never past the
      maximum. */
  function Healed(c: Core, regen: real): (r: Core)
    ensures r.pos == c.pos && r.maxHp == c.maxHp
    ensures r.hp == (if c.hp + regen > c.maxHp then c.maxHp else c.hp + regen)
  {
    var hp := c.hp + regen;
    c.(hp := if hp > c.maxHp then c.maxHp else hp)
  }

  /** A heal of a wounded core with a positive regeneration raises its hit
      points and never takes them past the maximum. */
  lemma HealNeverOverfills(c: Core, regen: real)
    requires c.hp < c.maxHp && regen > 0.0
    ensures c.hp < Healed(c, regen).hp <= c.maxHp
  {
  }

  /** The trail length of `Orbital.update`: `floor(5 + speed * 4)`. */
  function TrailLength(speed: real): (n: int)
    ensures speed >= 0.0 ==> n >= 5
  {
    (5.0 + speed * 4.0).Floor
  }

  /** The trail after the `shift` loop: the newest `n` positions. */
  function Trimmed(s: seq<Point>, n: nat): (r: seq<Point>)
    ensures |r| == if |s| <= n then |s| else n
    ensures r == s[|s| - |r|..]
  {
    if |s| <= n then s else s[|s| - n..]
  }

  /** The trail after the push: the previous position is recorded unless
      one of its coordinates is 0 (as it is before the first update). */
  function Recorded(trail: seq<Point>, pos: Point): seq<Point>
  {
    if pos.x != 0.0 && pos.y != 0.0 then trail + [pos] else trail
  }

  /** The orbital's place on its circle, given the direction `dir` of its
      angle for this frame. */
  function OrbitPoint(center: Point, dir: Point): Point
  {
    Point(center.x + dir.x * ORBIT_DISTANCE, center.y + dir.y * ORBIT_DISTANCE)
  }

  /** The enemy `spawnSystem` creates at wave `level` with the draws
      from `drawn` on: its position comes from the first draw (the spawn
      angle), its vertex count from the second (`pickEnemyFromDistribution`
      on the wave's distribution). It is always a fresh, unhurt polygon. */
  function Spawned(table: seq<Tier>, level: int, id: nat, env: Oracle, drawn: nat): (e: Enemy)
    requires WellFormedTable(table)
    ensures e.id == id && e.pos == env.spawnAt(env.random(drawn))
    ensures |DistributionFor(table, level)| > 0 && e.vertices == Pick(DistributionFor(table, level), env.random(drawn + 1)) >= 3
    ensures e.hp == e.maxHp > 0.0 && !e.isDying && !e.markedForDeletion
  {
    SpawnedShapeIsPolygon(table, level, env.random(drawn + 1));
    NewEnemy(id, env.spawnAt(env.random(drawn)), Pick(DistributionFor(table, level), env.random(drawn + 1)))
  }

  /** The cleanup filters of `update`: an enemy stays unless marked, an
      effect lasts until it expires. */
  predicate Stays(e: Enemy) { !e.markedForDeletion }
  predicate TextLasts(t: CombatText) { !TextExpired(t) }
  predicate LightningLasts(l: Lightning) { !LightningExpired(l) }
  predicate ExplosionLasts(x: Explosion) { !ExplosionExpired(x) }
  predicate HealPulseLasts(p: HealPulse) { !HealPulseExpired(p) }

  /** Every enemy's id is below `n`. */
  predicate IdsBelow(es: seq<Enemy>, n: nat)
  {
    forall k :: 0 <= k < |es| ==> es[k].id < n
  }

  /** Removing the marked enemies keeps every remaining id below `n`. */
  lemma {:induction false} FilterKeepsIdsBelow(es: seq<Enemy>, n: nat)
    requires IdsBelow(es, n)
    ensures IdsBelow(Filter(es, Stays), n)
  {
    if |es| > 0 {
      FilterKeepsIdsBelow(es[1..], n);
    }
  }

  class Game {
    var currency: real
    var waveIndex: int
    var upgradeLevels: Levels
    var state: GameState
    var lastTime: real
    var waveTime: real
    var core: Option<Core>
    var enemies: seq<Enemy>
    var orbitals: seq<Orbital>
    var combatTexts: seq<CombatText>
    var lightningEffects: seq<Lightning>
    var explosions: seq<Explosion>
    var healPulses: seq<HealPulse>
    var mouse: Option<Point>
    var spawnTimer: real
    var auraTickTimer: real
    var regenTickTimer: real
    /** The id the next spawned enemy gets. */
    var nextId: nat
    /** How many values `Math.random` has returned. */
    var drawn: nat
    /** The call stack has overflowed: the frame loop is dead. */
    var stackOverflow: bool
    /** The saved game in localStorage. */
    var stored: Option<SaveData>
    /** `SPAWN_DISTRIBUTION` of spawnDistribution.js. */
    const table: seq<Tier>
    const env: Oracle

    /** Every upgrade has a level, the spawn table can be used, a game in
        progress has a living core, and every enemy's id was handed out. */
    predicate Valid()
      reads this
    {
      Complete(upgradeLevels) && WellFormedTable(table) &&
      (state == Playing ==> core.Some? && core.value.hp > 0.0) &&
      IdsBelow(enemies, nextId) &&
      (forall a, b :: 0 <= a < b < |orbitals| ==> orbitals[a] != orbitals[b])
    }

    /** What the cleanup of `update` guarantees: no enemy is marked for
        removal and no effect has expired. */
    predicate Purged()
      reads this`enemies, this`combatTexts, this`lightningEffects, this`explosions, this`healPulses
    {
      (forall k :: 0 <= k < |enemies| ==> !enemies[k].markedForDeletion) &&
      (forall k :: 0 <= k < |combatTexts| ==> !TextExpired(combatTexts[k])) &&
      (forall k :: 0 <= k < |lightningEffects| ==> !LightningExpired(lightningEffects[k])) &&
      (forall k :: 0 <= k < |explosions| ==> !ExplosionExpired(explosions[k])) &&
      (forall k :: 0 <= k < |healPulses| ==> !HealPulseExpired(healPulses[k]))
    }

    /** The state combat reads and writes. */
    function Snapshot(): Combat
      reads this`enemies, this`currency, this`combatTexts, this`lightningEffects, this`explosions, this`drawn, this`stackOverflow
    {
      Combat(enemies, currency, combatTexts, lightningEffects, explosions, drawn, stackOverflow)
    }

    /** `getStat` for every stat. */
    function Tun(): Tuning
      reads this`upgradeLevels
      requires Complete(upgradeLevels)
    {
      TuningOf(upgradeLevels)
    }

    function ProgressOf(): Progress
      reads this`currency, this`waveIndex, this`upgradeLevels
    {
      Progress(currency, waveIndex, upgradeLevels)
    }

    /** `new Game()` with what localStorage holds: the menu, no wave yet,
        and the saved progress merged over the defaults. */
    constructor(table: seq<Tier>, env: Oracle, stored: Option<SaveData>)
      requires WellFormedTable(table)
      ensures Valid()
      ensures ProgressOf() == Loaded(stored) && this.stored == stored
      ensures state == Start && core == None && enemies == [] && orbitals == [] && mouse == None
      ensures combatTexts == [] && lightningEffects == [] && explosions == [] && healPulses == []
      ensures drawn == 0 && !stackOverflow && this.table == table && this.env == env
    {
      this.table := table;
      this.env := env;
      this.stored := stored;
      currency := 0.0;
      waveIndex := 1;
      upgradeLevels := map[AuraRadius := 0, AuraDamage := 0, TickRate := 0];
      state := Start;
      lastTime := 0.0;
      waveTime := 0.0;
      core := None;
      enemies := [];
      orbitals := [];
      combatTexts := [];
      mouse := None;
      spawnTimer := 0.0;
      auraTickTimer := 0.0;
      lightningEffects := [];
      explosions := [];
      healPulses := [];
      regenTickTimer := 0.0;
      nextId := 0;
      drawn := 0;
      stackOverflow := false;
      new;
      LoadProgress();
    }

    /** `loadProgress`: the stored progress merged over the defaults. */
    method LoadProgress()
      modifies this`currency, this`waveIndex, this`upgradeLevels
      ensures ProgressOf() == Loaded(stored)
      ensures Complete(upgradeLevels)
    {
      var p := Loaded(stored);
      currency := p.currency;
      waveIndex := p.waveIndex;
      upgradeLevels := p.levels;
    }

    /** `SaveSystem.save(this)`. */
    method Save()
      modifies this`stored
      ensures stored == Some(SaveOf(ProgressOf()))
    {
      stored := Some(SaveOf(ProgressOf()));
    }

    /** The reset button's `SaveSystem.reset`: the saved game is gone (the
        page reload that follows is a new `Game`). */
    method EraseSave()
      modifies this`stored
      ensures stored == None
    {
      stored := None;
    }

    /** The mouse listener records the pointer in world coordinates. */
    method MouseMove(p: Point)
      modifies this`mouse
      ensures mouse == Some(p)
    {
      mouse := Some(p);
    }

    /** `startGame`: a fresh wave with a core at full health. */
    method StartGame()
      requires Valid()
      modifies this`state, this`stored, this`core, this`enemies, this`combatTexts, this`waveTime, this`spawnTimer
      ensures Valid() && state == Playing && stored == Some(SaveOf(ProgressOf()))
      ensures core == Some(Core(WORLD_CENTER, Tun().coreHp, Tun().coreHp))
      ensures enemies == [] && combatTexts == [] && waveTime == WAVE_DURATION && spawnTimer == 0.0
    {
      state := Playing;
      Save();
      ResetWave();
    }

    method OpenShop()
      requires Valid()
      modifies this`state, this`stored
      ensures Valid() && state == Shop && stored == Some(SaveOf(ProgressOf()))
    {
      state := Shop;
      Save();
    }

    /** `closeShop`: back to the start screen, saving the progress. */
    method CloseShop()
      modifies this`state, this`stored
      ensures state == Start && stored == Some(SaveOf(ProgressOf()))
    {
      state := Start;
      Save();
    }

    /** `resetWave`: a new core with `coreHp` hit points at the world's
        centre, no enemies and no texts, and the full wave time. Orbitals,
        effects and the aura and regeneration timers carry over. */
    method ResetWave()
      requires Complete(upgradeLevels)
      modifies this`core, this`enemies, this`combatTexts, this`waveTime, this`spawnTimer
      ensures core == Some(Core(WORLD_CENTER, Tun().coreHp, Tun().coreHp)) && core.value.hp > 0.0
      ensures enemies == [] && combatTexts == [] && waveTime == WAVE_DURATION && spawnTimer == 0.0
    {
      var maxHp := Tun().coreHp;
      core := Some(Core(WORLD_CENTER, maxHp, maxHp));
      enemies := [];
      combatTexts := [];
      waveTime := WAVE_DURATION;
      spawnTimer := 0.0;
    }

    /** `buyUpgrade(id, cost)`: with enough currency the price is paid and
        the level rises by one, then the progress is saved; otherwise
        nothing happens. It does not look at `maxLevel`. */
    method BuyUpgrade(id: UpgradeId, cost: real)
      requires Complete(upgradeLevels)
      modifies this`currency, this`upgradeLevels, this`stored
      ensures Complete(upgradeLevels)
      ensures old(currency) >= cost ==>
                currency == old(currency) - cost && upgradeLevels == old(upgradeLevels)[id := old(upgradeLevels)[id] + 1] &&
                stored == Some(SaveOf(ProgressOf()))
      ensures old(currency) < cost ==> currency == old(currency) && upgradeLevels == old(upgradeLevels) && stored == old(stored)
    {
      if currency >= cost {
        currency := currency - cost;
        upgradeLevels := upgradeLevels[id := upgradeLevels[id] + 1];
        Save();
      }
    }

    /** A click on an upgrade card: the shop only wires up the purchase
        when the upgrade is not maxed and affordable, at the price of the
        current level. So buying through the shop never takes a level past
        its cap and never makes the currency negative. */
    method ShopClick(id: UpgradeId)
      requires Complete(upgradeLevels)
      modifies this`currency, this`upgradeLevels, this`stored
      ensures Complete(upgradeLevels)
      ensures var def := Upgrade(id);
              def.maxLevel.Some? && def.maxLevel.value > 0 && old(upgradeLevels)[id] <= def.maxLevel.value ==>
                upgradeLevels[id] <= def.maxLevel.value
      ensures old(currency) >= 0.0 ==> currency >= 0.0
      ensures upgradeLevels[id] == old(upgradeLevels)[id] || upgradeLevels[id] == old(upgradeLevels)[id] + 1
      ensures forall k :: k != id ==> upgradeLevels[k] == old(upgradeLevels)[k]
      ensures var def := Upgrade(id);
              var level := old(upgradeLevels)[id];
              if ShopOffers(def, level, old(currency)) then
                currency == old(currency) - Cost(def, level) as real &&
                upgradeLevels == old(upgradeLevels)[id := level + 1] &&
                stored == Some(SaveOf(ProgressOf()))
              else
                currency == old(currency) && upgradeLevels == old(upgradeLevels) && stored == old(stored)
    {
      var def := Upgrade(id);
      var level := upgradeLevels[id];
      if ShopOffers(def, level, currency) {
        BuyUpgrade(id, Cost(def, level) as real);
      }
    }

    /** `new CombatText(...)` pushed onto the texts, taking one draw. */
    method AddText(kind: TextKind, pos: Point, value: real, lifeTime: Option<real>, speedY: Option<real>)
      modifies this`combatTexts, this`drawn
      ensures Snapshot() == PushText(old(Snapshot()), kind, pos, value, lifeTime, speedY, env)
    {
      combatTexts := combatTexts + [NewText(kind, pos, value, lifeTime, speedY, env.random(drawn))];
      drawn := drawn + 1;
    }

    /** An orbital's strike on `enemies[j]` within `Orbital.update`. */
    method OrbitalStrike(t: Tuning, j: nat)
      requires j < |enemies| && !stackOverflow
      modifies this`enemies, this`currency, this`combatTexts, this`lightningEffects, this`explosions, this`drawn, this`stackOverflow
      ensures Snapshot() == OrbitalHit(old(Snapshot()), t, env, j)
    {
      var e := enemies[j];
      enemies := enemies[j := Hit(e, t.orbitalDamage)];
      AddText(OrbitalText, e.pos, Ceil(t.orbitalDamage) as real, Some(1.0), None);
      if enemies[j].hp <= 0.0 {
        HandleEnemyDeath(t, j, STACK_DEPTH);
      }
    }

    /** `handleEnemyDeath(enemies[i])` with the stats `t` of this frame;
        `fuel` more nested deaths fit on the call stack. */
    method HandleEnemyDeath(t: Tuning, i: nat, fuel: nat)
      requires i < |enemies|
      modifies this`enemies, this`currency, this`combatTexts, this`lightningEffects, this`explosions, this`drawn, this`stackOverflow
      ensures Snapshot() == Death(old(Snapshot()), t, env, i, fuel)
      decreases fuel, 2
    {
      if stackOverflow {
        return;
      }
      PayReward(t, i);
      TryExplosion(t, i, fuel);
      FinishDeath(i);
    }

    /** The reward part of `handleEnemyDeath`. */
    method PayReward(t: Tuning, i: nat)
      requires i < |enemies|
      modifies this`currency, this`combatTexts, this`drawn
      ensures Snapshot() == Rewarded(old(Snapshot()), t, env, i)
    {
      var e := enemies[i];
      var reward := Reward(e.maxHp, t.salvageScanner) as real;
      currency := currency + reward;
      AddText(RewardText, Point(e.pos.x, e.pos.y - 10.0), reward, None, None);
    }

    /** The `startDeath` call that ends `handleEnemyDeath`, which a stack
        overflow during the explosion never reaches. */
    method FinishDeath(i: nat)
      requires i < |enemies|
      modifies this`enemies, this`drawn
      ensures Snapshot() == Finished(old(Snapshot()), env, i)
    {
      if stackOverflow {
        return;
      }
      var dying := StartDeath(enemies[i], env, drawn);
      drawn := drawn + 4 * enemies[i].vertices;
      enemies := enemies[i := dying];
    }

    /** `tryExplosion(enemies[i])`, with its `forEach` over the targets. */
    method TryExplosion(t: Tuning, i: nat, fuel: nat)
      requires i < |enemies|
      modifies this`enemies, this`currency, this`combatTexts, this`lightningEffects, this`explosions, this`drawn, this`stackOverflow
      ensures Snapshot() == Explode(old(Snapshot()), t, env, i, fuel)
      decreases fuel, 1
    {
      if stackOverflow || t.explodeChance <= 0.0 {
        return;
      }
      var roll := env.random(drawn);
      drawn := drawn + 1;
      if roll * 100.0 < t.explodeChance {
        var o := enemies[i];
        explosions := explosions + [Explosion(o.pos, t.explodeRadius, 0.0)];
        var damage := Mul(o.maxHp, t.explodeDamage);
        ghost var goal := Blast(Snapshot(), t, env, i, o.pos, damage, fuel, 0);
        var j := 0;
        while j < |enemies| && !stackOverflow
          invariant j <= |enemies|
          invariant Blast(Snapshot(), t, env, i, o.pos, damage, fuel, j) == goal
          decreases |enemies| - j
        {
          if j != i && InBlast(t, o.pos, enemies[j]) {
            BlastTarget(t, o.pos, damage, fuel, j);
          }
          j := j + 1;
        }
      }
    }

    /** The body of the `forEach` of `tryExplosion` for a target in reach. */
    method BlastTarget(t: Tuning, at: Point, damage: real, fuel: nat, j: nat)
      requires j < |enemies| && !stackOverflow
      modifies this`enemies, this`currency, this`combatTexts, this`lightningEffects, this`explosions, this`drawn, this`stackOverflow
      ensures Snapshot() == BlastHit(old(Snapshot()), t, env, at, damage, fuel, j)
      decreases fuel, 0
    {
      var target := enemies[j];
      enemies := enemies[j := Hit(target, damage)];
      AddText(BlastText, target.pos, Ceil(damage) as real, None, Some(100.0));
      if enemies[j].hp <= 0.0 && !enemies[j].isDying {
        if fuel == 0 {
          stackOverflow := true;
        } else {
          HandleEnemyDeath(t, j, fuel - 1);
        }
      }
    }

    /** `tryChainLightning(enemies[i])`. */
    method TryChainLightning(t: Tuning, i: nat)
      requires i < |enemies|
      modifies this`enemies, this`currency, this`combatTexts, this`lightningEffects, this`explosions, this`drawn, this`stackOverflow
      ensures Snapshot() == TryChain(old(Snapshot()), t, env, i)
    {
      if stackOverflow || t.chainChance <= 0.0 {
        return;
      }
      ghost var c := Snapshot();
      var roll := env.random(drawn);
      drawn := drawn + 1;
      ghost var c1 := c.(drawn := c.drawn + 1);
      assert Snapshot() == c1;
      if roll * 100.0 > t.chainChance {
        return;
      }
      assert TryChain(c, t, env, i) == Propagate(c1, t, env, i, t.chainDamage, t.chainJumps);
      PropagateChain(t, i, t.chainDamage, t.chainJumps);
    }

    /** The search loop of `propagateChain`: the first live enemy other than
        the link at the least distance from it. */
    method FindClosest(link: nat) returns (closest: Option<nat>)
      requires link < |enemies|
      ensures closest == Closest(enemies, link)
    {
      closest := None;
      var j := 0;
      while j < |enemies|
        invariant j <= |enemies|
        invariant closest.Some? ==> closest.value < |enemies|
        invariant ClosestFrom(enemies, link, j, closest) == Closest(enemies, link)
      {
        if j != link && !enemies[j].isDying {
          if closest.None? || Gap(enemies, link, j) < Gap(enemies, link, closest.value) {
            closest := Some(j);
          }
        }
        j := j + 1;
      }
    }

    /** One hop of `propagateChain`: bolt, hit, text, and the death of a
        target the hit finished. */
    method StrikeLink(t: Tuning, link: nat, k: nat, damage: real)
      requires link < |enemies| && k < |enemies| && !stackOverflow
      modifies this`enemies, this`currency, this`combatTexts, this`lightningEffects, this`explosions, this`drawn, this`stackOverflow
      ensures Snapshot() == ChainHop(old(Snapshot()), t, env, link, k, damage)
    {
      var e := enemies[k];
      lightningEffects := lightningEffects + [Lightning(enemies[link].pos, e.pos, 0.0)];
      enemies := enemies[k := Hit(e, damage)];
      AddText(ChainText, e.pos, damage, None, Some(80.0));
      if enemies[k].hp <= 0.0 && !enemies[k].isDying {
        HandleEnemyDeath(t, k, STACK_DEPTH);
      }
    }

    /** `propagateChain(enemies[link], damage, jumps)`. */
    method PropagateChain(t: Tuning, link: nat, damage: real, jumps: real)
      requires link < |enemies|
      modifies this`enemies, this`currency, this`combatTexts, this`lightningEffects, this`explosions, this`drawn, this`stackOverflow
      ensures Snapshot() == Propagate(old(Snapshot()), t, env, link, damage, jumps)
      decreases Hops(jumps)
    {
      if stackOverflow || jumps <= 0.0 {
        return;
      }
      var closest := FindClosest(link);
      if closest.None? {
        return;
      }
      var k := closest.value;
      StrikeLink(t, link, k, damage);
      HopsStep(jumps);
      PropagateChain(t, k, damage, jumps - 1.0);
    }

    /** `spawnSystem(dt)`: the spawn timer runs; once it reaches the
        current interval it restarts and one enemy of the wave's
        distribution appears at the spawn point. */
    method SpawnSystem(dt: real)
      requires WellFormedTable(table) && IdsBelow(enemies, nextId)
      modifies this`spawnTimer, this`enemies, this`nextId, this`drawn
      ensures IdsBelow(enemies, nextId)
      ensures old(spawnTimer) + dt >= SpawnInterval(waveTime) ==>
                spawnTimer == 0.0 && nextId == old(nextId) + 1 && drawn == old(drawn) + 2 &&
                enemies == old(enemies) + [Spawned(table, waveIndex, old(nextId), env, old(drawn))]
      ensures old(spawnTimer) + dt < SpawnInterval(waveTime) ==>
                spawnTimer == old(spawnTimer) + dt && nextId == old(nextId) && drawn == old(drawn) && enemies == old(enemies)
    {
      spawnTimer := spawnTimer + dt;
      if spawnTimer >= SpawnInterval(waveTime) {
        spawnTimer := 0.0;
        var e := Spawned(table, waveIndex, nextId, env, drawn);
        drawn := drawn + 2;
        enemies := enemies + [e];
        nextId := nextId + 1;
      }
    }

    /** The hit and its text in the second `forEach` of `auraSystem`. */
    method AuraTouchEnemy(t: Tuning, j: nat, hitLife: real)
      requires j < |enemies|
      modifies this`enemies, this`combatTexts, this`drawn
      ensures Snapshot() == AuraTouch(old(Snapshot()), t, env, j, hitLife)
    {
      var e := enemies[j];
      var crit := env.random(drawn) * 100.0 < t.critChance;
      drawn := drawn + 1;
      var damage := StrikeDamage(t, crit);
      enemies := enemies[j := Hit(e, damage)];
      if crit {
        AddText(CritText, Point(e.pos.x, e.pos.y - 10.0), Ceil(damage) as real, Some(0.8), Some(80.0));
      } else {
        AddText(HitText, e.pos, Ceil(damage) as real, Some(hitLife), None);
      }
    }

    /** One hit of an aura tick on enemy `j` (the body of the second
        `forEach` of `auraSystem`). */
    method AuraHit(t: Tuning, j: nat, hitLife: real)
      requires j < |enemies| && !stackOverflow
      modifies this`enemies, this`currency, this`combatTexts, this`lightningEffects, this`explosions, this`drawn, this`stackOverflow
      ensures Snapshot() == AuraStrike(old(Snapshot()), t, env, j, hitLife)
    {
      AuraTouchEnemy(t, j, hitLife);
      if enemies[j].hp <= 0.0 && !enemies[j].isDying {
        HandleEnemyDeath(t, j, STACK_DEPTH);
        TryChainLightning(t, j);
      }
    }

    /** The stasis `forEach` of `auraSystem`. */
    method SlowEnemies(t: Tuning)
      modifies this`enemies
      ensures enemies == SlowAll(old(enemies), t, mouse)
    {
      var j := 0;
      while j < |enemies|
        invariant j <= |enemies| == |old(enemies)|
        invariant forall k :: 0 <= k < j ==> enemies[k] == Slowed(old(enemies)[k], t, mouse)
        invariant forall k :: j <= k < |enemies| ==> enemies[k] == old(enemies)[k]
      {
        enemies := enemies[j := Slowed(enemies[j], t, mouse)];
        j := j + 1;
      }
    }

    /** The damage `forEach` of an aura tick: every enemy in reach of the
        pointer is struck, until the stack overflows. */
    method AuraTick(t: Tuning, hitLife: real)
      modifies this`enemies, this`currency, this`combatTexts, this`lightningEffects, this`explosions, this`drawn, this`stackOverflow
      ensures Snapshot() == AuraSweep(old(Snapshot()), t, env, mouse, hitLife, 0)
    {
      ghost var goal := AuraSweep(Snapshot(), t, env, mouse, hitLife, 0);
      var j := 0;
      while j < |enemies| && !stackOverflow
        invariant j <= |enemies|
        invariant AuraSweep(Snapshot(), t, env, mouse, hitLife, j) == goal
        decreases |enemies| - j
      {
        if InAura(mouse, enemies[j], t.auraRadius) {
          AuraHit(t, j, hitLife);
        }
        j := j + 1;
      }
    }

    /** `auraSystem(dt)`: every enemy is slowed or restored, and once the
        tick timer reaches `1 / tickRate` every enemy in reach of the
        pointer is struck and the timer restarts (unless the stack
        overflowed during the strikes). */
    method AuraSystem(t: Tuning, dt: real)
      requires t.tickRate > 0.0
      modifies this`auraTickTimer, this`enemies, this`currency, this`combatTexts, this`lightningEffects, this`explosions, this`drawn, this`stackOverflow
      ensures var slowed := old(Snapshot()).(enemies := SlowAll(old(enemies), t, mouse));
              if old(auraTickTimer) + dt >= 1.0 / t.tickRate then
                Snapshot() == AuraSweep(slowed, t, env, mouse, HitLife(t), 0) &&
                auraTickTimer == (if stackOverflow then old(auraTickTimer) + dt else 0.0)
              else
                Snapshot() == slowed && auraTickTimer == old(auraTickTimer) + dt
    {
      auraTickTimer := auraTickTimer + dt;
      SlowEnemies(t);
      if auraTickTimer >= 1.0 / t.tickRate {
        AuraTick(t, HitLife(t));
        if stackOverflow {
          return;
        }
        auraTickTimer := 0.0;
      }
    }

    /** `applyCoreRegen(dt)`: with a positive regeneration the timer runs,
        and each full second a wounded core heals by `coreRegen` (never past
        its maximum), with a pulse and a text. */
    method ApplyCoreRegen(t: Tuning, dt: real)
      requires core.Some?
      modifies this`regenTickTimer, this`core, this`healPulses, this`combatTexts, this`drawn
      ensures core.Some? && core.value.pos == old(core).value.pos && core.value.maxHp == old(core).value.maxHp
      ensures t.coreRegen <= 0.0 || old(regenTickTimer) + dt < 1.0 || old(core).value.hp >= old(core).value.maxHp ==>
                core == old(core) && healPulses == old(healPulses) && combatTexts == old(combatTexts) && drawn == old(drawn)
      ensures t.coreRegen <= 0.0 ==> regenTickTimer == old(regenTickTimer)
      ensures t.coreRegen > 0.0 ==>
                regenTickTimer == if old(regenTickTimer) + dt >= 1.0 then 0.0 else old(regenTickTimer) + dt
      ensures t.coreRegen > 0.0 && old(regenTickTimer) + dt >= 1.0 && old(core).value.hp < old(core).value.maxHp ==>
                var c := old(core).value;
                core == Some(Healed(c, t.coreRegen)) &&
                healPulses == old(healPulses) + [NewHealPulse(c.pos, CORE_RADIUS)] &&
                combatTexts == old(combatTexts) + [NewText(HealText, Point(c.pos.x, c.pos.y - 40.0), t.coreRegen, Some(0.6), None, env.random(old(drawn)))] &&
                drawn == old(drawn) + 1
    {
      if t.coreRegen <= 0.0 {
        return;
      }
      regenTickTimer := regenTickTimer + dt;
      if regenTickTimer >= 1.0 {
        regenTickTimer := 0.0;
        var c := core.value;
        if c.hp < c.maxHp {
          core := Some(Healed(c, t.coreRegen));
          healPulses := healPulses + [NewHealPulse(c.pos, CORE_RADIUS)];
          AddText(HealText, Point(c.pos.x, c.pos.y - 40.0), t.coreRegen, Some(0.6), None);
        }
      }
    }

    /** The body of the enemy `forEach` of `update` for enemy `j`: it
        moves, and if it then touches the core it hurts the core by its
        `damage` and is marked; `closes` tells whether that contact left the
        core at 0 or below. */
    method ContactStep(dt: real, j: nat) returns (closes: bool)
      requires core.Some? && j < |enemies|
      modifies this`enemies, this`core
      ensures var e := old(enemies)[j];
              var c := old(core).value;
              var touching := Contact(e, c.pos, dt, env.toward);
              var hurt := if touching then c.(hp := c.hp - e.damage) else c;
              enemies == old(enemies)[j := Advanced(e, c.pos, dt, env.toward)] && core == Some(hurt) &&
              closes == (touching && hurt.hp <= 0.0)
    {
      var e := UpdateEnemy(enemies[j], dt, core.value.pos, env.toward);
      closes := false;
      if Closer(e.pos, core.value.pos, CONTACT_RANGE) {
        core := Some(core.value.(hp := core.value.hp - e.damage));
        enemies := enemies[j := e.(markedForDeletion := true)];
        closes := core.value.hp <= 0.0;
      } else {
        enemies := enemies[j := e];
      }
    }

    /** The enemy `forEach` of `update`: each enemy moves, one touching the
        core hurts it and is marked, and a contact that leaves the core at 0
        or below calls `closeShop`. */
    method MoveEnemies(dt: real)
      requires core.Some?
      modifies this`enemies, this`core, this`state, this`stored
      ensures var m := MoveFrom(old(enemies), old(core).value, dt, env.toward, 0);
              enemies == m.enemies && core == Some(m.core) &&
              (m.closes ==> state == Start && stored == Some(SaveOf(ProgressOf()))) &&
              (!m.closes ==> state == old(state) && stored == old(stored))
    {
      ghost var goal := MoveFrom(enemies, core.value, dt, env.toward, 0);
      ghost var closed := false;
      var j := 0;
      while j < |enemies|
        invariant j <= |enemies| && core.Some?
        invariant var m := MoveFrom(enemies, core.value, dt, env.toward, j);
                  m.enemies == goal.enemies && m.core == goal.core && goal.closes == (m.closes || closed)
        invariant closed ==> state == Start && stored == Some(SaveOf(ProgressOf()))
        invariant !closed ==> state == old(state) && stored == old(stored)
      {
        var closes := ContactStep(dt, j);
        if closes {
          CloseShop();
          closed := true;
        }
        j := j + 1;
      }
    }

    /** The orbital count sync of `update`: when the number of orbitals
        differs from `orbitalCount`, they are all replaced by new ones. */
    method SyncOrbitals(count: nat)
      modifies this`orbitals
      ensures |orbitals| == count
      ensures (forall a, b :: 0 <= a < b < |old(orbitals)| ==> old(orbitals)[a] != old(orbitals)[b]) ==>
                forall a, b :: 0 <= a < b < |orbitals| ==> orbitals[a] != orbitals[b]
      ensures |old(orbitals)| == count ==> orbitals == old(orbitals)
      ensures |old(orbitals)| != count ==>
                forall k :: 0 <= k < count ==>
                  fresh(orbitals[k]) && orbitals[k].index == k && orbitals[k].trail == [] && orbitals[k].hitCooldowns == map[]
    {
      if |orbitals| != count {
        orbitals := [];
        for i := 0 to count
          invariant |orbitals| == i
          invariant forall a, b :: 0 <= a < b < i ==> orbitals[a] != orbitals[b]
          invariant forall k :: 0 <= k < i ==>
                      fresh(orbitals[k]) && orbitals[k].index == k && orbitals[k].trail == [] && orbitals[k].hitCooldowns == map[]
        {
          var o := new Orbital(i);
          orbitals := orbitals + [o];
        }
      }
    }

    /** One orbital's `update` within the orbital pass of `update`, seen
        from the game: combat only grows the snapshot and keeps the enemies'
        ids, and unless the stack overflowed the orbital sits on its circle
        around the core, keeps at most its maximum trail, and holds a
        cooldown for exactly the enemies in the list. */
    method PassOrbital(o: Orbital, t: Tuning, dt: real, dir: Point)
      requires core.Some? && t.orbitalSpeed >= 0.0 && !stackOverflow
      modifies o, this`enemies, this`currency, this`combatTexts, this`lightningEffects, this`explosions, this`drawn, this`stackOverflow
      ensures Grows(old(Snapshot()), Snapshot()) && Ids(enemies) == Ids(old(enemies))
      ensures !stackOverflow ==>
                o.pos == OrbitPoint(core.value.pos, dir) &&
                o.maxTrailLength == TrailLength(t.orbitalSpeed) && |o.trail| <= o.maxTrailLength &&
                o.hitCooldowns.Keys == Ids(enemies)
    {
      o.Update(dt, this, t, dir);
      EvolvesKeepsIds(old(enemies), enemies, 0);
      assert old(enemies)[0..] == old(enemies) && enemies[0..] == enemies;
    }

    /** The orbital pass of `update`: every orbital updates in turn, until
        the stack overflows. Combat only grows the snapshot, and afterwards
        every orbital sits on its circle around the core, keeps at most its
        maximum trail, and holds a cooldown for exactly the enemies in the
        list. */
    method RunOrbitals(t: Tuning, dt: real, dirs: nat -> Point)
      requires core.Some? && t.orbitalSpeed >= 0.0 && !stackOverflow
      requires forall a, b :: 0 <= a < b < |orbitals| ==> orbitals[a] != orbitals[b]
      modifies orbitals, this`enemies, this`currency, this`combatTexts, this`lightningEffects, this`explosions, this`drawn, this`stackOverflow
      ensures Grows(old(Snapshot()), Snapshot())
      ensures !stackOverflow ==>
                forall k :: 0 <= k < |orbitals| ==>
                  orbitals[k].pos == OrbitPoint(core.value.pos, dirs(orbitals[k].index)) &&
                  orbitals[k].maxTrailLength == TrailLength(t.orbitalSpeed) && |orbitals[k].trail| <= orbitals[k].maxTrailLength &&
                  orbitals[k].hitCooldowns.Keys == Ids(enemies)
    {
      var i := 0;
      while i < |orbitals| && !stackOverflow
        invariant i <= |orbitals|
        invariant Grows(old(Snapshot()), Snapshot())
        invariant !stackOverflow ==>
                    forall k :: 0 <= k < i ==>
                      orbitals[k].pos == OrbitPoint(core.value.pos, dirs(orbitals[k].index)) &&
                      orbitals[k].maxTrailLength == TrailLength(t.orbitalSpeed) && |orbitals[k].trail| <= orbitals[k].maxTrailLength &&
                      orbitals[k].hitCooldowns.Keys == Ids(enemies)
        decreases |orbitals| - i
      {
        ghost var c0 := Snapshot();
        var o := orbitals[i];
        PassOrbital(o, t, dt, dirs(o.index));
        GrowsTransitive(old(Snapshot()), c0, Snapshot());
        i := i + 1;
      }
    }

    /** The wave clock of `update`: the wave time runs down, and when it
        is used up the wave index rises, the wave bonus is paid, the
        progress is saved and the game returns to the start screen. The
        frame goes on regardless, and the wave time is not reset. */
    method WaveClock(dt: real)
      modifies this`waveTime, this`waveIndex, this`currency, this`state, this`stored
      ensures waveTime == old(waveTime) - dt
      ensures waveTime <= 0.0 ==>
                waveIndex == old(waveIndex) + 1 && currency == old(currency) + WAVE_BONUS &&
                state == Start && stored == Some(SaveOf(ProgressOf()))
      ensures waveTime > 0.0 ==>
                waveIndex == old(waveIndex) && currency == old(currency) && state == old(state) && stored == old(stored)
    {
      waveTime := waveTime - dt;
      if waveTime <= 0.0 {
        waveIndex := waveIndex + 1;
        currency := currency + WAVE_BONUS;
        Save();
        CloseShop();
      }
    }

    /** The first half of the cleanup of `update`: marked enemies and
        expired texts are dropped (the texts were updated earlier in the
        frame). */
    method PurgeEnemies()
      requires IdsBelow(enemies, nextId)
      modifies this`enemies, this`combatTexts
      ensures enemies == Filter(old(enemies), Stays) && IdsBelow(enemies, nextId)
      ensures combatTexts == Filter(old(combatTexts), TextLasts)
      ensures forall k :: 0 <= k < |enemies| ==> !enemies[k].markedForDeletion
      ensures forall k :: 0 <= k < |combatTexts| ==> !TextExpired(combatTexts[k])
    {
      FilterKeepsIdsBelow(enemies, nextId);
      enemies := Filter(enemies, Stays);
      combatTexts := Filter(combatTexts, TextLasts);
    }

    /** The second half of the cleanup of `update`: the bolts, explosions
        and heal pulses are updated, then dropped once expired. */
    method PurgeEffects(dt: real)
      modifies this`lightningEffects, this`explosions, this`healPulses
      ensures lightningEffects == Filter(StepLightning(old(lightningEffects), dt), LightningLasts)
      ensures explosions == Filter(StepExplosions(old(explosions), dt), ExplosionLasts)
      ensures healPulses == Filter(StepHealPulses(old(healPulses), dt), HealPulseLasts)
      ensures forall k :: 0 <= k < |lightningEffects| ==> !LightningExpired(lightningEffects[k])
      ensures forall k :: 0 <= k < |explosions| ==> !ExplosionExpired(explosions[k])
      ensures forall k :: 0 <= k < |healPulses| ==> !HealPulseExpired(healPulses[k])
    {
      lightningEffects := Filter(StepLightning(lightningEffects, dt), LightningLasts);
      explosions := Filter(StepExplosions(explosions, dt), ExplosionLasts);
      healPulses := Filter(StepHealPulses(healPulses, dt), HealPulseLasts);
    }

    /** Spawning and the aura of `update`. Every enemy's id stays below
        the next id to hand out. */
    method Strike(t: Tuning, dt: real)
      requires WellFormedTable(table) && IdsBelow(enemies, nextId) && t.tickRate > 0.0
      modifies this`spawnTimer, this`nextId, this`auraTickTimer
      modifies this`enemies, this`currency, this`combatTexts, this`lightningEffects, this`explosions, this`drawn, this`stackOverflow
      ensures IdsBelow(enemies, nextId)
    {
      SpawnSystem(dt);
      ghost var es := enemies;
      AuraSystem(t, dt);
      assert forall k :: 0 <= k < |enemies| ==> enemies[k].id == es[k].id;
    }

    /** The enemy pass of `update`, seen from the game: a contact can
        only return the game to the start screen, and a game still playing
        afterwards has a living core. */
    method Approach(dt: real)
      requires core.Some? && (state == Playing ==> core.value.hp > 0.0) && IdsBelow(enemies, nextId)
      modifies this`enemies, this`core, this`state, this`stored
      ensures core.Some? && (state == Playing ==> core.value.hp > 0.0) && IdsBelow(enemies, nextId)
      ensures state == old(state) || state == Start
    {
      MoveEnemies(dt);
      assert forall k :: 0 <= k < |enemies| ==> enemies[k].id == old(enemies)[k].id;
    }

    /** Regeneration, the enemy pass and the text updates of `update`. */
    method Advance(t: Tuning, dt: real)
      requires core.Some? && (state == Playing ==> core.value.hp > 0.0) && IdsBelow(enemies, nextId)
      modifies this`regenTickTimer, this`core, this`healPulses, this`combatTexts, this`drawn, this`enemies, this`state, this`stored
      ensures core.Some? && (state == Playing ==> core.value.hp > 0.0) && IdsBelow(enemies, nextId)
      ensures state == old(state) || state == Start
    {
      ApplyCoreRegen(t, dt);
      Approach(dt);
      combatTexts := StepTexts(combatTexts, dt);
    }

    /** The orbital sync and pass of `update`: `orbitalCount` distinct
        orbitals, each updated in turn. */
    method Orbit(t: Tuning, dt: real, dirs: nat -> Point, count: nat)
      requires core.Some? && t.orbitalSpeed >= 0.0 && !stackOverflow && IdsBelow(enemies, nextId)
      requires forall a, b :: 0 <= a < b < |orbitals| ==> orbitals[a] != orbitals[b]
      modifies this`orbitals, orbitals
      modifies this`enemies, this`currency, this`combatTexts, this`lightningEffects, this`explosions, this`drawn, this`stackOverflow
      ensures |orbitals| == count && forall a, b :: 0 <= a < b < |orbitals| ==> orbitals[a] != orbitals[b]
      ensures IdsBelow(enemies, nextId)
    {
      SyncOrbitals(count);
      ghost var es := enemies;
      RunOrbitals(t, dt, dirs);
      assert forall k :: 0 <= k < |enemies| ==> enemies[k].id == es[k].id;
    }

    /** The end of `update`: `count` orbitals update in turn, then the
        cleanup, unless the stack overflows on the way. */
    method Settle(t: Tuning, dt: real, dirs: nat -> Point, count: nat)
      requires t.orbitalSpeed >= 0.0 && !stackOverflow && core.Some? && IdsBelow(enemies, nextId)
      requires forall a, b :: 0 <= a < b < |orbitals| ==> orbitals[a] != orbitals[b]
      modifies this`enemies, this`currency, this`combatTexts, this`lightningEffects, this`explosions, this`drawn, this`stackOverflow
      modifies this`healPulses, this`orbitals, orbitals
      ensures IdsBelow(enemies, nextId) && forall a, b :: 0 <= a < b < |orbitals| ==> orbitals[a] != orbitals[b]
      ensures !stackOverflow ==> Purged() && |orbitals| == count
    {
      Orbit(t, dt, dirs, count);
      if stackOverflow {
        return;
      }
      PurgeEnemies();
      PurgeEffects(dt);
    }

    /** `update(dt)` after the wave clock, with the stats `t` and the
        orbital directions `dirs` of this frame: spawning, the aura,
        regeneration, the enemy pass, the texts, `count` orbitals and the
        cleanup, in that order, until the stack overflows. */
    method Play(t: Tuning, dt: real, dirs: nat -> Point, count: nat)
      requires t.tickRate > 0.0 && t.orbitalSpeed >= 0.0 && !stackOverflow && WellFormedTable(table)
      requires core.Some? && (state == Playing ==> core.value.hp > 0.0) && IdsBelow(enemies, nextId)
      requires forall a, b :: 0 <= a < b < |orbitals| ==> orbitals[a] != orbitals[b]
      modifies this`spawnTimer, this`nextId, this`auraTickTimer, this`regenTickTimer, this`core, this`state, this`stored
      modifies this`enemies, this`currency, this`combatTexts, this`lightningEffects, this`explosions, this`drawn, this`stackOverflow
      modifies this`healPulses, this`orbitals, orbitals
      ensures core.Some? && (state == Playing ==> core.value.hp > 0.0) && IdsBelow(enemies, nextId)
      ensures forall a, b :: 0 <= a < b < |orbitals| ==> orbitals[a] != orbitals[b]
      ensures state == old(state) || state == Start
      ensures !stackOverflow ==> Purged() && |orbitals| == count
    {
      Strike(t, dt);
      if stackOverflow {
        return;
      }
      Advance(t, dt);
      Settle(t, dt, dirs, count);
    }

    /** `update(dt)` with the orbital directions `dirs` of this frame: the
        wave clock, then the rest of the frame. A stack overflow aborts the
        frame where it happens. The game stays valid: it is still playing
        only if neither the wave clock nor a contact returned it to the
        start screen, and then its core is alive. */
    method Update(dt: real, dirs: nat -> Point)
      requires Valid() && state == Playing && !stackOverflow
      modifies this, orbitals
      ensures Valid() && lastTime == old(lastTime)
      ensures upgradeLevels == old(upgradeLevels) && waveTime == old(waveTime) - dt
      ensures waveTime <= 0.0 ==> waveIndex == old(waveIndex) + 1 && state == Start
      ensures waveTime > 0.0 ==> waveIndex == old(waveIndex)
      ensures state == Start || state == Playing
      ensures !stackOverflow ==> Purged() && |orbitals| == upgradeLevels[OrbitalCount]
    {
      var t := Tun();
      WaveClock(dt);
      Play(t, dt, dirs, upgradeLevels[OrbitalCount]);
    }

    /** `loop(timestamp)`: the frame time is the time since the last frame;
        a playing game is updated unless the frame took 0.1 s or more.
        Once the stack has overflowed the loop is dead and nothing changes. */
    method Frame(timestamp: real, dirs: nat -> Point)
      requires Valid()
      modifies this, orbitals
      ensures Valid()
      ensures old(stackOverflow) ==> lastTime == old(lastTime) && state == old(state) && waveTime == old(waveTime)
      ensures !old(stackOverflow) ==> lastTime == timestamp
      ensures var dt := (timestamp - old(lastTime)) / 1000.0;
              !old(stackOverflow) && (old(state) != Playing || dt >= MAX_FRAME) ==>
                state == old(state) && waveTime == old(waveTime) && enemies == old(enemies)
      ensures var dt := (timestamp - old(lastTime)) / 1000.0;
              !old(stackOverflow) && old(state) == Playing && dt < MAX_FRAME ==> waveTime == old(waveTime) - dt
    {
      if stackOverflow {
        return;
      }
      var dt := (timestamp - lastTime) / 1000.0;
      lastTime := timestamp;
      if state == Playing && dt < MAX_FRAME {
        Update(dt, dirs);
      }
    }
  }

  /** An orbital: a ball circling the core that strikes the enemies it
      touches, at most once per `hitInterval` each. */
  class Orbital {
    const index: nat
    /** The positions of the last frames, oldest first. */
    var trail: seq<Point>
    var maxTrailLength: int
    /** Time until the orbital may hit an enemy again, by enemy id. */
    var hitCooldowns: map<nat, real>
    var pos: Point

    constructor(index: nat)
      ensures this.index == index && trail == [] && maxTrailLength == 10
      ensures hitCooldowns == map[] && pos == Point(0.0, 0.0)
    {
      this.index := index;
      trail := [];
      maxTrailLength := 10;
      hitCooldowns := map[];
      pos := Point(0.0, 0.0);
    }

    /** The collision step of `Orbital.update` for enemy `j`. */
    method Touch(game: Game, t: Tuning, dt: real, j: nat)
      requires j < |game.enemies| && !game.stackOverflow
      modifies this`hitCooldowns, game`enemies, game`currency, game`combatTexts, game`lightningEffects, game`explosions, game`drawn, game`stackOverflow
      ensures Sweep(game.Snapshot(), hitCooldowns) == OrbitalTouch(old(Sweep(game.Snapshot(), hitCooldowns)), t, game.env, pos, dt, j)
    {
      var e := game.enemies[j];
      var cooldown := CooldownOf(hitCooldowns, e.id) - dt;
      if Touches(pos, e) && !e.isDying && cooldown <= 0.0 {
        game.OrbitalStrike(t, j);
        hitCooldowns := hitCooldowns[e.id := ORBITAL_HIT_INTERVAL];
      } else {
        hitCooldowns := hitCooldowns[e.id := cooldown];
      }
    }

    /** The collision `forEach` of `Orbital.update`, until the stack
        overflows. */
    method Collide(game: Game, t: Tuning, dt: real)
      modifies this`hitCooldowns, game`enemies, game`currency, game`combatTexts, game`lightningEffects, game`explosions, game`drawn, game`stackOverflow
      ensures Sweep(game.Snapshot(), hitCooldowns) == OrbitalSweep(old(Sweep(game.Snapshot(), hitCooldowns)), t, game.env, pos, dt, 0)
    {
      ghost var goal := OrbitalSweep(Sweep(game.Snapshot(), hitCooldowns), t, game.env, pos, dt, 0);
      var j := 0;
      while j < |game.enemies| && !game.stackOverflow
        invariant j <= |game.enemies|
        invariant OrbitalSweep(Sweep(game.Snapshot(), hitCooldowns), t, game.env, pos, dt, j) == goal
        decreases |game.enemies| - j
      {
        Touch(game, t, dt, j);
        j := j + 1;
      }
    }

    /** The cleanup loop of `Orbital.update`: the cooldown of every enemy
        no longer in the list is deleted. */
    method Cleanup(enemies: seq<Enemy>)
      modifies this`hitCooldowns
      ensures hitCooldowns == Prune(old(hitCooldowns), enemies)
    {
      var ids := Ids(enemies);
      var pending := hitCooldowns.Keys;
      while pending != {}
        invariant pending <= old(hitCooldowns).Keys
        invariant hitCooldowns.Keys == old(hitCooldowns).Keys * ids + pending
        invariant forall id :: id in hitCooldowns ==> hitCooldowns[id] == old(hitCooldowns)[id]
        decreases pending
      {
        var id :| id in pending;
        if id !in ids {
          hitCooldowns := hitCooldowns - {id};
        }
        pending := pending - {id};
      }
      assert hitCooldowns.Keys == Prune(old(hitCooldowns), enemies).Keys;
    }

    /** The trail part of `Orbital.update`: the trail records the previous
        position and keeps the newest `floor(5 + 4 * speed)` of them. */
    method Trail(speed: real)
      requires speed >= 0.0
      modifies this`trail, this`maxTrailLength
      ensures maxTrailLength == TrailLength(speed) >= 5
      ensures trail == Trimmed(Recorded(old(trail), pos), maxTrailLength as nat)
    {
      maxTrailLength := TrailLength(speed);
      ghost var recorded := Recorded(trail, pos);
      if pos.x != 0.0 && pos.y != 0.0 {
        trail := trail + [pos];
      }
      while |trail| > maxTrailLength
        invariant maxTrailLength == TrailLength(speed) >= 5
        invariant |trail| <= |recorded| && trail == recorded[|recorded| - |trail|..]
        invariant |trail| >= maxTrailLength || |trail| == |recorded|
        decreases |trail|
      {
        trail := trail[1..];
      }
    }

    /** `Orbital.update(dt, game, totalOrbitals)` with the stats `t` of
        this frame and the direction `dir` of its angle: the trail is
        updated, the orbital moves onto its circle around the core, strikes
        what it touches, and forgets the enemies that are gone. Afterwards
        it holds a cooldown for exactly the enemies in the list. */
    method Update(dt: real, game: Game, t: Tuning, dir: Point)
      requires game.core.Some? && t.orbitalSpeed >= 0.0 && !game.stackOverflow
      modifies this`trail, this`maxTrailLength, this`pos, this`hitCooldowns
      modifies game`enemies, game`currency, game`combatTexts, game`lightningEffects, game`explosions, game`drawn, game`stackOverflow
      ensures maxTrailLength == TrailLength(t.orbitalSpeed) >= 5
      ensures trail == Trimmed(Recorded(old(trail), old(pos)), maxTrailLength as nat)
      ensures pos == OrbitPoint(game.core.value.pos, dir)
      ensures var s := OrbitalSweep(Sweep(old(game.Snapshot()), old(hitCooldowns)), t, game.env, pos, dt, 0);
              game.Snapshot() == s.combat &&
              hitCooldowns == if game.stackOverflow then s.cooldowns else Prune(s.cooldowns, game.enemies)
      ensures !game.stackOverflow ==> hitCooldowns.Keys == Ids(game.enemies)
    {
      Trail(t.orbitalSpeed);
      pos := OrbitPoint(game.core.value.pos, dir);
      ghost var es0 := game.enemies;
      Collide(game, t, dt);
      if game.stackOverflow {
        return;
      }
      Cleanup(game.enemies);
      EvolvesKeepsIds(es0, game.enemies, 0);
      assert es0[0..] == es0 && game.enemies[0..] == game.enemies;
    }
  }
}
