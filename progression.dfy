/** Progression rules of script.js: the stat formula of `getStat`, the shop's
    cost and "maxed" expressions of `renderShop`, the merge of a saved game
    over the default levels in `loadProgress`, and the record of all stats
    that one frame of the simulation reads. */
module Progression {
  import opened Common
  import opened MetaUpgrades

  /** `upgradeLevels`: the level of each upgrade id. */
  type Levels = map<UpgradeId, nat>

  /** Every id of the upgrade table has a level. */
  predicate Complete(lv: Levels)
  {
    forall k: UpgradeId :: k in lv
  }

  /** `getStat(key)`: `defaultValue + level * increment`, with no maxLevel clamp. */
  function Stat(lv: Levels, key: UpgradeId): real
    requires key in lv
  {
    ValueAt(Upgrade(key), lv[key])
  }

  /** A stat grows strictly with its level, beyond `maxLevel` as below it:
      `getStat` never clamps, only the shop stops offering the upgrade. */
  lemma StatGrowsPastMaxLevel(lv: Levels, key: UpgradeId, a: nat, b: nat)
    requires a < b
    ensures Stat(lv[key := a], key) < Stat(lv[key := b], key)
  {
    IncrementsPositive();
    var inc := Upgrade(key).increment;
    MulPositive((b - a) as real, inc);
    MulDistributes(inc, b as real, a as real);
    MulCommutes(inc, (b - a) as real);
    MulCommutes(inc, b as real);
    MulCommutes(inc, a as real);
  }

  /** The shop price at a level: `floor(baseCost * costMult ^ level)`. */
  function Cost(def: UpgradeDef, level: nat): int
  {
    (def.baseCost * Pow(def.costMult, level)).Floor
  }

  /** At level 0 the price is the floored base cost. */
  lemma CostAtLevelZero(def: UpgradeDef)
    ensures Cost(def, 0) == def.baseCost.Floor
  {
  }

  /** With a multiplier of at least 1 the price never falls as the level rises. */
  lemma CostNonDecreasing(def: UpgradeDef, a: nat, b: nat)
    requires def.baseCost >= 0.0 && def.costMult >= 1.0 && a <= b
    ensures Cost(def, a) <= Cost(def, b)
  {
    PowMonotone(def.costMult, a, b);
    MulNonNegative(def.baseCost, Pow(def.costMult, b) - Pow(def.costMult, a));
    MulDistributes(def.baseCost, Pow(def.costMult, b), Pow(def.costMult, a));
  }

  /** Every entry of the table has a non-decreasing price curve. */
  lemma TableCostsNonDecreasing(key: UpgradeId, a: nat, b: nat)
    requires a <= b
    ensures Cost(Upgrade(key), a) <= Cost(Upgrade(key), b)
  {
    CostCurvesGrow();
    CostNonDecreasing(Upgrade(key), a, b);
  }

  /** `upg.maxLevel && currentLvl >= upg.maxLevel`: an absent or zero
      maxLevel is falsy, so such an upgrade is never maxed. */
  predicate IsMaxed(def: UpgradeDef, level: nat)
  {
    def.maxLevel.Some? && def.maxLevel.value != 0 && level >= def.maxLevel.value
  }

  /** The shop wires a purchase to the button only when the upgrade is not
      maxed and the currency covers the price. */
  predicate ShopOffers(def: UpgradeDef, level: nat, currency: real)
  {
    !IsMaxed(def, level) && currency >= Cost(def, level) as real
  }

  /** Buying only through the shop never takes a capped upgrade past its
      maxLevel: this is the only place the cap is enforced. */
  lemma ShopKeepsLevelWithinCap(def: UpgradeDef, level: nat, currency: real)
    requires def.maxLevel.Some? && def.maxLevel.value > 0 && level <= def.maxLevel.value
    requires ShopOffers(def, level, currency)
    ensures level + 1 <= def.maxLevel.value
  {
  }

  /** The default level map of `loadProgress`: every id at level 0. */
  function DefaultLevels(): (lv: Levels)
    ensures Complete(lv)
    ensures forall k :: k in lv ==> lv[k] == 0
  {
    var lv := map[
      AuraRadius := 0, AuraDamage := 0, TickRate := 0, CoreHp := 0,
      CritChance := 0, CritFactor := 0, ChainChance := 0, ChainDamage := 0,
      ChainJumps := 0, CoreRegen := 0, StasisField := 0, ExplodeChance := 0,
      ExplodeRadius := 0, ExplodeDamage := 0, SalvageScanner := 0,
      OrbitalCount := 0, OrbitalSpeed := 0, OrbitalDamage := 0
    ];
    assert Complete(lv) by {
      forall k: UpgradeId ensures k in lv {
        EveryIdListed(k);
      }
    }
    lv
  }

  /** `Object.assign(target, source)` on level maps: every key of either,
      the source's level winning where both have one. */
  function Assign(target: Levels, source: Levels): (r: Levels)
    ensures r.Keys == target.Keys + source.Keys
    ensures forall k :: k in source ==> r[k] == source[k]
    ensures forall k :: k in target && k !in source ==> r[k] == target[k]
  {
    map k | k in target.Keys + source.Keys :: if k in source then source[k] else target[k]
  }

  /** The saved record as `SaveSystem.load` returns it. `None` stands for a
      field that is absent, `null` or not a number. */
  datatype SaveData = SaveData(currency: Option<real>, waveIndex: Option<int>, upgradeLevels: Option<Levels>)

  /** The persistent part of the game state. */
  datatype Progress = Progress(currency: real, waveIndex: int, levels: Levels)

  /** `saveData.currency || 0`. */
  function LoadedCurrency(saved: Option<real>): real
  {
    match saved
    case None => 0.0
    case Some(c) => c
  }

  /** `saveData.waveIndex || 1`: a missing wave and a saved 0 both become 1. */
  function LoadedWave(saved: Option<int>): int
  {
    match saved
    case None => 1
    case Some(w) => if w == 0 then 1 else w
  }

  /** `loadProgress`: the saved values merged over the defaults, or the
      defaults when there is no save. */
  function Loaded(save: Option<SaveData>): (p: Progress)
    ensures Complete(p.levels)
    ensures p.waveIndex != 0
    ensures save.None? ==> p == Progress(0.0, 1, DefaultLevels())
    ensures save.Some? && save.value.upgradeLevels.Some? ==>
              forall k :: k in save.value.upgradeLevels.value ==> k in p.levels && p.levels[k] == save.value.upgradeLevels.value[k]
    ensures forall k :: save.None? || save.value.upgradeLevels.None? || k !in save.value.upgradeLevels.value ==> p.levels[k] == 0
    ensures save.Some? ==> p.currency == (if save.value.currency.Some? then save.value.currency.value else 0.0)
    ensures save.Some? ==>
              p.waveIndex == (if save.value.waveIndex.None? || save.value.waveIndex.value == 0 then 1 else save.value.waveIndex.value)
  {
    match save
    case None => Progress(0.0, 1, DefaultLevels())
    case Some(s) =>
      var saved := if s.upgradeLevels.Some? then s.upgradeLevels.value else map[];
      Progress(LoadedCurrency(s.currency), LoadedWave(s.waveIndex), Assign(DefaultLevels(), saved))
  }

  /** What `SaveSystem.save` writes for a progress state. */
  function SaveOf(p: Progress): SaveData
  {
    SaveData(Some(p.currency), Some(p.waveIndex), Some(p.levels))
  }

  /** Saving and loading reproduces the progress exactly, for every state the
      game can reach (all ids present, wave index not 0). */
  lemma SaveLoadRoundTrip(p: Progress)
    requires Complete(p.levels) && p.waveIndex != 0
    ensures Loaded(Some(SaveOf(p))) == p
  {
    var r := Loaded(Some(SaveOf(p)));
    assert r.levels.Keys == p.levels.Keys;
    assert forall k :: k in r.levels ==> r.levels[k] == p.levels[k];
    assert r.levels == p.levels;
  }

  /** All the stats one frame reads through `getStat`. */
  datatype Tuning = Tuning(
    auraRadius: real, auraDamage: real, tickRate: real, coreHp: real, coreRegen: real,
    critChance: real, critFactor: real, chainChance: real, chainDamage: real, chainJumps: real,
    stasisField: real, explodeChance: real, explodeRadius: real, explodeDamage: real,
    salvageScanner: real, orbitalCount: real, orbitalSpeed: real, orbitalDamage: real)

  /** Every stat at the given levels. Because every increment is positive,
      each stat is at least its table default. */
  function TuningOf(lv: Levels): (t: Tuning)
    requires Complete(lv)
    ensures t.tickRate >= 1.0 && t.salvageScanner >= 1.0
    ensures t.auraRadius >= 20.0 && t.auraDamage >= 3.0 && t.coreHp >= 100.0
    ensures t.critFactor >= 1.5 && t.explodeRadius >= 60.0 && t.explodeDamage >= 0.2
    ensures t.chainJumps >= 1.0 && t.orbitalSpeed >= 0.5
    ensures t.orbitalCount == lv[OrbitalCount] as real
  {
    Tuning(
      ValueAt(AURA_RADIUS, lv[AuraRadius]), ValueAt(AURA_DAMAGE, lv[AuraDamage]), ValueAt(TICK_RATE, lv[TickRate]),
      ValueAt(CORE_HP, lv[CoreHp]), ValueAt(CORE_REGEN, lv[CoreRegen]), ValueAt(CRIT_CHANCE, lv[CritChance]),
      ValueAt(CRIT_FACTOR, lv[CritFactor]), ValueAt(CHAIN_CHANCE, lv[ChainChance]), ValueAt(CHAIN_DAMAGE, lv[ChainDamage]),
      ValueAt(CHAIN_JUMPS, lv[ChainJumps]), ValueAt(STASIS_FIELD, lv[StasisField]), ValueAt(EXPLODE_CHANCE, lv[ExplodeChance]),
      ValueAt(EXPLODE_RADIUS, lv[ExplodeRadius]), ValueAt(EXPLODE_DAMAGE, lv[ExplodeDamage]), ValueAt(SALVAGE_SCANNER, lv[SalvageScanner]),
      ValueAt(ORBITAL_COUNT, lv[OrbitalCount]), ValueAt(ORBITAL_SPEED, lv[OrbitalSpeed]), ValueAt(ORBITAL_DAMAGE, lv[OrbitalDamage]))
  }

  /** The field of the record that holds the stat `id`. */
  function StatOf(t: Tuning, id: UpgradeId): real
  {
    match id
    case AuraRadius => t.auraRadius
    case AuraDamage => t.auraDamage
    case TickRate => t.tickRate
    case CoreHp => t.coreHp
    case CoreRegen => t.coreRegen
    case CritChance => t.critChance
    case CritFactor => t.critFactor
    case ChainChance => t.chainChance
    case ChainDamage => t.chainDamage
    case ChainJumps => t.chainJumps
    case StasisField => t.stasisField
    case ExplodeChance => t.explodeChance
    case ExplodeRadius => t.explodeRadius
    case ExplodeDamage => t.explodeDamage
    case SalvageScanner => t.salvageScanner
    case OrbitalCount => t.orbitalCount
    case OrbitalSpeed => t.orbitalSpeed
    case OrbitalDamage => t.orbitalDamage
  }

  /** The record holds exactly what `getStat` returns for each id. */
  lemma TuningIsGetStat(lv: Levels, id: UpgradeId)
    requires Complete(lv)
    ensures StatOf(TuningOf(lv), id) == Stat(lv, id)
  {
  }
}
