/** The static upgrade table `UPGRADES` of metaUpgrades.js: for every upgrade
    its cost curve (`baseCost`, `costMult`), its value curve (`defaultValue`,
    `increment`) and its optional `maxLevel`. Display name, category, colour
    and description are presentation only and are not part of the model. */
module MetaUpgrades {
  import opened Common

  /** The keys of `UPGRADES`, one per upgrade. */
  datatype UpgradeId =
    | AuraRadius | AuraDamage | TickRate | CoreHp | CoreRegen
    | CritChance | CritFactor | ChainChance | ChainDamage | ChainJumps
    | StasisField | ExplodeChance | ExplodeRadius | ExplodeDamage
    | SalvageScanner | OrbitalCount | OrbitalSpeed | OrbitalDamage

  datatype UpgradeDef = UpgradeDef(
    id: UpgradeId,
    baseCost: real,
    costMult: real,
    defaultValue: real,
    increment: real,
    maxLevel: Option<nat>)

  /** Value of an upgrade at a level: `defaultValue + level * increment`
      (the expression of `getStat` and of the shop card). */
  function ValueAt(def: UpgradeDef, level: nat): real
  {
    def.defaultValue + level as real * def.increment
  }

  const AURA_RADIUS := UpgradeDef(AuraRadius, 150.0, 2.5, 20.0, 5.0, None)
  const AURA_DAMAGE := UpgradeDef(AuraDamage, 30.0, 2.6, 3.0, 1.0, None)
  const TICK_RATE := UpgradeDef(TickRate, 50.0, 2.8, 1.0, 1.0, None)
  const CORE_HP := UpgradeDef(CoreHp, 50.0, 1.5, 100.0, 20.0, None)
  const CORE_REGEN := UpgradeDef(CoreRegen, 120.0, 2.4, 0.0, 0.5, None)
  const CRIT_CHANCE := UpgradeDef(CritChance, 100.0, 1.8, 5.0, 1.0, Some(95))
  const CRIT_FACTOR := UpgradeDef(CritFactor, 120.0, 1.8, 1.5, 0.1, None)
  const CHAIN_CHANCE := UpgradeDef(ChainChance, 10.0, 1.8, 0.0, 5.0, None)
  const CHAIN_DAMAGE := UpgradeDef(ChainDamage, 150.0, 2.6, 100.0, 50.0, None)
  const CHAIN_JUMPS := UpgradeDef(ChainJumps, 250.0, 3.0, 1.0, 1.0, None)
  const STASIS_FIELD := UpgradeDef(StasisField, 50.0, 1.6, 10.0, 5.0, Some(14))
  const EXPLODE_CHANCE := UpgradeDef(ExplodeChance, 500.0, 1.7, 0.0, 5.0, Some(20))
  const EXPLODE_RADIUS := UpgradeDef(ExplodeRadius, 450.0, 1.5, 60.0, 10.0, None)
  const EXPLODE_DAMAGE := UpgradeDef(ExplodeDamage, 600.0, 1.8, 0.2, 0.05, None)
  const SALVAGE_SCANNER := UpgradeDef(SalvageScanner, 250.0, 1.4, 1.0, 0.1, None)
  const ORBITAL_COUNT := UpgradeDef(OrbitalCount, 5000.0, 10.0, 0.0, 1.0, Some(3))
  const ORBITAL_SPEED := UpgradeDef(OrbitalSpeed, 300.0, 1.8, 0.5, 0.5, Some(10))
  const ORBITAL_DAMAGE := UpgradeDef(OrbitalDamage, 400.0, 1.6, 100.0, 100.0, Some(200))

  /** The key set of the table. */
  const UPGRADE_IDS: set<UpgradeId> := {
    AuraRadius, AuraDamage, TickRate, CoreHp, CritChance, CritFactor,
    ChainChance, ChainDamage, ChainJumps, CoreRegen, StasisField,
    ExplodeChance, ExplodeRadius, ExplodeDamage, SalvageScanner,
    OrbitalCount, OrbitalSpeed, OrbitalDamage}

  /** The table has an entry for every id and nothing else. */
  lemma EveryIdListed(k: UpgradeId)
    ensures k in UPGRADE_IDS
  {
    match k
    case AuraRadius => case AuraDamage => case TickRate => case CoreHp =>
    case CoreRegen => case CritChance => case CritFactor => case ChainChance =>
    case ChainDamage => case ChainJumps => case StasisField => case ExplodeChance =>
    case ExplodeRadius => case ExplodeDamage => case SalvageScanner =>
    case OrbitalCount => case OrbitalSpeed => case OrbitalDamage =>
  }

  /** `UPGRADES[id]`: the table entry stored under `id`, whose own `id`
      field is that key. */
  function Upgrade(id: UpgradeId): (def: UpgradeDef)
    ensures def.id == id
  {
    match id
    case AuraRadius => AURA_RADIUS
    case AuraDamage => AURA_DAMAGE
    case TickRate => TICK_RATE
    case CoreHp => CORE_HP
    case CoreRegen => CORE_REGEN
    case CritChance => CRIT_CHANCE
    case CritFactor => CRIT_FACTOR
    case ChainChance => CHAIN_CHANCE
    case ChainDamage => CHAIN_DAMAGE
    case ChainJumps => CHAIN_JUMPS
    case StasisField => STASIS_FIELD
    case ExplodeChance => EXPLODE_CHANCE
    case ExplodeRadius => EXPLODE_RADIUS
    case ExplodeDamage => EXPLODE_DAMAGE
    case SalvageScanner => SALVAGE_SCANNER
    case OrbitalCount => ORBITAL_COUNT
    case OrbitalSpeed => ORBITAL_SPEED
    case OrbitalDamage => ORBITAL_DAMAGE
  }

  /** Every cost multiplier is at least 1.4, so every cost curve grows. */
  lemma CostCurvesGrow()
    ensures forall k: UpgradeId :: Upgrade(k).costMult >= 1.4 && Upgrade(k).baseCost > 0.0
  {
  }

  /** Every upgrade raises its value with each level. */
  lemma IncrementsPositive()
    ensures forall k: UpgradeId :: Upgrade(k).increment > 0.0
  {
  }

  /** critChance at its maxLevel is exactly 100 (percent). */
  lemma CritChanceReachesCertainty()
    ensures CRIT_CHANCE.maxLevel == Some(95) && ValueAt(CRIT_CHANCE, 95) == 100.0
  {
  }

  /** explodeChance at its maxLevel is exactly 100 (percent). */
  lemma ExplodeChanceReachesCertainty()
    ensures EXPLODE_CHANCE.maxLevel == Some(20) && ValueAt(EXPLODE_CHANCE, 20) == 100.0
  {
  }

  /** Up to its maxLevel the stasis slow stays at most 80 percent. */
  lemma StasisAtMostEighty(level: nat)
    requires level <= 14
    ensures STASIS_FIELD.maxLevel == Some(14)
    ensures 10.0 <= ValueAt(STASIS_FIELD, level) <= 80.0
  {
  }

  /** tickRate is at least 1 at every level, so `1 / tickRate` is defined. */
  lemma TickRateAtLeastOne(level: nat)
    ensures ValueAt(TICK_RATE, level) >= 1.0
  {
  }

  /** The salvage multiplier is at least 1 at every level. */
  lemma SalvageAtLeastOne(level: nat)
    ensures ValueAt(SALVAGE_SCANNER, level) >= 1.0
  {
  }

  /** Up to its maxLevel the orbital count is at most 3. */
  lemma OrbitalCountAtMostThree(level: nat)
    requires level <= 3
    ensures ORBITAL_COUNT.maxLevel == Some(3)
    ensures ValueAt(ORBITAL_COUNT, level) <= 3.0
  {
  }
}
