# GeoDefence core, modelled in Dafny

GeoDefence is a browser tower-defence game. The player's core sits in the
middle of the world. Polygon enemies spawn at the edge and walk toward the
core. The mouse pointer carries a damage aura. Between waves the player spends
currency on meta upgrades, which are saved and loaded across sessions.

This project models the game logic of `script.js` and the upgrade table of
`metaUpgrades.js`:

- **Upgrade table.** The upgrade definitions, their stat and cost curves, and the shop's purchase rule.
- **Saved progress.** How progress is saved and loaded.
- **Spawning.** The spawn schedule and the weighted choice of an enemy's vertex count.
- **Enemies.** Their movement and death animation.
- **Effects.** The combat texts and visual effects, with their lifetimes.
- **Damage cascade.** The aura, critical hits, chain lightning, explosions, kill rewards and orbitals.
- **Frame update.** The per-frame `update` and the `loop` that drives it.

**Modules.** Each module follows one part of the program:

- **`Common`:** points, distances, `Math.ceil`, powers, and the `Oracle` that stands for randomness and trigonometry.
- **`MetaUpgrades`:** the `UPGRADES` table.
- **`Progression`:** `getStat`, shop costs, the shop rule, `SaveSystem` and `loadProgress`.
- **`SpawnRules`:** `getSpawnDistributionForLevel`, `pickEnemyFromDistribution` and the spawn interval.
- **`Entities`:** the `Enemy` constructor, `update`, `startDeath` and the kill reward.
- **`Effects`:** `CombatText`, `LightningEffect`, `HealPulse` and `ExplosionEffect`.
- **`CombatRules`:** the damage cascade as pure functions over a `Combat` snapshot. The snapshot holds the enemies, currency, texts, effects, the random-draw counter and the stack-overflow flag.
- **`Engine`:** the classes `Game` and `Orbital`. Their methods change fields step by step, as the JavaScript does. Each method is proved to leave the state its `CombatRules` function (or its own postcondition) describes.

**How the model stands in for JavaScript:**

- **Randomness and trigonometry.** `Math.random()` is the sequence `env.random(0), env.random(1), …`. The game counts the draws it has taken in `drawn`. `MathUtils.getSpawnPoint`, the movement direction of `Enemy.update` and the fragment directions of `startDeath` are functions of the `Oracle`. The orbital positions (cos/sin of a `Date.now()` angle) are a parameter `dirs` of each frame.
- **Distances.** A distance comparison `dist < R` is decided exactly on squared distances. `CloserIsDistanceBelow` proves it equivalent.
- **Object identity.** JavaScript compares enemies by identity: `===`, `Map` keys, `includes`. Here each enemy carries an `id` that is unique among the live enemies.
- **Unbounded recursion.** The death cascade can recurse without end: `handleEnemyDeath` calls `tryExplosion` before `startDeath`. In JavaScript this ends in a stack overflow. The model gives the cascade a depth budget `STACK_DEPTH`. Running out of it sets `stackOverflow`, after which `loop` does nothing more.

## Model

| member | source | states |
|---|---|---|
| Common.SqDist | script.js:52-54 | the squared distance between two points is never negative |
| Common.CloserIsDistanceBelow | script.js:52-54 | for r = getDistance(a, b): `r < bound` holds exactly when the squared-distance test `Closer` holds |
| Common.NoFartherIsDistanceAtMost | script.js:52-54 | for r = getDistance(a, b): `r <= bound` holds exactly when `NoFarther` holds (used for the explosion radius) |
| Common.Ceil | script.js:1093-1110 | `Math.ceil`: the result is the least integer not below x (x <= c < x + 1) |
| MetaUpgrades.Upgrade | metaUpgrades.js:2-212 | the definition looked up for an id carries that id |
| MetaUpgrades.EveryIdListed | metaUpgrades.js:2-212 | the id list names every upgrade of the table |
| MetaUpgrades.CostCurvesGrow | metaUpgrades.js:2-212 | every upgrade has a positive base cost and a cost multiplier of at least 1.4 |
| MetaUpgrades.IncrementsPositive | metaUpgrades.js:2-212 | every upgrade's increment is positive, so each level raises its stat |
| MetaUpgrades.CritChanceReachesCertainty | metaUpgrades.js:58-69 | crit chance is capped at level 95, where it reaches exactly 100% |
| MetaUpgrades.ExplodeChanceReachesCertainty | metaUpgrades.js:129-140 | explode chance is capped at level 20, where it reaches exactly 100% |
| MetaUpgrades.StasisAtMostEighty | metaUpgrades.js:115-126 | stasis field is capped at level 14, and up to that cap the slow stays between 10% and 80% |
| MetaUpgrades.TickRateAtLeastOne | metaUpgrades.js:25-35 | the aura tick rate is at least 1 at every level (so `1 / tickRate` is defined) |
| MetaUpgrades.SalvageAtLeastOne | metaUpgrades.js:165-175 | the salvage multiplier is at least 1 at every level |
| MetaUpgrades.OrbitalCountAtMostThree | metaUpgrades.js:176-187 | orbital count is capped at level 3, and up to that cap at most three orbitals exist |
| Progression.StatGrowsPastMaxLevel | script.js:971-975 | getStat is strictly increasing in the level, with no clamp at maxLevel |
| Progression.CostAtLevelZero | script.js:902 | the first purchase costs floor(baseCost) |
| Progression.CostNonDecreasing | script.js:902 | with baseCost >= 0 and costMult >= 1, the shop price never falls as the level rises |
| Progression.TableCostsNonDecreasing | script.js:902 | every upgrade of the table has a non-decreasing price curve |
| Progression.ShopKeepsLevelWithinCap | script.js:911-912 | when the shop offers a capped upgrade (not maxed and affordable), buying it cannot pass maxLevel |
| Progression.DefaultLevels | script.js:687-706 | the starting levels name every upgrade, each at level 0 |
| Progression.Assign | script.js:686-708 | `Object.assign`: keys of both maps, with the saved value winning and the default kept otherwise |
| Progression.Loaded | script.js:678-734 | loadProgress: no save gives currency 0, wave 1 and all levels 0; with a save, the currency is the saved one or 0 when missing (`|| 0`), the wave is the saved one or 1 when missing or 0 (`|| 1`), saved levels override the defaults and missing levels stay 0; the wave is never 0 |
| Progression.SaveLoadRoundTrip | script.js:79-101 | loading what `SaveSystem.save` wrote gives back the same progress |
| Progression.TuningOf | script.js:971-975 | the frame's stats satisfy the table's lower bounds (tick rate and salvage at least 1, aura radius at least 20, …), and the orbital count equals its level |
| Progression.TuningIsGetStat | script.js:971-975 | each stat read once per frame equals getStat of that key |
| SpawnRules.Thresholds | script.js:112-125 | the thresholds listed are those of the table's tiers, in order |
| SpawnRules.Insert | script.js:112-125 | inserting into a sorted list keeps it sorted and adds exactly one element |
| SpawnRules.SortAscending | script.js:113-115 | the numeric sort of the tier keys is sorted and a permutation of its input |
| SpawnRules.ScanFindsGreatestAtMost | script.js:117-122 | the scan over sorted thresholds returns the greatest threshold <= level, or its start value when there is none |
| SpawnRules.LookupFindsTier | script.js:124 | with distinct thresholds, looking a threshold up returns that tier's weights |
| SpawnRules.SortKeepsElements | script.js:113-115 | sorting neither adds nor loses a threshold |
| SpawnRules.ScanOfSortedChooses | script.js:112-125 | the selected threshold is a key of the table: the greatest <= level, else the smallest key |
| SpawnRules.DistributionForChoosesTier | script.js:112-125 | getSpawnDistributionForLevel returns the weights of the tier whose threshold was chosen |
| SpawnRules.PickFromSpec | script.js:783-793 | the weighted pick returns the vertex count of the first entry whose running sum reaches the roll |
| SpawnRules.PickIsFirstCovering | script.js:783-793 | pickEnemyFromDistribution returns the first entry whose cumulative probability covers the roll |
| SpawnRules.PickFromFallback | script.js:783-793 | when no running sum reaches the roll, the loop falls through to the first key |
| SpawnRules.PickFallsBackToFirstKey | script.js:792 | when no cumulative probability covers the roll, the first key of the distribution is returned |
| SpawnRules.PickIsAKey | script.js:783-793 | the pick is always a vertex count listed in the distribution |
| SpawnRules.SpawnedShapeIsPolygon | script.js:1045-1051 | for a well-formed table every wave's distribution is non-empty and every spawned shape has at least 3 vertices |
| SpawnRules.SpawnIntervalBounded | script.js:1037-1038 | during a wave the spawn interval lies between 0.2 s and 1 s |
| SpawnRules.SpawnIntervalShrinks | script.js:1037-1038 | as the wave clock runs down, spawns never come less often |
| Entities.NewEnemy | script.js:176-193 | a new enemy is unhurt (hp = maxHp > 0), has speed inversely proportional to its vertex count, damage equal to its vertex count, and is neither dying nor marked |
| Entities.BaseEnemyHitPoints | script.js:179 | a triangle has 10 hp, a square 16 |
| Entities.MoreVerticesTougherAndSlower | script.js:179-181 | more vertices mean strictly more hp and strictly lower speed |
| Entities.StepFragments | script.js:200-205 | every fragment is advanced by the same step, none is added or lost |
| Entities.Stepped | script.js:194-222 | a dying enemy stays put, its timer grows, all fragments share life 1 - progress, and it is marked when the animation is over; a living enemy rotates, only moves if not already on the target, and its flash timer counts down |
| Entities.UpdateEnemy | script.js:194-222 | the imperative update computes `Stepped` |
| Entities.Dying | script.js:279-315 | startDeath: the enemy becomes dying and stops, with one full-life fragment per vertex at its position |
| Entities.StartDeath | script.js:279-315 | the fragment-building loop computes `Dying` |
| Entities.RewardAtLeastRaw | script.js:1156-1158 | with salvage >= 1 the kill reward is at least floor(maxHp * 0.4) and non-negative |
| Effects.OrDefault | script.js:440-450 | a text option that is set and non-zero is used, otherwise the default (`options.x \|\| d`) |
| Effects.NewText | script.js:440-450 | a new text starts at its position with elapsed time 0 and a horizontal drift in [-15, 15) |
| Effects.NewHealPulse | script.js:533-542 | a heal pulse starts at the core's radius and grows toward radius + 25 |
| Effects.HealPulseStaysWithinMax | script.js:544-549 | a live heal pulse only grows, and never past its maximum radius |
| Effects.ExpiryIsPermanent | script.js:451-455 | an expired text, lightning, heal pulse or explosion stays expired after further updates (also 470-472, 486-488, 527-529, 568-570, 583-585, 610-612) |
| Effects.Filter | script.js:1257-1264 | `filter` keeps only elements that pass, drops none that pass, and keeps each passing value exactly as often as it occurs (multiset), dropping every other |
| Effects.FilterAppend | script.js:1257-1264 | filtering a concatenation is the concatenation of the filtered parts, so the survivors keep their order |
| Effects.StepTexts | script.js:1242 | every text is updated by the same step |
| Effects.StepLightning | script.js:1259 | every lightning effect is updated by the same step |
| Effects.StepHealPulses | script.js:1263 | every heal pulse is updated by the same step |
| Effects.StepExplosions | script.js:1261 | every explosion is updated by the same step |
| CombatRules.PushText | script.js:440-450 | adding a text appends one text of the given kind and value, uses one draw and changes nothing else |
| CombatRules.Rewarded | script.js:1155-1166 | a kill adds floor(floor(maxHp * 0.4) * salvage) to the currency and shows it as a reward text |
| CombatRules.Death | script.js:1155-1169 | handleEnemyDeath only ever grows the combat state (no enemy lost or moved, texts, bolts and explosions only appended, no recovery from an overflow), adds no chain text, and the victim ends up dying unless the stack overflowed |
| CombatRules.Explode | script.js:1171-1209 | tryExplosion grows the combat state, adds no lightning, and with chance <= 0 does nothing at all |
| CombatRules.BlastHit | script.js:1186-1206 | an explosion hit on one target grows the combat state and adds no chain text |
| CombatRules.Blast | script.js:1185-1207 | the explosion sweep over the remaining targets grows the combat state |
| CombatRules.DeathWithoutExplosion | script.js:1155-1169 | when no explosion fires, a death pays the reward, shows it, and turns the victim into its dying form, nothing more |
| CombatRules.MutualExplosionsNeverEnd | script.js:1155-1209 | at 100% explode chance, two enemies inside each other's blast that each die from the other's blast make handleEnemyDeath recurse until the stack overflows, at every stack depth |
| CombatRules.MutualExplodeCrashes | script.js:1171-1209 | the same mutual blast, entered through tryExplosion, overflows |
| CombatRules.MutualBlastCrashes | script.js:1185-1207 | the same mutual blast, entered through the explosion sweep, overflows |
| CombatRules.MutualHitCrashes | script.js:1186-1206 | the partner is in the blast and the hit on it overflows |
| CombatRules.MutualStruck | script.js:1189-1203 | the blast kills the partner, which is not yet dying, and the pair stays mutually lethal afterwards |
| CombatRules.BlastWithoutKills | script.js:1185-1207 | when no blast kills, exactly the living targets inside the radius (not the origin) lose the damage; currency and explosions are unchanged |
| CombatRules.ExplosionScalesWithOrigin | script.js:1171-1209 | when no target in reach is killed by it, a fired explosion appends one effect at the origin and deals maxHp * explodeDamage of the origin to every other enemy in the radius, and to nobody else |
| CombatRules.ClosestFrom | script.js:999-1008 | the nearest-target scan returns an index into the enemy list, if any |
| CombatRules.Closest | script.js:999-1008 | the chain target is an index into the enemy list, if any |
| CombatRules.ClosestFromFindsFirstNearest | script.js:999-1008 | the scan's result is the first living enemy (other than the origin) at minimal distance, and none is returned only when no candidate exists |
| CombatRules.ClosestIsFirstNearest | script.js:999-1010 | both directions: no target exactly when no living candidate exists; target k exactly when k is the first nearest candidate |
| CombatRules.HopsStep | script.js:993 | one jump fewer means exactly one hop fewer |
| CombatRules.GrowsTransitive | script.js:992-1031 | growing the combat state composes over successive steps |
| CombatRules.ChainHop | script.js:1012-1028 | a chain hop draws one lightning from the link to the target and shows chain-damage texts; a hop that does not kill takes exactly `damage` from the target and changes no other enemy, the currency, or anything but one draw |
| CombatRules.Propagate | script.js:992-1031 | propagateChain grows the combat state, draws at most one lightning per jump, and every chain text it adds shows the chain damage |
| CombatRules.TryChain | script.js:979-990 | chance <= 0 does nothing; a failed roll only uses the draw; otherwise at most chainJumps lightning bolts appear |
| CombatRules.ChainStrikesNearestFirst | script.js:992-1031 | with jumps left, the first bolt goes from the origin to the nearest living enemy, and with no candidate nothing happens; with one jump and a non-lethal hit, the chain is exactly `damage` taken from that nearest enemy |
| CombatRules.Slowed | script.js:1069-1079 | inside the aura with stasis on, speed is baseSpeed * (1 - stasis/100); inside without stasis it is left as is; outside it is reset to baseSpeed |
| CombatRules.SlowAll | script.js:1069-1079 | every enemy's speed is set by that rule, nothing else changes |
| CombatRules.StasisSlowsButNeverStops | script.js:1069-1079 | below 100% stasis, an enemy in the aura is slowed but never stopped |
| CombatRules.AuraTouch | script.js:1084-1110 | an aura hit deals the base or crit damage (crit when the roll is below critChance), shows a crit or hit text with its ceiling, and uses two draws |
| CombatRules.AuraStrike | script.js:1084-1115 | an aura hit, with its possible death and chain lightning, grows the combat state and uses at least one draw |
| CombatRules.AuraCritRule | script.js:1084-1110 | when the hit does not kill, the aura hit is exactly the crit rule and nothing else |
| CombatRules.AuraSweep | script.js:1081-1119 | the aura tick grows the combat state |
| CombatRules.NoPointerNoStrike | script.js:1081-1119 | before the mouse has moved, the aura tick hits nothing |
| CombatRules.AuraStepSurvives | script.js:1084-1115 | a non-lethal aura hit touches only its target and leaves the currency as it is |
| CombatRules.AuraSweepWithoutKills | script.js:1081-1119 | when nobody dies, exactly the enemies inside the aura are struck and all others are unchanged |
| CombatRules.HitLife | script.js:1067 | the hit-text life is max(0.5, 1 / tickRate) |
| CombatRules.Ids | script.js:1257 | the set of live-enemy identities contains each enemy's id and nothing else |
| CombatRules.EvolvesKeepsIds | script.js:355-381 | combat keeps the identities of every suffix of the enemy list |
| CombatRules.IdsOfSuffix | script.js:355-381 | the identities of a list suffix are its head's plus the rest's |
| CombatRules.OrbitalWaitsHitInterval | script.js:357-380 | right after a hit, an orbital cannot hit the same enemy again within the hit interval |
| CombatRules.OrbitalHit | script.js:365-380 | a non-lethal orbital hit removes orbitalDamage from the enemy and shows its ceiling, leaving currency unchanged |
| CombatRules.OrbitalTouch | script.js:356-380 | each enemy's cooldown is created at 0 and counts down; on a hit it is reset to the hit interval and the hit happens; other cooldowns are untouched |
| CombatRules.OrbitalSweep | script.js:355-381 | the collision pass grows the combat state and gives every scanned enemy a cooldown entry |
| CombatRules.Prune | script.js:384-388 | the cleanup keeps exactly the cooldowns of enemies still alive, with their values |
| Engine.MoveFrom | script.js:1232-1240 | every enemy is advanced in order; the core loses the damage of every touching enemy; the wave closes if the core's hp falls to 0 |
| Engine.ContactDamageFrom | script.js:1232-1240 | contact damage depends only on the enemies not yet moved |
| Engine.Healed | script.js:1133-1138 | healing adds regen and clamps at maxHp |
| Engine.HealNeverOverfills | script.js:1133-1138 | a heal on a damaged core strictly raises hp and never exceeds maxHp |
| Engine.TrailLength | script.js:337 | the trail holds at least 5 positions for a non-negative speed |
| Engine.Trimmed | script.js:345-347 | the shift loop keeps the newest n positions |
| Engine.Spawned | script.js:1044-1051 | a spawned enemy takes its position from the first draw and its shape from the second, has at least 3 vertices and is unhurt |
| Engine.FilterKeepsIdsBelow | script.js:1257 | removing marked enemies keeps every id below the next one to be issued |
| Engine.Game.constructor | script.js:619-675 | a new game is on the start screen with no core, enemies or effects, and its progress is what loadProgress gives from the stored save |
| Engine.Game.LoadProgress | script.js:678-734 | the game's progress becomes `Loaded(stored)` |
| Engine.Game.Save | script.js:79-91 | the stored save holds currency, wave and levels |
| Engine.Game.EraseSave | script.js:103-106 | the stored save is removed |
| Engine.Game.MouseMove | script.js:750-758 | the aura follows the pointer |
| Engine.Game.StartGame | script.js:810-816 | starting saves, resets the wave (full core, no enemies or texts, full wave clock) and enters play |
| Engine.Game.OpenShop | script.js:818-824 | opening the shop saves and enters the shop screen |
| Engine.Game.CloseShop | script.js:826-832 | closing the shop saves and returns to the start screen |
| Engine.Game.ResetWave | script.js:841-849 | a fresh core at the centre with full hp, no enemies or texts, full wave clock and spawn timer 0 |
| Engine.Game.BuyUpgrade | script.js:958-966 | affordable: pay the cost, raise that level by one, save; unaffordable: nothing changes |
| Engine.Game.ShopClick | script.js:944-948 | when the shop offers the upgrade (not maxed, affordable) the click pays the current price, raises that level by one and saves; otherwise nothing changes; so a click never passes a cap or drives currency negative |
| Engine.Game.AddText | script.js:440-450 | pushing a text is `PushText` on the game's combat state |
| Engine.Game.OrbitalStrike | script.js:365-380 | the orbital hit and any death it causes are `OrbitalHit` |
| Engine.Game.HandleEnemyDeath | script.js:1155-1169 | handleEnemyDeath leaves the state `Death` describes |
| Engine.Game.PayReward | script.js:1156-1166 | the reward step is `Rewarded` |
| Engine.Game.FinishDeath | script.js:1168 | the startDeath step leaves the state `Finished` describes |
| Engine.Game.TryExplosion | script.js:1171-1209 | tryExplosion leaves the state `Explode` describes |
| Engine.Game.BlastTarget | script.js:1186-1206 | one explosion hit leaves the state `BlastHit` describes |
| Engine.Game.TryChainLightning | script.js:979-990 | tryChainLightning leaves the state `TryChain` describes |
| Engine.Game.FindClosest | script.js:996-1008 | the search loop returns `Closest`, the first nearest living enemy |
| Engine.Game.StrikeLink | script.js:1012-1028 | one chain hop leaves the state `ChainHop` describes |
| Engine.Game.PropagateChain | script.js:992-1031 | propagateChain leaves the state `Propagate` describes |
| Engine.Game.SpawnSystem | script.js:1036-1053 | when the spawn timer reaches the interval it resets and exactly one `Spawned` enemy with a new id is appended; otherwise only the timer advances |
| Engine.Game.AuraTouchEnemy | script.js:1084-1110 | the aura damage step is `AuraTouch` |
| Engine.Game.AuraHit | script.js:1084-1115 | the aura hit with its death and chain is `AuraStrike` |
| Engine.Game.SlowEnemies | script.js:1069-1079 | the slow loop sets the enemies to `SlowAll` |
| Engine.Game.AuraTick | script.js:1081-1119 | the tick loop leaves the state `AuraSweep` describes |
| Engine.Game.AuraSystem | script.js:1055-1120 | the slow always applies; the tick fires exactly when the timer reaches 1/tickRate, then resets the timer |
| Engine.Game.ApplyCoreRegen | script.js:1122-1153 | without regen nothing changes; every full second a damaged core is healed with clamp, one heal pulse and one heal text; otherwise only the timer moves |
| Engine.Game.ContactStep | script.js:1232-1240 | one enemy advances; a touching enemy deals its damage to the core and reports whether the core fell |
| Engine.Game.MoveEnemies | script.js:1232-1240 | the movement loop computes `MoveFrom`; if the core falls the game saves and returns to the start screen |
| Engine.Game.SyncOrbitals | script.js:1245-1251 | the orbital list has exactly the target count: kept if already right, else rebuilt from fresh orbitals 0..n-1 |
| Engine.Game.PassOrbital | script.js:1254 | one orbital update grows the combat state, keeps every enemy's identity, and leaves the orbital on its circle with a bounded trail and one cooldown per live enemy |
| Engine.Game.RunOrbitals | script.js:1254 | after all orbitals update, each is on its circle, its trail is bounded, and its cooldowns cover exactly the live enemies |
| Engine.Game.WaveClock | script.js:1212-1219 | the clock runs down by dt; at 0 the wave index rises, the bonus of 100 is paid, the game saves and returns to the start screen |
| Engine.Game.PurgeEnemies | script.js:1257-1258 | marked enemies and expired texts are removed and none remain |
| Engine.Game.PurgeEffects | script.js:1259-1264 | effects are stepped, and the expired ones removed, leaving none expired |
| Engine.Game.Strike | script.js:1221-1222 | spawning and the aura keep enemy ids unique |
| Engine.Game.Approach | script.js:1232-1240 | after movement the core is alive while playing, or the game has left play |
| Engine.Game.Advance | script.js:1223-1242 | regeneration, movement and text updates keep the core alive while playing |
| Engine.Game.Orbit | script.js:1245-1254 | the orbital list has the target count with distinct orbitals |
| Engine.Game.Settle | script.js:1245-1264 | after the orbitals and the cleanup, no marked enemy and no expired effect remains |
| Engine.Game.Play | script.js:1221-1264 | the systems of one frame keep the invariants, and either stay in play or return to the start screen |
| Engine.Game.Update | script.js:1211-1264 | one update keeps the game valid, runs the wave clock (next wave and start screen at 0), and leaves no marked enemy or expired effect and as many orbitals as the level says |
| Engine.Game.Frame | script.js:1303-1312 | the loop records the timestamp and runs an update only while playing and when dt < 0.1 s; after a stack overflow it does nothing |
| Engine.Orbital.constructor | script.js:319-328 | a new orbital has its index, an empty trail and no cooldowns |
| Engine.Orbital.Touch | script.js:356-380 | one collision check is `OrbitalTouch` on the game and the orbital's cooldowns |
| Engine.Orbital.Collide | script.js:355-381 | the collision loop is `OrbitalSweep` |
| Engine.Orbital.Cleanup | script.js:384-388 | the cleanup loop leaves exactly `Prune` of the cooldowns |
| Engine.Orbital.Trail | script.js:337-347 | the trail length is set, the previous position recorded, and the trail trimmed to the newest positions |
| Engine.Orbital.Update | script.js:330-389 | the trail, position, collisions and cleanup of one orbital update, each as its function says; afterwards the cooldowns cover exactly the live enemies |

## Left out

- Drawing and the DOM are not modelled: every `draw` method, `setScreen`, the HTML of `renderShop`, `updateMenuUI`, `resize`, `bindUI`, and the HUD text at the end of `update`. Of `renderShop`, only the price, the `isMaxed`/`canAfford` test and the click handler are modelled (`ShopClick`).
- `localStorage` is the field `Game.stored`. `SaveSystem.reset` with `location.reload` is `EraseSave` followed by a new `Game`. The JSON text format is not modelled, and unknown keys in a saved `upgradeLevels` object are not modelled.
- `Math.random`, `Math.sqrt`, `Math.cos`/`Math.sin`, `Date.now` and `MathUtils.getSpawnPoint` are inputs: the `Oracle` and each frame's `dirs`. `toFixed`, `formatNumber` and text strings, colours and sizes are not modelled. A text keeps only its kind and numeric value.
- Numbers are exact reals, not IEEE doubles; rounding is not modelled.
- `spawnDistribution.js` is not part of this model. Its table is the parameter `table`, with only the shape that `getSpawnDistributionForLevel` relies on.
- Object identity is modelled by enemy ids.
- Event listeners and `requestAnimationFrame` are left out. `Game.Frame` is one call of `loop`.
- The JavaScript call stack is a budget of `STACK_DEPTH` nested deaths, and exhausting it sets `stackOverflow` and stops the frame loop. The real depth depends on the engine.
- The initial mouse position (`NaN`, which makes every aura distance test false) is `None`.
- Two dead pieces of state are not modelled: the `healPulse` counter that `update` decrements (nothing sets it), and `Core.healPulse`.
- `gameOver` is not modelled; it is never called.
- The game reads its stats once per frame as a `Tuning`. `getStat` in the source is re-read at each use, but no stat changes within a frame.
- The model follows the code as written:
  - `getStat` has no clamp at `maxLevel`; the cap is only enforced by the shop.
  - A completed wave calls `closeShop` and does not reset the wave.
  - A core death calls `closeShop`, not `gameOver`.
- A save written by `closeShop` in the middle of a frame does not include currency earned later in the same frame. The model keeps this behaviour.
- Engine.Game.Update: a frame is not proved to pay every reward or to apply every hit exactly. Each step is tied to its function, but the whole frame is stated only through invariants: ids stay unique, the core is alive while playing, and nothing marked or expired survives. Composing every step's full function was beyond the solver budget.
- CombatRules.Death: the currency after a whole death cascade is not stated. Each kill's reward is stated by `Rewarded`, and a death without an explosion by `DeathWithoutExplosion`. The reward `floor(floor(maxHp * 0.4) * salvage)` is only non-negative for non-negative inputs, which `Death` does not require.
- CombatRules.ExplosionScalesWithOrigin: the exact damage is proved only when no target in reach dies from the blast. A lethal hit starts a nested death, which may explode and hit the same enemies again. That case is covered only by `Explode`'s growth contract and by the overflow lemmas.
- CombatRules.Propagate: the exact damage of a chain is stated hop by hop (`ChainHop`) and for a single non-lethal hop (`ChainStrikesNearestFirst`), not composed over a chain of several hops.
- Engine.Game.PassOrbital: the combat state after one orbital's update is stated only as growth, plus the orbital's position, trail bound and cooldown keys. The exact state is stated by `Engine.Orbital.Update`, which is equal to `OrbitalSweep`, and is not repeated here. Repeating it made the loop of `RunOrbitals` exceed the solver budget.
- Engine.Game.RunOrbitals: the combat state after the pass over all orbitals is stated only as growth, plus every orbital's position, trail bound and cooldown keys. The sweeps of the orbitals are not composed, because each one reads the cooldowns held in its own orbital.
- Engine.Game.Strike, Engine.Game.Approach, Engine.Game.Advance, Engine.Game.Orbit, Engine.Game.Settle and Engine.Game.Play: these phases of `update` state only the invariants above, not the full new state.
