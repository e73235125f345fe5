/** The short-lived visual objects of script.js: floating combat texts and
    the lightning, heal-pulse and explosion effects. Each one counts up its
    `elapsed` time in `update` and is purged once `isExpired`
    (`elapsed >= lifeTime`). Only what the simulation decides is kept: where
    an object is, what number a text shows, how it moves and how long it
    lives; colour, font size and the drawing itself are presentation. */
module Effects {
  import opened Common

  /** Which event a combat text reports (the source tells them apart only by
      colour, size and prefix). */
  datatype TextKind = RewardText | CritText | HitText | ChainText | BlastText | HealText | OrbitalText

  datatype CombatText = CombatText(
    kind: TextKind,
    pos: Point,
    value: real,
    speedX: real,
    speedY: real,
    lifeTime: real,
    elapsed: real)

  /** `options.x || fallback`: an absent option and a zero are both falsy. */
  function OrDefault(option: Option<real>, fallback: real): (v: real)
    ensures option.Some? && option.value != 0.0 ==> v == option.value
    ensures option.None? || option.value == 0.0 ==> v == fallback
  {
    if option.Some? && option.value != 0.0 then option.value else fallback
  }

  /** `new CombatText(x, y, text, options)` with the draw `r` that
      `Math.random()` returns for the horizontal drift (no caller passes
      `speedX`). */
  function NewText(kind: TextKind, pos: Point, value: real, lifeTime: Option<real>, speedY: Option<real>, r: real): (t: CombatText)
    ensures t.elapsed == 0.0 && t.pos == pos && t.value == value
    ensures -15.0 <= t.speedX < 15.0 <== 0.0 <= r < 1.0
  {
    CombatText(kind, pos, value, (r - 0.5) * 30.0, OrDefault(speedY, 50.0), OrDefault(lifeTime, 0.8), 0.0)
  }

  /** `CombatText.update(dt)`: it rises at `speedY` and drifts at `speedX`. */
  function TextStep(t: CombatText, dt: real): CombatText
  {
    t.(elapsed := t.elapsed + dt, pos := Point(t.pos.x + t.speedX * dt, t.pos.y - t.speedY * dt))
  }

  predicate TextExpired(t: CombatText)
  {
    t.elapsed >= t.lifeTime
  }

  const LIGHTNING_LIFETIME: real := 0.15
  const HEAL_PULSE_LIFETIME: real := 0.4
  const EXPLOSION_LIFETIME: real := 0.3

  /** The bolt drawn between two chain-lightning links. */
  datatype Lightning = Lightning(from: Point, to: Point, elapsed: real)

  function LightningStep(l: Lightning, dt: real): Lightning
  {
    l.(elapsed := l.elapsed + dt)
  }

  predicate LightningExpired(l: Lightning)
  {
    l.elapsed >= LIGHTNING_LIFETIME
  }

  /** The ring that grows from the core's radius when it heals. */
  datatype HealPulse = HealPulse(center: Point, radius: real, maxRadius: real, elapsed: real)

  function NewHealPulse(center: Point, baseRadius: real): (p: HealPulse)
    ensures p.radius == baseRadius && p.maxRadius == baseRadius + 25.0 && p.elapsed == 0.0
  {
    HealPulse(center, baseRadius, baseRadius + 25.0, 0.0)
  }

  /** `HealPulse.update(dt)`: the radius closes the gap to `maxRadius` by the
      fraction `elapsed / lifeTime`. */
  function HealPulseStep(p: HealPulse, dt: real): HealPulse
  {
    var elapsed := p.elapsed + dt;
    var progress := elapsed / HEAL_PULSE_LIFETIME;
    p.(elapsed := elapsed, radius := p.radius + Mul(p.maxRadius - p.radius, progress))
  }

  predicate HealPulseExpired(p: HealPulse)
  {
    p.elapsed >= HEAL_PULSE_LIFETIME
  }

  /** A pulse that is still alive after its update has grown but has not
      passed its maximum radius: only an expiring pulse can overshoot, and
      that one is purged in the same frame. */
  lemma HealPulseStaysWithinMax(p: HealPulse, dt: real)
    requires p.radius <= p.maxRadius && dt >= 0.0 && p.elapsed >= 0.0
    requires !HealPulseExpired(HealPulseStep(p, dt))
    ensures p.radius <= HealPulseStep(p, dt).radius <= p.maxRadius
  {
    var progress := (p.elapsed + dt) / HEAL_PULSE_LIFETIME;
    var gap := p.maxRadius - p.radius;
    MulNonNegative(gap, progress);
    MulNonNegative(gap, 1.0 - progress);
    MulDistributes(gap, 1.0, progress);
  }

  /** The shock wave of an explosion, growing to the explosion radius. */
  datatype Explosion = Explosion(center: Point, maxRadius: real, elapsed: real)

  function ExplosionStep(x: Explosion, dt: real): Explosion
  {
    x.(elapsed := x.elapsed + dt)
  }

  predicate ExplosionExpired(x: Explosion)
  {
    x.elapsed >= EXPLOSION_LIFETIME
  }

  /** An effect that has expired stays expired under further updates with
      non-negative frame times, so the per-frame purge never loses an effect
      that would have come back. */
  lemma ExpiryIsPermanent(t: CombatText, l: Lightning, p: HealPulse, x: Explosion, dt: real)
    requires dt >= 0.0
    ensures TextExpired(t) ==> TextExpired(TextStep(t, dt))
    ensures LightningExpired(l) ==> LightningExpired(LightningStep(l, dt))
    ensures HealPulseExpired(p) ==> HealPulseExpired(HealPulseStep(p, dt))
    ensures ExplosionExpired(x) ==> ExplosionExpired(ExplosionStep(x, dt))
  {
  }

  /** `array.filter(keep)`: the elements that pass, in their order. Each
      passing value is kept as often as it occurs, every other one dropped;
      `FilterAppend` states the order. */
  function Filter<T(!new)>(s: seq<T>, keep: T -> bool): (r: seq<T>)
    ensures |r| <= |s|
    ensures forall k :: 0 <= k < |r| ==> keep(r[k]) && r[k] in s
    ensures forall k :: 0 <= k < |s| && keep(s[k]) ==> s[k] in r
    ensures forall x :: multiset(r)[x] == if keep(x) then multiset(s)[x] else 0
  {
    if |s| == 0 then []
    else
      assert s == [s[0]] + s[1..];
      if keep(s[0]) then [s[0]] + Filter(s[1..], keep)
      else Filter(s[1..], keep)
  }

  /** Filtering a list split in two filters each part and keeps the parts
      in order, so the survivors keep the order they had. */
  lemma {:induction false} FilterAppend<T(!new)>(a: seq<T>, b: seq<T>, keep: T -> bool)
    ensures Filter(a + b, keep) == Filter(a, keep) + Filter(b, keep)
  {
    if |a| == 0 {
      assert a + b == b;
    } else {
      assert (a + b)[0] == a[0];
      assert (a + b)[1..] == a[1..] + b;
      FilterAppend(a[1..], b, keep);
    }
  }

  /** `forEach(x => x.update(dt))` on a list of texts. */
  function StepTexts(ts: seq<CombatText>, dt: real): (r: seq<CombatText>)
    ensures |r| == |ts|
    ensures forall k :: 0 <= k < |ts| ==> r[k] == TextStep(ts[k], dt)
  {
    seq(|ts|, k requires 0 <= k < |ts| => TextStep(ts[k], dt))
  }

  function StepLightning(ls: seq<Lightning>, dt: real): (r: seq<Lightning>)
    ensures |r| == |ls|
    ensures forall k :: 0 <= k < |ls| ==> r[k] == LightningStep(ls[k], dt)
  {
    seq(|ls|, k requires 0 <= k < |ls| => LightningStep(ls[k], dt))
  }

  function StepHealPulses(ps: seq<HealPulse>, dt: real): (r: seq<HealPulse>)
    ensures |r| == |ps|
    ensures forall k :: 0 <= k < |ps| ==> r[k] == HealPulseStep(ps[k], dt)
  {
    seq(|ps|, k requires 0 <= k < |ps| => HealPulseStep(ps[k], dt))
  }

  function StepExplosions(xs: seq<Explosion>, dt: real): (r: seq<Explosion>)
    ensures |r| == |xs|
    ensures forall k :: 0 <= k < |xs| ==> r[k] == ExplosionStep(xs[k], dt)
  {
    seq(|xs|, k requires 0 <= k < |xs| => ExplosionStep(xs[k], dt))
  }
}
