/** The level one strip of the mix plays at, over reals and the values a float has besides. */
module Mix {
  import opened Wrappers

  datatype F32 = Num(r: real) | Infinite(below: bool) | NaN

  datatype Bus = A | B | Bypass

  datatype MixStrip = MixStrip(bus: Bus, muted: bool, trim: F32)

  datatype MixState = MixState(groupMaster: F32, position: F32)

  datatype QueueError = MixPosition(position: F32) | MixLevel | Refused

  /** The crossfader's two gains at a position: the fading library's curve, whatever it is. */
  type Fade = real -> (real, real)

  function Times(x: F32, y: F32): F32 {
    match (x, y)
    case (Num(a), Num(b)) => Num(a * b)
    case (Infinite(s), Infinite(t)) => Infinite(s != t)
    case (Infinite(s), Num(a)) => if a == 0.0 then NaN else Infinite(s != (a < 0.0))
    case (Num(a), Infinite(s)) => if a == 0.0 then NaN else Infinite(s != (a < 0.0))
    case _ => NaN
  }

  /** Into `0.0..=1.0`; what is not a number stays so. */
  function Clamp(x: F32): F32 {
    match x
    case NaN => NaN
    case Infinite(below) => Num(if below then 0.0 else 1.0)
    case Num(r) => Num(if r < 0.0 then 0.0 else if r > 1.0 then 1.0 else r)
  }

  function CrossfaderGain(fade: Fade, bus: Bus, position: F32): Result<F32, QueueError> {
    if !position.Num? || position.r < 0.0 || position.r > 1.0 then Failure(MixPosition(position))
    else Success(Num(match bus case Bypass => 1.0 case A => fade(position.r).0 case B => fade(position.r).1))
  }

  function Level(fade: Fade, mix: MixState, strip: MixStrip): Result<real, QueueError> {
    match CrossfaderGain(fade, strip.bus, mix.position)
    case Failure(e) => Failure(e)
    case Success(gain) =>
      var mute := Num(if strip.muted then 0.0 else 1.0);
      var level := Clamp(Times(Times(Times(strip.trim, mute), gain), mix.groupMaster));
      if level.Num? then Success(level.r) else Failure(MixLevel)
  }

  predicate Zero(x: F32) {
    x == Num(0.0)
  }

  /** Some factor is not a number, or one is infinite and another silent. */
  predicate Meaningless(trim: F32, muted: bool, gain: real, master: F32) {
    || trim.NaN? || master.NaN?
    || ((trim.Infinite? || master.Infinite?) && (muted || gain == 0.0 || Zero(trim) || Zero(master)))
  }

  lemma TimesMeansNaN(x: F32, y: F32)
    ensures Times(x, y).NaN? <==> x.NaN? || y.NaN? || (x.Infinite? && Zero(y)) || (Zero(x) && y.Infinite?)
    ensures Zero(Times(x, y)) <==> x.Num? && y.Num? && (Zero(x) || Zero(y))
    ensures Times(x, y).Infinite? <==> !Times(x, y).NaN? && (x.Infinite? || y.Infinite?)
  {}

  /** A strip has a level exactly when the crossfader stands inside its travel and the product means something. */
  lemma LevelExists(fade: Fade, mix: MixState, strip: MixStrip)
    ensures Level(fade, mix, strip).Success? <==>
      && mix.position.Num? && 0.0 <= mix.position.r <= 1.0
      && !Meaningless(strip.trim, strip.muted, CrossfaderGain(fade, strip.bus, mix.position).value.r, mix.groupMaster)
    ensures Level(fade, mix, strip).Success? ==> 0.0 <= Level(fade, mix, strip).value <= 1.0
  {
    hide Times;
    if mix.position.Num? && 0.0 <= mix.position.r <= 1.0 {
      var gain := CrossfaderGain(fade, strip.bus, mix.position).value;
      var mute := Num(if strip.muted then 0.0 else 1.0);
      TimesMeansNaN(strip.trim, mute);
      TimesMeansNaN(Times(strip.trim, mute), gain);
      TimesMeansNaN(Times(Times(strip.trim, mute), gain), mix.groupMaster);
    }
  }

  /** `level` is `product`, or the end of `0.0..=1.0` it is past. */
  ghost predicate Limits(product: real, level: real) {
    if product < 0.0 then level == 0.0 else if product > 1.0 then level == 1.0 else level == product
  }

  function Product(trim: real, mute: real, gain: real, master: real): real {
    trim * mute * gain * master
  }

  lemma ProductIs(trim: real, gain: real, master: real)
    ensures Product(trim, 1.0, gain, master) == trim * gain * master
    ensures Product(trim, 1.0, 1.0, master) == trim * master
    ensures Product(trim, 0.0, gain, master) == 0.0
  {}

  lemma TimesIsProduct(trim: real, mute: real, gain: real, master: real)
    ensures Times(Times(Times(Num(trim), Num(mute)), Num(gain)), Num(master)) == Num(Product(trim, mute, gain, master))
  {}

  /**
   With ordinary numbers the level is trim times the bus's share of the crossfader times master, and nothing
   if muted.
   */
  lemma LevelIsProduct(fade: Fade, mix: MixState, strip: MixStrip)
    requires mix.position.Num? && 0.0 <= mix.position.r <= 1.0 && mix.groupMaster.Num? && strip.trim.Num?
    ensures var trim, master, shares := strip.trim.r, mix.groupMaster.r, fade(mix.position.r);
      Level(fade, mix, strip).Success?
      && var level := Level(fade, mix, strip).value;
         && (strip.muted ==> level == 0.0)
         && (!strip.muted && strip.bus.A? ==> Limits(trim * shares.0 * master, level))
         && (!strip.muted && strip.bus.B? ==> Limits(trim * shares.1 * master, level))
         && (!strip.muted && strip.bus.Bypass? ==> Limits(trim * master, level))
  {
    hide Times, Product;
    var gain := CrossfaderGain(fade, strip.bus, mix.position).value.r;
    TimesIsProduct(strip.trim.r, if strip.muted then 0.0 else 1.0, gain, mix.groupMaster.r);
    ProductIs(strip.trim.r, gain, mix.groupMaster.r);
  }

  lemma TimesOne(x: real)
    ensures Times(Num(1.0), Num(x)) == Num(x)
  {}

  /** An open strip off the crossfader plays at the master level. */
  lemma UnityLevel(fade: Fade, master: real)
    requires 0.0 <= master <= 1.0
    ensures Level(fade, MixState(Num(master), Num(0.5)), MixStrip(Bypass, false, Num(1.0))) == Success(master)
  {
    hide Times;
    TimesOne(1.0);
    TimesOne(master);
  }
}
