/** The two equalizer topologies, the layouts they give a deck, and what moving between them does to its gains. */
module EqModes {
  import opened Wrappers

  /** `GainDb`, over the reals. */
  type GainDb = g: real | -24.0 <= g <= 6.0 witness 0.0

  datatype FilterKind = LowShelf | Peaking | HighShelf

  /** Band `place` of `count`: its frequency and quality follow from those two alone. */
  datatype Band = Band(kind: FilterKind, place: nat, count: nat, gain: GainDb)

  datatype EqMode = ThreeBand | FourBand {
    function Bands(): seq<string> {
      match this
      case ThreeBand => ["low", "mid", "high"]
      case FourBand => ["low", "low_mid", "high_mid", "high"]
    }

    function Count(): nat {
      |Bands()|
    }
  }

  /** `EqMode::band`: where a band of that name is. */
  method PlaceOf(mode: EqMode, name: string) returns (r: Option<nat>)
    ensures match r
      case Some(i) => i < mode.Count() && mode.Bands()[i] == name
      case None => name !in mode.Bands()
  {
    var i := 0;
    while i < |mode.Bands()|
      invariant i <= |mode.Bands()| && name !in mode.Bands()[..i]
    {
      if mode.Bands()[i] == name { return Some(i); }
      i := i + 1;
    }
    return None;
  }

  function Clamped(g: real): GainDb {
    if g < -24.0 then -24.0 else if g > 6.0 then 6.0 else g
  }

  function Midpoint(low: GainDb, high: GainDb): GainDb {
    Clamped((low + high) / 2.0)
  }

  // ---------------------------------------------------------------- gains from one mode to the other

  function Remap(mode: EqMode, next: EqMode, gains: seq<GainDb>): Option<seq<GainDb>> {
    match (mode, next)
    case (ThreeBand, FourBand) => if |gains| == 3 then Some([gains[0], gains[1], gains[1], gains[2]]) else None
    case (FourBand, ThreeBand) =>
      if |gains| == 4 then Some([gains[0], Midpoint(gains[1], gains[2]), gains[3]]) else None
    case _ => None
  }

  /** Gains fit one mode or no mode, and only the other mode can be moved to. */
  lemma RemapFits(mode: EqMode, next: EqMode, gains: seq<GainDb>)
    ensures Remap(mode, next, gains).Some? <==> mode != next && |gains| == mode.Count()
    ensures Remap(mode, next, gains).Some? ==> |Remap(mode, next, gains).value| == next.Count()
  {}

  /** A band both modes name keeps its gain. */
  lemma RemapKeepsShared(mode: EqMode, next: EqMode, gains: seq<GainDb>, i: nat, j: nat)
    requires mode != next && |gains| == mode.Count() && i < mode.Count() && j < next.Count()
    requires mode.Bands()[i] == next.Bands()[j]
    ensures Remap(mode, next, gains).value[j] == gains[i]
  {}

  /** No band is turned up or down past what the bands it came from were. */
  lemma RemapStaysWithin(mode: EqMode, next: EqMode, gains: seq<GainDb>, lo: real, hi: real)
    requires mode != next && |gains| == mode.Count() && forall i :: 0 <= i < |gains| ==> lo <= gains[i] <= hi
    ensures forall j :: 0 <= j < |Remap(mode, next, gains).value| ==> lo <= Remap(mode, next, gains).value[j] <= hi
  {}

  /** Three bands to four and back is where it started; four to three and back is, exactly when the two mids agreed. */
  lemma ThereAndBack(mode: EqMode, next: EqMode, gains: seq<GainDb>)
    requires mode != next && |gains| == mode.Count()
    ensures Remap(next, mode, Remap(mode, next, gains).value) == Some(gains)
      <==> mode.ThreeBand? || gains[1] == gains[2]
  {
    if mode.ThreeBand? {
      assert Remap(next, mode, Remap(mode, next, gains).value).value == gains;
    } else {
      var back := Remap(next, mode, Remap(mode, next, gains).value).value;
      assert back[1] == back[2];
      if gains[1] == gains[2] { assert back == gains; }
    }
  }

  // ---------------------------------------------------------------- layouts

  function ShelfOrPeak(i: nat, count: nat): FilterKind {
    if i == 0 then LowShelf else if i + 1 == count then HighShelf else Peaking
  }

  /** `generate_log_spaced_bands`: shelves at the ends, peaks between, every gain at zero. */
  function Blank(count: nat): (r: seq<Band>)
    ensures |r| == count
  {
    seq(count, i requires 0 <= i < count =>
      Band(if count == 1 then Peaking else ShelfOrPeak(i, count), i, count, 0.0))
  }

  function WithGains(bands: seq<Band>, gains: seq<GainDb>): (r: seq<Band>)
    ensures |r| == |bands|
  {
    seq(|bands|, i requires 0 <= i < |bands| => if i < |gains| then bands[i].(gain := gains[i]) else bands[i])
  }

  function LayoutOf(mode: EqMode, gains: seq<GainDb>): (r: seq<Band>)
    ensures |r| == mode.Count()
  {
    WithGains(Blank(mode.Count()), gains)
  }

  method Layout(mode: EqMode, gains: seq<GainDb>) returns (layout: seq<Band>)
    ensures layout == LayoutOf(mode, gains)
  {
    var blank := Blank(mode.Count());
    layout := blank;
    var i := 0;
    while i < |layout| && i < |gains|
      invariant i <= |layout| == |blank| && i <= |gains|
      invariant forall j :: 0 <= j < i ==> layout[j] == blank[j].(gain := gains[j])
      invariant forall j :: i <= j < |layout| ==> layout[j] == blank[j]
    {
      layout := layout[i := layout[i].(gain := gains[i])];
      i := i + 1;
    }
  }

  /** A layout tells its mode and its gains. */
  lemma LayoutTells(mode: EqMode, gains: seq<GainDb>, other: EqMode, others: seq<GainDb>)
    requires |gains| == mode.Count() && |others| == other.Count()
    ensures LayoutOf(mode, gains) == LayoutOf(other, others) <==> mode == other && gains == others
  {
    var x, y := LayoutOf(mode, gains), LayoutOf(other, others);
    if x == y {
      assert |x| == |y|;
      forall i | 0 <= i < |gains| ensures gains[i] == others[i] {
        assert x[i].gain == gains[i] && y[i].gain == others[i];
      }
    }
  }
}
