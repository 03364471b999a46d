/**
 The decks of one session: edits of the mix and of the equalizer that touch every deck's queue in turn.
 A queue is a component that takes or refuses each command, for reasons of its own.
 */
module Decks {
  import opened EqModes
  import opened Mix
  import opened Wrappers

  // ---------------------------------------------------------------- a deck as a value

  datatype Command = SetLevel(level: real) | SetEqLayout(layout: seq<Band>) | SetEqGain(band: nat, gain: GainDb)

  /** Whether the command asked `n`-th is taken. */
  type Answers = (nat, Command) -> bool

  /** `asked` commands in, the queue holds `layout` and plays at `level`. */
  datatype Held = Held(answers: Answers, asked: nat, layout: seq<Band>, level: real) {
    predicate Takes(c: Command) {
      answers(asked, c)
    }

    function After(c: Command): Held {
      var next := this.(asked := asked + 1);
      if !Takes(c) then next
      else match c
        case SetLevel(level) => next.(level := level)
        case SetEqLayout(layout) => next.(layout := layout)
        case SetEqGain(band, gain) =>
          if band < |layout| then next.(layout := layout[band := layout[band].(gain := gain)]) else next
    }
  }

  datatype Deck = Deck(id: nat, queue: Held, strip: MixStrip, eqBands: seq<GainDb>) {
    function Told(c: Command): Deck {
      this.(queue := queue.After(c))
    }
  }

  // ---------------------------------------------------------------- what an edit of the mix does

  type Edit = (nat, MixStrip) -> MixStrip

  function Wanted(fade: Fade, mix: MixState, edit: Edit, d: Deck): Result<real, QueueError> {
    Level(fade, mix, edit(d.id, d.strip))
  }

  /** The first deck from `i` on whose level does not exist, or how many decks there are. */
  ghost function FirstUnfit(fade: Fade, mix: MixState, edit: Edit, decks: seq<Deck>, i: nat): (k: nat)
    requires i <= |decks|
    ensures i <= k <= |decks| && (forall j :: i <= j < k ==> Wanted(fade, mix, edit, decks[j]).Success?)
    ensures k < |decks| ==> Wanted(fade, mix, edit, decks[k]).Failure?
    decreases |decks| - i
  {
    if i < |decks| && Wanted(fade, mix, edit, decks[i]).Success? then FirstUnfit(fade, mix, edit, decks, i + 1) else i
  }

  /** One command for each deck. */
  type Orders = Deck -> Command

  /** The first deck from `i` on whose queue refuses its order, or how many decks there are. */
  ghost function FirstRefusal(order: Orders, decks: seq<Deck>, i: nat): (k: nat)
    requires i <= |decks|
    ensures i <= k <= |decks| && (forall j :: i <= j < k ==> decks[j].queue.Takes(order(decks[j])))
    ensures k < |decks| ==> !decks[k].queue.Takes(order(decks[k]))
    decreases |decks| - i
  {
    if i < |decks| && decks[i].queue.Takes(order(decks[i])) then FirstRefusal(order, decks, i + 1) else i
  }

  /** Each deck told its order in turn, up to and with the first that refuses. */
  ghost function Ordered(order: Orders, decks: seq<Deck>): (r: seq<Deck>)
    ensures |r| == |decks|
  {
    seq(|decks|, i requires 0 <= i < |decks| =>
      if i <= FirstRefusal(order, decks, 0) then decks[i].Told(order(decks[i])) else decks[i])
  }

  ghost function LevelOrder(fade: Fade, mix: MixState, edit: Edit): Orders {
    (d: Deck) => SetLevel(match Wanted(fade, mix, edit, d) case Success(level) => level case Failure(_) => 0.0)
  }

  ghost function Restripped(edit: Edit, decks: seq<Deck>): (r: seq<Deck>)
    ensures |r| == |decks|
  {
    seq(|decks|, i requires 0 <= i < |decks| => decks[i].(strip := edit(decks[i].id, decks[i].strip)))
  }

  datatype Session = Session(mix: MixState, decks: seq<Deck>)

  ghost function Committed(fade: Fade, s: Session, mix: MixState, edit: Edit): (Result<(), QueueError>, Session) {
    var unfit := FirstUnfit(fade, mix, edit, s.decks, 0);
    if unfit < |s.decks| then (Failure(Wanted(fade, mix, edit, s.decks[unfit]).error), s)
    else
      var order := LevelOrder(fade, mix, edit);
      var told := Ordered(order, s.decks);
      if FirstRefusal(order, s.decks, 0) < |s.decks| then (Failure(Refused), s.(decks := told))
      else (Success(()), Session(mix, Restripped(edit, told)))
  }

  // ---------------------------------------------------------------- what a switch of the mode does

  ghost predicate Fits(mode: EqMode, next: EqMode, decks: seq<Deck>) {
    forall i :: 0 <= i < |decks| ==> Remap(mode, next, decks[i].eqBands).Some?
  }

  function Moved(mode: EqMode, next: EqMode, d: Deck): seq<GainDb> {
    match Remap(mode, next, d.eqBands) case Some(gains) => gains case None => []
  }

  ghost function LayoutOrder(mode: EqMode, next: EqMode): Orders {
    (d: Deck) => SetEqLayout(LayoutOf(next, Moved(mode, next, d)))
  }

  function Previous(mode: EqMode, d: Deck): Command {
    SetEqLayout(LayoutOf(mode, d.eqBands))
  }

  /** The decks before `k` told to go back to the layout their gains have in `mode`. */
  ghost function RolledBack(mode: EqMode, decks: seq<Deck>, k: nat): (r: seq<Deck>)
    ensures |r| == |decks|
  {
    seq(|decks|, i requires 0 <= i < |decks| => if i < k then decks[i].Told(Previous(mode, decks[i])) else decks[i])
  }

  ghost function Regained(mode: EqMode, next: EqMode, decks: seq<Deck>): (r: seq<Deck>)
    ensures |r| == |decks|
  {
    seq(|decks|, i requires 0 <= i < |decks| => decks[i].(eqBands := Moved(mode, next, decks[i])))
  }

  ghost function Switched(s: Session, mode: EqMode, next: EqMode): (bool, Session) {
    if !Fits(mode, next, s.decks) then (false, s)
    else
      var told := Ordered(LayoutOrder(mode, next), s.decks);
      var k := FirstRefusal(LayoutOrder(mode, next), s.decks, 0);
      if k < |s.decks| then (false, s.(decks := RolledBack(mode, told, k)))
      else (true, s.(decks := Regained(mode, next, told)))
  }

  // ---------------------------------------------------------------- what an edit of the mix promises

  /** Every deck plays at the level the stored mix gives its strip. */
  ghost predicate InMix(fade: Fade, s: Session) {
    forall i :: 0 <= i < |s.decks| ==> Level(fade, s.mix, s.decks[i].strip) == Success(s.decks[i].queue.level)
  }

  ghost predicate SameButQueues(before: seq<Deck>, after: seq<Deck>) {
    |after| == |before| && forall i :: 0 <= i < |before| ==> after[i] == before[i].(queue := after[i].queue)
  }

  /** An edit that is accepted is stored and heard. */
  lemma AcceptedEditIsHeard(fade: Fade, s: Session, mix: MixState, edit: Edit)
    requires Committed(fade, s, mix, edit).0.Success?
    ensures var t := Committed(fade, s, mix, edit).1;
      InMix(fade, t) && t.mix == mix && |t.decks| == |s.decks|
      && forall i :: 0 <= i < |s.decks| ==>
           t.decks[i] == s.decks[i].(strip := edit(s.decks[i].id, s.decks[i].strip), queue := t.decks[i].queue)
           && t.decks[i].queue == s.decks[i].queue.(asked := t.decks[i].queue.asked, level := t.decks[i].queue.level)
  {}

  /** An edit no deck has a level for changes nothing at all; one a deck refuses leaves the mix and the strips. */
  lemma RejectedEditIsNotStored(fade: Fade, s: Session, mix: MixState, edit: Edit)
    requires Committed(fade, s, mix, edit).0.Failure?
    ensures var t := Committed(fade, s, mix, edit).1;
      t.mix == s.mix && SameButQueues(s.decks, t.decks)
    ensures FirstUnfit(fade, mix, edit, s.decks, 0) < |s.decks| ==> Committed(fade, s, mix, edit).1 == s
  {}

  /**
   A rejected edit is heard nowhere exactly when every deck before the one that refused played at its new
   level already.
   */
  lemma RejectedEditIsUnheard(fade: Fade, s: Session, mix: MixState, edit: Edit)
    requires FirstUnfit(fade, mix, edit, s.decks, 0) == |s.decks|
    requires Committed(fade, s, mix, edit).0.Failure?
    ensures var t, k := Committed(fade, s, mix, edit).1, FirstRefusal(LevelOrder(fade, mix, edit), s.decks, 0);
      (forall i :: 0 <= i < |s.decks| ==> t.decks[i].queue.level == s.decks[i].queue.level)
      <==> forall i :: 0 <= i < k ==> Wanted(fade, mix, edit, s.decks[i]) == Success(s.decks[i].queue.level)
  {}

  /** Strips as they are. */
  function Unedited(): Edit {
    (id: nat, strip: MixStrip) => strip
  }

  /** Sending the stored mix again, once it is accepted, puts back every level a rejected edit had moved. */
  lemma SendingLevelsRecovers(fade: Fade, s: Session, mix: MixState, edit: Edit)
    requires InMix(fade, s) && Committed(fade, s, mix, edit).0.Failure?
    requires Committed(fade, Committed(fade, s, mix, edit).1, s.mix, Unedited()).0.Success?
    ensures var t := Committed(fade, Committed(fade, s, mix, edit).1, s.mix, Unedited()).1;
      t.mix == s.mix && SameButQueues(s.decks, t.decks)
      && forall i :: 0 <= i < |s.decks| ==> t.decks[i].queue.level == s.decks[i].queue.level
  {
    hide Level, Committed;
    var rejected := Committed(fade, s, mix, edit).1;
    RejectedEditIsNotStored(fade, s, mix, edit);
    AcceptedEditIsHeard(fade, rejected, s.mix, Unedited());
    var t := Committed(fade, rejected, s.mix, Unedited()).1;
    forall i | 0 <= i < |s.decks| ensures t.decks[i].queue.level == s.decks[i].queue.level {
      assert t.decks[i].strip == rejected.decks[i].strip == s.decks[i].strip;
    }
  }

  // ---------------------------------------------------------------- what a switch of the mode promises

  /** The queue holds the layout the deck's gains have in `mode`. */
  ghost predicate InStep(mode: EqMode, d: Deck) {
    |d.eqBands| == mode.Count() && d.queue.layout == LayoutOf(mode, d.eqBands)
  }

  ghost predicate AllInStep(mode: EqMode, decks: seq<Deck>) {
    forall i :: 0 <= i < |decks| ==> InStep(mode, decks[i])
  }

  /** The queue takes the layout it holds now whenever it is asked to. */
  ghost predicate TakesBack(d: Deck) {
    forall n :: d.queue.answers(n, SetEqLayout(d.queue.layout))
  }

  ghost predicate SameLayouts(before: seq<Deck>, after: seq<Deck>) {
    |after| == |before| && forall i :: 0 <= i < |before| ==> after[i].queue.layout == before[i].queue.layout
  }

  /** A switch that succeeds leaves every deck in step with the new mode, with the gains moved to it. */
  lemma SwitchesEveryDeck(s: Session, mode: EqMode, next: EqMode)
    requires Switched(s, mode, next).0
    ensures var t := Switched(s, mode, next).1;
      t.mix == s.mix && |t.decks| == |s.decks| && AllInStep(next, t.decks)
      && forall i :: 0 <= i < |s.decks| ==>
           Some(t.decks[i].eqBands) == Remap(mode, next, s.decks[i].eqBands) && t.decks[i].strip == s.decks[i].strip
           && t.decks[i].queue.level == s.decks[i].queue.level
  {}

  /** A switch that fails keeps every gain and strip, and the mix and every level. */
  lemma FailedSwitchKeepsGains(s: Session, mode: EqMode, next: EqMode)
    requires !Switched(s, mode, next).0
    ensures var t := Switched(s, mode, next).1;
      t.mix == s.mix && SameButQueues(s.decks, t.decks)
      && forall i :: 0 <= i < |s.decks| ==> t.decks[i].queue.level == s.decks[i].queue.level
  {}

  /** The queue takes the roll-back: what it is told next after the layout it took. */
  predicate TakesRollback(mode: EqMode, d: Deck) {
    d.queue.answers(d.queue.asked + 1, Previous(mode, d))
  }

  /** A deck that took the new layout ends on its old one exactly if its queue takes the roll-back. */
  lemma RolledBackExactly(mode: EqMode, next: EqMode, d: Deck)
    requires InStep(mode, d) && Remap(mode, next, d.eqBands).Some?
    requires d.queue.Takes(LayoutOrder(mode, next)(d))
    ensures d.Told(LayoutOrder(mode, next)(d)).Told(Previous(mode, d)).queue.layout == d.queue.layout
      <==> TakesRollback(mode, d)
  {
    RemapFits(mode, next, d.eqBands);
    LayoutTells(mode, d.eqBands, next, Moved(mode, next, d));
    hide LayoutOf;
  }

  /**
   A switch that fails leaves every layout of decks in step as it was exactly when every queue that took the
   new one takes the roll-back.
   */
  lemma FailedSwitchRestores(s: Session, mode: EqMode, next: EqMode)
    requires AllInStep(mode, s.decks) && Fits(mode, next, s.decks) && !Switched(s, mode, next).0
    ensures var k := FirstRefusal(LayoutOrder(mode, next), s.decks, 0);
      SameLayouts(s.decks, Switched(s, mode, next).1.decks)
      <==> forall i :: 0 <= i < k ==> TakesRollback(mode, s.decks[i])
  {
    hide LayoutOf, Remap, Moved, InStep, TakesRollback;
    var order, t := LayoutOrder(mode, next), Switched(s, mode, next).1;
    var k := FirstRefusal(order, s.decks, 0);
    forall i | 0 <= i < k
      ensures t.decks[i].queue.layout == s.decks[i].queue.layout <==> TakesRollback(mode, s.decks[i])
    {
      assert t.decks[i] == s.decks[i].Told(order(s.decks[i])).Told(Previous(mode, s.decks[i]));
      RolledBackExactly(mode, next, s.decks[i]);
    }
    hide LayoutOrder;
    assert forall i :: k <= i < |s.decks| ==> t.decks[i].queue.layout == s.decks[i].queue.layout;
  }

  /**
   Every deck or none: decks in step whose queues take back what they hold are all in step afterwards, with
   one mode.
   */
  lemma SwitchesAllOrNone(s: Session, mode: EqMode, next: EqMode)
    requires AllInStep(mode, s.decks) && forall i :: 0 <= i < |s.decks| ==> TakesBack(s.decks[i])
    ensures var r := Switched(s, mode, next);
      if r.0 then AllInStep(next, r.1.decks) else AllInStep(mode, r.1.decks) && SameLayouts(s.decks, r.1.decks)
  {
    hide LayoutOf, Remap, Switched;
    if Switched(s, mode, next).0 {
      SwitchesEveryDeck(s, mode, next);
    } else {
      FailedSwitchKeepsGains(s, mode, next);
      if Fits(mode, next, s.decks) { FailedSwitchRestores(s, mode, next); } else { UnfitSwitch(s, mode, next); }
    }
  }

  lemma UnfitSwitch(s: Session, mode: EqMode, next: EqMode)
    requires !Fits(mode, next, s.decks)
    ensures Switched(s, mode, next) == (false, s)
  {}

  /** To four bands and back again is every gain as it was. */
  lemma SwitchedThereAndBack(s: Session)
    requires Switched(s, ThreeBand, FourBand).0 && Switched(Switched(s, ThreeBand, FourBand).1, FourBand, ThreeBand).0
    ensures var t := Switched(Switched(s, ThreeBand, FourBand).1, FourBand, ThreeBand).1;
      |t.decks| == |s.decks| && AllInStep(ThreeBand, t.decks)
      && forall i :: 0 <= i < |s.decks| ==> t.decks[i].eqBands == s.decks[i].eqBands
  {
    hide Switched, LayoutOf, Remap;
    var four := Switched(s, ThreeBand, FourBand).1;
    SwitchesEveryDeck(s, ThreeBand, FourBand);
    SwitchesEveryDeck(four, FourBand, ThreeBand);
    forall i | 0 <= i < |s.decks|
      ensures Remap(FourBand, ThreeBand, four.decks[i].eqBands) == Some(s.decks[i].eqBands)
    {
      RemapFits(ThreeBand, FourBand, s.decks[i].eqBands);
      ThereAndBack(ThreeBand, FourBand, s.decks[i].eqBands);
    }
  }

  /** The queue holds one band for each gain, in order, with that gain: shelves at the ends and peaks between. */
  ghost predicate PlaysGains(d: Deck) {
    |d.queue.layout| == |d.eqBands| && forall i :: 0 <= i < |d.eqBands| ==>
      var band := d.queue.layout[i];
      band.gain == d.eqBands[i] && band.place == i && band.count == |d.eqBands|
      && band.kind == if i == 0 then LowShelf else if i == |d.eqBands| - 1 then HighShelf else Peaking
  }

  lemma InStepPlays(mode: EqMode, d: Deck)
    requires InStep(mode, d)
    ensures PlaysGains(d)
  {}

  predicate IsHalfway(mid: real, a: real, b: real) {
    2.0 * mid == a + b
  }

  /** What a switch from four bands to three leaves: the outer gains, and halfway between the two mids. */
  lemma FoldsToThree(s: Session)
    requires Switched(s, FourBand, ThreeBand).0
    ensures var t := Switched(s, FourBand, ThreeBand).1;
      |t.decks| == |s.decks| && forall i :: 0 <= i < |s.decks| ==>
        var before, after := s.decks[i].eqBands, t.decks[i].eqBands;
        |before| == 4 && |after| == 3 && PlaysGains(t.decks[i])
        && after[0] == before[0] && after[2] == before[3] && IsHalfway(after[1], before[1], before[2])
  {
    hide LayoutOf, Switched, PlaysGains, InStep;
    SwitchesEveryDeck(s, FourBand, ThreeBand);
    var t := Switched(s, FourBand, ThreeBand).1;
    forall i | 0 <= i < |s.decks| ensures PlaysGains(t.decks[i]) { InStepPlays(ThreeBand, t.decks[i]); }
  }

  /** What a switch from three bands to four leaves: the outer gains, and the mid twice. */
  lemma SpreadsToFour(s: Session)
    requires Switched(s, ThreeBand, FourBand).0
    ensures var t := Switched(s, ThreeBand, FourBand).1;
      |t.decks| == |s.decks| && forall i :: 0 <= i < |s.decks| ==>
        var before, after := s.decks[i].eqBands, t.decks[i].eqBands;
        |before| == 3 && |after| == 4 && PlaysGains(t.decks[i])
        && after[0] == before[0] && after[1] == after[2] == before[1] && after[3] == before[2]
  {
    hide LayoutOf, Switched, PlaysGains, InStep;
    SwitchesEveryDeck(s, ThreeBand, FourBand);
    var t := Switched(s, ThreeBand, FourBand).1;
    forall i | 0 <= i < |s.decks| ensures PlaysGains(t.decks[i]) { InStepPlays(FourBand, t.decks[i]); }
  }

  // ---------------------------------------------------------------- whole runs

  /** The mode in force and the decks. */
  datatype App = App(mode: EqMode, session: Session)

  datatype Op =
    | Gain(id: nat, layout: EqMode, band: nat, gain: GainDb)
    | Mode(next: EqMode)
    | Crossfader(position: F32)
    | Trim(id: nat, trim: F32)

  /** A gain is stored if there is such a band, and the queue is told of it. */
  function Gained(d: Deck, band: nat, gain: GainDb): Deck {
    if band < |d.eqBands| then d.(eqBands := d.eqBands[band := gain]).Told(SetEqGain(band, gain)) else d
  }

  function Trimmed(id: nat, trim: F32): Edit {
    (deck: nat, strip: MixStrip) => if deck == id then strip.(trim := trim) else strip
  }

  /** The first deck from `i` on that goes by `id`, or how many decks there are. */
  ghost function WithId(decks: seq<Deck>, id: nat, i: nat): (k: nat)
    requires i <= |decks|
    ensures i <= k <= |decks| && (k < |decks| ==> decks[k].id == id) && forall j :: i <= j < k ==> decks[j].id != id
    decreases |decks| - i
  {
    if i < |decks| && decks[i].id != id then WithId(decks, id, i + 1) else i
  }

  /** A trim that is accepted is that deck's alone, and touches nothing else of its strip. */
  lemma TrimsOneDeck(fade: Fade, s: Session, id: nat, trim: F32)
    requires Committed(fade, s, s.mix, Trimmed(id, trim)).0.Success?
    ensures var t := Committed(fade, s, s.mix, Trimmed(id, trim)).1;
      t.mix == s.mix && |t.decks| == |s.decks| && forall i :: 0 <= i < |s.decks| ==>
        var before, after := s.decks[i].strip, t.decks[i].strip;
        after.bus == before.bus && after.muted == before.muted
        && after.trim == if s.decks[i].id == id then trim else before.trim
  {
    hide Level;
    AcceptedEditIsHeard(fade, s, s.mix, Trimmed(id, trim));
  }

  ghost function Step(fade: Fade, a: App, op: Op): App {
    var s := a.session;
    match op
    case Gain(id, layout, band, gain) =>
      var at := WithId(s.decks, id, 0);
      if at < |s.decks| && layout == a.mode
      then a.(session := s.(decks := s.decks[at := Gained(s.decks[at], band, gain)]))
      else a
    case Mode(next) =>
      if a.mode == next then a
      else var r := Switched(s, a.mode, next); App(if r.0 then next else a.mode, r.1)
    case Crossfader(position) => a.(session := Committed(fade, s, s.mix.(position := position), Unedited()).1)
    case Trim(id, trim) => a.(session := Committed(fade, s, s.mix, Trimmed(id, trim)).1)
  }

  ghost function Run(fade: Fade, a: App, ops: seq<Op>): App
    decreases |ops|
  {
    if ops == [] then a else Run(fade, Step(fade, a, ops[0]), ops[1..])
  }

  /**
   The queue has room for so many bands or has not, whenever and with whatever gains it is asked, and takes
   any gain.
   */
  ghost predicate Steady(q: Held) {
    && (forall n, m, x, y :: |x| == |y| ==> q.answers(n, SetEqLayout(x)) == q.answers(m, SetEqLayout(y)))
    && (forall n, band, gain :: q.answers(n, SetEqGain(band, gain)))
    && q.answers(0, SetEqLayout(q.layout))
  }

  ghost predicate AllSteady(decks: seq<Deck>) {
    forall i :: 0 <= i < |decks| ==> Steady(decks[i].queue)
  }

  lemma SteadyTakesBack(d: Deck)
    requires Steady(d.queue)
    ensures TakesBack(d)
  {}

  /** A gain keeps a deck in step if its queue takes it, or if it was the gain there. */
  lemma GainKeepsStep(mode: EqMode, d: Deck, band: nat, gain: GainDb)
    requires InStep(mode, d)
    ensures InStep(mode, Gained(d, band, gain)) <==>
      band >= |d.eqBands| || d.queue.Takes(SetEqGain(band, gain)) || d.eqBands[band] == gain
  {
    if band < |d.eqBands| {
      var after := LayoutOf(mode, d.eqBands[band := gain]);
      assert after == d.queue.layout[band := d.queue.layout[band].(gain := gain)];
      assert after[band].gain == gain && d.queue.layout[band].gain == d.eqBands[band];
      hide LayoutOf;
      if d.eqBands[band] == gain { assert d.eqBands[band := gain] == d.eqBands; }
    }
  }

  lemma CommitKeepsStep(fade: Fade, s: Session, mix: MixState, edit: Edit, mode: EqMode)
    requires AllInStep(mode, s.decks) && AllSteady(s.decks)
    ensures var t := Committed(fade, s, mix, edit).1;
      AllInStep(mode, t.decks) && AllSteady(t.decks)
  {
    hide Level, LayoutOf, Steady;
    var t := Committed(fade, s, mix, edit).1;
    forall i | 0 <= i < |t.decks| ensures Steady(t.decks[i].queue) && InStep(mode, t.decks[i]) {
      assert Steady(s.decks[i].queue) && InStep(mode, s.decks[i]);
      SteadyAlike(s.decks[i].queue, t.decks[i].queue);
    }
  }

  lemma SteadyAlike(q: Held, r: Held)
    requires Steady(q) && r.answers == q.answers && |r.layout| == |q.layout|
    ensures Steady(r)
  {}

  lemma SwitchKeepsSteady(s: Session, mode: EqMode, next: EqMode)
    requires AllInStep(mode, s.decks) && AllSteady(s.decks)
    ensures AllSteady(Switched(s, mode, next).1.decks)
  {
    hide LayoutOf, Remap, Moved;
    var r := Switched(s, mode, next);
    if Fits(mode, next, s.decks) {
      forall i | 0 <= i < |s.decks| ensures Steady(r.1.decks[i].queue) {
        assert Steady(s.decks[i].queue);
        if r.0 {
          TookIsSteady(s.decks[i].queue, r.1.decks[i].queue);
        } else {
          forall i | 0 <= i < |s.decks| { SteadyTakesBack(s.decks[i]); }
          hide Steady, TakesBack;
          SwitchesAllOrNone(s, mode, next);
          SteadyAlike(s.decks[i].queue, r.1.decks[i].queue);
        }
      }
    }
  }

  lemma TookIsSteady(q: Held, r: Held)
    requires Steady(q) && r.answers == q.answers && q.answers(q.asked, SetEqLayout(r.layout))
    ensures Steady(r)
  {}

  /** The queue has room for a layout of so many bands. */
  predicate HasRoom(q: Held, count: nat) {
    q.answers(0, SetEqLayout(Blank(count)))
  }

  /** Decks in step whose refusals are for want of room switch exactly when every queue has room for the new bands. */
  lemma SwitchesExactlyWithRoom(s: Session, mode: EqMode, next: EqMode)
    requires AllInStep(mode, s.decks) && AllSteady(s.decks) && mode != next
    ensures Switched(s, mode, next).0 <==> forall i :: 0 <= i < |s.decks| ==> HasRoom(s.decks[i].queue, next.Count())
  {}

  /** In step with the mode in force. */
  ghost predicate Sound(a: App) {
    AllInStep(a.mode, a.session.decks) && AllSteady(a.session.decks)
  }

  lemma StepStaysSound(fade: Fade, a: App, op: Op)
    requires Sound(a)
    ensures Sound(Step(fade, a, op))
  {
    hide InStep, Steady, Switched, Committed, TakesBack;
    var s := a.session;
    match op
    case Gain(id, layout, band, gain) =>
      var at := WithId(s.decks, id, 0);
      if at < |s.decks| && layout == a.mode { GainStaysSound(a.mode, s.decks[at], band, gain); }
    case Mode(next) =>
      forall i | 0 <= i < |s.decks| ensures TakesBack(s.decks[i]) { SteadyTakesBack(s.decks[i]); }
      SwitchesAllOrNone(s, a.mode, next);
      SwitchKeepsSteady(s, a.mode, next);
    case Crossfader(position) => CommitKeepsStep(fade, s, s.mix.(position := position), Unedited(), a.mode);
    case Trim(id, trim) => CommitKeepsStep(fade, s, s.mix, Trimmed(id, trim), a.mode);
  }

  lemma GainStaysSound(mode: EqMode, d: Deck, band: nat, gain: GainDb)
    requires InStep(mode, d) && Steady(d.queue)
    ensures InStep(mode, Gained(d, band, gain)) && Steady(Gained(d, band, gain).queue)
  {}

  /**
   Whatever is asked of the decks, and whatever levels and modes their queues refuse, every queue holds at
   the end the gains its deck shows in the mode in force.
   */
  lemma {:induction false} RunStaysInStep(fade: Fade, a: App, ops: seq<Op>)
    requires Sound(a)
    ensures Sound(Run(fade, a, ops))
    decreases |ops|
  {
    if ops != [] {
      StepStaysSound(fade, a, ops[0]);
      RunStaysInStep(fade, Step(fade, a, ops[0]), ops[1..]);
    }
  }

  /** With every level taken, what is heard is the mix that is stored, whatever else is refused. */
  ghost predicate LevelsTaken(decks: seq<Deck>) {
    forall i, n, level :: 0 <= i < |decks| ==> decks[i].queue.answers(n, SetLevel(level))
  }

  lemma {:induction false} RunStaysInMix(fade: Fade, a: App, ops: seq<Op>)
    requires InMix(fade, a.session) && LevelsTaken(a.session.decks)
    ensures InMix(fade, Run(fade, a, ops).session)
    decreases |ops|
  {
    if ops != [] {
      StepStaysInMix(fade, a, ops[0]);
      RunStaysInMix(fade, Step(fade, a, ops[0]), ops[1..]);
    }
  }

  lemma StepStaysInMix(fade: Fade, a: App, op: Op)
    requires InMix(fade, a.session) && LevelsTaken(a.session.decks)
    ensures InMix(fade, Step(fade, a, op).session) && LevelsTaken(Step(fade, a, op).session.decks)
  {
    hide Level, Committed, Switched, Remap, LayoutOf;
    var s := a.session;
    match op
    case Gain(_, _, _, _) =>
    case Mode(next) => SwitchStaysInMix(fade, s, a.mode, next);
    case Crossfader(position) => CommitStaysInMix(fade, s, s.mix.(position := position), Unedited());
    case Trim(id, trim) => CommitStaysInMix(fade, s, s.mix, Trimmed(id, trim));
  }

  lemma SwitchStaysInMix(fade: Fade, s: Session, mode: EqMode, next: EqMode)
    requires InMix(fade, s) && LevelsTaken(s.decks)
    ensures InMix(fade, Switched(s, mode, next).1) && LevelsTaken(Switched(s, mode, next).1.decks)
  {
    hide Level, Remap, LayoutOf, Moved;
  }

  lemma CommitStaysInMix(fade: Fade, s: Session, mix: MixState, edit: Edit)
    requires InMix(fade, s) && LevelsTaken(s.decks)
    ensures InMix(fade, Committed(fade, s, mix, edit).1) && LevelsTaken(Committed(fade, s, mix, edit).1.decks)
  {}

  // ---------------------------------------------------------------- where the promises stop

  /** A rejected edit can be heard: the first deck falls silent, the second refuses, and nothing is stored. */
  lemma RejectedEditCanBeHeard(fade: Fade)
    ensures exists s: Session, mix: MixState ::
      InMix(fade, s) && Committed(fade, s, mix, Unedited()).0 == Failure(Refused)
      && |s.decks| == 2 && Committed(fade, s, mix, Unedited()).1.decks[0].queue.level != s.decks[0].queue.level
  {
    var strip := MixStrip(Bypass, false, Num(1.0));
    var a := Deck(0, Held((n: nat, c: Command) => true, 0, [], 1.0), strip, []);
    var b := Deck(1, Held((n: nat, c: Command) => false, 0, [], 1.0), strip, []);
    var s, mix := Session(MixState(Num(1.0), Num(0.5)), [a, b]), MixState(Num(0.0), Num(0.5));
    UnityLevel(fade, 0.0);
    UnityLevel(fade, 1.0);
    var order := LevelOrder(fade, mix, Unedited());
    hide Level;
    assert FirstUnfit(fade, mix, Unedited(), s.decks, 0) == 2 by {
      assert Wanted(fade, mix, Unedited(), s.decks[0]).Success? && Wanted(fade, mix, Unedited(), s.decks[1]).Success?;
    }
    assert FirstRefusal(order, s.decks, 0) == 1 by {
      assert s.decks[0].queue.Takes(order(a)) && !s.decks[1].queue.Takes(order(b));
    }
    assert order(a) == SetLevel(0.0);
    hide FirstUnfit, FirstRefusal, Wanted, LevelOrder;
    assert Committed(fade, s, mix, Unedited()).1.decks[0] == a.Told(order(a));
    assert InMix(fade, s);
  }

  /**
   A failed switch can leave the decks in different modes: the first takes the new layout and not the old one
   back.
   */
  lemma SwitchCanStopHalfway(gains: seq<GainDb>)
    requires |gains| == 3
    ensures exists s: Session ::
      AllInStep(ThreeBand, s.decks) && !Switched(s, ThreeBand, FourBand).0 && |s.decks| == 2
      && |Switched(s, ThreeBand, FourBand).1.decks[0].queue.layout| == 4
      && |Switched(s, ThreeBand, FourBand).1.decks[1].queue.layout| == 3
  {
    hide LayoutOf;
    var strip, layout := MixStrip(Bypass, false, Num(1.0)), LayoutOf(ThreeBand, gains);
    var a := Deck(0, Held((n: nat, c: Command) => n == 0, 0, layout, 1.0), strip, gains);
    var b := Deck(1, Held((n: nat, c: Command) => false, 0, layout, 1.0), strip, gains);
    var s := Session(MixState(Num(1.0), Num(0.5)), [a, b]);
    var order := LayoutOrder(ThreeBand, FourBand);
    assert FirstRefusal(order, s.decks, 0) == 1;
    assert Switched(s, ThreeBand, FourBand).1.decks[0] == a.Told(order(a)).Told(Previous(ThreeBand, a));
    assert Switched(s, ThreeBand, FourBand).1.decks[1] == b.Told(order(b));
    assert AllInStep(ThreeBand, s.decks);
  }

  // ---------------------------------------------------------------- the decks as they run

  ghost function AllTold(order: Orders, decks: seq<Deck>): (r: seq<Deck>)
    ensures |r| == |decks|
  {
    seq(|decks|, i requires 0 <= i < |decks| => decks[i].Told(order(decks[i])))
  }

  lemma RefusalNext(order: Orders, decks: seq<Deck>, i: nat)
    requires i < |decks|
    ensures AllTold(order, decks)[i] == decks[i].Told(order(decks[i]))
    ensures FirstRefusal(order, decks, i)
      == if decks[i].queue.Takes(order(decks[i])) then FirstRefusal(order, decks, i + 1) else i
  {}

  ghost predicate IsChange(mode: EqMode, next: EqMode, d: Deck, c: EqModeChange) {
    Remap(mode, next, d.eqBands) == Some(c.gains)
    && c.next == LayoutOf(next, c.gains) && c.previous == LayoutOf(mode, d.eqBands)
  }

  ghost predicate AreChanges(mode: EqMode, next: EqMode, decks: seq<Deck>, changes: seq<EqModeChange>) {
    |changes| == |decks| && forall i :: 0 <= i < |decks| ==> IsChange(mode, next, decks[i], changes[i])
  }

  lemma ChangeOrder(mode: EqMode, next: EqMode, d: Deck, c: EqModeChange)
    requires IsChange(mode, next, d, c)
    ensures LayoutOrder(mode, next)(d) == SetEqLayout(c.next) && Moved(mode, next, d) == c.gains
  {}

  lemma OrderedKeeps(order: Orders, decks: seq<Deck>)
    ensures SameButQueues(decks, Ordered(order, decks))
  {}

  lemma FitOrder(fade: Fade, mix: MixState, edit: Edit, decks: seq<Deck>, i: nat)
    requires i < |decks| == FirstUnfit(fade, mix, edit, decks, 0)
    ensures var level := Level(fade, mix, edit(decks[i].id, decks[i].strip));
      level.Success? && LevelOrder(fade, mix, edit)(decks[i]) == SetLevel(level.value)
  {}

  lemma OrderedStops(order: Orders, decks: seq<Deck>, i: nat, now: seq<Deck>)
    requires i < |decks| == |now| && FirstRefusal(order, decks, 0) == i
    requires forall j :: 0 <= j <= i ==> now[j] == AllTold(order, decks)[j]
    requires forall j :: i < j < |decks| ==> now[j] == decks[j]
    ensures now == Ordered(order, decks)
  {}

  lemma OrderedEnds(order: Orders, decks: seq<Deck>, now: seq<Deck>)
    requires FirstRefusal(order, decks, 0) == FirstRefusal(order, decks, |decks|) && |now| == |decks|
    requires forall j :: 0 <= j < |decks| ==> now[j] == AllTold(order, decks)[j]
    ensures now == Ordered(order, decks) && FirstRefusal(order, decks, 0) == |decks|
  {}

  class Queue {
    const answers: Answers
    var asked: nat
    var layout: seq<Band>
    var level: real

    constructor (answers: Answers, layout: seq<Band>, level: real)
      ensures View() == Held(answers, 0, layout, level)
    {
      this.answers, this.asked, this.layout, this.level := answers, 0, layout, level;
    }

    function View(): Held
      reads this
    {
      Held(answers, asked, layout, level)
    }

    method Call(c: Command) returns (ok: bool)
      modifies this
      ensures ok == old(View()).Takes(c) && View() == old(View()).After(c)
    {
      ok := answers(asked, c);
      asked := asked + 1;
      if ok {
        match c {
          case SetLevel(l) => level := l;
          case SetEqLayout(l) => layout := l;
          case SetEqGain(band, gain) => if band < |layout| { layout := layout[band := layout[band].(gain := gain)]; }
        }
      }
    }
  }

  datatype EqModeChange = EqModeChange(gains: seq<GainDb>, next: seq<Band>, previous: seq<Band>)

  function Flat(count: nat): seq<GainDb> {
    seq(count, i => 0.0)
  }

  class DeckRecord {
    const id: nat
    const queue: Queue
    var strip: MixStrip
    var eqBands: seq<GainDb>

    /** A new deck is flat. */
    constructor (id: nat, queue: Queue, strip: MixStrip, eqBandCount: nat)
      ensures this.queue == queue && View() == Deck(id, queue.View(), strip, Flat(eqBandCount))
    {
      this.id, this.queue, this.strip, this.eqBands := id, queue, strip, Flat(eqBandCount);
    }

    function View(): Deck
      reads this, queue
    {
      Deck(id, queue.View(), strip, eqBands)
    }

    method Tell(c: Command) returns (ok: bool)
      modifies queue
      ensures ok == old(View()).queue.Takes(c) && View() == old(View()).Told(c)
    {
      ok := queue.Call(c);
    }

    method SetEqBand(band: nat, gain: GainDb)
      modifies this, queue
      ensures View() == Gained(old(View()), band, gain)
    {
      if band >= |eqBands| { return; }
      eqBands := eqBands[band := gain];
      var _ := queue.Call(SetEqGain(band, gain));
    }

    method ChangeMode(current: EqMode, next: EqMode) returns (r: Option<EqModeChange>)
      ensures match Remap(current, next, eqBands)
        case None => r == None
        case Some(gains) => r == Some(EqModeChange(gains, LayoutOf(next, gains), LayoutOf(current, eqBands)))
    {
      var gains := Remap(current, next, eqBands);
      if gains == None { return None; }
      var previous := Layout(current, eqBands);
      var after := Layout(next, gains.value);
      r := Some(EqModeChange(gains.value, after, previous));
    }
  }

  class DeckSet {
    const fade: Fade
    const records: seq<DeckRecord>
    var mix: MixState

    constructor (fade: Fade, records: seq<DeckRecord>)
      ensures this.fade == fade && this.records == records && mix == MixState(Num(1.0), Num(0.5))
    {
      this.fade, this.records, this.mix := fade, records, MixState(Num(1.0), Num(0.5));
    }

    /** No deck, and no queue, is held twice. */
    ghost predicate Valid() {
      forall i, j :: 0 <= i < j < |records| ==> records[i] != records[j] && records[i].queue != records[j].queue
    }

    ghost function Queues(): set<Queue> {
      set i | 0 <= i < |records| :: records[i].queue
    }

    ghost function Decks(): (r: seq<Deck>)
      reads records, Queues()
      ensures |r| == |records|
    {
      seq(|records|, i requires 0 <= i < |records| reads records, Queues() => records[i].View())
    }

    ghost function View(): Session
      reads this, records, Queues()
    {
      Session(mix, Decks())
    }

    /** Every level is asked for before any deck is. */
    method CheckLevels(mix': MixState, edit: Edit) returns (r: Result<(), QueueError>)
      ensures var k := FirstUnfit(fade, mix', edit, Decks(), 0);
        r == if k < |records| then Failure(Wanted(fade, mix', edit, Decks()[k]).error) else Success(())
    {
      hide Level;
      ghost var was := Decks();
      var i := 0;
      while i < |records|
        invariant i <= |records| && FirstUnfit(fade, mix', edit, was, 0) == FirstUnfit(fade, mix', edit, was, i)
      {
        assert was[i] == records[i].View();
        var level := Level(fade, mix', edit(records[i].id, records[i].strip));
        if level.Failure? { return Failure(level.error); }
        i := i + 1;
      }
      r := Success(());
    }

    lemma DeckAt(i: nat)
      requires i < |records|
      ensures var d, r := Decks()[i], records[i];
        d == r.View() && d.id == r.id && d.strip == r.strip && d.eqBands == r.eqBands
    {}

    method TellLevels(mix': MixState, edit: Edit) returns (ok: bool)
      requires Valid() && FirstUnfit(fade, mix', edit, Decks(), 0) == |records|
      modifies Queues()
      ensures var order, was := LevelOrder(fade, mix', edit), old(Decks());
        Decks() == Ordered(order, was) && (ok <==> FirstRefusal(order, was, 0) == |was|)
    {
      hide Level, LevelOrder, FirstRefusal, AllTold, Ordered, FirstUnfit, Decks, DeckRecord.View, Deck.Told,
          Held.Takes, Wanted;
      ghost var was, order := Decks(), LevelOrder(fade, mix', edit);
      ghost var told, now := AllTold(order, was), was;
      var i := 0;
      while i < |records|
        invariant i <= |records| && FirstRefusal(order, was, 0) == FirstRefusal(order, was, i)
        invariant Decks() == now
        invariant forall j :: 0 <= j < i ==> now[j] == told[j]
        invariant forall j :: i <= j < |records| ==> now[j] == was[j]
      {
        DeckAt(i);
        FitOrder(fade, mix', edit, was, i);
        RefusalNext(order, was, i);
        var level := Level(fade, mix', edit(records[i].id, records[i].strip));
        label Before:
        ok := records[i].Tell(SetLevel(level.value));
        OneChanged@Before(i);
        now := now[i := told[i]];
        if !ok {
          OrderedStops(order, was, i, now);
          return;
        }
        i := i + 1;
      }
      OrderedEnds(order, was, now);
      ok := true;
    }

    method StoreStrips(edit: Edit)
      requires Valid()
      modifies records
      ensures Decks() == Restripped(edit, old(Decks()))
    {
      ghost var was := Decks();
      var i := 0;
      while i < |records|
        invariant i <= |records|
        invariant forall j :: 0 <= j < i ==> records[j].View() == was[j].(strip := edit(was[j].id, was[j].strip))
        invariant forall j :: i <= j < |records| ==> records[j].View() == was[j]
      {
        assert records[i].View() == was[i];
        records[i].strip := edit(records[i].id, records[i].strip);
        i := i + 1;
      }
      assert Decks() == Restripped(edit, was);
    }

    method Commit(mix': MixState, edit: Edit) returns (r: Result<(), QueueError>)
      requires Valid()
      modifies this, records, Queues()
      ensures (r, View()) == Committed(fade, old(View()), mix', edit)
    {
      hide Level, FirstUnfit, FirstRefusal, Ordered, Restripped, LevelOrder;
      r := CheckLevels(mix', edit);
      if r.Failure? { return; }
      var taken := TellLevels(mix', edit);
      if !taken { return Failure(Refused); }
      StoreStrips(edit);
      mix := mix';
    }

    method SendLevels() returns (r: Result<(), QueueError>)
      requires Valid()
      modifies this, records, Queues()
      ensures (r, View()) == Committed(fade, old(View()), old(mix), Unedited())
    {
      r := Commit(mix, Unedited());
    }

    method SetCrossfader(position: F32) returns (r: Result<(), QueueError>)
      requires Valid()
      modifies this, records, Queues()
      ensures (r, View()) == Committed(fade, old(View()), old(mix).(position := position), Unedited())
    {
      r := Commit(mix.(position := position), Unedited());
    }

    method SetTrim(id: nat, trim: F32) returns (r: Result<(), QueueError>)
      requires Valid()
      modifies this, records, Queues()
      ensures (r, View()) == Committed(fade, old(View()), old(mix), Trimmed(id, trim))
    {
      r := Commit(mix, Trimmed(id, trim));
    }

    /** `apply` of a gain: one for a layout no longer in force is dropped. */
    method SetEqGain(id: nat, layout: EqMode, band: nat, gain: GainDb, eqMode: EqMode)
      requires Valid()
      modifies records, Queues()
      ensures App(eqMode, View()) == Step(fade, App(eqMode, old(View())), Gain(id, layout, band, gain))
    {
      hide Gained, DeckRecord.View, Decks;
      ghost var was := Decks();
      var i := 0;
      while i < |records| && records[i].id != id
        invariant i <= |records| && Decks() == was && mix == old(mix) && WithId(was, id, 0) == WithId(was, id, i)
      {
        DeckAt(i);
        i := i + 1;
      }
      if i == |records| { return; }
      DeckAt(i);
      if layout != eqMode { return; }
      label Before:
      records[i].SetEqBand(band, gain);
      OneChanged@Before(i);
    }

    /** What is done to one deck and its queue is done to that one. */
    twostate lemma OneChanged(i: nat)
      requires i < |records| && Valid()
      requires forall j :: 0 <= j < |records| && j != i ==> unchanged(records[j]) && unchanged(records[j].queue)
      ensures Decks() == old(Decks())[i := records[i].View()]
    {
      forall j | 0 <= j < |records| && j != i ensures Decks()[j] == old(Decks())[j] {
        assert records[j].View() == old(records[j].View());
      }
    }

    method Changes(current: EqMode, next: EqMode) returns (r: Option<seq<EqModeChange>>)
      ensures r.Some? <==> Fits(current, next, Decks())
      ensures r.Some? ==> AreChanges(current, next, Decks(), r.value)
    {
      hide LayoutOf, Remap;
      var changes: seq<EqModeChange> := [];
      var i := 0;
      while i < |records|
        invariant i <= |records| == |Decks()| && |changes| == i
        invariant forall j :: 0 <= j < i ==> IsChange(current, next, Decks()[j], changes[j])
      {
        DeckAt(i);
        var change := records[i].ChangeMode(current, next);
        if change == None {
          assert Remap(current, next, Decks()[i].eqBands) == None;
          return None;
        }
        changes := changes + [change.value];
        i := i + 1;
      }
      r := Some(changes);
    }

    /** Each deck is given its new layout, up to the first that refuses: how many took it. */
    method TellLayouts(ghost current: EqMode, ghost next: EqMode, changes: seq<EqModeChange>) returns (applied: nat)
      requires Valid() && AreChanges(current, next, Decks(), changes)
      modifies Queues()
      ensures var order, was := LayoutOrder(current, next), old(Decks());
        Decks() == Ordered(order, was) && applied == FirstRefusal(order, was, 0)
    {
      hide FirstRefusal, AllTold, Ordered, LayoutOrder, Decks, DeckRecord.View, Deck.Told, Held.Takes, LayoutOf,
          Remap, Moved;
      ghost var was, order := Decks(), LayoutOrder(current, next);
      ghost var told, now := AllTold(order, was), was;
      applied := 0;
      while applied < |records|
        invariant applied <= |records| && FirstRefusal(order, was, 0) == FirstRefusal(order, was, applied)
        invariant Decks() == now
        invariant forall j :: 0 <= j < applied ==> now[j] == told[j]
        invariant forall j :: applied <= j < |records| ==> now[j] == was[j]
      {
        DeckAt(applied);
        ChangeOrder(current, next, was[applied], changes[applied]);
        RefusalNext(order, was, applied);
        label Before:
        var ok := records[applied].Tell(SetEqLayout(changes[applied].next));
        OneChanged@Before(applied);
        now := now[applied := told[applied]];
        if !ok {
          OrderedStops(order, was, applied, now);
          return;
        }
        applied := applied + 1;
      }
      OrderedEnds(order, was, now);
    }

    /** The decks that took it are given back the layout they had, last first. */
    method RollBack(ghost current: EqMode, ghost next: EqMode, ghost was: seq<Deck>, changes: seq<EqModeChange>,
                    applied: nat)
      requires Valid() && AreChanges(current, next, was, changes) && SameButQueues(was, Decks()) && applied <= |records|
      modifies Queues()
      ensures Decks() == RolledBack(current, old(Decks()), applied)
    {
      hide Decks, DeckRecord.View, Deck.Told, LayoutOf, Remap;
      ghost var mid, now := Decks(), Decks();
      var i := applied;
      while i > 0
        invariant 0 <= i <= applied && Decks() == now && |now| == |mid| == |records|
        invariant forall j :: 0 <= j < i ==> now[j] == mid[j]
        invariant forall j :: i <= j < applied ==> now[j] == mid[j].Told(Previous(current, mid[j]))
        invariant forall j :: applied <= j < |records| ==> now[j] == mid[j]
      {
        i := i - 1;
        DeckAt(i);
        assert IsChange(current, next, was[i], changes[i]) && mid[i].eqBands == was[i].eqBands;
        label Before:
        var _ := records[i].Tell(SetEqLayout(changes[i].previous));
        OneChanged@Before(i);
        now := now[i := mid[i].Told(Previous(current, mid[i]))];
      }
      assert now == RolledBack(current, mid, applied);
    }

    method StoreGains(ghost current: EqMode, ghost next: EqMode, ghost was: seq<Deck>, changes: seq<EqModeChange>)
      requires Valid() && AreChanges(current, next, was, changes) && SameButQueues(was, Decks())
      modifies records
      ensures Decks() == Regained(current, next, old(Decks()))
    {
      hide LayoutOf, Remap;
      ghost var mid := Decks();
      var i := 0;
      while i < |records|
        invariant i <= |records|
        invariant forall j :: 0 <= j < i ==> records[j].View() == mid[j].(eqBands := changes[j].gains)
        invariant forall j :: i <= j < |records| ==> records[j].View() == mid[j]
      {
        assert records[i].View() == mid[i];
        records[i].eqBands := changes[i].gains;
        i := i + 1;
      }
      forall j | 0 <= j < |mid| ensures changes[j].gains == Moved(current, next, mid[j]) {
        assert IsChange(current, next, was[j], changes[j]) && mid[j].eqBands == was[j].eqBands;
      }
      assert Decks() == Regained(current, next, mid);
    }

    method SetEqMode(current: EqMode, next: EqMode) returns (done: bool)
      requires Valid()
      modifies records, Queues()
      ensures (done, View()) == Switched(old(View()), current, next)
    {
      hide Fits, FirstRefusal, Ordered, Regained, RolledBack, LayoutOrder, Decks, LayoutOf, Remap;
      ghost var was := Decks();
      var changes := Changes(current, next);
      if changes == None { return false; }
      OrderedKeeps(LayoutOrder(current, next), was);
      var applied := TellLayouts(current, next, changes.value);
      if applied < |records| {
        RollBack(current, next, was, changes.value, applied);
        return false;
      }
      StoreGains(current, next, was, changes.value);
      return true;
    }
  }

  /** The engine's owner, as far as the mode goes. */
  class Owner {
    const session: DeckSet
    var eqMode: EqMode

    constructor (session: DeckSet)
      ensures this.session == session && eqMode == ThreeBand
    {
      this.session, this.eqMode := session, ThreeBand;
    }

    method SetEqMode(mode: EqMode)
      requires session.Valid()
      modifies this, session.records, session.Queues()
      ensures App(eqMode, session.View()) == Step(session.fade, App(old(eqMode), old(session.View())), Mode(mode))
    {
      hide Switched;
      if eqMode != mode {
        var done := session.SetEqMode(eqMode, mode);
        if done { eqMode := mode; }
      }
    }
  }
}
