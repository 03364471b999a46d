/**
 A publish run: it walks the publish order against a registry that only grows, may fail or be
 stopped anywhere, and keeps crates.io's pace for new crates.
 */
module PublishRun {
  import opened Names
  import opened TopoSort

  // ---------------------------------------------------------------- the pace for new crates

  datatype Instant = Never | At(time: nat)

  function Max(a: int, b: int): int {
    if a < b then b else a
  }

  /** New crates arrived at `times`: in order and, past the burst, an interval apart. */
  ghost predicate Paced(times: seq<nat>, burst: nat, interval: nat) {
    forall i :: 1 <= i < |times| ==>
      times[i - 1] <= times[i] && (burst <= i ==> times[i - 1] + interval <= times[i])
  }

  class NewCratePace {
    const burst: nat
    const interval: nat
    var registered: nat
    var last: Instant

    constructor (burst: nat, interval: nat)
      ensures this.burst == burst && this.interval == interval
      ensures registered == 0 && last == Never
    {
      this.burst, this.interval, registered, last := burst, interval, 0, Never;
    }

    /** The earliest instant a new crate may be sent, counted from `now`. */
    function Wait(now: nat): (wait: nat)
      reads this
      ensures last.At? && burst <= registered ==> last.time + interval <= now + wait
      ensures wait > 0 ==> last.At? && burst <= registered && now + wait == last.time + interval
    {
      if last.At? && registered >= burst && last.time + interval > now then last.time + interval - now else 0
    }

    method Record(at: nat)
      modifies this
      ensures registered == old(registered) + 1 && last == At(at)
    {
      registered := registered + 1;
      last := At(at);
    }
  }

  /**
   The bound the pace is for: over any stretch of one run's new crates, every crate past the burst
   costs a whole interval.
   */
  lemma {:induction false} PaceBound(times: seq<nat>, burst: nat, interval: nat, i: nat, j: nat)
    requires Paced(times, burst, interval) && i <= j < |times|
    ensures times[j] - times[i] >= Max(0, j - Max(i, Max(burst, 1) - 1)) * interval
    decreases j - i
  {
    if i < j {
      PaceBound(times, burst, interval, i, j - 1);
      assert times[j - 1] <= times[j];
      var before, now := Max(0, j - 1 - Max(i, Max(burst, 1) - 1)), Max(0, j - Max(i, Max(burst, 1) - 1));
      if burst <= j {
        assert now == before + 1;
        assert now * interval == before * interval + interval;
      } else {
        assert now == 0;
      }
    }
  }

  /** In a run's own terms: `n` new crates take at least `n - max(burst, 1)` intervals. */
  lemma PaceOfRun(times: seq<nat>, burst: nat, interval: nat)
    requires Paced(times, burst, interval) && Max(burst, 1) <= |times|
    ensures times[|times| - 1] - times[0] >= (|times| - Max(burst, 1)) * interval
  {
    PaceBound(times, burst, interval, 0, |times| - 1);
  }

  /** What `second` owes the new crates of `first` before it, burst and all. */
  ghost predicate KeepsPaceAfter(first: seq<nat>, second: seq<nat>, burst: nat, interval: nat) {
    first != [] && second != [] ==>
      && first[|first| - 1] <= second[0]
      && (burst <= |first| ==> first[|first| - 1] + interval <= second[0])
      && forall i :: 1 <= i < |second| && burst <= |first| + i ==> second[i - 1] + interval <= second[i]
  }

  /**
   The pace lives in one process. Two runs, each at its pace, keep it between them exactly when the second
   waits out the interval the first had begun and starts no burst of its own.
   */
  lemma RerunForgetsPace(first: seq<nat>, second: seq<nat>, burst: nat, interval: nat)
    requires Paced(first, burst, interval) && Paced(second, burst, interval)
    ensures Paced(first + second, burst, interval) <==> KeepsPaceAfter(first, second, burst, interval)
  {
    var both, n := first + second, |first|;
    if Paced(both, burst, interval) && first != [] && second != [] {
      assert both[n - 1] == first[n - 1] && both[n] == second[0];
      forall i | 1 <= i < |second| && burst <= n + i ensures second[i - 1] + interval <= second[i] {
        assert both[n + i - 1] == second[i - 1] && both[n + i] == second[i];
      }
    }
    if KeepsPaceAfter(first, second, burst, interval) {
      forall k | 1 <= k < |both|
        ensures both[k - 1] <= both[k] && (burst <= k ==> both[k - 1] + interval <= both[k])
      {
        if k > n { assert both[k - 1] == second[k - n - 1] && both[k] == second[k - n]; }
      }
    }
  }

  /** Whatever the burst and the interval, a full burst and one more crate at once are two paced runs, and break it. */
  lemma RerunBreaksPace(burst: nat, interval: nat)
    requires burst > 0 && interval > 0
    ensures var full: seq<nat>, more: seq<nat> := seq(burst, _ => 0), [0];
      Paced(full, burst, interval) && Paced(more, burst, interval) && !Paced(full + more, burst, interval)
  {
    var full: seq<nat>, more: seq<nat> := seq(burst, _ => 0), [0];
    RerunForgetsPace(full, more, burst, interval);
    assert full[|full| - 1] == 0;
  }

  // ---------------------------------------------------------------- the registry

  datatype Answer = Holds(yes: bool) | NoAnswer

  /** One call of `cargo publish`, from when it was made to when it came back. */
  datatype Sending = Sending(name: Name, begin: nat, end: nat)

  /** crates.io and the wall clock, as one run sees them. */
  class World {
    var held: set<Name>    // at the version of this release
    var known: set<Name>   // at any version
    var now: nat
    ghost var states: seq<set<Name>>  // `held` after each upload
    ghost var sent: seq<Sending>
    ghost var arrivals: seq<nat>      // when a crate the registry had never seen arrived

    method Has(name: Name, anyVersion: bool) returns (a: Answer)
      modifies this`now
      ensures now >= old(now)
      ensures a.Holds? ==> a.yes == (name in if anyVersion then known else held)
    {
      now := Later(now);
      var answered: bool := *;
      a := if answered then Holds(name in if anyVersion then known else held) else NoAnswer;
    }

    method Sleep(duration: nat)
      modifies this`now
      ensures now >= old(now) + duration
    {
      now := Later(now + duration);
    }

    /** `cargo publish`. One that reports failure may still have landed. */
    method Upload(name: Name) returns (ok: bool)
      modifies this
      ensures now >= old(now)
      ensures held == old(held) || held == old(held) + {name}
      ensures ok ==> name in held
      ensures known == old(known) + (held - old(held))
      ensures states == old(states) + [held]
      ensures sent == old(sent) + [Sending(name, old(now), now)]
      ensures if held != old(held) && name !in old(known)
              then |arrivals| == |old(arrivals)| + 1 && arrivals[..|old(arrivals)|] == old(arrivals)
                   && old(now) <= arrivals[|old(arrivals)|] <= now
              else arrivals == old(arrivals)
    {
      ghost var begin := now;
      now := Later(now);
      var landed: bool := *;
      ok := false;
      if landed {
        ok := *;
        if name !in held {
          if name !in known { arrivals := arrivals + [now]; }
          held, known := held + {name}, known + {name};
        }
      }
      states := states + [held];
      now := Later(now);
      sent := sent + [Sending(name, begin, now)];
    }
  }

  method Later(now: nat) returns (later: nat)
    ensures later >= now
  {
    later :| later >= now;
  }

  // ---------------------------------------------------------------- one run

  /** No crate is held before the crates it depends on. */
  ghost predicate Closed(g: Graph, held: set<Name>) {
    forall v, d :: v in g && v in held && d in g[v] ==> d in held
  }

  /** What `DependenciesFirst` says of an accepted order. */
  ghost predicate DependencyOrder(g: Graph, order: seq<Name>) {
    && Distinct(order)
    && (forall v :: v in order <==> v in g)
    && (forall i, d :: 0 <= i < |order| && d in g[order[i]] ==> d in order[..i])
  }

  lemma OrderIsDependencyOrder(g: Graph, order: seq<Name>)
    requires PublishOrder(g) == Ordered(order)
    ensures DependencyOrder(g, order)
  {
    DependenciesFirst(g);
    forall v ensures v in order <==> v in g {
      assert v in Elements(order) <==> v in g.Keys;
    }
  }

  lemma PrefixStaysClosed(g: Graph, order: seq<Name>, held: set<Name>, k: nat)
    requires DependencyOrder(g, order) && k <= |order| && Closed(g, held)
    ensures Closed(g, held + Elements(order[..k]))
  {}

  /** What a finished run reports. */
  datatype Report = Done(published: nat, skipped: nat) | Failed

  lemma CountOneMore(order: seq<Name>, i: nat, had: set<Name>)
    requires Distinct(order) && i < |order|
    ensures order[..i + 1] == order[..i] + [order[i]]
    ensures |Elements(order[..i + 1]) - had| == |Elements(order[..i]) - had| + if order[i] in had then 0 else 1
  {
    assert order[..i + 1] == order[..i] + [order[i]];
    var before, after := Elements(order[..i]) - had, Elements(order[..i + 1]) - had;
    assert order[i] !in order[..i];
    assert after == if order[i] in had then before else before + {order[i]};
  }

  /** The new crates of this run so far, as the registry saw them arrive. */
  ghost predicate PaceInStep(pace: NewCratePace, times: seq<nat>, now: nat)
    reads pace
  {
    && Paced(times, pace.burst, pace.interval)
    && pace.registered == |times|
    && (times == [] ==> pace.last == Never)
    && (times != [] ==> pace.last.At? && times[|times| - 1] <= pace.last.time <= now)
  }

  lemma PaceGoesOn(times: seq<nat>, t: nat, burst: nat, interval: nat)
    requires Paced(times, burst, interval)
    requires times != [] ==> times[|times| - 1] <= t
    requires times != [] && burst <= |times| ==> times[|times| - 1] + interval <= t
    ensures Paced(times + [t], burst, interval)
  {}

  /**
   A crate that follows another in the order and is sent after it, none between, is sent `delay` after it came
   back.
   */
  ghost predicate Spaced(order: seq<Name>, sent: seq<Sending>, delay: nat) {
    forall k, p ::
      1 <= k < |sent| && 1 <= p < |order| && sent[k - 1].name == order[p - 1] && sent[k].name == order[p] ==>
        sent[k - 1].end + delay <= sent[k].begin
  }

  /** What `sent` says after `i` crates of the order, the last one sent if `justSent`. */
  ghost predicate SentInStep(order: seq<Name>, i: nat, sent: seq<Sending>, delay: nat, justSent: bool, now: nat) {
    && i <= |order|
    && Spaced(order, sent, delay)
    && (forall k :: 0 <= k < |sent| ==> sent[k].name in order[..i] && sent[k].end <= now)
    && (sent != [] && i > 0 && sent[|sent| - 1].name == order[i - 1] ==> justSent)
  }

  lemma SendingGoesOn(order: seq<Name>, i: nat, sent: seq<Sending>, delay: nat, justSent: bool, now: nat,
                      next: Sending, then_: nat)
    requires Distinct(order) && i < |order| && SentInStep(order, i, sent, delay, justSent, now)
    requires next.name == order[i] && now + (if justSent then delay else 0) <= next.begin <= next.end <= then_
    ensures SentInStep(order, i + 1, sent + [next], delay, true, then_)
  {
    var longer := sent + [next];
    assert order[..i + 1] == order[..i] + [order[i]];
    forall k, p | 1 <= k < |longer| && 1 <= p < |order| && longer[k - 1].name == order[p - 1]
      && longer[k].name == order[p]
      ensures longer[k - 1].end + delay <= longer[k].begin
    {
      if k == |sent| { assert p == i; }
    }
  }

  lemma SkippingGoesOn(order: seq<Name>, i: nat, sent: seq<Sending>, delay: nat, justSent: bool, now: nat, then_: nat)
    requires Distinct(order) && i < |order| && SentInStep(order, i, sent, delay, justSent, now) && now <= then_
    ensures SentInStep(order, i + 1, sent, delay, false, then_)
  {
    assert order[..i + 1] == order[..i] + [order[i]];
    assert order[i] !in order[..i];
  }

  datatype Verdict = Skipped | Published | Stopped

  /** What a verdict on `name` means for the registry. */
  ghost predicate Turned(name: Name, v: Verdict, held: set<Name>, held': set<Name>, states: seq<set<Name>>,
                         states': seq<set<Name>>) {
    match v
    case Skipped => name in held && held' == held && states' == states
    case Published => name !in held && held' == held + {name} && states' == states + [held']
    case Stopped => (held' == held || held' == held + {name}) && (states' == states || states' == states + [held'])
  }

  ghost predicate OneMoreSent(name: Name, wait: nat, before: seq<Sending>, begun: nat, after: seq<Sending>, now: nat) {
    |after| == |before| + 1 && after == before + [after[|before|]]
    && var next := after[|before|]; next.name == name && begun + wait <= next.begin <= next.end <= now
  }

  /** What this run has sent after one more crate. */
  lemma GoesOn(order: seq<Name>, i: nat, earlier: seq<Sending>, sent: seq<Sending>, was: seq<Sending>,
               after: seq<Sending>, delay: nat, justSent: bool, now: nat, then_: nat) returns (sent': seq<Sending>)
    requires Distinct(order) && i < |order| && SentInStep(order, i, sent, delay, justSent, now)
    requires was == earlier + sent && now <= then_
    requires after == was || OneMoreSent(order[i], if justSent then delay else 0, was, now, after, then_)
    ensures after == earlier + sent' && after[|earlier|..] == sent'
    ensures SentInStep(order, i + 1, sent', delay, after != was, then_)
  {
    hide SentInStep;
    if after == was {
      SkippingGoesOn(order, i, sent, delay, justSent, now, then_);
      sent' := sent;
    } else {
      SendingGoesOn(order, i, sent, delay, justSent, now, after[|was|], then_);
      sent' := sent + [after[|was|]];
    }
    assert after == earlier + sent';
  }

  lemma NothingSent(order: seq<Name>, delay: nat, now: nat)
    ensures SentInStep(order, 0, [], delay, false, now)
  {}

  lemma StepIsSpaced(order: seq<Name>, i: nat, sent: seq<Sending>, delay: nat, justSent: bool, now: nat)
    requires SentInStep(order, i, sent, delay, justSent, now)
    ensures Spaced(order, sent, delay)
  {}

  /** One crate: skipped if the registry holds it, else uploaded once the pace allows. */
  method Consider(name: Name, delay: nat, lastActionWasPublish: bool, pace: NewCratePace, world: World,
                  ghost past: seq<nat>, ghost times: seq<nat>)
    returns (v: Verdict, ghost times': seq<nat>)
    requires world.arrivals == past + times
    requires world.held <= world.known && PaceInStep(pace, times, world.now)
    modifies world, pace
    ensures Turned(name, v, old(world.held), world.held, old(world.states), world.states)
    ensures world.held <= world.known
    ensures world.arrivals == past + times'
    ensures Paced(times', pace.burst, pace.interval)
    ensures !v.Stopped? ==> PaceInStep(pace, times', world.now)
    ensures old(world.now) <= world.now
    ensures v.Skipped? ==> world.sent == old(world.sent)
    ensures v.Published? ==> world.sent != old(world.sent)
    ensures
      || world.sent == old(world.sent)
      || OneMoreSent(name, if lastActionWasPublish then delay else 0, old(world.sent), old(world.now),
                     world.sent, world.now)
  {
    times' := times;
    var present := world.Has(name, false);
    if present.NoAnswer? { return Stopped, times'; }
    if present.yes { return Skipped, times'; }
    var registered := world.Has(name, true);
    if registered.NoAnswer? { return Stopped, times'; }
    var newCrate := !registered.yes;
    if lastActionWasPublish && delay > 0 { world.Sleep(delay); }
    if newCrate {
      var wait := pace.Wait(world.now);
      if wait != 0 { world.Sleep(wait); }
    }
    ghost var arrived := world.arrivals;
    var ok := world.Upload(name);
    if world.arrivals != arrived {
      ghost var t := world.arrivals[|arrived|];
      PaceGoesOn(times, t, pace.burst, pace.interval);
      times' := times + [t];
      assert world.arrivals == arrived + [t] == past + times';
    }
    if !ok { return Stopped, times'; }
    if newCrate { pace.Record(world.now); }
    return Published, times';
  }

  /** The registry after `k` crates of the order: grown by exactly those, closed at every upload. */
  ghost predicate GrownBy(g: Graph, order: seq<Name>, k: nat, had: set<Name>, held: set<Name>,
                          seen: seq<set<Name>>, states: seq<set<Name>>) {
    && k <= |order|
    && held == had + Elements(order[..k])
    && seen <= states
    && (Closed(g, had) ==> Closed(g, held) && forall i :: |seen| <= i < |states| ==> Closed(g, states[i]))
  }

  lemma GrowsByOne(g: Graph, order: seq<Name>, k: nat, had: set<Name>, held: set<Name>, seen: seq<set<Name>>,
                   states: seq<set<Name>>, held': set<Name>, states': seq<set<Name>>)
    requires DependencyOrder(g, order) && k < |order| && GrownBy(g, order, k, had, held, seen, states)
    requires held' == held + {order[k]}
    requires states' == states || states' == states + [held']
    ensures GrownBy(g, order, k + 1, had, held', seen, states')
  {}

  lemma AfterVerdict(g: Graph, order: seq<Name>, k: nat, had: set<Name>, held: set<Name>, seen: seq<set<Name>>,
                     states: seq<set<Name>>, v: Verdict, held': set<Name>, states': seq<set<Name>>)
    requires DependencyOrder(g, order) && k < |order| && GrownBy(g, order, k, had, held, seen, states)
    requires Turned(order[k], v, held, held', states, states')
    ensures !v.Stopped? ==> GrownBy(g, order, k + 1, had, held', seen, states')
    ensures !v.Stopped? ==>
      |Elements(order[..k + 1]) - had| == |Elements(order[..k]) - had| + if v.Published? then 1 else 0
    ensures exists n :: GrownBy(g, order, n, had, held', seen, states')
  {
    CountOneMore(order, k, had);
    assert order[k] !in order[..k];
    if v.Stopped? && held' == held {
      assert GrownBy(g, order, k, had, held', seen, states');
    } else {
      if v.Skipped? { assert held' == held + {order[k]}; }
      GrowsByOne(g, order, k, had, held, seen, states, held', states');
    }
  }

  lemma GrownNot(g: Graph, order: seq<Name>, had: set<Name>, seen: seq<set<Name>>)
    ensures GrownBy(g, order, 0, had, had, seen, seen)
  {}

  lemma GrownWhole(g: Graph, order: seq<Name>, had: set<Name>, held: set<Name>, seen: seq<set<Name>>,
                   states: seq<set<Name>>)
    requires GrownBy(g, order, |order|, had, held, seen, states)
    ensures held == had + Elements(order)
  {
    assert order[..|order|] == order;
  }

  lemma WholeOrder(g: Graph, order: seq<Name>)
    requires DependencyOrder(g, order)
    ensures order[..|order|] == order && Elements(order) == g.Keys
  {}

  /**
   A run over the order of `g`. Wherever it ends, the registry has grown by a prefix of the order
   and every state it went through is closed under dependencies if the first one was; a run that
   reaches its end leaves every crate present; and its new crates arrive at the pace.
   */
  method RunPublish(ghost g: Graph, order: seq<Name>, delay: nat, burst: nat, interval: nat, world: World)
    returns (r: Report)
    requires DependencyOrder(g, order)
    requires world.held <= world.known
    modifies world
    ensures exists k :: GrownBy(g, order, k, old(world.held), world.held, old(world.states), world.states)
    ensures r.Done? ==>
      g.Keys <= world.held
      && r.published == |g.Keys - old(world.held)| && r.published + r.skipped == |order|
    ensures world.held <= world.known
    ensures old(world.arrivals) <= world.arrivals
    ensures Paced(world.arrivals[|old(world.arrivals)|..], burst, interval)
    ensures old(world.sent) <= world.sent && Spaced(order, world.sent[|old(world.sent)|..], delay)
  {
    assert Distinct(order);
    WholeOrder(g, order);
    hide SentInStep, Spaced, OneMoreSent, GrownBy, Turned, Paced, DependencyOrder, Distinct, Elements;
    NothingSent(order, delay, world.now);
    GrownNot(g, order, world.held, world.states);
    var pace := new NewCratePace(burst, interval);
    var publishedCount := 0;
    var lastActionWasPublish := false;
    var i := 0;
    ghost var times: seq<nat> := [];
    ghost var had, seen, past, earlier := world.held, world.states, world.arrivals, world.sent;
    ghost var sent: seq<Sending> := [];
    while i < |order|
      invariant 0 <= i <= |order|
      invariant GrownBy(g, order, i, had, world.held, seen, world.states) && world.held <= world.known
      invariant publishedCount == |Elements(order[..i]) - had| <= i
      invariant world.arrivals == past + times
      invariant pace.burst == burst && pace.interval == interval && fresh(pace)
      invariant PaceInStep(pace, times, world.now)
      invariant world.sent == earlier + sent
      invariant world.sent[|earlier|..] == sent
      invariant SentInStep(order, i, sent, delay, lastActionWasPublish, world.now)
    {
      ghost var held, states, now, was := world.held, world.states, world.now, world.sent;
      var verdict;
      verdict, times := Consider(order[i], delay, lastActionWasPublish, pace, world, past, times);
      AfterVerdict(g, order, i, had, held, seen, states, verdict, world.held, world.states);
      sent := GoesOn(order, i, earlier, sent, was, world.sent, delay, lastActionWasPublish, now, world.now);
      StepIsSpaced(order, i + 1, sent, delay, world.sent != was, world.now);
      if verdict.Stopped? { return Failed; }
      if verdict.Published? { publishedCount := publishedCount + 1; }
      lastActionWasPublish := verdict.Published?;
      i := i + 1;
    }
    StepIsSpaced(order, i, sent, delay, lastActionWasPublish, world.now);
    GrownWhole(g, order, had, world.held, seen, world.states);
    r := Done(publishedCount, |order| - publishedCount);
  }

  /**
   A run and its rerun on one registry: what the first left the second need not upload again, but the new
   crates of both keep the pace only if the rerun happens to keep what it has forgotten.
   */
  method PublishAgain(ghost g: Graph, order: seq<Name>, delay: nat, burst: nat, interval: nat, world: World)
    returns (r: Report, again: Report, ghost first: seq<nat>, ghost second: seq<nat>)
    requires DependencyOrder(g, order)
    requires world.held <= world.known
    modifies world
    ensures world.arrivals == old(world.arrivals) + first + second
    ensures Paced(first, burst, interval) && Paced(second, burst, interval)
    ensures Paced(first + second, burst, interval) <==> KeepsPaceAfter(first, second, burst, interval)
    ensures r.Done? && again.Done? ==> again.published == 0 && again.skipped == |order|
  {
    ghost var past := world.arrivals;
    r := RunPublish(g, order, delay, burst, interval, world);
    ghost var between, held := world.arrivals, world.held;
    first := between[|past|..];
    again := RunPublish(g, order, delay, burst, interval, world);
    second := world.arrivals[|between|..];
    assert world.arrivals == between + second && between == past + first;
    RerunForgetsPace(first, second, burst, interval);
    if r.Done? { assert g.Keys - held == {}; }
  }

  // ---------------------------------------------------------------- any number of runs

  /** Runs that may overlap: what the registry holds, and how far each live run has come. */
  datatype Release = Release(held: set<Name>, at: map<nat, nat>)

  /** `run` starts, stops, passes a held crate, uploads one, or stops not knowing its upload landed. */
  ghost predicate StepOf(order: seq<Name>, s: Release, t: Release, run: nat) {
    if run !in s.at then t == s.(at := s.at[run := 0])
    else
      || t == s.(at := s.at - {run})
      || (s.at[run] < |order| && order[s.at[run]] in s.held && t == s.(at := s.at[run := s.at[run] + 1]))
      || (s.at[run] < |order| && t == Release(s.held + {order[s.at[run]]}, s.at[run := s.at[run] + 1]))
      || (s.at[run] < |order| && t == Release(s.held + {order[s.at[run]]}, s.at - {run}))
  }

  ghost predicate Step(order: seq<Name>, s: Release, t: Release) {
    exists run :: StepOf(order, s, t, run)
  }

  ghost predicate RunsBehind(order: seq<Name>, s: Release) {
    forall run :: run in s.at ==> Behind(order, s.at[run], s.held)
  }

  ghost predicate Behind(order: seq<Name>, at: nat, held: set<Name>) {
    at <= |order| && forall i :: 0 <= i < at ==> order[i] in held
  }

  lemma StepKeeps(g: Graph, order: seq<Name>, s: Release, t: Release)
    requires DependencyOrder(g, order) && Step(order, s, t)
    requires Closed(g, s.held) && RunsBehind(order, s)
    ensures Closed(g, t.held) && RunsBehind(order, t) && s.held <= t.held
  {}

  ghost predicate Overlapping(order: seq<Name>, trace: seq<Release>) {
    trace != [] && trace[0].at == map[] && forall i :: 0 <= i < |trace| - 1 ==> Step(order, trace[i], trace[i + 1])
  }

  lemma {:induction false} TraceStaysClosed(g: Graph, order: seq<Name>, trace: seq<Release>)
    requires DependencyOrder(g, order) && Overlapping(order, trace) && Closed(g, trace[0].held)
    ensures forall i :: 0 <= i < |trace| ==>
      Closed(g, trace[i].held) && RunsBehind(order, trace[i]) && trace[i].held <= trace[|trace| - 1].held
  {
    var n := |trace| - 1;
    if n > 0 {
      var before := trace[..n];
      assert Overlapping(order, before) by {
        forall i | 0 <= i < |before| - 1 ensures Step(order, before[i], before[i + 1]) {
          assert Step(order, trace[i], trace[i + 1]);
        }
      }
      TraceStaysClosed(g, order, before);
      assert before[n - 1] == trace[n - 1] && Step(order, trace[n - 1], trace[n - 1 + 1]);
      StepKeeps(g, order, trace[n - 1], trace[n]);
      assert forall i :: 0 <= i < n ==> before[i] == trace[i];
    }
  }

  /**
   However many runs overlap and wherever each stops, the registry never holds a crate before its
   dependencies, never loses one, and holds the whole order once any run has come to its end.
   */
  lemma ReleasesStayClosed(g: Graph, order: seq<Name>, trace: seq<Release>)
    requires PublishOrder(g) == Ordered(order) && Overlapping(order, trace) && Closed(g, trace[0].held)
    ensures forall i :: 0 <= i < |trace| ==> Closed(g, trace[i].held) && trace[i].held <= trace[|trace| - 1].held
    ensures forall i, run :: 0 <= i < |trace| && run in trace[i].at && trace[i].at[run] == |order| ==>
      g.Keys <= trace[|trace| - 1].held
  {
    OrderIsDependencyOrder(g, order);
    TraceStaysClosed(g, order, trace);
    forall i, run | 0 <= i < |trace| && run in trace[i].at && trace[i].at[run] == |order|
      ensures g.Keys <= trace[|trace| - 1].held
    {
      assert Behind(order, trace[i].at[run], trace[i].held);
      forall v | v in g ensures v in trace[i].held {
        var k :| 0 <= k < |order| && order[k] == v;
      }
    }
  }
}
