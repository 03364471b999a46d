/**
 The debug heap ceiling: any number of threads inside the counting allocator, one atomic operation or
 one system call to a step. A block keeps its identity when `realloc` moves it, the counter is not
 bounded above, and what the reporting thread allocates is the work of one more thread.
 */
module HeapCeiling {

  /**
   An outstanding block: its size, the size the counter has been told, and whether a call that owns it
   is under way, which its caller promises nobody else makes.
   */
  datatype Block = Block(size: nat, told: nat, busy: bool)

  /** The system call a thread makes once the counters are done. */
  datatype Call = Create(size: nat) | Free(block: nat) | Resize(block: nat)

  datatype Pc =
    | Charged(total: int, bytes: nat, call: Call)              // after `fetch_add`; the limit is loaded next
    | Over(total: int, limit: nat, bytes: nat, call: Call)     // the total is past the limit; the swap is next
    | Aborting(total: int, limit: nat, bytes: nat, call: Call) // the swap found the flag down
    | Calling(call: Call)                                      // `System` is next

  /** `failures` is what failed system calls left in the counter: bookkeeping, read by no thread. */
  datatype Heap = Heap(live: int, limit: nat, tripped: bool, blocks: map<nat, Block>, threads: map<nat, Pc>,
      failures: int)

  const DEFAULT_LIMIT_BYTES: nat := 0x1_0000_0000

  function Start(limit: nat): Heap {
    Heap(0, limit, false, map[], map[], 0)
  }

  // ---------------------------------------------------------------- steps

  /** `alloc` and `alloc_zeroed`. */
  ghost predicate BeginAlloc(s: Heap, t: Heap, thread: nat, size: nat) {
    thread !in s.threads
    && t == s.(live := s.live + size, threads := s.threads[thread := Charged(s.live + size, size, Create(size))])
  }

  ghost predicate BeginDealloc(s: Heap, t: Heap, thread: nat, b: nat) {
    thread !in s.threads && b in s.blocks && !s.blocks[b].busy
    && t == s.(live := s.live - s.blocks[b].size,
               blocks := s.blocks[b := Block(s.blocks[b].size, 0, true)],
               threads := s.threads[thread := Calling(Free(b))])
  }

  ghost predicate BeginRealloc(s: Heap, t: Heap, thread: nat, b: nat, newSize: nat) {
    thread !in s.threads && b in s.blocks && !s.blocks[b].busy
    && var size := s.blocks[b].size;
       var owned := s.(blocks := s.blocks[b := Block(size, newSize, true)]);
       if newSize >= size
       then t == owned.(live := s.live + (newSize - size),
                        threads := s.threads[thread := Charged(s.live + (newSize - size), newSize - size, Resize(b))])
       else t == owned.(live := s.live - (size - newSize), threads := s.threads[thread := Calling(Resize(b))])
  }

  ghost predicate LoadLimit(s: Heap, t: Heap, thread: nat) {
    thread in s.threads && s.threads[thread].Charged?
    && var Charged(total, bytes, call) := s.threads[thread];
       t == s.(threads := s.threads[thread :=
         if s.limit == 0 || total <= s.limit then Calling(call) else Over(total, s.limit, bytes, call)])
  }

  ghost predicate Swap(s: Heap, t: Heap, thread: nat) {
    thread in s.threads && s.threads[thread].Over?
    && var Over(total, limit, bytes, call) := s.threads[thread];
       t == s.(tripped := true,
               threads := s.threads[thread := if s.tripped then Calling(call) else Aborting(total, limit, bytes, call)])
  }

  ghost predicate Succeed(s: Heap, t: Heap, thread: nat, fresh_: nat) {
    thread in s.threads && s.threads[thread].Calling?
    && match s.threads[thread].call
       case Create(size) =>
         fresh_ !in s.blocks
         && t == s.(blocks := s.blocks[fresh_ := Block(size, size, false)], threads := s.threads - {thread})
       case Free(b) => t == s.(blocks := s.blocks - {b}, threads := s.threads - {thread})
       case Resize(b) =>
         b in s.blocks
         && t == s.(blocks := s.blocks[b := Block(s.blocks[b].told, s.blocks[b].told, false)],
           threads := s.threads - {thread})
  }

  /** The system allocator returns null; the counter is not put back. */
  ghost predicate Fail(s: Heap, t: Heap, thread: nat) {
    thread in s.threads && s.threads[thread].Calling?
    && match s.threads[thread].call
       case Create(size) => t == s.(threads := s.threads - {thread}, failures := s.failures + size)
       case Free(_) => false
       case Resize(b) =>
         b in s.blocks
         && t == s.(blocks := s.blocks[b := Block(s.blocks[b].size, s.blocks[b].size, false)],
                    threads := s.threads - {thread},
                    failures := s.failures + s.blocks[b].told - s.blocks[b].size)
  }

  ghost predicate SetLimit(s: Heap, t: Heap, bytes: nat) {
    t == s.(limit := bytes)
  }

  /** `mayFail`: whether the system allocator ever returns null. */
  ghost predicate StepOf(mayFail: bool, s: Heap, t: Heap, thread: nat, b: nat, size: nat) {
    || BeginAlloc(s, t, thread, size)
    || BeginDealloc(s, t, thread, b)
    || BeginRealloc(s, t, thread, b, size)
    || LoadLimit(s, t, thread)
    || Swap(s, t, thread)
    || Succeed(s, t, thread, b)
    || (mayFail && Fail(s, t, thread))
    || SetLimit(s, t, size)
  }

  ghost predicate Step(mayFail: bool, s: Heap, t: Heap) {
    exists thread, b, size :: StepOf(mayFail, s, t, thread, b, size)
  }

  ghost predicate Run(mayFail: bool, trace: seq<Heap>) {
    trace != [] && trace[0] == Start(trace[0].limit)
    && forall i :: 0 <= i < |trace| - 1 ==> Step(mayFail, trace[i], trace[i + 1])
  }

  // ---------------------------------------------------------------- the ceiling trips once, and never too late

  ghost predicate Deciding(pc: Pc, limit: nat) {
    (pc.Charged? && pc.total > limit) || pc.Over?
  }

  /** One thread at most reports, and the flag is up exactly when one does. */
  ghost predicate OneReport(s: Heap) {
    && (s.tripped <==> exists thread :: thread in s.threads && s.threads[thread].Aborting?)
    && (forall a, b :: a in s.threads && b in s.threads && s.threads[a].Aborting? && s.threads[b].Aborting? ==> a == b)
  }

  /** Past the limit, someone reports or is about to decide to. */
  ghost predicate Guarded(s: Heap) {
    s.limit != 0 && s.live > s.limit ==>
      exists thread :: thread in s.threads && (s.threads[thread].Aborting? || Deciding(s.threads[thread], s.limit))
  }

  lemma StepReportsOnce(mayFail: bool, s: Heap, t: Heap, thread: nat, b: nat, size: nat)
    requires OneReport(s) && StepOf(mayFail, s, t, thread, b, size)
    ensures OneReport(t)
  {
    forall other | other in t.threads && other != thread
      ensures other in s.threads && t.threads[other] == s.threads[other] {}
    forall other | other in s.threads && other != thread ensures other in t.threads {}
    if s.tripped {
      var a :| a in s.threads && s.threads[a].Aborting?;
      assert a in t.threads && t.threads[a].Aborting?;
    } else if t.tripped {
      assert t.threads[thread].Aborting?;
    }
  }

  lemma StepStaysGuarded(mayFail: bool, s: Heap, t: Heap, thread: nat, b: nat, size: nat)
    requires OneReport(s) && Guarded(s) && StepOf(mayFail, s, t, thread, b, size) && t.limit == s.limit
    ensures Guarded(t)
  {
    if t.limit != 0 && t.live > t.limit {
      if t.live > s.live {
        assert thread in t.threads && Deciding(t.threads[thread], t.limit);
      } else {
        var w :| w in s.threads && (s.threads[w].Aborting? || Deciding(s.threads[w], s.limit));
        if w != thread || s.threads[w].Aborting? || t.threads == s.threads {
          assert w in t.threads && t.threads[w] == s.threads[w];
        } else if s.threads[w].Charged? {
          assert LoadLimit(s, t, thread);
          assert w in t.threads && t.threads[w].Over?;
        } else {
          SwapFindsReporter(s, t, thread);
        }
      }
    }
  }

  lemma SwapFindsReporter(s: Heap, t: Heap, thread: nat)
    requires OneReport(s) && Swap(s, t, thread)
    ensures exists w :: w in t.threads && t.threads[w].Aborting?
  {
    if s.tripped {
      var a :| a in s.threads && s.threads[a].Aborting?;
      assert a in t.threads && t.threads[a].Aborting?;
    } else {
      assert t.threads[thread].Aborting?;
    }
  }

  /** However threads interleave and the limit moves, at most one ever reaches the abort. */
  lemma {:induction false} ReportsOnce(mayFail: bool, trace: seq<Heap>, n: nat)
    requires Run(mayFail, trace) && n < |trace|
    ensures OneReport(trace[n])
  {
    if n > 0 {
      ReportsOnce(mayFail, trace, n - 1);
      assert Step(mayFail, trace[n - 1], trace[n - 1 + 1]);
      var thread, b, size :| StepOf(mayFail, trace[n - 1], trace[n], thread, b, size);
      StepReportsOnce(mayFail, trace[n - 1], trace[n], thread, b, size);
    }
  }

  /**
   Under a fixed limit, live bytes past it mean a thread is aborting, or has seen such a total and has
   not swapped the flag yet. With no call under way, that is an abort.
   */
  lemma {:induction false} NeverSilentlyOver(mayFail: bool, trace: seq<Heap>, n: nat)
    requires Run(mayFail, trace) && n < |trace|
    requires forall i :: 0 <= i < |trace| ==> trace[i].limit == trace[0].limit
    ensures Guarded(trace[n])
  {
    if n > 0 {
      NeverSilentlyOver(mayFail, trace, n - 1);
      ReportsOnce(mayFail, trace, n - 1);
      assert Step(mayFail, trace[n - 1], trace[n - 1 + 1]);
      var thread, b, size :| StepOf(mayFail, trace[n - 1], trace[n], thread, b, size);
      StepStaysGuarded(mayFail, trace[n - 1], trace[n], thread, b, size);
    }
  }

  // ---------------------------------------------------------------- nobody reports without cause

  ghost predicate LiveAt(trace: seq<Heap>, j: nat, total: int) {
    j < |trace| && trace[j].live == total
  }

  ghost predicate LimitAt(trace: seq<Heap>, i: nat, limit: nat) {
    i < |trace| && trace[i].limit == limit
  }

  /** By state `n` the counter has stood at `total`. */
  ghost predicate Stood(trace: seq<Heap>, n: nat, total: int) {
    exists j: nat :: j <= n && LiveAt(trace, j, total)
  }

  /** By state `n` the counter has stood at `total`, and then or later the limit was `limit`, not zero and less. */
  ghost predicate Passed(trace: seq<Heap>, n: nat, total: int, limit: nat) {
    0 != limit < total && exists j: nat, i: nat :: j <= i <= n && LiveAt(trace, j, total) && LimitAt(trace, i, limit)
  }

  ghost predicate HasCause(trace: seq<Heap>, n: nat, pc: Pc) {
    match pc
    case Charged(total, _, _) => Stood(trace, n, total)
    case Over(total, limit, _, _) => Passed(trace, n, total, limit)
    case Aborting(total, limit, _, _) => Passed(trace, n, total, limit)
    case Calling(_) => true
  }

  ghost predicate AllHaveCause(trace: seq<Heap>, n: nat)
    requires n < |trace|
  {
    forall w :: w in trace[n].threads ==> HasCause(trace, n, trace[n].threads[w])
  }

  lemma CauseLasts(trace: seq<Heap>, n: nat, pc: Pc)
    requires HasCause(trace, n, pc)
    ensures HasCause(trace, n + 1, pc)
  {
    match pc
    case Charged(total, _, _) =>
      var j: nat :| j <= n && LiveAt(trace, j, total);
    case Over(total, limit, _, _) =>
      var j: nat, i: nat :| j <= i <= n && LiveAt(trace, j, total) && LimitAt(trace, i, limit);
    case Aborting(total, limit, _, _) =>
      var j: nat, i: nat :| j <= i <= n && LiveAt(trace, j, total) && LimitAt(trace, i, limit);
    case Calling(_) =>
  }

  /** A thread's own step goes on for the cause it has. */
  lemma StepHasCause(mayFail: bool, trace: seq<Heap>, n: nat, thread: nat, b: nat, size: nat)
    requires n + 1 < |trace| && StepOf(mayFail, trace[n], trace[n + 1], thread, b, size)
    requires AllHaveCause(trace, n)
    ensures AllHaveCause(trace, n + 1)
  {
    var s, t := trace[n], trace[n + 1];
    forall w | w in t.threads ensures HasCause(trace, n + 1, t.threads[w]) {
      if w in s.threads { CauseLasts(trace, n, s.threads[w]); }
      if w in s.threads && t.threads[w] == s.threads[w] {
      } else if t.threads[w].Charged? {
        assert LiveAt(trace, n + 1, t.threads[w].total);
      } else if t.threads[w].Over? {
        var j: nat :| j <= n && LiveAt(trace, j, t.threads[w].total);
        assert LimitAt(trace, n, t.threads[w].limit);
      }
    }
  }

  lemma {:induction false} RunHasCause(mayFail: bool, trace: seq<Heap>, n: nat)
    requires Run(mayFail, trace) && n < |trace|
    ensures AllHaveCause(trace, n)
  {
    if n > 0 {
      RunHasCause(mayFail, trace, n - 1);
      assert Step(mayFail, trace[n - 1], trace[n - 1 + 1]);
      var thread, b, size :| StepOf(mayFail, trace[n - 1], trace[n - 1 + 1], thread, b, size);
      StepHasCause(mayFail, trace, n - 1, thread, b, size);
    }
  }

  /** A thread reports only a total the counter has stood at and a limit, not zero, that it was past then or later. */
  lemma ReportsWithCause(mayFail: bool, trace: seq<Heap>, n: nat, w: nat)
    requires Run(mayFail, trace) && n < |trace| && w in trace[n].threads && trace[n].threads[w].Aborting?
    ensures Passed(trace, n, trace[n].threads[w].total, trace[n].threads[w].limit)
  {
    RunHasCause(mayFail, trace, n);
    assert HasCause(trace, n, trace[n].threads[w]);
  }

  /** With a fixed limit, as long as it is zero or never passed, nobody reports and the flag stays down. */
  lemma QuietWithinLimit(mayFail: bool, trace: seq<Heap>, n: nat)
    requires Run(mayFail, trace) && n < |trace|
    requires forall i :: 0 <= i < |trace| ==> trace[i].limit == trace[0].limit
    requires trace[0].limit == 0 || forall i :: 0 <= i < |trace| ==> trace[i].live <= trace[0].limit
    ensures !trace[n].tripped && forall w :: w in trace[n].threads ==> !trace[n].threads[w].Aborting?
  {
    forall w | w in trace[n].threads ensures !trace[n].threads[w].Aborting? {
      RunHasCause(mayFail, trace, n);
      assert HasCause(trace, n, trace[n].threads[w]);
    }
    ReportsOnce(mayFail, trace, n);
  }

  // ---------------------------------------------------------------- sums over maps

  ghost function Sum(keys: set<nat>, f: nat -> int): int {
    if keys == {} then 0 else var k :| k in keys; f(k) + Sum(keys - {k}, f)
  }

  lemma {:induction false} SumWithout(keys: set<nat>, f: nat -> int, k: nat)
    requires k in keys
    ensures Sum(keys, f) == f(k) + Sum(keys - {k}, f)
  {
    var j :| j in keys && Sum(keys, f) == f(j) + Sum(keys - {j}, f);
    if j != k {
      SumWithout(keys - {j}, f, k);
      SumWithout(keys - {k}, f, j);
      assert keys - {j} - {k} == keys - {k} - {j};
    }
  }

  lemma {:induction false} SumAgrees(keys: set<nat>, f: nat -> int, g: nat -> int)
    requires forall k :: k in keys ==> f(k) == g(k)
    ensures Sum(keys, f) == Sum(keys, g)
  {
    if keys != {} {
      var k :| k in keys;
      SumWithout(keys, f, k);
      SumWithout(keys, g, k);
      SumAgrees(keys - {k}, f, g);
    }
  }

  ghost function Entry(keys: set<nat>, f: nat -> int, k: nat): int {
    if k in keys then f(k) else 0
  }

  lemma SumPeel(keys: set<nat>, f: nat -> int, k: nat)
    ensures Sum(keys, f) == Entry(keys, f, k) + Sum(keys - {k}, f)
  {
    if k in keys { SumWithout(keys, f, k); } else { assert keys - {k} == keys; }
  }

  /** One entry put in, changed or taken out. */
  lemma SumChanges(before: set<nat>, after: set<nat>, f: nat -> int, g: nat -> int, k: nat)
    requires before - {k} == after - {k}
    requires forall j :: j in before && j != k ==> f(j) == g(j)
    ensures Sum(after, g) - Entry(after, g, k) == Sum(before, f) - Entry(before, f, k)
  {
    SumPeel(before, f, k);
    SumPeel(after, g, k);
    SumAgrees(before - {k}, f, g);
  }

  lemma {:induction false} SumNonNegative(keys: set<nat>, f: nat -> int)
    requires forall k :: k in keys ==> f(k) >= 0
    ensures Sum(keys, f) >= 0
  {
    if keys != {} {
      var k :| k in keys;
      SumWithout(keys, f, k);
      SumNonNegative(keys - {k}, f);
    }
  }

  lemma {:induction false} SumSplits(keys: set<nat>, f: nat -> int, g: nat -> int, h: nat -> int)
    requires forall k :: k in keys ==> f(k) == g(k) + h(k)
    ensures Sum(keys, f) == Sum(keys, g) + Sum(keys, h)
  {
    if keys != {} {
      var k :| k in keys;
      SumWithout(keys, f, k);
      SumWithout(keys, g, k);
      SumWithout(keys, h, k);
      SumSplits(keys - {k}, f, g, h);
    }
  }

  // ---------------------------------------------------------------- the counter counts the blocks

  /** What the counter was told of block `b`, and what thread `w` has charged for a block to come. */
  ghost function Told(s: Heap): nat -> int {
    b => if b in s.blocks then s.blocks[b].told else 0
  }

  ghost function Coming(s: Heap): nat -> int {
    w => if w in s.threads && s.threads[w].call.Create? then s.threads[w].call.size else 0
  }

  ghost predicate Counted(s: Heap) {
    s.live == Sum(s.blocks.Keys, Told(s)) + Sum(s.threads.Keys, Coming(s)) + s.failures
  }

  /** Each owning call has its own block; a block no call owns is what the counter was told. */
  ghost predicate Owned(s: Heap) {
    && (forall w :: w in s.threads && !s.threads[w].call.Create? ==>
          s.threads[w].call.block in s.blocks && s.blocks[s.threads[w].call.block].busy)
    && (forall v, w ::
          v in s.threads && w in s.threads && v != w && !s.threads[v].call.Create? && !s.threads[w].call.Create? ==>
            s.threads[v].call.block != s.threads[w].call.block)
    && (forall w :: w in s.threads && s.threads[w].call.Free? ==> s.blocks[s.threads[w].call.block].told == 0)
    && (forall b :: b in s.blocks && !s.blocks[b].busy ==> s.blocks[b].told == s.blocks[b].size)
  }

  lemma BeginOwns(s: Heap, t: Heap, thread: nat, b: nat, size: nat)
    requires Owned(s)
    requires BeginAlloc(s, t, thread, size) || BeginDealloc(s, t, thread, b) || BeginRealloc(s, t, thread, b, size)
    ensures Owned(t)
  {}

  lemma DecideOwns(s: Heap, t: Heap, thread: nat)
    requires Owned(s) && (LoadLimit(s, t, thread) || Swap(s, t, thread))
    ensures Owned(t)
  {}

  lemma FinishOwns(s: Heap, t: Heap, thread: nat, b: nat)
    requires Owned(s) && (Succeed(s, t, thread, b) || Fail(s, t, thread))
    ensures Owned(t)
  {
    assert forall w :: w in t.threads ==> w in s.threads && w != thread && t.threads[w] == s.threads[w];
  }

  lemma StepOwns(mayFail: bool, s: Heap, t: Heap, thread: nat, b: nat, size: nat)
    requires Owned(s) && StepOf(mayFail, s, t, thread, b, size)
    ensures Owned(t)
  {
    if BeginAlloc(s, t, thread, size) || BeginDealloc(s, t, thread, b) || BeginRealloc(s, t, thread, b, size) {
      BeginOwns(s, t, thread, b, size);
    } else if LoadLimit(s, t, thread) || Swap(s, t, thread) {
      DecideOwns(s, t, thread);
    } else if Succeed(s, t, thread, b) || Fail(s, t, thread) {
      FinishOwns(s, t, thread, b);
    }
  }

  /** The step's own block and thread account for what it did to the counter and the debt. */
  ghost predicate Balanced(s: Heap, t: Heap, thread: nat, b: nat) {
    && s.blocks.Keys - {b} == t.blocks.Keys - {b}
    && s.threads.Keys - {thread} == t.threads.Keys - {thread}
    && (forall j :: j in s.blocks && j != b ==> j in t.blocks && t.blocks[j] == s.blocks[j])
    && (forall j :: j in s.threads && j != thread ==> j in t.threads && t.threads[j] == s.threads[j])
    && t.live - t.failures - Entry(t.blocks.Keys, Told(t), b) - Entry(t.threads.Keys, Coming(t), thread)
       == s.live - s.failures - Entry(s.blocks.Keys, Told(s), b) - Entry(s.threads.Keys, Coming(s), thread)
  }

  lemma BalancedCounts(s: Heap, t: Heap, thread: nat, b: nat)
    requires Counted(s) && Balanced(s, t, thread, b)
    ensures Counted(t)
  {
    SumChanges(s.blocks.Keys, t.blocks.Keys, Told(s), Told(t), b);
    SumChanges(s.threads.Keys, t.threads.Keys, Coming(s), Coming(t), thread);
  }

  lemma BeginBalances(s: Heap, t: Heap, thread: nat, b: nat, size: nat)
    requires Owned(s)
    requires BeginAlloc(s, t, thread, size) || BeginDealloc(s, t, thread, b) || BeginRealloc(s, t, thread, b, size)
    ensures Balanced(s, t, thread, b)
  {}

  lemma DecideBalances(s: Heap, t: Heap, thread: nat, b: nat)
    requires LoadLimit(s, t, thread) || Swap(s, t, thread)
    ensures Balanced(s, t, thread, b)
  {}

  /** The block a finishing call puts in, resizes or takes out. */
  ghost function Finished(s: Heap, thread: nat, b: nat): nat {
    if thread in s.threads && !s.threads[thread].call.Create? then s.threads[thread].call.block else b
  }

  lemma SuccessBalances(s: Heap, t: Heap, thread: nat, b: nat)
    requires Owned(s) && Succeed(s, t, thread, b)
    ensures Balanced(s, t, thread, Finished(s, thread, b))
  {}

  lemma FailureBalances(s: Heap, t: Heap, thread: nat, b: nat)
    requires Owned(s) && Fail(s, t, thread)
    ensures Balanced(s, t, thread, Finished(s, thread, b))
  {}

  lemma StepCounts(mayFail: bool, s: Heap, t: Heap, thread: nat, b: nat, size: nat)
    requires Owned(s) && Counted(s) && StepOf(mayFail, s, t, thread, b, size)
    ensures Counted(t)
  {
    if BeginAlloc(s, t, thread, size) || BeginDealloc(s, t, thread, b) || BeginRealloc(s, t, thread, b, size) {
      BeginBalances(s, t, thread, b, size);
      BalancedCounts(s, t, thread, b);
    } else if LoadLimit(s, t, thread) || Swap(s, t, thread) {
      DecideBalances(s, t, thread, b);
      BalancedCounts(s, t, thread, b);
    } else if Succeed(s, t, thread, b) || Fail(s, t, thread) {
      if Succeed(s, t, thread, b) { SuccessBalances(s, t, thread, b); } else { FailureBalances(s, t, thread, b); }
      BalancedCounts(s, t, thread, Finished(s, thread, b));
    } else {
      BalancedCounts(s, t, thread, b);
    }
  }

  lemma {:induction false} RunCounts(mayFail: bool, trace: seq<Heap>, n: nat)
    requires Run(mayFail, trace) && n < |trace|
    ensures Owned(trace[n]) && Counted(trace[n])
  {
    if n > 0 {
      RunCounts(mayFail, trace, n - 1);
      assert Step(mayFail, trace[n - 1], trace[n - 1 + 1]);
      var thread, b, size :| StepOf(mayFail, trace[n - 1], trace[n], thread, b, size);
      StepOwns(mayFail, trace[n - 1], trace[n], thread, b, size);
      StepCounts(mayFail, trace[n - 1], trace[n], thread, b, size);
    }
  }

  ghost function Size(s: Heap): nat -> int {
    b => if b in s.blocks then s.blocks[b].size else 0
  }

  ghost function Grown(s: Heap): nat -> int {
    b => if b in s.blocks && s.blocks[b].told > s.blocks[b].size then s.blocks[b].told - s.blocks[b].size else 0
  }

  ghost function Released(s: Heap): nat -> int {
    b => if b in s.blocks && s.blocks[b].told < s.blocks[b].size then s.blocks[b].size - s.blocks[b].told else 0
  }

  ghost function Outstanding(s: Heap): int { Sum(s.blocks.Keys, Size(s)) }

  ghost function ChargedInFlight(s: Heap): int { Sum(s.blocks.Keys, Grown(s)) + Sum(s.threads.Keys, Coming(s)) }

  ghost function ReleasedInFlight(s: Heap): int { Sum(s.blocks.Keys, Released(s)) }

  /**
   The counter is the outstanding bytes, plus what calls under way have charged, minus what they have
   released, off by exactly what failed system calls left behind; without that debt it is never negative.
   */
  lemma CounterIsExact(mayFail: bool, trace: seq<Heap>, n: nat)
    requires Run(mayFail, trace) && n < |trace|
    ensures var s := trace[n];
      s.live == Outstanding(s) + ChargedInFlight(s) - ReleasedInFlight(s) + s.failures
      && s.live >= s.failures
  {
    RunCounts(mayFail, trace, n);
    var s := trace[n];
    SumNonNegative(s.blocks.Keys, Told(s));
    SumNonNegative(s.threads.Keys, Coming(s));
    var net: nat -> int := (b: nat) => Told(s)(b) + Released(s)(b);
    SumSplits(s.blocks.Keys, net, Told(s), Released(s));
    SumSplits(s.blocks.Keys, net, Size(s), Grown(s));
  }

  lemma {:induction false} NoDebt(trace: seq<Heap>, n: nat)
    requires Run(false, trace) && n < |trace|
    ensures trace[n].failures == 0
  {
    if n > 0 {
      NoDebt(trace, n - 1);
      assert Step(false, trace[n - 1], trace[n - 1 + 1]);
    }
  }

  /** With a system allocator that never fails there is no debt: the counter is exact and never underflows. */
  lemma NeverUnderflows(trace: seq<Heap>, n: nat)
    requires Run(false, trace) && n < |trace|
    ensures var s := trace[n];
      s.live == Outstanding(s) + ChargedInFlight(s) - ReleasedInFlight(s) && s.live >= 0
  {
    CounterIsExact(false, trace, n);
    NoDebt(trace, n);
  }

  ghost predicate Reaches(s: Heap) {
    exists trace: seq<Heap> :: Run(true, trace) && trace[|trace| - 1] == s
  }

  lemma ReachNext(s: Heap, t: Heap, thread: nat, b: nat, size: nat)
    requires Reaches(s) && StepOf(true, s, t, thread, b, size)
    ensures Reaches(t)
  {
    var trace: seq<Heap> :| Run(true, trace) && trace[|trace| - 1] == s;
    var next := trace + [t];
    forall i | 0 <= i < |next| - 1 ensures Step(true, next[i], next[i + 1]) {
      if i < |trace| - 1 { assert Step(true, trace[i], trace[i + 1]); }
    }
    assert Run(true, next);
  }

  lemma ReachBlock() returns (s: Heap)
    ensures Reaches(s) && s.threads == map[] && s.live == 10 && s.blocks == map[7 := Block(10, 10, false)]
  {
    var s0 := Start(DEFAULT_LIMIT_BYTES);
    assert Run(true, [s0]);
    var s1 := s0.(live := s0.live + 10, threads := s0.threads[0 := Charged(s0.live + 10, 10, Create(10))]);
    ReachNext(s0, s1, 0, 7, 10);
    var s2 := s1.(threads := s1.threads[0 := Calling(Create(10))]);
    ReachNext(s1, s2, 0, 7, 10);
    s := s2.(blocks := s2.blocks[7 := Block(10, 10, false)], threads := s2.threads - {0});
    assert Succeed(s2, s, 0, 7);
    ReachNext(s2, s, 0, 7, 10);
  }

  /** One failed shrink is enough to take the counter below zero: the block is later released whole. */
  lemma FailedShrinkUnderflows()
    ensures exists s :: Reaches(s) && s.live < 0
  {
    var s3 := ReachBlock();
    var s4 := s3.(live := s3.live - 6, blocks := s3.blocks[7 := Block(10, 4, true)],
      threads := s3.threads[0 := Calling(Resize(7))]);
    assert BeginRealloc(s3, s4, 0, 7, 4);
    ReachNext(s3, s4, 0, 7, 4);
    var s5 := s4.(blocks := s4.blocks[7 := Block(10, 10, false)], threads := s4.threads - {0},
      failures := s4.failures + 4 - 10);
    assert Fail(s4, s5, 0);
    ReachNext(s4, s5, 0, 7, 4);
    var s6 := s5.(live := s5.live - 10, blocks := s5.blocks[7 := Block(10, 0, true)],
      threads := s5.threads[0 := Calling(Free(7))]);
    assert BeginDealloc(s5, s6, 0, 7);
    ReachNext(s5, s6, 0, 7, 4);
    assert s6.live == -6;
  }

  // ---------------------------------------------------------------- when the counter can go below zero

  /** A way from `s` to `t` with no failed system call. */
  ghost predicate Way(trace: seq<Heap>, s: Heap, t: Heap) {
    trace != [] && trace[0] == s && trace[|trace| - 1] == t
    && forall i :: 0 <= i < |trace| - 1 ==> Step(false, trace[i], trace[i + 1])
  }

  ghost predicate LeadsTo(s: Heap, t: Heap) {
    exists trace :: Way(trace, s, t)
  }

  /** A block some call is busy with is the block of a thread. */
  ghost predicate Manned(s: Heap) {
    forall b :: b in s.blocks && s.blocks[b].busy ==> exists w :: Works(s, w, b)
  }

  ghost predicate Works(s: Heap, w: nat, b: nat) {
    w in s.threads && !s.threads[w].call.Create? && s.threads[w].call.block == b
  }

  lemma StepMans(mayFail: bool, s: Heap, t: Heap, thread: nat, b: nat, size: nat)
    requires Manned(s) && StepOf(mayFail, s, t, thread, b, size)
    ensures Manned(t)
  {
    forall c | c in t.blocks && t.blocks[c].busy ensures exists w :: Works(t, w, c) {
      if c in s.blocks && s.blocks[c].busy {
        var w :| Works(s, w, c);
        if w != thread { assert Works(t, w, c); } else if w in t.threads { assert Works(t, w, c); }
      } else {
        assert Works(t, thread, c);
      }
    }
  }

  /** What every reachable state has. */
  ghost predicate Kept(s: Heap) {
    Owned(s) && Counted(s) && Manned(s)
  }

  lemma StepKept(mayFail: bool, s: Heap, t: Heap, thread: nat, b: nat, size: nat)
    requires Kept(s) && StepOf(mayFail, s, t, thread, b, size)
    ensures Kept(t) && (!mayFail ==> t.failures == s.failures)
  {
    StepOwns(mayFail, s, t, thread, b, size);
    StepCounts(mayFail, s, t, thread, b, size);
    StepMans(mayFail, s, t, thread, b, size);
  }

  lemma {:induction false} RunKept(mayFail: bool, trace: seq<Heap>, n: nat)
    requires Run(mayFail, trace) && n < |trace|
    ensures Kept(trace[n])
  {
    if n > 0 {
      RunKept(mayFail, trace, n - 1);
      assert Step(mayFail, trace[n - 1], trace[n - 1 + 1]);
      var thread, b, size :| StepOf(mayFail, trace[n - 1], trace[n], thread, b, size);
      StepKept(mayFail, trace[n - 1], trace[n], thread, b, size);
    }
  }

  lemma {:induction false} WayKept(trace: seq<Heap>, s: Heap, t: Heap)
    requires Way(trace, s, t) && Kept(s)
    ensures Kept(t) && t.failures == s.failures
  {
    hide Kept, StepOf;
    var n := |trace| - 1;
    if n > 0 {
      var mid := trace[n - 1];
      assert Step(false, trace[n - 1], trace[n - 1 + 1]);
      assert Way(trace[..n], s, mid) by {
        forall i | 0 <= i < n - 1 ensures Step(false, trace[..n][i], trace[..n][i + 1]) {
          assert Step(false, trace[i], trace[i + 1]);
        }
      }
      WayKept(trace[..n], s, mid);
      var thread, b, size :| StepOf(false, mid, t, thread, b, size);
      StepKept(false, mid, t, thread, b, size);
    }
  }

  /** One more step before a way. */
  lemma StepFirst(s: Heap, u: Heap, t: Heap, thread: nat, b: nat, size: nat)
    requires StepOf(false, s, u, thread, b, size) && LeadsTo(u, t)
    ensures LeadsTo(s, t)
  {
    var trace :| Way(trace, u, t);
    var longer := [s] + trace;
    forall i | 0 <= i < |longer| - 1 ensures Step(false, longer[i], longer[i + 1]) {
      if i > 0 { assert Step(false, trace[i - 1], trace[i - 1 + 1]); }
    }
    assert Way(longer, s, t);
  }

  lemma StayPut(s: Heap)
    ensures LeadsTo(s, s)
  {
    assert Way([s], s, s);
  }

  /** No thread has seen a total past the limit, so none has to report. */
  ghost predicate Undecided(s: Heap) {
    forall w :: w in s.threads ==> s.threads[w].Charged? || s.threads[w].Calling?
  }

  lemma {:induction false} FreshBlock(keys: set<nat>) returns (b: nat)
    ensures forall k :: k in keys ==> k < b
  {
    if keys == {} {
      b := 0;
    } else {
      var k :| k in keys;
      var c := FreshBlock(keys - {k});
      b := if k < c then c else k + 1;
      assert forall j :: j in keys ==> j == k || j in keys - {k};
    }
  }

  /** Nothing that follows `t` is out of reach of `s`. */
  ghost predicate Ahead(s: Heap, t: Heap) {
    forall z :: LeadsTo(t, z) ==> LeadsTo(s, z)
  }

  lemma AheadByOne(s: Heap, t: Heap, thread: nat, b: nat, size: nat)
    requires StepOf(false, s, t, thread, b, size)
    ensures Ahead(s, t)
  {
    forall z | LeadsTo(t, z) ensures LeadsTo(s, z) { StepFirst(s, t, z, thread, b, size); }
  }

  lemma AheadByTwo(s: Heap, u: Heap, v: Heap, t: Heap)
    requires Ahead(s, u) && Ahead(u, v) && LeadsTo(v, t)
    ensures LeadsTo(s, t)
  {
    hide LeadsTo;
  }

  /** With the limit lifted, a thread finds nothing to report. */
  lemma Decides(s: Heap, w: nat) returns (t: Heap)
    requires Kept(s) && s.limit == 0 && Undecided(s) && w in s.threads
    ensures Kept(t) && t.limit == 0 && Undecided(t) && t.threads.Keys == s.threads.Keys && t.threads[w].Calling?
    ensures Ahead(s, t)
  {
    hide Kept, LeadsTo;
    t := s;
    if s.threads[w].Charged? {
      t := s.(threads := s.threads[w := Calling(s.threads[w].call)]);
      assert LoadLimit(s, t, w);
      StepKept(false, s, t, w, 0, 0);
      AheadByOne(s, t, w, 0, 0);
    }
  }

  ghost function Completed(s: Heap, w: nat, fresh_: nat): Heap
    requires w in s.threads && s.threads[w].Calling?
  {
    match s.threads[w].call
    case Create(size) => s.(blocks := s.blocks[fresh_ := Block(size, size, false)], threads := s.threads - {w})
    case Free(b) => s.(blocks := s.blocks - {b}, threads := s.threads - {w})
    case Resize(b) =>
      if b !in s.blocks then s
      else s.(blocks := s.blocks[b := Block(s.blocks[b].told, s.blocks[b].told, false)], threads := s.threads - {w})
  }

  lemma Completes(s: Heap, w: nat) returns (t: Heap)
    requires Kept(s) && s.limit == 0 && Undecided(s) && w in s.threads && s.threads[w].Calling?
    ensures Kept(t) && t.limit == 0 && Undecided(t) && t.threads.Keys == s.threads.Keys - {w}
    ensures s.threads[w].call.Free? ==> t.blocks.Keys == s.blocks.Keys - {s.threads[w].call.block}
    ensures Ahead(s, t)
  {
    var fresh_ := FreshBlock(s.blocks.Keys);
    t := Completed(s, w, fresh_);
    assert s.threads[w].call.Resize? ==> s.threads[w].call.block in s.blocks;
    hide Kept, LeadsTo;
    assert Succeed(s, t, w, fresh_);
    StepKept(false, s, t, w, fresh_, 0);
    AheadByOne(s, t, w, fresh_, 0);
  }

  lemma {:induction false} AllFinish(s: Heap) returns (t: Heap)
    requires Kept(s) && s.limit == 0 && Undecided(s)
    ensures LeadsTo(s, t) && Kept(t) && t.limit == 0 && t.threads == map[]
    decreases |s.threads|
  {
    if s.threads == map[] {
      StayPut(s);
      t := s;
    } else {
      var w :| w in s.threads;
      hide Kept, LeadsTo, Undecided, Ahead;
      var u := Decides(s, w);
      var v := Completes(u, w);
      assert |v.threads.Keys| < |s.threads.Keys|;
      t := AllFinish(v);
      AheadByTwo(s, u, v, t);
    }
  }

  lemma IdleBlock(s: Heap, b: nat)
    requires Manned(s) && s.threads == map[] && b in s.blocks
    ensures !s.blocks[b].busy
  {
    assert !exists w :: Works(s, w, b);
  }

  /** Between calls, the release of a block can begin. */
  lemma BeginsRelease(s: Heap, b: nat) returns (t: Heap)
    requires Kept(s) && s.limit == 0 && s.threads == map[] && b in s.blocks
    ensures Kept(t) && t.limit == 0 && t.threads == map[0 := Calling(Free(b))] && t.blocks.Keys == s.blocks.Keys
    ensures Undecided(t) && Ahead(s, t)
  {
    IdleBlock(s, b);
    hide Kept, LeadsTo, Ahead, StepOf, Undecided;
    t := s.(live := s.live - s.blocks[b].size, blocks := s.blocks[b := Block(s.blocks[b].size, 0, true)],
            threads := s.threads[0 := Calling(Free(b))]);
    BeginsDealloc(s, t, 0, b);
    StepKept(false, s, t, 0, b, 0);
    AheadByOne(s, t, 0, b, 0);
    OnlyCalling(t, 0, Free(b));
  }

  lemma BeginsDealloc(s: Heap, t: Heap, thread: nat, b: nat)
    requires BeginDealloc(s, t, thread, b)
    ensures StepOf(false, s, t, thread, b, 0)
  {}

  lemma OnlyCalling(s: Heap, thread: nat, call: Call)
    requires s.threads == map[thread := Calling(call)]
    ensures Undecided(s)
  {}

  /** Between calls, a block can be released and gone. */
  lemma Releases(s: Heap, b: nat) returns (t: Heap)
    requires Kept(s) && s.limit == 0 && s.threads == map[] && b in s.blocks
    ensures Kept(t) && t.limit == 0 && t.threads == map[] && t.blocks.Keys == s.blocks.Keys - {b}
    ensures forall z :: LeadsTo(t, z) ==> LeadsTo(s, z)
  {
    hide Kept, LeadsTo, Undecided;
    var u := BeginsRelease(s, b);
    t := Completes(u, 0);
    assert t.threads.Keys == {};
  }

  lemma {:induction false} AllReleased(s: Heap) returns (t: Heap)
    requires Kept(s) && s.limit == 0 && s.threads == map[]
    ensures LeadsTo(s, t) && Kept(t) && t.threads == map[] && t.blocks == map[]
    decreases |s.blocks|
  {
    if s.blocks == map[] {
      StayPut(s);
      t := s;
    } else {
      var b :| b in s.blocks;
      hide Kept, LeadsTo;
      var u := Releases(s, b);
      assert |u.blocks.Keys| < |s.blocks.Keys|;
      t := AllReleased(u);
    }
  }

  lemma WaysJoin(s: Heap, u: Heap, t: Heap)
    requires LeadsTo(s, u) && LeadsTo(u, t)
    ensures LeadsTo(s, t)
  {
    var a :| Way(a, s, u);
    var b :| Way(b, u, t);
    var both := a + b[1..];
    forall i | 0 <= i < |both| - 1 ensures Step(false, both[i], both[i + 1]) {
      if i < |a| - 1 {
        assert Step(false, a[i], a[i + 1]);
      } else {
        assert Step(false, b[i - (|a| - 1)], b[i - (|a| - 1) + 1]);
      }
    }
    assert Way(both, s, t);
  }

  /**
   From a reachable state in which nobody has to report, and with no further failure, the counter can go
   below zero exactly when failed calls have left it short: when every block is released, that is what remains.
   */
  lemma UnderflowsExactly(s: Heap)
    requires Reaches(s) && Undecided(s)
    ensures (exists t :: LeadsTo(s, t) && t.live < 0) <==> s.failures < 0
  {
    var run: seq<Heap> :| Run(true, run) && run[|run| - 1] == s;
    RunKept(true, run, |run| - 1);
    forall t | LeadsTo(s, t) ensures t.live >= s.failures {
      var trace :| Way(trace, s, t);
      WayKept(trace, s, t);
      SumNonNegative(t.blocks.Keys, Told(t));
      SumNonNegative(t.threads.Keys, Coming(t));
    }
    var lifted := s.(limit := 0);
    assert SetLimit(s, lifted, 0);
    StepKept(false, s, lifted, 0, 0, 0);
    var idle := AllFinish(lifted);
    var empty := AllReleased(idle);
    WaysJoin(lifted, idle, empty);
    StepFirst(s, lifted, empty, 0, 0, 0);
    var trace :| Way(trace, s, empty);
    WayKept(trace, s, empty);
    assert empty.live == s.failures;
  }
}
