/**
 Builders sharing one model cache. Each is a process with a program counter; between any two of its
 steps the others may move, and it may crash, which frees its lock and leaves its files as they are.
 File operations are atomic except downloads and writes, which pass through arbitrary contents.
 */
module ModelCache {
  import opened Wrappers

  type Bytes = seq<bv8>
  type Id = nat

  /** A model's pinned digest, if it has one; a model without one has to be in the cache already. */
  datatype Model = Model(pinned: Option<string>, sha256: Bytes -> string)
  {
    predicate Accepts(bytes: Bytes) {
      pinned.Some? ==> sha256(bytes) == pinned.value
    }
  }

  /** Where the file a curl has open lies by now: it stays open when the file is renamed or removed. */
  datatype CurlFile = OnPart | OnPath | Unlinked

  datatype Pc =
    | Start                      // before `model_lock`
    | Locked                     // `path.exists()` comes next
    | Downloading(curl: CurlFile)  // curl is writing the partial file
    | Downloaded                 // curl exited with success
    | Validated(bytes: Bytes)    // the partial file hashed as pinned; the rename comes next
    | Holding(bytes: Bytes)      // `materialize` starts: the bytes are the ones at `path`
    | Writing(bytes: Bytes)      // the output's partial file is being written
    | Written(bytes: Bytes)      // it holds all of `bytes`; the rename comes next
    | Returning(ready: Option<Bytes>)  // about to drop the lock
    | Released(ready: Option<Bytes>)
    | Named(bytes: Bytes)        // `cargo::rustc-env` printed
    | Failed
    | Crashed(left: Option<CurlFile>)  // with the curl that outlived it, if one did

  datatype Builder = Builder(pc: Pc, output: Option<Bytes>, outputPart: Option<Bytes>)

  datatype State = State(path: Option<Bytes>, part: Option<Bytes>, lock: Option<Id>, builders: map<Id, Builder>)

  /** What the cache relies on: the lock excludes, and a crash takes the builder's curl with it. */
  datatype Rules = Rules(lockExcludes: bool, curlDies: bool)

  const RELIED_ON := Rules(true, true)

  predicate InLock(pc: Pc) {
    pc.Locked? || pc.Downloading? || pc.Downloaded? || pc.Validated? || pc.Holding? || pc.Writing? || pc.Written?
      || pc.Returning?
  }

  // ---------------------------------------------------------------- one step of one builder

  /** A curl's file once the partial file is renamed to the cache path, or removed. */
  function Renamed(file: CurlFile): CurlFile {
    match file case OnPart => OnPath case OnPath => Unlinked case Unlinked => Unlinked
  }

  function Removed(file: CurlFile): CurlFile {
    if file == OnPart then Unlinked else file
  }

  function Followed(builders: map<Id, Builder>, move: CurlFile -> CurlFile): map<Id, Builder> {
    map id | id in builders ::
      builders[id].(pc := match builders[id].pc
                          case Downloading(file) => Downloading(move(file))
                          case Crashed(Some(file)) => Crashed(Some(move(file)))
                          case pc => pc)
  }

  function RenamePart(s: State): State {
    s.(path := s.part, part := None, builders := Followed(s.builders, Renamed))
  }

  function RemovePart(s: State): State {
    s.(part := None, builders := Followed(s.builders, Removed))
  }

  /** A running curl truncates and writes the file it has open. */
  ghost predicate CurlWrites(s: State, t: State, file: CurlFile) {
    match file
    case OnPart => exists bytes :: t == s.(part := Some(bytes))
    case OnPath => exists bytes :: t == s.(path := Some(bytes))
    case Unlinked => t == s
  }

  function At(s: State, id: Id, pc: Pc): State
    requires id in s.builders
  {
    s.(builders := s.builders[id := s.builders[id].(pc := pc)])
  }

  function Unlocked(s: State, id: Id): State {
    if s.lock == Some(id) then s.(lock := None) else s
  }

  /** Fetching: the partial file is downloaded, validated and renamed, or removed. */
  ghost predicate FetchStep(m: Model, s: State, t: State, id: Id, pc: Pc)
    requires id in s.builders
  {
    match pc
    case Downloading(file) =>
      || CurlWrites(s, t, file)
      || (s.part.Some? && t == At(s, id, Downloaded))
      || t == At(RemovePart(s), id, Returning(None))                // curl failed
      || t == At(s, id, Returning(None))                            // curl could not run
    case Downloaded =>
      || (s.part.Some? && m.Accepts(s.part.value) && t == At(s, id, Validated(s.part.value)))
      || t == At(RemovePart(s), id, Returning(None))                // unreadable, or the digest differs
    case Validated(bytes) =>
      || (s.part.Some? && t == At(RenamePart(s), id, Holding(bytes)))
      || t == At(s, id, Returning(None))                            // the rename failed
    case _ => false
  }

  /** Publishing the validated bytes to the builder's own output. */
  ghost predicate MaterializeStep(s: State, t: State, id: Id, pc: Pc)
    requires id in s.builders
  {
    var b := s.builders[id];
    match pc
    case Holding(bytes) =>
      || (b.output == Some(bytes) && t == At(s, id, Returning(Some(bytes))))
      || (b.output != Some(bytes) && t == At(s, id, Writing(bytes)))
      || t == At(s, id, Returning(None))
    case Writing(bytes) =>
      || (exists some :: t == s.(builders := s.builders[id := b.(outputPart := Some(some))]))
      || t == s.(builders := s.builders[id := b.(pc := Written(bytes), outputPart := Some(bytes))])
      || t == At(s, id, Returning(None))
    case Written(bytes) =>
      || (b.outputPart.Some?
          && t == s.(builders := s.builders[id := Builder(Returning(Some(bytes)), b.outputPart, None)]))
      || t == At(s, id, Returning(None))
    case _ => false
  }

  ghost predicate LockStep(m: Model, r: Rules, s: State, t: State, id: Id, pc: Pc)
    requires id in s.builders
  {
    match pc
    case Start =>
      || ((s.lock == None || !r.lockExcludes) && t == At(s.(lock := Some(id)), id, Locked))
      || t == At(s, id, Failed)
    case Locked =>
      || (s.path.Some? && m.Accepts(s.path.value) && t == At(s, id, Holding(s.path.value)))
      || (s.path.Some? && t == At(s, id, Returning(None)))          // unreadable, or the digest differs
      || (s.path.None? && m.pinned.Some? && t == At(s, id, Downloading(OnPart)))
      || (s.path.None? && m.pinned.None? && t == At(s, id, Returning(None)))
    case Returning(ready) => t == At(Unlocked(s, id), id, Released(ready))
    case Released(ready) => t == At(s, id, if ready.Some? then Named(ready.value) else Failed)
    case Failed => t == At(s, id, Start)                            // a later build
    case Named(_) => t == At(s, id, Start)
    case Crashed(_) => t == At(s, id, Start)
    case _ => false
  }

  ghost predicate StepOf(m: Model, r: Rules, s: State, t: State, id: Id) {
    id in s.builders
    && var pc := s.builders[id].pc;
       || LockStep(m, r, s, t, id, pc)
       || FetchStep(m, s, t, id, pc)
       || MaterializeStep(s, t, id, pc)
       || t == At(Unlocked(s, id), id, Crashed(if pc.Downloading? && !r.curlDies then Some(pc.curl) else None))
       || (pc.Crashed? && pc.left.Some? && CurlWrites(s, t, pc.left.value))
  }

  ghost predicate Step(m: Model, r: Rules, s: State, t: State) {
    exists id :: StepOf(m, r, s, t, id)
  }

  ghost predicate Run(m: Model, r: Rules, trace: seq<State>) {
    trace != [] && Initial(trace[0]) && forall i :: 0 <= i < |trace| - 1 ==> Step(m, r, trace[i], trace[i + 1])
  }

  /** No builder has begun; any of the files may be there, with anything in them. */
  ghost predicate Initial(s: State) {
    s.lock == None && forall id :: id in s.builders ==> s.builders[id].pc == Start
  }

  // ---------------------------------------------------------------- what every step keeps

  /** The cache path holds nothing, or what the cache accepts. */
  ghost predicate PathOk(m: Model, s: State) {
    s.path.Some? ==> m.Accepts(s.path.value)
  }

  ghost predicate BuilderOk(m: Model, s: State, id: Id)
    requires id in s.builders
  {
    var b := s.builders[id];
    && (InLock(b.pc) ==> s.lock == Some(id))
    && match b.pc
       case Downloading(file) => s.path == None && file == OnPart
       case Downloaded => s.path == None
       case Validated(bytes) => s.path == None && s.part == Some(bytes) && m.Accepts(bytes)
       case Holding(bytes) => s.path == Some(bytes) && m.Accepts(bytes)
       case Writing(bytes) => s.path == Some(bytes) && m.Accepts(bytes)
       case Written(bytes) => s.path == Some(bytes) && m.Accepts(bytes) && b.outputPart == Some(bytes)
       case Returning(Some(bytes)) => s.path == Some(bytes) && m.Accepts(bytes) && b.output == Some(bytes)
       case Released(Some(bytes)) => s.path == Some(bytes) && m.Accepts(bytes) && b.output == Some(bytes)
       case Named(bytes) => s.path == Some(bytes) && m.Accepts(bytes) && b.output == Some(bytes)
       case Crashed(left) => left == None
       case _ => true
  }

  ghost predicate Invariant(m: Model, s: State) {
    forall id :: id in s.builders ==> BuilderOk(m, s, id)
  }

  /** No curl but the lock holder's is running, so nothing but its own program counter follows a file. */
  lemma OthersFollowNothing(m: Model, s: State, id: Id, pc: Pc, move: CurlFile -> CurlFile)
    requires Invariant(m, s) && s.lock == Some(id) && id in s.builders
    ensures At(s.(builders := Followed(s.builders, move)), id, pc).builders == At(s, id, pc).builders
  {
    forall other | other in s.builders && other != id ensures Followed(s.builders, move)[other] == s.builders[other] {
      assert BuilderOk(m, s, other);
    }
  }

  /** The step's own builder stays right, and the shared files change only as its lock allows. */
  ghost predicate Kept(m: Model, s: State, t: State, id: Id) {
    && t.builders.Keys == s.builders.Keys && id in t.builders && BuilderOk(m, t, id)
    && (forall other :: other in s.builders && other != id ==> t.builders[other] == s.builders[other])
    && (t.lock == s.lock || (s.lock == None && t.lock == Some(id)) || (s.lock == Some(id) && t.lock == None))
    && (t.part != s.part ==> s.lock == Some(id))
    && (t.path == s.path || (s.path == None && s.lock == Some(id) && t.path.Some? && m.Accepts(t.path.value)))
  }

  lemma LockStepKeeps(m: Model, s: State, t: State, id: Id)
    requires id in s.builders && BuilderOk(m, s, id) && LockStep(m, RELIED_ON, s, t, id, s.builders[id].pc)
    ensures Kept(m, s, t, id)
  {}

  lemma FetchStepKeeps(m: Model, s: State, t: State, id: Id)
    requires Invariant(m, s) && id in s.builders && FetchStep(m, s, t, id, s.builders[id].pc)
    ensures Kept(m, s, t, id)
  {
    assert BuilderOk(m, s, id);
    var pc := s.builders[id].pc;
    OthersFollowNothing(m, s, id, Returning(None), Removed);
    if pc.Validated? { OthersFollowNothing(m, s, id, Holding(pc.bytes), Renamed); }
    hide Followed, Invariant;
  }

  lemma MaterializeStepKeeps(m: Model, s: State, t: State, id: Id)
    requires id in s.builders && BuilderOk(m, s, id) && MaterializeStep(s, t, id, s.builders[id].pc)
    ensures Kept(m, s, t, id)
  {}

  lemma OwnStepKeeps(m: Model, s: State, t: State, id: Id)
    requires Invariant(m, s) && StepOf(m, RELIED_ON, s, t, id)
    ensures Kept(m, s, t, id)
  {
    hide LockStep, FetchStep, MaterializeStep, CurlWrites;
    assert BuilderOk(m, s, id);
    var pc := s.builders[id].pc;
    if LockStep(m, RELIED_ON, s, t, id, pc) {
      LockStepKeeps(m, s, t, id);
    } else if FetchStep(m, s, t, id, pc) {
      FetchStepKeeps(m, s, t, id);
    } else if MaterializeStep(s, t, id, pc) {
      MaterializeStepKeeps(m, s, t, id);
    }
  }

  lemma StepKeeps(m: Model, s: State, t: State)
    requires Invariant(m, s) && Step(m, RELIED_ON, s, t)
    ensures Invariant(m, t)
    ensures t.path == s.path || (s.path == None && t.path.Some? && m.Accepts(t.path.value))
  {
    var id :| StepOf(m, RELIED_ON, s, t, id);
    OwnStepKeeps(m, s, t, id);
    forall other | other in t.builders ensures BuilderOk(m, t, other) {
      assert BuilderOk(m, s, other);
    }
  }

  /** The path is written at most once, and only with accepted bytes. */
  ghost predicate Grows(m: Model, before: Option<Bytes>, after: Option<Bytes>) {
    after == before || (before == None && after.Some? && m.Accepts(after.value))
  }

  lemma {:induction false} RunKeeps(m: Model, trace: seq<State>, n: nat)
    requires Run(m, RELIED_ON, trace) && n < |trace|
    ensures Invariant(m, trace[n])
    ensures forall i :: 0 <= i <= n ==> Grows(m, trace[i].path, trace[n].path)
  {
    if n > 0 {
      RunKeeps(m, trace, n - 1);
      assert Step(m, RELIED_ON, trace[n - 1], trace[n - 1 + 1]);
      StepKeeps(m, trace[n - 1], trace[n]);
      forall i | 0 <= i <= n ensures Grows(m, trace[i].path, trace[n].path) {
        if i < n { assert Grows(m, trace[i].path, trace[n - 1].path); }
      }
    }
  }

  /** A cache path that starts absent never holds bytes that miss the pinned digest. */
  lemma CacheHoldsPinnedBytes(m: Model, trace: seq<State>, n: nat)
    requires Run(m, RELIED_ON, trace) && n < |trace| && trace[0].path == None
    ensures PathOk(m, trace[n])
    ensures trace[n].path.Some? && m.pinned.Some? ==> m.sha256(trace[n].path.value) == m.pinned.value
  {
    RunKeeps(m, trace, n);
    assert Grows(m, trace[0].path, trace[n].path);
  }

  /** A path once present is never changed, whatever it holds. */
  lemma PresentPathStays(m: Model, trace: seq<State>, i: nat, n: nat)
    requires Run(m, RELIED_ON, trace) && i <= n < |trace| && trace[i].path.Some?
    ensures trace[n].path == trace[i].path
  {
    RunKeeps(m, trace, n);
    assert Grows(m, trace[i].path, trace[n].path);
  }

  /**
   A builder names a snapshot only when its own output holds exactly the bytes it validated, and
   those are the bytes at the cache path: all builders of a run name the same snapshot, and none
   does while the path holds bytes that miss the digest.
   */
  lemma NamedIsValidated(m: Model, trace: seq<State>, n: nat, id: Id)
    requires Run(m, RELIED_ON, trace) && n < |trace|
    requires id in trace[n].builders && trace[n].builders[id].pc.Named?
    ensures var b := trace[n].builders[id];
      b.output == Some(b.pc.bytes) && m.Accepts(b.pc.bytes) && trace[n].path == Some(b.pc.bytes)
      && (m.pinned.Some? ==> m.sha256(b.pc.bytes) == m.pinned.value)
  {
    RunKeeps(m, trace, n);
    assert BuilderOk(m, trace[n], id);
  }

  /** At most one builder is between taking the lock and dropping it. */
  lemma LockExcludes(m: Model, trace: seq<State>, n: nat, a: Id, b: Id)
    requires Run(m, RELIED_ON, trace) && n < |trace|
    requires a in trace[n].builders && b in trace[n].builders
    requires InLock(trace[n].builders[a].pc) && InLock(trace[n].builders[b].pc)
    ensures a == b
  {
    RunKeeps(m, trace, n);
    assert BuilderOk(m, trace[n], a) && BuilderOk(m, trace[n], b);
  }

  // ---------------------------------------------------------------- what one builder brings about

  /** Steps of builder `id` alone lead from `s` to `t`. */
  ghost predicate Alone(m: Model, s: State, t: State, id: Id, trace: seq<State>) {
    trace != [] && trace[0] == s && trace[|trace| - 1] == t
    && forall i :: 0 <= i < |trace| - 1 ==> StepOf(m, RELIED_ON, trace[i], trace[i + 1], id)
  }

  ghost predicate Solo(m: Model, s: State, t: State, id: Id) {
    exists trace :: Alone(m, s, t, id, trace)
  }

  lemma SoloNext(m: Model, s: State, t: State, u: State, id: Id)
    requires Solo(m, s, t, id) && StepOf(m, RELIED_ON, t, u, id)
    ensures Solo(m, s, u, id)
  {
    var trace :| Alone(m, s, t, id, trace);
    var next := trace + [u];
    forall i | 0 <= i < |next| - 1 ensures StepOf(m, RELIED_ON, next[i], next[i + 1], id) {
      if i < |trace| - 1 { assert StepOf(m, RELIED_ON, trace[i], trace[i + 1], id); }
    }
    assert Alone(m, s, u, id, next);
  }

  lemma SoloStart(m: Model, s: State, id: Id)
    ensures Solo(m, s, s, id)
  {
    assert Alone(m, s, s, id, [s]);
  }

  /** A builder that holds the validated bytes publishes and names them. */
  lemma HoldingNames(m: Model, s: State, t: State, id: Id, bytes: Bytes) returns (u: State)
    requires Solo(m, s, t, id) && id in t.builders && t.builders[id].pc == Holding(bytes) && t.lock == Some(id)
    ensures Solo(m, s, u, id) && u.path == t.path && u.lock == None
    ensures id in u.builders && u.builders[id].pc == Named(bytes)
  {
    hide Solo;
    var ready := At(t, id, Returning(Some(bytes)));
    if t.builders[id].output != Some(bytes) {
      var writing := At(t, id, Writing(bytes));
      SoloNext(m, s, t, writing, id);
      var b := writing.builders[id];
      var written := writing.(builders := writing.builders[id := b.(pc := Written(bytes), outputPart := Some(bytes))]);
      SoloNext(m, s, writing, written, id);
      ready := written.(builders := written.builders[id := Builder(Returning(Some(bytes)), Some(bytes), None)]);
      SoloNext(m, s, written, ready, id);
    } else {
      SoloNext(m, s, t, ready, id);
    }
    var released := At(Unlocked(ready, id), id, Released(Some(bytes)));
    SoloNext(m, s, ready, released, id);
    u := At(released, id, Named(bytes));
    SoloNext(m, s, released, u, id);
  }

  lemma TakesLock(m: Model, s: State, id: Id) returns (t: State)
    requires id in s.builders && s.builders[id].pc == Start && s.lock == None
    ensures Solo(m, s, t, id) && t == At(s.(lock := Some(id)), id, Locked)
  {
    SoloStart(m, s, id);
    t := At(s.(lock := Some(id)), id, Locked);
    SoloNext(m, s, s, t, id);
  }

  /** From an accepted cache a builder that gets the lock names those bytes. */
  lemma NamesCached(m: Model, s: State, id: Id, bytes: Bytes) returns (u: State)
    requires id in s.builders && s.builders[id].pc == Start && s.lock == None
    requires s.path == Some(bytes) && m.Accepts(bytes)
    ensures Solo(m, s, u, id) && u.path == s.path && u.lock == None
    ensures id in u.builders && u.builders[id].pc == Named(bytes)
  {
    hide Solo;
    var locked := TakesLock(m, s, id);
    var holding := At(locked, id, Holding(bytes));
    SoloNext(m, s, locked, holding, id);
    u := HoldingNames(m, s, holding, id, bytes);
  }

  /** From an absent path, a download of accepted bytes is cached and named. */
  lemma NamesDownloaded(m: Model, s: State, id: Id, good: Bytes) returns (u: State)
    requires id in s.builders && s.builders[id].pc == Start && s.lock == None
    requires s.path == None && m.pinned.Some? && m.Accepts(good)
    ensures Solo(m, s, u, id) && u.path == Some(good) && u.lock == None
    ensures id in u.builders && u.builders[id].pc == Named(good)
  {
    hide Solo;
    var locked := TakesLock(m, s, id);
    var downloading := At(locked, id, Downloading(OnPart));
    SoloNext(m, s, locked, downloading, id);
    var written := downloading.(part := Some(good));
    assert CurlWrites(downloading, written, OnPart);
    SoloNext(m, s, downloading, written, id);
    var loaded := At(written, id, Downloaded);
    SoloNext(m, s, written, loaded, id);
    var validated := At(loaded, id, Validated(good));
    SoloNext(m, s, loaded, validated, id);
    var holding := At(RenamePart(validated), id, Holding(good));
    SoloNext(m, s, validated, holding, id);
    u := HoldingNames(m, s, holding, id, good);
  }

  /** Wherever its holder is, a crash leaves the lock free for the next. */
  lemma CrashFreesLock(m: Model, s: State, id: Id)
    requires id in s.builders && s.lock == Some(id)
    ensures exists t :: StepOf(m, RELIED_ON, s, t, id) && t.lock == None && t.path == s.path && t.part == s.part
  {
    var t := At(Unlocked(s, id), id, Crashed(None));
    assert StepOf(m, RELIED_ON, s, t, id);
  }

  /** The cache holds refused bytes, or nothing and there is nothing to fetch that would be accepted. */
  ghost predicate Barren(m: Model, path: Option<Bytes>) {
    match path
    case Some(bytes) => !m.Accepts(bytes)
    case None => m.pinned.None? || forall bytes :: !m.Accepts(bytes)
  }

  /** A builder that has no bytes and will get none. */
  predicate Bare(m: Model, path: Option<Bytes>, pc: Pc) {
    match pc
    case Start => true
    case Locked => true
    case Downloading(file) => file == OnPart && path == None && m.pinned.Some?
    case Downloaded => path == None && m.pinned.Some?
    case Returning(ready) => ready == None
    case Released(ready) => ready == None
    case Failed => true
    case Crashed(left) => left == None
    case _ => false
  }

  lemma {:induction false} BarrenStays(m: Model, s: State, t: State, id: Id, trace: seq<State>)
    requires Barren(m, s.path) && id in s.builders && Bare(m, s.path, s.builders[id].pc) && Alone(m, s, t, id, trace)
    ensures t.path == s.path && id in t.builders && Bare(m, t.path, t.builders[id].pc)
    decreases |trace|
  {
    var n := |trace| - 1;
    if n > 0 {
      var mid := trace[n - 1];
      assert StepOf(m, RELIED_ON, trace[n - 1], trace[n - 1 + 1], id);
      assert Alone(m, s, mid, id, trace[..n]);
      BarrenStays(m, s, mid, id, trace[..n]);
      BareStep(m, mid, t, id);
    }
  }

  lemma BareStep(m: Model, s: State, t: State, id: Id)
    requires Barren(m, s.path) && id in s.builders && Bare(m, s.path, s.builders[id].pc)
      && StepOf(m, RELIED_ON, s, t, id)
    ensures t.path == s.path && id in t.builders && Bare(m, t.path, t.builders[id].pc)
  {}

  /**
   Of a builder that is to start while nobody holds the lock: its own steps can bring it to name a model
   exactly when the cache holds accepted bytes, or nothing and there are accepted bytes to fetch by a pin.
   */
  lemma NamesExactly(m: Model, s: State, id: Id)
    requires id in s.builders && s.builders[id].pc == Start && s.lock == None
    ensures (exists t :: Solo(m, s, t, id) && id in t.builders && t.builders[id].pc.Named?) <==> !Barren(m, s.path)
  {
    if Barren(m, s.path) {
      forall t | Solo(m, s, t, id) ensures id in t.builders && !t.builders[id].pc.Named? {
        var trace :| Alone(m, s, t, id, trace);
        BarrenStays(m, s, t, id, trace);
      }
    } else if s.path.Some? {
      var u := NamesCached(m, s, id, s.path.value);
    } else {
      var good :| m.Accepts(good);
      var u := NamesDownloaded(m, s, id, good);
    }
  }

  // ---------------------------------------------------------------- why the rules are needed

  ghost predicate Reaches(m: Model, r: Rules, s: State) {
    exists trace: seq<State> :: Run(m, r, trace) && trace[0].path == None && trace[|trace| - 1] == s
  }

  lemma ReachNext(m: Model, r: Rules, s: State, t: State, id: Id)
    requires Reaches(m, r, s) && StepOf(m, r, s, t, id)
    ensures Reaches(m, r, t)
  {
    var trace: seq<State> :| Run(m, r, trace) && trace[0].path == None && trace[|trace| - 1] == s;
    var next := trace + [t];
    forall i | 0 <= i < |next| - 1 ensures Step(m, r, next[i], next[i + 1]) {
      if i < |trace| - 1 { assert Step(m, r, trace[i], trace[i + 1]); }
    }
    assert Run(m, r, next);
  }

  /** Two builders, nothing on disk. */
  function Empty(): State {
    State(None, None, None, map[0 := Builder(Start, None, None), 1 := Builder(Start, None, None)])
  }

  lemma ReachEmpty(m: Model, r: Rules)
    ensures Reaches(m, r, Empty())
  {
    assert Run(m, r, [Empty()]);
  }

  /** From a free lock and an absent path, builder `id` takes the lock and starts curl. */
  lemma ReachDownload(m: Model, r: Rules, s: State, id: Id) returns (t: State)
    requires m.pinned.Some? && Reaches(m, r, s) && id in s.builders && s.builders[id].pc == Start
    requires (s.lock == None || !r.lockExcludes) && s.path == None
    ensures Reaches(m, r, t) && t == At(s.(lock := Some(id)), id, Downloading(OnPart))
  {
    var locked := At(s.(lock := Some(id)), id, Locked);
    ReachNext(m, r, s, locked, id);
    t := At(locked, id, Downloading(OnPart));
    ReachNext(m, r, locked, t, id);
    assert t.builders == At(s.(lock := Some(id)), id, Downloading(OnPart)).builders;
  }

  /** Its download of accepted bytes ends and is validated. */
  lemma ReachValidated(m: Model, r: Rules, s: State, id: Id, good: Bytes) returns (t: State)
    requires m.Accepts(good) && Reaches(m, r, s) && id in s.builders && s.builders[id].pc == Downloading(OnPart)
    ensures Reaches(m, r, t) && t == At(s.(part := Some(good)), id, Validated(good))
  {
    var written := s.(part := Some(good));
    assert CurlWrites(s, written, OnPart);
    ReachNext(m, r, s, written, id);
    var loaded := At(written, id, Downloaded);
    ReachNext(m, r, written, loaded, id);
    t := At(loaded, id, Validated(good));
    ReachNext(m, r, loaded, t, id);
    assert t.builders == At(s.(part := Some(good)), id, Validated(good)).builders;
  }

  /** The rename publishes the validated bytes, and then a second curl writes on into the file it has open. */
  lemma ReachOverwritten(m: Model, r: Rules, s: State, id: Id, good: Bytes, other: Id, bad: Bytes)
    requires !m.Accepts(bad) && Reaches(m, r, s) && id in s.builders && other in s.builders && id != other
    requires s.builders[id].pc == Validated(good) && s.part.Some?
    requires s.builders[other].pc == Downloading(OnPart) || s.builders[other].pc == Crashed(Some(OnPart))
    ensures exists t :: Reaches(m, r, t) && !PathOk(m, t)
  {
    var u := At(RenamePart(s), id, Holding(good));
    ReachNext(m, r, s, u, id);
    var t := u.(path := Some(bad));
    assert CurlWrites(u, t, OnPath);
    ReachNext(m, r, u, t, other);
    assert !PathOk(m, t);
  }

  /** Without the lock, one builder's download goes on in the file another has validated and renamed. */
  lemma LockIsNeeded(m: Model, r: Rules, good: Bytes, bad: Bytes)
    requires m.Accepts(good) && !m.Accepts(bad) && !r.lockExcludes
    ensures exists t :: Reaches(m, r, t) && !PathOk(m, t)
  {
    ReachEmpty(m, r);
    var s := ReachDownload(m, r, Empty(), 0);
    s := ReachValidated(m, r, s, 0, good);
    s := ReachDownload(m, r, s, 1);
    ReachOverwritten(m, r, s, 0, good, 1, bad);
  }

  /** So does a curl that outlives its builder, in the file the next holder of the lock has validated and renamed. */
  lemma CurlMustDie(m: Model, r: Rules, good: Bytes, bad: Bytes)
    requires m.Accepts(good) && !m.Accepts(bad) && !r.curlDies
    ensures exists t :: Reaches(m, r, t) && !PathOk(m, t)
  {
    ReachEmpty(m, r);
    var s := ReachDownload(m, r, Empty(), 0);
    var crashed := At(Unlocked(s, 0), 0, Crashed(Some(OnPart)));
    ReachNext(m, r, s, crashed, 0);
    s := ReachDownload(m, r, crashed, 1);
    s := ReachValidated(m, r, s, 1, good);
    ReachOverwritten(m, r, s, 1, good, 0, bad);
  }

  /** No run that begins with an absent path ever has refused bytes there. */
  ghost predicate Safe(m: Model, r: Rules) {
    forall s :: Reaches(m, r, s) ==> PathOk(m, s)
  }

  /**
   Of a model some bytes are accepted for and some are not, the cache is safe exactly when the lock
   excludes and a crash takes the builder's curl with it: neither rule can be done without.
   */
  lemma SafeExactly(m: Model, r: Rules, good: Bytes, bad: Bytes)
    requires m.Accepts(good) && !m.Accepts(bad)
    ensures Safe(m, r) <==> r.lockExcludes && r.curlDies
  {
    if !r.lockExcludes {
      LockIsNeeded(m, r, good, bad);
    } else if !r.curlDies {
      CurlMustDie(m, r, good, bad);
    } else {
      forall s | Reaches(m, r, s) ensures PathOk(m, s) {
        var trace: seq<State> :| Run(m, r, trace) && trace[0].path == None && trace[|trace| - 1] == s;
        CacheHoldsPinnedBytes(m, trace, |trace| - 1);
      }
    }
  }
}
