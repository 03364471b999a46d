/**
 The beat analyser's resume state: the layered decoder, the encoder it answers to, and the final
 validation whose binary search is right because of what the layers before it enforce. Lengths and
 indices are 64 bits wide; samples and marks are the bit patterns of their `f32`.
 */
module BeatResume {
  import opened Octets
  import opened Wrappers
  import opened Blob

  // ---------------------------------------------------------------- lists of records

  /**
   How one kind of record is read after a record that left `previous`, how it is written, which records
   may follow which, and what a record leaves for the next.
   */
  datatype Codec<!T> = Codec(
    step: (Option<nat>, Bytes, nat) -> Parsed<T>,
    emit: T -> Bytes,
    follows: (Option<nat>, T) -> bool,
    leaves: T -> Option<nat>)

  function ParseEach<T>(c: Codec<T>, n: nat, previous: Option<nat>, bs: Bytes, at: nat): Parsed<seq<T>> {
    if n == 0 then Ok([], at)
    else match c.step(previous, bs, at)
      case Err(e) => Err(e)
      case Ok(x, k) =>
        match ParseEach(c, n - 1, c.leaves(x), bs, k) case Err(e) => Err(e) case Ok(xs, k) => Ok([x] + xs, k)
  }

  function ParseList<T>(c: Codec<T>, itemBytes: nat, bs: Bytes, at: nat): Parsed<seq<T>> {
    match ParseCount(itemBytes, bs, at) case Err(e) => Err(e) case Ok(n, k) => ParseEach(c, n, None, bs, k)
  }

  function EmitEach<T>(c: Codec<T>, xs: seq<T>): Bytes {
    if xs == [] then [] else c.emit(xs[0]) + EmitEach(c, xs[1..])
  }

  function EmitList<T>(c: Codec<T>, xs: seq<T>): Bytes {
    LittleEndian(|xs|, 8) + EmitEach(c, xs)
  }

  predicate InOrder<T>(c: Codec<T>, previous: Option<nat>, xs: seq<T>)
    decreases |xs|
  {
    xs != [] ==> c.follows(previous, xs[0]) && InOrder(c, c.leaves(xs[0]), xs[1..])
  }

  /** A written record reads back if it may follow, and is refused if it may not. */
  ghost predicate ReadsBack<T(!new)>(c: Codec<T>, itemBytes: nat, x: T) {
    itemBytes <= |c.emit(x)|
    && forall previous, bs, at: nat :: At(bs, at, c.emit(x)) ==>
      c.step(previous, bs, at) == if c.follows(previous, x) then Ok(x, at + |c.emit(x)|) else Err(Corrupt)
  }

  lemma {:induction false} EachReadsBack<T(!new)>(c: Codec<T>, itemBytes: nat, previous: Option<nat>, xs: seq<T>,
                                                  bs: Bytes, at: nat)
    requires (forall i :: 0 <= i < |xs| ==> ReadsBack(c, itemBytes, xs[i])) && At(bs, at, EmitEach(c, xs))
    ensures ParseEach(c, |xs|, previous, bs, at)
      == if InOrder(c, previous, xs) then Ok(xs, at + |EmitEach(c, xs)|) else Err(Corrupt)
    decreases |xs|
  {
    if xs != [] {
      var x, rest := xs[0], xs[1..];
      assert ReadsBack(c, itemBytes, x);
      AtConcat(bs, at, c.emit(x), EmitEach(c, rest));
      EachReadsBack(c, itemBytes, c.leaves(x), rest, bs, at + |c.emit(x)|);
      assert xs == [x] + rest;
    }
  }

  lemma {:induction false} EachIsLong<T(!new)>(c: Codec<T>, itemBytes: nat, xs: seq<T>)
    requires forall i :: 0 <= i < |xs| ==> ReadsBack(c, itemBytes, xs[i])
    ensures |xs| * itemBytes <= |EmitEach(c, xs)|
    decreases |xs|
  {
    if xs != [] {
      assert ReadsBack(c, itemBytes, xs[0]);
      EachIsLong(c, itemBytes, xs[1..]);
      assert |xs| * itemBytes == (|xs| - 1) * itemBytes + itemBytes;
    }
  }

  lemma ListReadsBack<T(!new)>(c: Codec<T>, itemBytes: nat, xs: seq<T>, bs: Bytes, at: nat)
    requires |xs| < Pow256(8) && (forall i :: 0 <= i < |xs| ==> ReadsBack(c, itemBytes, xs[i]))
    requires At(bs, at, EmitList(c, xs))
    ensures ParseList(c, itemBytes, bs, at)
      == if InOrder(c, None, xs) then Ok(xs, at + |EmitList(c, xs)|) else Err(Corrupt)
  {
    EachIsLong(c, itemBytes, xs);
    CountAt(|xs|, itemBytes, EmitEach(c, xs), bs, at);
    EachReadsBack(c, itemBytes, None, xs, bs, at + 8);
  }

  /** A record that is read is one that may follow. */
  ghost predicate Admits<T(!new)>(c: Codec<T>) {
    forall previous, bs, at: nat :: c.step(previous, bs, at).Ok? ==> c.follows(previous, c.step(previous, bs, at).value)
  }

  lemma {:induction false} ParsedInOrder<T(!new)>(c: Codec<T>, n: nat, previous: Option<nat>, bs: Bytes, at: nat)
    requires Admits(c) && ParseEach(c, n, previous, bs, at).Ok?
    ensures var xs := ParseEach(c, n, previous, bs, at).value;
      |xs| == n && InOrder(c, previous, xs)
  {
    if n > 0 {
      var first := c.step(previous, bs, at);
      ParsedInOrder(c, n - 1, c.leaves(first.value), bs, first.cursor);
      var rest := ParseEach(c, n - 1, c.leaves(first.value), bs, first.cursor).value;
      assert ([first.value] + rest)[1..] == rest;
    }
  }

  // ---------------------------------------------------------------- the records

  datatype Span = Span(start: nat, end: nat)
  datatype Run = Run(start: nat, end: nat, mono: seq<nat>)
  datatype Mark = Mark(at: nat, confidence: nat)
  datatype Window = Window(index: nat, beats: seq<Mark>, downbeats: seq<Mark>)

  /** `short` and `taken` are a `BTreeSet` and a `RangeSet`: their elements in ascending order. */
  datatype BeatResume = BeatResume(origin: Option<nat>, runs: seq<Run>, taken: seq<Span>, windows: seq<Window>,
      short: seq<nat>)

  /** Neither infinite nor not a number. */
  predicate Finite(bits: nat) {
    (bits / 0x80_0000) % 256 != 255
  }

  /** Of a finite pattern: below zero. */
  predicate Negative(bits: nat) {
    bits > 0x8000_0000
  }

  predicate Above(previous: Option<nat>, x: nat) {
    previous.Some? ==> previous.value < x
  }

  function StepRun(previous: Option<nat>, bs: Bytes, at: nat): Parsed<Run> {
    match ParseInt(8, bs, at)
    case Err(e) => Err(e)
    case Ok(start, k) =>
      match ParseInt(8, bs, k)
      case Err(e) => Err(e)
      case Ok(end, k) =>
        if start >= end then Err(Corrupt)
        else match ParseSamples(bs, k)
          case Err(e) => Err(e)
          case Ok(mono, k) => if Above(previous, start) then Ok(Run(start, end, mono), k) else Err(Corrupt)
  }

  function StepSpan(previous: Option<nat>, bs: Bytes, at: nat): Parsed<Span> {
    match ParseInt(8, bs, at)
    case Err(e) => Err(e)
    case Ok(start, k) =>
      match ParseInt(8, bs, k)
      case Err(e) => Err(e)
      case Ok(frames, k) =>
        var end := if start + frames < Pow256(8) then start + frames else Pow256(8) - 1;
        if frames == 0 || end - start != frames || !Above(previous, start) then Err(Corrupt)
        else Ok(Span(start, end), k)
  }

  function StepMark(previous: Option<nat>, bs: Bytes, at: nat): Parsed<Mark> {
    match ParseInt(4, bs, at)
    case Err(e) => Err(e)
    case Ok(x, k) =>
      match ParseInt(4, bs, k)
      case Err(e) => Err(e)
      case Ok(y, k) => if !Finite(x) || Negative(x) || !Finite(y) then Err(Corrupt) else Ok(Mark(x, y), k)
  }

  function ParseMarks(bs: Bytes, at: nat): Parsed<seq<Mark>> {
    ParseList(MarkCodec(), 8, bs, at)
  }

  function StepWindow(previous: Option<nat>, bs: Bytes, at: nat): Parsed<Window> {
    match ParseOrdered(previous, bs, at)
    case Err(e) => Err(e)
    case Ok(index, k) =>
      match ParseMarks(bs, k)
      case Err(e) => Err(e)
      case Ok(beats, k) =>
        match ParseMarks(bs, k) case Err(e) => Err(e) case Ok(downbeats, k) => Ok(Window(index, beats, downbeats), k)
  }

  function MarkCodec(): Codec<Mark> {
    Codec(StepMark, (m: Mark) => LittleEndian(m.at, 4) + LittleEndian(m.confidence, 4), (_, m: Mark) => MarkOk(m),
          _ => None)
  }

  function RunCodec(): Codec<Run> {
    Codec(StepRun, (r: Run) => LittleEndian(r.start, 8) + (LittleEndian(r.end, 8) + WriteSamples(r.mono)),
          (p, r: Run) => r.start < r.end && Above(p, r.start), (r: Run) => Some(r.end))
  }

  function SpanCodec(): Codec<Span> {
    Codec(StepSpan, (s: Span) => LittleEndian(s.start, 8)
      + LittleEndian(if s.start <= s.end then s.end - s.start else 0, 8),
          (p, s: Span) => s.start < s.end && Above(p, s.start), (s: Span) => Some(s.end))
  }

  function WindowCodec(): Codec<Window> {
    Codec(StepWindow, (w: Window) =>
      LittleEndian(w.index, 8) + (EmitList(MarkCodec(), w.beats) + EmitList(MarkCodec(), w.downbeats)),
          (p, w: Window) => Above(p, w.index) && MarksOk(w.beats) && MarksOk(w.downbeats), (w: Window) => Some(w.index))
  }

  function ShortCodec(): Codec<nat> {
    Codec(ParseOrdered, (x: nat) => LittleEndian(x, 8), (p, x: nat) => Above(p, x), (x: nat) => Some(x))
  }

  predicate MarkOk(m: Mark) {
    Finite(m.at) && !Negative(m.at) && Finite(m.confidence)
  }

  predicate MarksOk(ms: seq<Mark>) {
    InOrder(MarkCodec(), None, ms)
  }

  // ---------------------------------------------------------------- the final validation

  /** `binary_search_by_key`, as the standard library halves the slice. */
  function Search(ws: seq<Window>, key: nat, base: nat, size: nat): bool
    requires 1 <= size && base + size <= |ws|
    decreases size
  {
    if size == 1 then ws[base].index == key
    else
      var half := size / 2;
      Search(ws, key, if ws[base + half].index > key then base else base + half, size - half)
  }

  predicate Found(ws: seq<Window>, key: nat) {
    ws != [] && Search(ws, key, 0, |ws|)
  }

  predicate Covers(taken: seq<Span>, start: nat, end: nat) {
    start >= end || exists i :: 0 <= i < |taken| && taken[i].start <= start && end <= taken[i].end
  }

  predicate Validated(b: BeatResume) {
    && (forall i :: 0 <= i < |b.runs| ==> b.runs[i].mono != [])
    && (forall i :: 0 <= i < |b.runs| ==> Covers(b.taken, b.runs[i].start, b.runs[i].end))
    && (forall i :: 0 <= i < |b.short| ==> Found(b.windows, b.short[i]))
    && (forall i :: 0 <= i < |b.windows| ==> AllFinite(b.windows[i].beats) && AllFinite(b.windows[i].downbeats))
  }

  predicate AllFinite(ms: seq<Mark>) {
    forall j :: 0 <= j < |ms| ==> Finite(ms[j].at) && Finite(ms[j].confidence)
  }

  function ParseOrigin(bs: Bytes, at: nat): Parsed<Option<nat>> {
    match ParseBool(bs, at)
    case Err(e) => Err(e)
    case Ok(present, k) =>
      if !present then Ok(None, k)
      else match ParseInt(8, bs, k) case Err(e) => Err(e) case Ok(n, k) => Ok(Some(n), k)
  }

  function ParseBeat(bs: Bytes, at: nat): Parsed<BeatResume> {
    match ParseOrigin(bs, at)
    case Err(e) => Err(e)
    case Ok(origin, k) =>
      match ParseList(RunCodec(), 24, bs, k)
      case Err(e) => Err(e)
      case Ok(runs, k) =>
        match ParseList(SpanCodec(), 16, bs, k)
        case Err(e) => Err(e)
        case Ok(taken, k) =>
          match ParseList(WindowCodec(), 24, bs, k)
          case Err(e) => Err(e)
          case Ok(windows, k) =>
            match ParseList(ShortCodec(), 8, bs, k)
            case Err(e) => Err(e)
            case Ok(short, k) =>
              var b := BeatResume(origin, runs, taken, windows, short);
              if Validated(b) then Ok(b, k) else Err(Corrupt)
  }

  function EmitOrigin(origin: Option<nat>): Bytes {
    match origin case None => LittleEndian(0, 1) case Some(n) => LittleEndian(1, 1) + LittleEndian(n, 8)
  }

  function EmitBeat(b: BeatResume): Bytes {
    EmitOrigin(b.origin) + (EmitList(RunCodec(), b.runs) + (EmitList(SpanCodec(), b.taken)
      + (EmitList(WindowCodec(), b.windows) + EmitList(ShortCodec(), b.short))))
  }

  // ---------------------------------------------------------------- what a decoded state is

  ghost predicate Ascending(ws: seq<Window>) {
    forall i, j :: 0 <= i < j < |ws| ==> ws[i].index < ws[j].index
  }

  /** What a decoded state promises whoever resumes from it. */
  ghost predicate Sane(b: BeatResume) {
    && (forall i :: 0 <= i < |b.runs| ==> b.runs[i].start < b.runs[i].end && b.runs[i].mono != [])
    && (forall i, j :: 0 <= i < j < |b.runs| ==> b.runs[i].end < b.runs[j].start)
    && (forall i :: 0 <= i < |b.taken| ==> b.taken[i].start < b.taken[i].end)
    && (forall i, j :: 0 <= i < j < |b.taken| ==> b.taken[i].end < b.taken[j].start)
    && (forall i :: 0 <= i < |b.runs| ==> Covers(b.taken, b.runs[i].start, b.runs[i].end))
    && Ascending(b.windows)
    && (forall i :: 0 <= i < |b.windows| ==> Sound(b.windows[i].beats) && Sound(b.windows[i].downbeats))
    && (forall i, j :: 0 <= i < j < |b.short| ==> b.short[i] < b.short[j])
    && (forall i :: 0 <= i < |b.short| ==> HasWindow(b.windows, b.short[i]))
  }

  ghost predicate Sound(ms: seq<Mark>) {
    forall i :: 0 <= i < |ms| ==> MarkOk(ms[i])
  }

  ghost predicate HasWindow(ws: seq<Window>, index: nat) {
    exists i :: 0 <= i < |ws| && ws[i].index == index
  }

  ghost predicate Holds(taken: seq<Span>, frame: nat) {
    exists i :: 0 <= i < |taken| && taken[i].start <= frame < taken[i].end
  }

  /** Ranges apart from each other cover a stretch exactly when every frame of it is in one of them. */
  lemma CoversEveryFrame(taken: seq<Span>, start: nat, end: nat)
    requires forall i, j :: 0 <= i < j < |taken| ==> taken[i].end < taken[j].start
    requires forall i :: 0 <= i < |taken| ==> taken[i].start < taken[i].end
    ensures Covers(taken, start, end) <==> forall frame :: start <= frame < end ==> Holds(taken, frame)
  {
    if start < end && forall frame :: start <= frame < end ==> Holds(taken, frame) {
      assert Holds(taken, start);
      var i :| 0 <= i < |taken| && taken[i].start <= start < taken[i].end;
      if taken[i].end < end {
        assert Holds(taken, taken[i].end);
        var j :| 0 <= j < |taken| && taken[j].start <= taken[i].end < taken[j].end;
        assert i < j || j < i;
      }
    }
  }

  lemma SearchNarrows(ws: seq<Window>, key: nat, base: nat, size: nat)
    requires Ascending(ws) && 1 < size && base + size <= |ws|
    ensures var half := size / 2;
      var next := if ws[base + half].index > key then base else base + half;
      base <= next && next + (size - half) <= base + size
      && forall i :: base <= i < base + size && ws[i].index == key ==> next <= i < next + (size - half)
  {}

  /** The search stays on the side the key is on. */
  lemma {:induction false} SearchFinds(ws: seq<Window>, key: nat, base: nat, size: nat)
    requires Ascending(ws) && 1 <= size && base + size <= |ws|
    ensures Search(ws, key, base, size) <==> exists i :: base <= i < base + size && ws[i].index == key
    decreases size
  {
    if size > 1 {
      var half := size / 2;
      var next := if ws[base + half].index > key then base else base + half;
      SearchFinds(ws, key, next, size - half);
      SearchNarrows(ws, key, base, size);
    }
  }

  /** Over windows in order, the binary search decides membership. */
  lemma FoundIsMembership(ws: seq<Window>, key: nat)
    requires Ascending(ws)
    ensures Found(ws, key) <==> HasWindow(ws, key)
  {
    if ws != [] { SearchFinds(ws, key, 0, |ws|); }
  }

  /** Out of order it misses a window that is there: the order `read_windows` enforces is what it rests on. */
  lemma UnorderedSearchMisses()
    ensures exists ws, key :: HasWindow(ws, key) && !Found(ws, key)
  {
    var ws := [Window(1, [], []), Window(0, [], [])];
    assert ws[0].index == 1;
    assert !Search(ws, 1, 1, 1);
    assert HasWindow(ws, 1) && !Found(ws, 1);
  }

  lemma {:induction false} RunsSeparated(previous: Option<nat>, rs: seq<Run>)
    ensures InOrder(RunCodec(), previous, rs) <==>
      (forall i :: 0 <= i < |rs| ==> rs[i].start < rs[i].end && Above(previous, rs[i].start))
      && (forall i, j :: 0 <= i < j < |rs| ==> rs[i].end < rs[j].start)
    decreases |rs|
  {
    if rs != [] {
      RunsSeparated(Some(rs[0].end), rs[1..]);
      assert forall i :: 1 <= i < |rs| ==> rs[i] == rs[1..][i - 1];
    }
  }

  lemma {:induction false} SpansSeparated(previous: Option<nat>, ss: seq<Span>)
    ensures InOrder(SpanCodec(), previous, ss) <==>
      (forall i :: 0 <= i < |ss| ==> ss[i].start < ss[i].end && Above(previous, ss[i].start))
      && (forall i, j :: 0 <= i < j < |ss| ==> ss[i].end < ss[j].start)
    decreases |ss|
  {
    if ss != [] {
      SpansSeparated(Some(ss[0].end), ss[1..]);
      assert forall i :: 1 <= i < |ss| ==> ss[i] == ss[1..][i - 1];
    }
  }

  lemma {:induction false} MarksAreSound(ms: seq<Mark>)
    ensures MarksOk(ms) <==> Sound(ms)
    decreases |ms|
  {
    if ms != [] {
      MarksAreSound(ms[1..]);
      assert forall i :: 1 <= i < |ms| ==> ms[i] == ms[1..][i - 1];
    }
  }

  lemma {:induction false} WindowsAscend(previous: Option<nat>, ws: seq<Window>)
    ensures InOrder(WindowCodec(), previous, ws) <==>
      Ascending(ws) && forall i :: 0 <= i < |ws| ==>
        Above(previous, ws[i].index) && MarksOk(ws[i].beats) && MarksOk(ws[i].downbeats)
    decreases |ws|
  {
    if ws != [] {
      WindowsAscend(Some(ws[0].index), ws[1..]);
      assert forall i :: 1 <= i < |ws| ==> ws[i] == ws[1..][i - 1];
    }
  }

  lemma {:induction false} ShortAscends(previous: Option<nat>, xs: seq<nat>)
    ensures InOrder(ShortCodec(), previous, xs) <==>
      (forall i :: 0 <= i < |xs| ==> Above(previous, xs[i])) && (forall i, j :: 0 <= i < j < |xs| ==> xs[i] < xs[j])
    decreases |xs|
  {
    if xs != [] {
      ShortAscends(Some(xs[0]), xs[1..]);
      assert forall i :: 1 <= i < |xs| ==> xs[i] == xs[1..][i - 1];
    }
  }

  ghost predicate AllInOrder(b: BeatResume) {
    InOrder(RunCodec(), None, b.runs) && InOrder(SpanCodec(), None, b.taken)
    && InOrder(WindowCodec(), None, b.windows) && InOrder(ShortCodec(), None, b.short)
  }

  /** What the layers enforce one by one, and the validation at the end, is together exactly sanity. */
  lemma LayersMakeSane(b: BeatResume)
    ensures AllInOrder(b) && Validated(b) <==> Sane(b)
  {
    hide InOrder, Search, Finite, Negative, MarksOk;
    RunsSeparated(None, b.runs);
    SpansSeparated(None, b.taken);
    WindowsAscend(None, b.windows);
    ShortAscends(None, b.short);
    forall i | 0 <= i < |b.windows|
      ensures MarksOk(b.windows[i].beats) <==> Sound(b.windows[i].beats)
      ensures MarksOk(b.windows[i].downbeats) <==> Sound(b.windows[i].downbeats)
    {
      MarksAreSound(b.windows[i].beats);
      MarksAreSound(b.windows[i].downbeats);
    }
    if Ascending(b.windows) {
      forall i | 0 <= i < |b.short| ensures Found(b.windows, b.short[i]) <==> HasWindow(b.windows, b.short[i]) {
        FoundIsMembership(b.windows, b.short[i]);
      }
    }
  }

  // ---------------------------------------------------------------- decoding what was encoded

  /** Every number fits the width it is written in. */
  ghost predicate Wide(b: BeatResume) {
    && (b.origin.Some? ==> b.origin.value < Pow256(8))
    && |b.runs| < Pow256(8) && |b.taken| < Pow256(8) && |b.windows| < Pow256(8) && |b.short| < Pow256(8)
    && (forall i :: 0 <= i < |b.runs| ==> WideRun(b.runs[i]))
    && (forall i :: 0 <= i < |b.taken| ==> WideSpan(b.taken[i]))
    && (forall i :: 0 <= i < |b.windows| ==> WideWindow(b.windows[i]))
    && (forall i :: 0 <= i < |b.short| ==> b.short[i] < Pow256(8))
  }

  ghost predicate WideRun(r: Run) { r.start < Pow256(8) && r.end < Pow256(8) && Patterns(r.mono) }

  ghost predicate WideSpan(s: Span) { s.start < Pow256(8) && s.end < Pow256(8) }

  ghost predicate WideMark(m: Mark) { m.at < Pow256(4) && m.confidence < Pow256(4) }

  ghost predicate WideMarks(ms: seq<Mark>) { |ms| < Pow256(8) && forall i :: 0 <= i < |ms| ==> WideMark(ms[i]) }

  ghost predicate WideWindow(w: Window) { w.index < Pow256(8) && WideMarks(w.beats) && WideMarks(w.downbeats) }

  lemma RunReadsBack(r: Run)
    requires WideRun(r)
    ensures ReadsBack(RunCodec(), 24, r)
  {
    var c := RunCodec();
    forall previous, bs, at: nat | At(bs, at, c.emit(r))
      ensures c.step(previous, bs, at) == if c.follows(previous, r) then Ok(r, at + |c.emit(r)|) else Err(Corrupt)
    {
      AtConcat(bs, at, LittleEndian(r.start, 8), LittleEndian(r.end, 8) + WriteSamples(r.mono));
      AtConcat(bs, at + 8, LittleEndian(r.end, 8), WriteSamples(r.mono));
      IntAt(r.start, 8, bs, at);
      IntAt(r.end, 8, bs, at + 8);
      SamplesAt(r.mono, bs, at + 16);
    }
  }

  lemma SpanReadsBack(s: Span)
    requires WideSpan(s)
    ensures ReadsBack(SpanCodec(), 16, s)
  {
    var c := SpanCodec();
    var frames := if s.start <= s.end then s.end - s.start else 0;
    forall previous, bs, at: nat | At(bs, at, c.emit(s))
      ensures c.step(previous, bs, at) == if c.follows(previous, s) then Ok(s, at + |c.emit(s)|) else Err(Corrupt)
    {
      AtConcat(bs, at, LittleEndian(s.start, 8), LittleEndian(frames, 8));
      IntAt(s.start, 8, bs, at);
      IntAt(frames, 8, bs, at + 8);
    }
  }

  lemma MarkReadsBack(m: Mark)
    requires WideMark(m)
    ensures ReadsBack(MarkCodec(), 8, m)
  {
    var c := MarkCodec();
    forall previous, bs, at: nat | At(bs, at, c.emit(m))
      ensures c.step(previous, bs, at) == if c.follows(previous, m) then Ok(m, at + |c.emit(m)|) else Err(Corrupt)
    {
      AtConcat(bs, at, LittleEndian(m.at, 4), LittleEndian(m.confidence, 4));
      IntAt(m.at, 4, bs, at);
      IntAt(m.confidence, 4, bs, at + 4);
    }
  }

  lemma MarksReadBack(ms: seq<Mark>, bs: Bytes, at: nat)
    requires WideMarks(ms) && At(bs, at, EmitList(MarkCodec(), ms))
    ensures ParseMarks(bs, at) == if MarksOk(ms) then Ok(ms, at + |EmitList(MarkCodec(), ms)|) else Err(Corrupt)
  {
    forall i | 0 <= i < |ms| ensures ReadsBack(MarkCodec(), 8, ms[i]) { MarkReadsBack(ms[i]); }
    ListReadsBack(MarkCodec(), 8, ms, bs, at);
  }

  lemma WindowStepAt(w: Window, previous: Option<nat>, bs: Bytes, at: nat)
    requires WideWindow(w) && At(bs, at, WindowCodec().emit(w))
    ensures StepWindow(previous, bs, at)
      == if Above(previous, w.index) && MarksOk(w.beats) && MarksOk(w.downbeats)
         then Ok(w, at + |WindowCodec().emit(w)|) else Err(Corrupt)
  {
    hide At, EmitList, MarkCodec, MarksOk, ParseMarks, LittleEndian, WideMarks, Pow256;
    var beats, downbeats := EmitList(MarkCodec(), w.beats), EmitList(MarkCodec(), w.downbeats);
    assert WindowCodec().emit(w) == LittleEndian(w.index, 8) + (beats + downbeats);
    AtConcat(bs, at, LittleEndian(w.index, 8), beats + downbeats);
    AtConcat(bs, at + 8, beats, downbeats);
    IntAt(w.index, 8, bs, at);
    MarksReadBack(w.beats, bs, at + 8);
    MarksReadBack(w.downbeats, bs, at + 8 + |beats|);
  }

  lemma WindowReadsBack(w: Window)
    requires WideWindow(w)
    ensures ReadsBack(WindowCodec(), 24, w)
  {
    var c := WindowCodec();
    forall previous, bs, at: nat | At(bs, at, c.emit(w))
      ensures c.step(previous, bs, at) == if c.follows(previous, w) then Ok(w, at + |c.emit(w)|) else Err(Corrupt)
    {
      WindowStepAt(w, previous, bs, at);
    }
  }

  lemma ShortReadsBack(x: nat)
    requires x < Pow256(8)
    ensures ReadsBack(ShortCodec(), 8, x)
  {
    var c := ShortCodec();
    forall previous, bs, at: nat | At(bs, at, c.emit(x))
      ensures c.step(previous, bs, at) == if c.follows(previous, x) then Ok(x, at + |c.emit(x)|) else Err(Corrupt)
    {
      IntAt(x, 8, bs, at);
    }
  }

  /** A list in order is read to its end, any other is refused. */
  ghost function ReadOr<T>(c: Codec<T>, xs: seq<T>, end: nat): Parsed<seq<T>> {
    if InOrder(c, None, xs) then Ok(xs, end) else Err(Corrupt)
  }

  lemma RunsReadBack(rs: seq<Run>, bs: Bytes, at: nat)
    requires |rs| < Pow256(8) && (forall i :: 0 <= i < |rs| ==> WideRun(rs[i])) && At(bs, at, EmitList(RunCodec(), rs))
    ensures ParseList(RunCodec(), 24, bs, at) == ReadOr(RunCodec(), rs, at + |EmitList(RunCodec(), rs)|)
  {
    forall i | 0 <= i < |rs| ensures ReadsBack(RunCodec(), 24, rs[i]) { RunReadsBack(rs[i]); }
    ListReadsBack(RunCodec(), 24, rs, bs, at);
  }

  lemma SpansReadBack(ss: seq<Span>, bs: Bytes, at: nat)
    requires |ss| < Pow256(8) && (forall i :: 0 <= i < |ss| ==> WideSpan(ss[i]))
      && At(bs, at, EmitList(SpanCodec(), ss))
    ensures ParseList(SpanCodec(), 16, bs, at) == ReadOr(SpanCodec(), ss, at + |EmitList(SpanCodec(), ss)|)
  {
    forall i | 0 <= i < |ss| ensures ReadsBack(SpanCodec(), 16, ss[i]) { SpanReadsBack(ss[i]); }
    ListReadsBack(SpanCodec(), 16, ss, bs, at);
  }

  lemma WindowsReadBack(ws: seq<Window>, bs: Bytes, at: nat)
    requires |ws| < Pow256(8) && (forall i :: 0 <= i < |ws| ==> WideWindow(ws[i]))
      && At(bs, at, EmitList(WindowCodec(), ws))
    ensures ParseList(WindowCodec(), 24, bs, at) == ReadOr(WindowCodec(), ws, at + |EmitList(WindowCodec(), ws)|)
  {
    forall i | 0 <= i < |ws| ensures ReadsBack(WindowCodec(), 24, ws[i]) { WindowReadsBack(ws[i]); }
    ListReadsBack(WindowCodec(), 24, ws, bs, at);
  }

  lemma ShortsReadBack(xs: seq<nat>, bs: Bytes, at: nat)
    requires |xs| < Pow256(8) && (forall i :: 0 <= i < |xs| ==> xs[i] < Pow256(8))
      && At(bs, at, EmitList(ShortCodec(), xs))
    ensures ParseList(ShortCodec(), 8, bs, at) == ReadOr(ShortCodec(), xs, at + |EmitList(ShortCodec(), xs)|)
  {
    forall i | 0 <= i < |xs| ensures ReadsBack(ShortCodec(), 8, xs[i]) { ShortReadsBack(xs[i]); }
    ListReadsBack(ShortCodec(), 8, xs, bs, at);
  }

  lemma OriginReadsBack(origin: Option<nat>, bs: Bytes, at: nat)
    requires origin.Some? ==> origin.value < Pow256(8)
    requires At(bs, at, EmitOrigin(origin))
    ensures ParseOrigin(bs, at) == Ok(origin, at + |EmitOrigin(origin)|)
  {
    Widths();
    match origin
    case None => IntAt(0, 1, bs, at);
    case Some(n) =>
      AtConcat(bs, at, LittleEndian(1, 1), LittleEndian(n, 8));
      IntAt(1, 1, bs, at);
      IntAt(n, 8, bs, at + 1);
  }

  /** Where the five parts of an encoded state lie. */
  lemma BeatPlaces(b: BeatResume, bs: Bytes, at: nat)
    requires At(bs, at, EmitBeat(b))
    ensures var k1 := at + |EmitOrigin(b.origin)|;
      var k2 := k1 + |EmitList(RunCodec(), b.runs)|;
      var k3 := k2 + |EmitList(SpanCodec(), b.taken)|;
      var k4 := k3 + |EmitList(WindowCodec(), b.windows)|;
      && At(bs, at, EmitOrigin(b.origin)) && At(bs, k1, EmitList(RunCodec(), b.runs))
      && At(bs, k2, EmitList(SpanCodec(), b.taken)) && At(bs, k3, EmitList(WindowCodec(), b.windows))
      && At(bs, k4, EmitList(ShortCodec(), b.short))
      && at + |EmitBeat(b)| == k4 + |EmitList(ShortCodec(), b.short)|
  {
    hide At, EmitOrigin, EmitList;
    var origin, runs, taken := EmitOrigin(b.origin), EmitList(RunCodec(), b.runs), EmitList(SpanCodec(), b.taken);
    var windows, short := EmitList(WindowCodec(), b.windows), EmitList(ShortCodec(), b.short);
    AtConcat(bs, at, origin, runs + (taken + (windows + short)));
    AtConcat(bs, at + |origin|, runs, taken + (windows + short));
    AtConcat(bs, at + |origin| + |runs|, taken, windows + short);
    AtConcat(bs, at + |origin| + |runs| + |taken|, windows, short);
  }

  lemma BeatJoins(b: BeatResume, bs: Bytes, at: nat, k1: nat, k2: nat, k3: nat, k4: nat, k5: nat)
    requires ParseOrigin(bs, at) == Ok(b.origin, k1)
    requires ParseList(RunCodec(), 24, bs, k1) == ReadOr(RunCodec(), b.runs, k2)
    requires ParseList(SpanCodec(), 16, bs, k2) == ReadOr(SpanCodec(), b.taken, k3)
    requires ParseList(WindowCodec(), 24, bs, k3) == ReadOr(WindowCodec(), b.windows, k4)
    requires ParseList(ShortCodec(), 8, bs, k4) == ReadOr(ShortCodec(), b.short, k5)
    ensures ParseBeat(bs, at) == if AllInOrder(b) && Validated(b) then Ok(b, k5) else Err(Corrupt)
  {}

  /**
   Whatever state is encoded, decoding gives it back and stops where it ends if the state is sane, and
   refuses the bytes if it is not.
   */
  lemma BeatReadsBack(b: BeatResume, bs: Bytes, at: nat)
    requires Wide(b) && At(bs, at, EmitBeat(b))
    ensures ParseBeat(bs, at) == if Sane(b) then Ok(b, at + |EmitBeat(b)|) else Err(Corrupt)
  {
    hide Sane, EmitList, EmitBeat, ParseList, ParseBeat, InOrder, ReadOr, Validated, At, EmitOrigin, AllInOrder,
        ParseOrigin;
    hide RunCodec, SpanCodec, WindowCodec, ShortCodec, WideRun, WideSpan, WideWindow, Pow256;
    LayersMakeSane(b);
    BeatPlaces(b, bs, at);
    var k1 := at + |EmitOrigin(b.origin)|;
    var k2 := k1 + |EmitList(RunCodec(), b.runs)|;
    var k3 := k2 + |EmitList(SpanCodec(), b.taken)|;
    var k4 := k3 + |EmitList(WindowCodec(), b.windows)|;
    OriginReadsBack(b.origin, bs, at);
    RunsReadBack(b.runs, bs, k1);
    SpansReadBack(b.taken, bs, k2);
    WindowsReadBack(b.windows, bs, k3);
    ShortsReadBack(b.short, bs, k4);
    BeatJoins(b, bs, at, k1, k2, k3, k4, k4 + |EmitList(ShortCodec(), b.short)|);
  }

  // ---------------------------------------------------------------- every decoded state is sane

  lemma WindowAdmits()
    ensures Admits(WindowCodec())
  {
    var c := WindowCodec();
    forall previous, bs, at: nat | c.step(previous, bs, at).Ok?
      ensures c.follows(previous, c.step(previous, bs, at).value) {
      var index := ParseOrdered(previous, bs, at);
      var beats := ParseMarks(bs, index.cursor);
      MarksAdmit(bs, index.cursor);
      MarksAdmit(bs, beats.cursor);
      hide MarksOk, ParseList;
    }
  }

  lemma MarksAdmit(bs: Bytes, at: nat)
    ensures ParseMarks(bs, at).Ok? ==> MarksOk(ParseMarks(bs, at).value)
  {
    assert Admits(MarkCodec());
    ListAdmits(MarkCodec(), 8, bs, at);
  }

  lemma ListAdmits<T(!new)>(c: Codec<T>, itemBytes: nat, bs: Bytes, at: nat)
    requires Admits(c)
    ensures ParseList(c, itemBytes, bs, at).Ok? ==> InOrder(c, None, ParseList(c, itemBytes, bs, at).value)
  {
    var count := ParseCount(itemBytes, bs, at);
    if ParseList(c, itemBytes, bs, at).Ok? {
      ParsedInOrder(c, count.value, None, bs, count.cursor);
    }
  }

  /** Whatever bytes are decoded, a state that comes out is sane. */
  lemma DecodedIsSane(bs: Bytes, at: nat)
    ensures ParseBeat(bs, at).Ok? ==> Sane(ParseBeat(bs, at).value)
  {
    if ParseBeat(bs, at).Ok? {
      var b := ParseBeat(bs, at).value;
      hide InOrder, Sane, Validated;
      var k1 := ParseOrigin(bs, at).cursor;
      var k2 := ParseList(RunCodec(), 24, bs, k1).cursor;
      var k3 := ParseList(SpanCodec(), 16, bs, k2).cursor;
      var k4 := ParseList(WindowCodec(), 24, bs, k3).cursor;
      assert Admits(RunCodec());
      assert Admits(SpanCodec());
      assert Admits(ShortCodec());
      WindowAdmits();
      ListAdmits(RunCodec(), 24, bs, k1);
      ListAdmits(SpanCodec(), 16, bs, k2);
      ListAdmits(WindowCodec(), 24, bs, k3);
      ListAdmits(ShortCodec(), 8, bs, k4);
      LayersMakeSane(b);
    }
  }

  // ---------------------------------------------------------------- the decoder as it runs

  /** `xs` put before the records a parse still returns. */
  ghost function After<T>(xs: seq<T>, p: Parsed<seq<T>>): Parsed<seq<T>> {
    match p case Ok(ys, k) => Ok(xs + ys, k) case Err(e) => Err(e)
  }

  lemma AfterNone<T>(p: Parsed<seq<T>>)
    ensures After([], p) == p
  {
    if p.Ok? { assert [] + p.value == p.value; }
  }

  /** One record read: the loop has it, the parse of the rest no longer does. */
  lemma AfterOne<T>(c: Codec<T>, xs: seq<T>, n: nat, previous: Option<nat>, bs: Bytes, at: nat)
    requires n > 0 && c.step(previous, bs, at).Ok?
    ensures var first := c.step(previous, bs, at);
      After(xs, ParseEach(c, n, previous, bs, at))
        == After(xs + [first.value], ParseEach(c, n - 1, c.leaves(first.value), bs, first.cursor))
  {
    var first := c.step(previous, bs, at);
    var rest := ParseEach(c, n - 1, c.leaves(first.value), bs, first.cursor);
    if rest.Ok? { assert xs + ([first.value] + rest.value) == xs + [first.value] + rest.value; }
  }

  /** A record refused: so are the rest, and for the same reason. */
  lemma AfterError<T>(c: Codec<T>, xs: seq<T>, n: nat, previous: Option<nat>, bs: Bytes, at: nat)
    requires n > 0 && c.step(previous, bs, at).Err?
    ensures After(xs, ParseEach(c, n, previous, bs, at)) == Err(c.step(previous, bs, at).error)
  {}

  lemma AfterAll<T>(c: Codec<T>, xs: seq<T>, previous: Option<nat>, bs: Bytes, at: nat)
    ensures After(xs, ParseEach(c, 0, previous, bs, at)) == Ok(xs, at)
  {
    assert xs + [] == xs;
  }

  method ReadRun(r: Reader) returns (run: Read<Run>)
    modifies r
    ensures Matches(run, StepRun(None, r.bytes, old(r.cursor)), r.cursor)
  {
    var start := r.ReadInt(8);
    if start.Failure? { return Failure(start.error); }
    var end := r.ReadInt(8);
    if end.Failure? { return Failure(end.error); }
    if start.value >= end.value { return Failure(Corrupt); }
    var mono := r.ReadSamples();
    if mono.Failure? { return Failure(mono.error); }
    run := Success(Run(start.value, end.value, mono.value));
  }

  method ReadRuns(r: Reader) returns (x: Read<seq<Run>>)
    modifies r
    ensures Matches(x, ParseList(RunCodec(), 24, r.bytes, old(r.cursor)), r.cursor)
  {
    hide ParseEach, After, ParseSamples, ParseInt, ParseCount;
    var count := r.ReadCount(24);
    if count.Failure? { return Failure(count.error); }
    var runs: seq<Run> := [];
    var previousEnd: Option<nat> := None;
    var i := 0;
    ghost var out := ParseEach(RunCodec(), count.value, None, r.bytes, r.cursor);
    AfterNone(out);
    while i < count.value
      invariant 0 <= i <= count.value
      invariant out == After(runs, ParseEach(RunCodec(), count.value - i, previousEnd, r.bytes, r.cursor))
    {
      ghost var at := r.cursor;
      ghost var step := RunCodec().step(previousEnd, r.bytes, at);
      if step.Err? { AfterError(RunCodec(), runs, count.value - i, previousEnd, r.bytes, at); }
      var run := ReadRun(r);
      if run.Failure? { return Failure(run.error); }
      if previousEnd.Some? && previousEnd.value >= run.value.start { return Failure(Corrupt); }
      AfterOne(RunCodec(), runs, count.value - i, previousEnd, r.bytes, at);
      previousEnd := Some(run.value.end);
      runs := runs + [run.value];
      i := i + 1;
    }
    AfterAll(RunCodec(), runs, previousEnd, r.bytes, r.cursor);
    x := Success(runs);
  }

  method ReadCoverage(r: Reader) returns (x: Read<seq<Span>>)
    modifies r
    ensures Matches(x, ParseList(SpanCodec(), 16, r.bytes, old(r.cursor)), r.cursor)
  {
    hide ParseEach, After, ParseInt, ParseCount;
    var count := r.ReadCount(16);
    if count.Failure? { return Failure(count.error); }
    var coverage: seq<Span> := [];
    var previousEnd: Option<nat> := None;
    var i := 0;
    ghost var out := ParseEach(SpanCodec(), count.value, None, r.bytes, r.cursor);
    AfterNone(out);
    while i < count.value
      invariant 0 <= i <= count.value
      invariant out == After(coverage, ParseEach(SpanCodec(), count.value - i, previousEnd, r.bytes, r.cursor))
    {
      ghost var at := r.cursor;
      ghost var step := SpanCodec().step(previousEnd, r.bytes, at);
      if step.Err? { AfterError(SpanCodec(), coverage, count.value - i, previousEnd, r.bytes, at); }
      var start := r.ReadInt(8);
      if start.Failure? { return Failure(start.error); }
      var frames := r.ReadInt(8);
      if frames.Failure? { return Failure(frames.error); }
      var end := if start.value + frames.value < Pow256(8) then start.value + frames.value else Pow256(8) - 1;
      if frames.value == 0 || end - start.value != frames.value
        || (previousEnd.Some? && previousEnd.value >= start.value) {
        return Failure(Corrupt);
      }
      AfterOne(SpanCodec(), coverage, count.value - i, previousEnd, r.bytes, at);
      previousEnd := Some(end);
      coverage := coverage + [Span(start.value, end)];
      i := i + 1;
    }
    AfterAll(SpanCodec(), coverage, previousEnd, r.bytes, r.cursor);
    x := Success(coverage);
  }

  method ReadMarks(r: Reader) returns (x: Read<seq<Mark>>)
    modifies r
    ensures Matches(x, ParseMarks(r.bytes, old(r.cursor)), r.cursor)
  {
    hide ParseEach, After, ParseInt, ParseCount;
    var count := r.ReadCount(8);
    if count.Failure? { return Failure(count.error); }
    var marks: seq<Mark> := [];
    var i := 0;
    ghost var out := ParseEach(MarkCodec(), count.value, None, r.bytes, r.cursor);
    AfterNone(out);
    while i < count.value
      invariant 0 <= i <= count.value
      invariant out == After(marks, ParseEach(MarkCodec(), count.value - i, None, r.bytes, r.cursor))
    {
      ghost var start := r.cursor;
      ghost var step := MarkCodec().step(None, r.bytes, start);
      if step.Err? { AfterError(MarkCodec(), marks, count.value - i, None, r.bytes, start); }
      var at := r.ReadInt(4);
      if at.Failure? { return Failure(at.error); }
      var confidence := r.ReadInt(4);
      if confidence.Failure? { return Failure(confidence.error); }
      if !Finite(at.value) || Negative(at.value) || !Finite(confidence.value) { return Failure(Corrupt); }
      AfterOne(MarkCodec(), marks, count.value - i, None, r.bytes, start);
      marks := marks + [Mark(at.value, confidence.value)];
      i := i + 1;
    }
    AfterAll(MarkCodec(), marks, None, r.bytes, r.cursor);
    x := Success(marks);
  }

  method ReadWindow(previous: Option<nat>, r: Reader) returns (w: Read<Window>)
    modifies r
    ensures Matches(w, StepWindow(previous, r.bytes, old(r.cursor)), r.cursor)
  {
    var raw := r.ReadOrdered(previous);
    if raw.Failure? { return Failure(raw.error); }
    var beats := ReadMarks(r);
    if beats.Failure? { return Failure(beats.error); }
    var downbeats := ReadMarks(r);
    if downbeats.Failure? { return Failure(downbeats.error); }
    w := Success(Window(raw.value, beats.value, downbeats.value));
  }

  method ReadWindows(r: Reader) returns (x: Read<seq<Window>>)
    modifies r
    ensures Matches(x, ParseList(WindowCodec(), 24, r.bytes, old(r.cursor)), r.cursor)
  {
    hide ParseEach, After, ParseInt, ParseCount, ParseMarks, ParseOrdered;
    var count := r.ReadCount(24);
    if count.Failure? { return Failure(count.error); }
    var windows: seq<Window> := [];
    var previous: Option<nat> := None;
    var i := 0;
    ghost var out := ParseEach(WindowCodec(), count.value, None, r.bytes, r.cursor);
    AfterNone(out);
    while i < count.value
      invariant 0 <= i <= count.value
      invariant out == After(windows, ParseEach(WindowCodec(), count.value - i, previous, r.bytes, r.cursor))
    {
      ghost var at := r.cursor;
      ghost var step := WindowCodec().step(previous, r.bytes, at);
      if step.Err? { AfterError(WindowCodec(), windows, count.value - i, previous, r.bytes, at); }
      var w := ReadWindow(previous, r);
      if w.Failure? { return Failure(w.error); }
      AfterOne(WindowCodec(), windows, count.value - i, previous, r.bytes, at);
      previous := Some(w.value.index);
      windows := windows + [w.value];
      i := i + 1;
    }
    AfterAll(WindowCodec(), windows, previous, r.bytes, r.cursor);
    x := Success(windows);
  }

  method ReadShort(r: Reader) returns (x: Read<seq<nat>>)
    modifies r
    ensures Matches(x, ParseList(ShortCodec(), 8, r.bytes, old(r.cursor)), r.cursor)
  {
    hide ParseEach, After, ParseInt, ParseCount, ParseOrdered;
    var count := r.ReadCount(8);
    if count.Failure? { return Failure(count.error); }
    var short: seq<nat> := [];
    var previous: Option<nat> := None;
    var i := 0;
    ghost var out := ParseEach(ShortCodec(), count.value, None, r.bytes, r.cursor);
    AfterNone(out);
    while i < count.value
      invariant 0 <= i <= count.value
      invariant out == After(short, ParseEach(ShortCodec(), count.value - i, previous, r.bytes, r.cursor))
    {
      ghost var at := r.cursor;
      ghost var step := ShortCodec().step(previous, r.bytes, at);
      if step.Err? { AfterError(ShortCodec(), short, count.value - i, previous, r.bytes, at); }
      var raw := r.ReadOrdered(previous);
      if raw.Failure? { return Failure(raw.error); }
      AfterOne(ShortCodec(), short, count.value - i, previous, r.bytes, at);
      previous := Some(raw.value);
      short := short + [raw.value];
      i := i + 1;
    }
    AfterAll(ShortCodec(), short, previous, r.bytes, r.cursor);
    x := Success(short);
  }

  /** `BeatResume::decode`: what it returns is sane, whatever the bytes. */
  method DecodeBeat(r: Reader) returns (x: Read<BeatResume>)
    modifies r
    ensures Matches(x, ParseBeat(r.bytes, old(r.cursor)), r.cursor)
    ensures x.Success? ==> Sane(x.value)
  {
    DecodedIsSane(r.bytes, r.cursor);
    hide Sane, Validated;
    var present := r.ReadBool();
    if present.Failure? { return Failure(present.error); }
    var origin: Option<nat> := None;
    if present.value {
      var n := r.ReadInt(8);
      if n.Failure? { return Failure(n.error); }
      origin := Some(n.value);
    }
    var runs := ReadRuns(r);
    if runs.Failure? { return Failure(runs.error); }
    var taken := ReadCoverage(r);
    if taken.Failure? { return Failure(taken.error); }
    var windows := ReadWindows(r);
    if windows.Failure? { return Failure(windows.error); }
    var short := ReadShort(r);
    if short.Failure? { return Failure(short.error); }
    var b := BeatResume(origin, runs.value, taken.value, windows.value, short.value);
    x := if Validated(b) then Success(b) else Failure(Corrupt);
  }
}
