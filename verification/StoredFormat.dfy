/**
 The stored resume byte by byte, and the floats in it field by field: what the decoder and the encoder of
 the analysis resume agree on, said without either.
 */
module StoredFormat {
  import opened Octets
  import opened Wrappers
  import opened Blob
  import opened BeatResume
  import opened AnalysisResume

  // ---------------------------------------------------------------- floats

  /** An `f32`: one bit of sign, eight of exponent, twenty-three of fraction. */
  datatype Float = Float(sign: nat, exponent: nat, fraction: nat) {
    predicate Valid() {
      sign < 2 && exponent < 256 && fraction < 0x80_0000
    }

    function Pattern(): nat {
      sign * 0x8000_0000 + exponent * 0x80_0000 + fraction
    }

    /** The largest exponent is that of the infinities and of what is not a number. */
    predicate IsFinite() {
      exponent < 255
    }

    predicate IsZero() {
      exponent == 0 && fraction == 0
    }
  }

  /** A pattern is finite, and below zero, exactly when its fields say so. */
  lemma FieldsDecide(f: Float)
    requires f.Valid()
    ensures f.Pattern() < 0x1_0000_0000
    ensures Finite(f.Pattern()) <==> f.IsFinite()
    ensures f.IsFinite() ==> (Negative(f.Pattern()) <==> f.sign == 1 && !f.IsZero())
  {
    var upper := f.sign * 256 + f.exponent;
    assert f.Pattern() == upper * 0x80_0000 + f.fraction;
    assert f.Pattern() / 0x80_0000 == upper;
  }

  /** Every pattern has fields. */
  lemma PatternHasFields(bits: nat) returns (f: Float)
    requires bits < 0x1_0000_0000
    ensures f.Valid() && f.Pattern() == bits
  {
    f := Float(bits / 0x8000_0000, bits / 0x80_0000 % 256, bits % 0x80_0000);
  }

  // ---------------------------------------------------------------- lists

  /** What `f` makes of each in turn. */
  function Joined<T>(xs: seq<T>, f: T -> Bytes): Bytes {
    if xs == [] then [] else f(xs[0]) + Joined(xs[1..], f)
  }

  /** How many there are, and what `f` makes of each. */
  function Listed<T>(xs: seq<T>, f: T -> Bytes): Bytes {
    U64(|xs|) + Joined(xs, f)
  }

  lemma {:induction false} EachJoined<T>(c: Codec<T>, xs: seq<T>, f: T -> Bytes)
    requires forall x :: x in xs ==> c.emit(x) == f(x)
    ensures EmitEach(c, xs) == Joined(xs, f)
    decreases |xs|
  {
    if xs != [] { EachJoined(c, xs[1..], f); }
  }

  lemma ListListed<T>(c: Codec<T>, xs: seq<T>, f: T -> Bytes)
    requires forall x :: x in xs ==> c.emit(x) == f(x)
    ensures EmitList(c, xs) == Listed(xs, f)
  {
    LowestFirst(|xs|);
    EachJoined(c, xs, f);
  }

  // ---------------------------------------------------------------- marks

  function MarkBytes(m: Mark): Bytes {
    U32(m.at) + U32(m.confidence)
  }

  lemma MarksListed(ms: seq<Mark>)
    ensures EmitList(MarkCodec(), ms) == Listed(ms, MarkBytes)
  {
    forall m | m in ms ensures MarkCodec().emit(m) == MarkBytes(m) {
      LowestFirst(m.at);
      LowestFirst(m.confidence);
    }
    ListListed(MarkCodec(), ms, MarkBytes);
  }

  /** A time that is a number, not infinite and not below zero, and a confidence that is a number and not infinite. */
  ghost predicate Acceptable(m: Mark, at: Float, confidence: Float) {
    && at.Valid() && at.Pattern() == m.at && confidence.Valid() && confidence.Pattern() == m.confidence
    && at.IsFinite() && (at.sign == 0 || at.IsZero()) && confidence.IsFinite()
  }

  ghost predicate IsAcceptable(m: Mark) {
    exists at, confidence :: Acceptable(m, at, confidence)
  }

  lemma OkIsAcceptable(m: Mark)
    requires m.at < 0x1_0000_0000 && m.confidence < 0x1_0000_0000
    ensures MarkOk(m) <==> IsAcceptable(m)
  {
    hide Finite, Negative;
    var at := PatternHasFields(m.at);
    var confidence := PatternHasFields(m.confidence);
    FieldsDecide(at);
    FieldsDecide(confidence);
    if MarkOk(m) { assert Acceptable(m, at, confidence); }
    if IsAcceptable(m) {
      var a, c :| Acceptable(m, a, c);
      FieldsDecide(a);
      FieldsDecide(c);
    }
  }

  /** Exactly which stored marks are read back: those whose fields are acceptable, and all of them or none. */
  lemma MarksReadExactly(ms: seq<Mark>, bs: Bytes, at: nat)
    requires |ms| < Pow256(8) && forall i :: 0 <= i < |ms| ==> ms[i].at < Pow256(4) && ms[i].confidence < Pow256(4)
    requires Blob.At(bs, at, Listed(ms, MarkBytes))
    ensures ParseMarks(bs, at)
      == if forall i :: 0 <= i < |ms| ==> IsAcceptable(ms[i])
         then Ok(ms, at + |Listed(ms, MarkBytes)|) else Err(Corrupt)
  {
    hide ParseMarks, IsAcceptable, MarkOk, Listed, MarksOk;
    Widths();
    MarksListed(ms);
    MarksReadBack(ms, bs, at);
    MarksAreSound(ms);
    forall i | 0 <= i < |ms|
      ensures MarkOk(ms[i]) <==> IsAcceptable(ms[i])
    {
      OkIsAcceptable(ms[i]);
    }
  }

  // ---------------------------------------------------------------- the beat section

  function RunBytes(r: Run): Bytes {
    U64(r.start) + U64(r.end) + Listed(r.mono, U32)
  }

  /** A covered range is stored as its start and its length. */
  function SpanBytes(s: Span): Bytes {
    U64(s.start) + U64(if s.start <= s.end then s.end - s.start else 0)
  }

  function WindowBytes(w: Window): Bytes {
    U64(w.index) + Listed(w.beats, MarkBytes) + Listed(w.downbeats, MarkBytes)
  }

  lemma {:induction false} SamplesJoined(xs: seq<nat>)
    ensures WriteMany(xs) == Joined(xs, U32)
  {
    if xs != [] {
      LowestFirst(xs[0]);
      SamplesJoined(xs[1..]);
    }
  }

  lemma RunListed(r: Run)
    ensures RunCodec().emit(r) == RunBytes(r)
  {
    hide U64, U32, LittleEndian;
    LowestFirst(r.start);
    LowestFirst(r.end);
    LowestFirst(|r.mono|);
    SamplesJoined(r.mono);
    assert U64(r.start) + (U64(r.end) + Listed(r.mono, U32)) == U64(r.start) + U64(r.end) + Listed(r.mono, U32);
  }

  lemma SpanListed(s: Span)
    ensures SpanCodec().emit(s) == SpanBytes(s)
  {
    hide U64, LittleEndian;
    LowestFirst(s.start);
    LowestFirst(if s.start <= s.end then s.end - s.start else 0);
  }

  lemma WindowListed(w: Window)
    ensures WindowCodec().emit(w) == WindowBytes(w)
  {
    hide U64, LittleEndian, EmitList, Listed;
    LowestFirst(w.index);
    MarksListed(w.beats);
    MarksListed(w.downbeats);
    var index, beats, downbeats := U64(w.index), Listed(w.beats, MarkBytes), Listed(w.downbeats, MarkBytes);
    assert index + (beats + downbeats) == index + beats + downbeats;
  }

  lemma ShortListed(x: nat)
    ensures ShortCodec().emit(x) == U64(x)
  {
    LowestFirst(x);
  }

  /** The beat section byte by byte: the origin if there is one, then runs, coverage, windows and the short set. */
  lemma BeatBytes(b: BeatResume)
    ensures EmitBeat(b)
      == (if b.origin.Some? then [1] + U64(b.origin.value) else [0])
         + (Listed(b.runs, RunBytes)
           + (Listed(b.taken, SpanBytes) + (Listed(b.windows, WindowBytes) + Listed(b.short, U64))))
  {
    hide U64, LittleEndian, EmitList, Listed, RunCodec, SpanCodec, WindowCodec, ShortCodec;
    hide RunBytes, SpanBytes, WindowBytes;
    LowestFirst(0);
    LowestFirst(1);
    if b.origin.Some? { LowestFirst(b.origin.value); }
    forall r ensures RunCodec().emit(r) == RunBytes(r) { RunListed(r); }
    forall s ensures SpanCodec().emit(s) == SpanBytes(s) { SpanListed(s); }
    forall w ensures WindowCodec().emit(w) == WindowBytes(w) { WindowListed(w); }
    forall x ensures ShortCodec().emit(x) == U64(x) { ShortListed(x); }
    ListListed(RunCodec(), b.runs, RunBytes);
    ListListed(SpanCodec(), b.taken, SpanBytes);
    ListListed(WindowCodec(), b.windows, WindowBytes);
    ListListed(ShortCodec(), b.short, U64);
  }

  // ---------------------------------------------------------------- the capture

  lemma VersionBytes()
    ensures LittleEndian(RESUME_VERSION, 4) == [0x03, 0x52, 0x41, 0x4b]
  {
    LowestFirst(RESUME_VERSION);
    assert U32(RESUME_VERSION) == [0x03, 0x52, 0x41, 0x4b];
  }

  /**
   A capture byte by byte: the version, the chunk length, and both sections behind their lengths, the
   waveform's first.
   */
  lemma CaptureBytes(chunkFrames: nat, waveform: Bytes, beat: Bytes)
    ensures Captured(chunkFrames, waveform, beat)
      == [0x03, 0x52, 0x41, 0x4b] + U64(chunkFrames) + U64(|waveform|) + waveform + U64(|beat|) + beat
  {
    hide LittleEndian, U64, U32;
    VersionBytes();
    LowestFirst(chunkFrames);
    LowestFirst(|waveform|);
    LowestFirst(|beat|);
    var header: Bytes := [0x03, 0x52, 0x41, 0x4b] + U64(chunkFrames);
    SixParts(header, U64(|waveform|), waveform, U64(|beat|), beat);
  }

  lemma SixParts(a: Bytes, b: Bytes, c: Bytes, d: Bytes, e: Bytes)
    ensures a + (b + c) + (d + e) == a + b + c + d + e
  {}
}
