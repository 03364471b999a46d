/**
 The framing of a resume: a version, a chunk length and two sections. The waveform analyser's decoder is
 not part of this model; `wave` is any decoder that reads a section from its start.
 */
module AnalysisResume {
  import opened Octets
  import opened Wrappers
  import opened Blob
  import opened BeatResume

  const RESUME_VERSION: nat := 0x4b41_5203

  type Decoder<T> = (Bytes, nat) -> Parsed<T>

  datatype Resume = Resume(shape: (bool, bool), bytes: Bytes, chunkFrames: nat)

  datatype State<W> = State(chunkFrames: nat, waveform: Option<W>, beat: Option<BeatResume>)

  // ---------------------------------------------------------------- what is written and read

  function Header(version: nat, chunkFrames: nat): Bytes {
    LittleEndian(version, 4) + LittleEndian(chunkFrames, 8)
  }

  function Section(payload: Bytes): Bytes {
    LittleEndian(|payload|, 8) + payload
  }

  function OrEmpty(section: Option<Bytes>): Bytes {
    if section.Some? then section.value else []
  }

  function Captured(chunkFrames: nat, waveform: Bytes, beat: Bytes): Bytes {
    Header(RESUME_VERSION, chunkFrames) + Section(waveform) + Section(beat)
  }

  /** What a section's payload decodes to: nothing if it is empty, else all of it. */
  function Payload<T>(decode: Decoder<T>, payload: Bytes): Read<Option<T>> {
    if payload == [] then Success(None)
    else match decode(payload, 0)
      case Err(e) => Failure(e)
      case Ok(v, k) => if k == |payload| then Success(Some(v)) else Failure(Corrupt)
  }

  function DecodeResume<W>(wave: Decoder<W>, bs: Bytes): Read<State<W>> {
    match ParseInt(4, bs, 0)
    case Err(e) => Failure(e)
    case Ok(version, k) =>
      if version != RESUME_VERSION then Failure(Version(version, RESUME_VERSION))
      else match ParseInt(8, bs, k)
        case Err(e) => Failure(e)
        case Ok(chunkFrames, k) =>
          if chunkFrames == 0 then Failure(Corrupt)
          else match ParseSection(bs, k)
            case Err(e) => Failure(e)
            case Ok(w, k) =>
              match Payload(wave, w)
              case Failure(e) => Failure(e)
              case Success(waveform) =>
                match ParseSection(bs, k)
                case Err(e) => Failure(e)
                case Ok(b, k) =>
                  match Payload(ParseBeat, b)
                  case Failure(e) => Failure(e)
                  case Success(beat) =>
                    if k == |bs| then Success(State(chunkFrames, waveform, beat)) else Failure(Corrupt)
  }

  // ---------------------------------------------------------------- as it runs

  method WriteSection(bytes: Bytes, section: Option<Bytes>) returns (r: Bytes)
    ensures r == bytes + Section(OrEmpty(section))
  {
    var payload := OrEmpty(section);
    r := bytes + LittleEndian(|payload|, 8);
    r := r + payload;
  }

  method Capture(chunkFrames: nat, waveform: Option<Bytes>, beat: Option<Bytes>) returns (r: Resume)
    requires 0 < chunkFrames < Pow256(8)
    ensures r == Resume((waveform.Some?, beat.Some?), Captured(chunkFrames, OrEmpty(waveform), OrEmpty(beat)),
      chunkFrames)
  {
    var bytes := LittleEndian(RESUME_VERSION, 4);
    bytes := bytes + LittleEndian(chunkFrames, 8);
    bytes := WriteSection(bytes, waveform);
    bytes := WriteSection(bytes, beat);
    r := Resume((waveform.Some?, beat.Some?), bytes, chunkFrames);
  }

  method ReadPayload<T>(decode: Decoder<T>, r: Reader) returns (x: Read<Option<T>>)
    modifies r
    ensures match ParseSection(r.bytes, old(r.cursor))
      case Err(e) => x == Failure(e)
      case Ok(payload, k) => x == Payload(decode, payload) && r.cursor == k
  {
    var payload := r.ReadSection();
    if payload.Failure? { return Failure(payload.error); }
    if payload.value == [] { return Success(None); }
    var v := decode(payload.value, 0);
    if v.Err? { return Failure(v.error); }
    x := if v.cursor == |payload.value| then Success(Some(v.value)) else Failure(Corrupt);
  }

  method DecodeBytes<W>(wave: Decoder<W>, bytes: Bytes) returns (r: Read<Resume>)
    ensures match DecodeResume(wave, bytes)
      case Failure(e) => r == Failure(e)
      case Success(s) => r == Success(Resume((s.waveform.Some?, s.beat.Some?), bytes, s.chunkFrames))
  {
    var reader := new Reader(bytes);
    var version := reader.ReadInt(4);
    if version.Failure? { return Failure(version.error); }
    if version.value != RESUME_VERSION { return Failure(Version(version.value, RESUME_VERSION)); }
    var chunkFrames := reader.ReadInt(8);
    if chunkFrames.Failure? { return Failure(chunkFrames.error); }
    if chunkFrames.value == 0 { return Failure(Corrupt); }
    var waveform := ReadPayload(wave, reader);
    if waveform.Failure? { return Failure(waveform.error); }
    var beat := ReadPayload(ParseBeat, reader);
    if beat.Failure? { return Failure(beat.error); }
    if reader.cursor != |bytes| { return Failure(Corrupt); }
    r := Success(Resume((waveform.value.Some?, beat.value.Some?), bytes, chunkFrames.value));
  }

  // ---------------------------------------------------------------- what the framing promises

  lemma SectionReadsBack(payload: Bytes, bs: Bytes, at: nat)
    requires |payload| < Pow256(8) && At(bs, at, Section(payload))
    ensures ParseSection(bs, at) == Ok(payload, at + |Section(payload)|)
  {
    AtConcat(bs, at, LittleEndian(|payload|, 8), payload);
    IntAt(|payload|, 8, bs, at);
  }

  lemma CapturedPlaces(chunkFrames: nat, w: Bytes, b: Bytes, extra: Bytes)
    ensures var bs := Captured(chunkFrames, w, b) + extra;
      At(bs, 0, LittleEndian(RESUME_VERSION, 4)) && At(bs, 4, LittleEndian(chunkFrames, 8))
      && At(bs, 12, Section(w)) && At(bs, 12 + |Section(w)|, Section(b))
      && |bs| == 12 + |Section(w)| + |Section(b)| + |extra|
  {}

  /**
   Decoding what was captured: the same chunk length and what each payload decodes to, in order; a zero
   chunk length, a payload its decoder refuses or leaves bytes of, and anything after the end are refused.
   */
  lemma CaptureReadsBack<W>(wave: Decoder<W>, chunkFrames: nat, w: Bytes, b: Bytes, extra: Bytes)
    requires chunkFrames < Pow256(8) && |w| < Pow256(8) && |b| < Pow256(8)
    ensures DecodeResume(wave, Captured(chunkFrames, w, b) + extra)
      == if chunkFrames == 0 then Failure(Corrupt)
         else match Payload(wave, w)
           case Failure(e) => Failure(e)
           case Success(waveform) =>
             match Payload(ParseBeat, b)
             case Failure(e) => Failure(e)
             case Success(beat) => if extra == [] then Success(State(chunkFrames, waveform, beat)) else Failure(Corrupt)
  {
    hide ParseBeat, Section, At, LittleEndian, Captured, Pow256;
    var bs := Captured(chunkFrames, w, b) + extra;
    CapturedPlaces(chunkFrames, w, b, extra);
    assert RESUME_VERSION < Pow256(4) by { Widths(); }
    IntAt(RESUME_VERSION, 4, bs, 0);
    IntAt(chunkFrames, 8, bs, 4);
    SectionReadsBack(w, bs, 12);
    SectionReadsBack(b, bs, 12 + |Section(w)|);
  }

  lemma IntReadWasWritten(w: nat, bs: Bytes, at: nat)
    requires ParseInt(w, bs, at).Ok?
    ensures var n := ParseInt(w, bs, at).value;
      n < Pow256(w) && bs[at..at + w] == LittleEndian(n, w)
  {
    IntWritesBack(bs[at..at + w]);
  }

  lemma SectionReadWasWritten(bs: Bytes, at: nat)
    requires ParseSection(bs, at).Ok?
    ensures var p := ParseSection(bs, at);
      |p.value| < Pow256(8) && bs[at..p.cursor] == Section(p.value)
  {
    IntReadWasWritten(8, bs, at);
    var p := ParseSection(bs, at);
    assert bs[at..p.cursor] == bs[at..at + 8] + bs[at + 8..p.cursor];
  }

  /** Bytes a capture of some chunk length and sections would have written, with nothing else in them. */
  ghost predicate IsCapture<W>(wave: Decoder<W>, bs: Bytes, chunkFrames: nat, w: Bytes, b: Bytes) {
    bs == Captured(chunkFrames, w, b)
    && 0 < chunkFrames < Pow256(8) && |w| < Pow256(8) && |b| < Pow256(8)
    && Payload(wave, w).Success? && Payload(ParseBeat, b).Success?
  }

  lemma FourParts(bs: Bytes, k: nat, end: nat)
    requires 12 <= k <= end == |bs|
    ensures bs == bs[0..4] + bs[4..12] + bs[12..k] + bs[k..end]
  {}

  lemma AcceptedIsCapture<W>(wave: Decoder<W>, bs: Bytes)
    requires DecodeResume(wave, bs).Success?
    ensures exists chunkFrames, w, b :: IsCapture(wave, bs, chunkFrames, w, b)
  {
    hide ParseBeat, LittleEndian, FromLittleEndian, Section, Pow256;
    var chunkFrames := ParseInt(8, bs, 4);
    var w := ParseSection(bs, 12);
    var b := ParseSection(bs, w.cursor);
    IntReadWasWritten(4, bs, 0);
    IntReadWasWritten(8, bs, 4);
    SectionReadWasWritten(bs, 12);
    SectionReadWasWritten(bs, w.cursor);
    FourParts(bs, w.cursor, b.cursor);
    hide ParseInt, ParseSection;
    assert IsCapture(wave, bs, chunkFrames.value, w.value, b.value);
  }

  lemma CaptureIsAccepted<W>(wave: Decoder<W>, bs: Bytes, chunkFrames: nat, w: Bytes, b: Bytes)
    requires IsCapture(wave, bs, chunkFrames, w, b)
    ensures DecodeResume(wave, bs) == Success(State(chunkFrames, Payload(wave, w).value, Payload(ParseBeat, b).value))
  {
    hide ParseBeat, DecodeResume, Captured, Payload;
    CaptureReadsBack(wave, chunkFrames, w, b, []);
    assert bs + [] == bs;
  }

  /** A resume is accepted exactly when it is what a capture writes of sections their decoders accept whole. */
  lemma AcceptsExactlyCaptures<W>(wave: Decoder<W>, bs: Bytes)
    ensures DecodeResume(wave, bs).Success? <==> exists chunkFrames, w, b :: IsCapture(wave, bs, chunkFrames, w, b)
  {
    hide DecodeResume, IsCapture;
    if DecodeResume(wave, bs).Success? {
      AcceptedIsCapture(wave, bs);
    }
    if exists chunkFrames, w, b :: IsCapture(wave, bs, chunkFrames, w, b) {
      var chunkFrames, w, b :| IsCapture(wave, bs, chunkFrames, w, b);
      CaptureIsAccepted(wave, bs, chunkFrames, w, b);
    }
  }

  /** The shape a capture records is the one decoding finds exactly when no section it was given is empty. */
  lemma ShapesAgree<W>(wave: Decoder<W>, chunkFrames: nat, waveform: Option<Bytes>, beat: Option<Bytes>)
    requires 0 < chunkFrames < Pow256(8) && |OrEmpty(waveform)| < Pow256(8) && |OrEmpty(beat)| < Pow256(8)
    requires Payload(wave, OrEmpty(waveform)).Success? && Payload(ParseBeat, OrEmpty(beat)).Success?
    ensures match DecodeResume(wave, Captured(chunkFrames, OrEmpty(waveform), OrEmpty(beat)))
      case Failure(_) => false
      case Success(s) =>
        s.chunkFrames == chunkFrames
        && ((s.waveform.Some?, s.beat.Some?) == (waveform.Some?, beat.Some?)
          <==> waveform != Some([]) && beat != Some([]))
  {
    hide ParseBeat, DecodeResume, Captured;
    CaptureIsAccepted(wave, Captured(chunkFrames, OrEmpty(waveform), OrEmpty(beat)), chunkFrames, OrEmpty(waveform),
      OrEmpty(beat));
  }

  /** Any other version is refused, and named. */
  lemma OtherVersionRefused<W>(wave: Decoder<W>, version: nat, chunkFrames: nat, rest: Bytes)
    requires version < Pow256(4) && version != RESUME_VERSION
    ensures DecodeResume(wave, Header(version, chunkFrames) + rest) == Failure(Version(version, RESUME_VERSION))
  {
    var bs := Header(version, chunkFrames) + rest;
    assert bs[0..4] == LittleEndian(version, 4);
    IntAt(version, 4, bs, 0);
  }
}
