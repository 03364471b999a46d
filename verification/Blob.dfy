/** The cursor the stored artifacts are read with: little-endian, and trusting no length. */
module Blob {
  import opened Octets
  import opened Wrappers

  datatype BlobError = Version(found: nat, expected: nat) | Corrupt

  datatype Parsed<+T> = Ok(value: T, cursor: nat) | Err(error: BlobError)

  type Read<+T> = Result<T, BlobError>

  // ---------------------------------------------------------------- little-endian integers

  function LittleEndian(v: nat, w: nat): (bs: Bytes)
    ensures |bs| == w
  {
    if w == 0 then [] else [v % 256] + LittleEndian(v / 256, w - 1)
  }

  function FromLittleEndian(bs: Bytes): nat {
    if bs == [] then 0 else bs[0] + 256 * FromLittleEndian(bs[1..])
  }

  lemma {:induction false} IntReadsBack(v: nat, w: nat)
    requires v < Pow256(w)
    ensures FromLittleEndian(LittleEndian(v, w)) == v
  {
    if w > 0 {
      IntReadsBack(v / 256, w - 1);
      assert LittleEndian(v, w)[1..] == LittleEndian(v / 256, w - 1);
    }
  }

  lemma {:induction false} IntWritesBack(bs: Bytes)
    ensures FromLittleEndian(bs) < Pow256(|bs|)
    ensures LittleEndian(FromLittleEndian(bs), |bs|) == bs
  {
    if bs != [] {
      IntWritesBack(bs[1..]);
      assert bs == [bs[0]] + bs[1..];
    }
  }

  /** Four and eight bytes of a number, the lowest first. */
  function U32(n: nat): (bs: Bytes)
    ensures |bs| == 4
  {
    [n % 256, n / 0x100 % 256, n / 0x1_0000 % 256, n / 0x100_0000 % 256]
  }

  function U64(n: nat): (bs: Bytes)
    ensures |bs| == 8
  {
    U32(n) + U32(n / 0x1_0000_0000)
  }

  lemma LowestFirst(n: nat)
    ensures LittleEndian(n, 1) == [n % 256]
    ensures LittleEndian(n, 4) == U32(n)
    ensures LittleEndian(n, 8) == U64(n)
  {
    FourDigits(n, 4);
    FourDigits(n, 8);
    FourDigits(n / 0x1_0000_0000, 4);
  }

  lemma FourDigits(n: nat, w: nat)
    requires w >= 4
    ensures LittleEndian(n, w) == U32(n) + LittleEndian(n / 0x1_0000_0000, w - 4)
  {
    assert LittleEndian(n, w) == [n % 256] + LittleEndian(n / 256, w - 1);
    assert LittleEndian(n / 256, w - 1) == [n / 256 % 256] + LittleEndian(n / 256 / 256, w - 2);
    assert LittleEndian(n / 256 / 256, w - 2)
      == [n / 256 / 256 % 256] + LittleEndian(n / 256 / 256 / 256, w - 3);
    assert LittleEndian(n / 256 / 256 / 256, w - 3)
      == [n / 256 / 256 / 256 % 256] + LittleEndian(n / 256 / 256 / 256 / 256, w - 4);
  }

  // ---------------------------------------------------------------- what each read returns

  function ParseInt(w: nat, bs: Bytes, at: nat): (p: Parsed<nat>)
    ensures p.Ok? ==> p.cursor == at + w <= |bs|
  {
    if at + w <= |bs| then Ok(FromLittleEndian(bs[at..at + w]), at + w) else Err(Corrupt)
  }

  function ParseBool(bs: Bytes, at: nat): Parsed<bool> {
    match ParseInt(1, bs, at)
    case Err(e) => Err(e)
    case Ok(n, c) => if n == 0 then Ok(false, c) else if n == 1 then Ok(true, c) else Err(Corrupt)
  }

  /** A count whose items cannot fit in what is left is refused before any is read. */
  function ParseCount(itemBytes: nat, bs: Bytes, at: nat): (p: Parsed<nat>)
    ensures p.Ok? ==> p.cursor == at + 8 && p.value * itemBytes <= |bs| - p.cursor
  {
    match ParseInt(8, bs, at)
    case Err(e) => Err(e)
    case Ok(n, c) => if n * itemBytes > |bs| - c then Err(Corrupt) else Ok(n, c)
  }

  function ParseOrdered(previous: Option<nat>, bs: Bytes, at: nat): (p: Parsed<nat>)
    ensures p.Ok? ==> previous.Some? ==> previous.value < p.value
  {
    match ParseInt(8, bs, at)
    case Err(e) => Err(e)
    case Ok(n, c) => if previous.Some? && previous.value >= n then Err(Corrupt) else Ok(n, c)
  }

  function ParseMany(n: nat, bs: Bytes, at: nat): Parsed<seq<nat>> {
    if n == 0 then Ok([], at)
    else match ParseInt(4, bs, at)
      case Err(e) => Err(e)
      case Ok(x, c) => match ParseMany(n - 1, bs, c) case Err(e) => Err(e) case Ok(xs, c) => Ok([x] + xs, c)
  }

  /** Samples, as the bit patterns of their floats. */
  function ParseSamples(bs: Bytes, at: nat): Parsed<seq<nat>> {
    match ParseCount(4, bs, at) case Err(e) => Err(e) case Ok(n, c) => ParseMany(n, bs, c)
  }

  function ParseSection(bs: Bytes, at: nat): (p: Parsed<Bytes>)
    ensures p.Ok? ==> at + 8 <= p.cursor <= |bs| && p.value == bs[at + 8..p.cursor]
  {
    match ParseInt(8, bs, at)
    case Err(e) => Err(e)
    case Ok(n, c) => if c + n <= |bs| then Ok(bs[c..c + n], c + n) else Err(Corrupt)
  }

  // ---------------------------------------------------------------- the reader

  ghost predicate Matches<T>(r: Read<T>, p: Parsed<T>, cursor: nat) {
    match p
    case Ok(v, c) => r == Success(v) && cursor == c
    case Err(e) => r == Failure(e)
  }

  class Reader {
    const bytes: Bytes
    var cursor: nat

    constructor (bytes: Bytes)
      ensures this.bytes == bytes && cursor == 0
    {
      this.bytes, cursor := bytes, 0;
    }

    method ReadInt(w: nat) returns (r: Read<nat>)
      modifies this
      ensures Matches(r, ParseInt(w, bytes, old(cursor)), cursor)
    {
      if cursor + w > |bytes| { return Failure(Corrupt); }
      var chunk := bytes[cursor..cursor + w];
      var value: nat, i := 0, w;
      while i > 0
        invariant 0 <= i <= w
        invariant value == FromLittleEndian(chunk[i..])
      {
        i := i - 1;
        assert chunk[i..][1..] == chunk[i + 1..];
        value := chunk[i] + 256 * value;
      }
      cursor := cursor + w;
      r := Success(value);
    }

    method ReadBool() returns (r: Read<bool>)
      modifies this
      ensures Matches(r, ParseBool(bytes, old(cursor)), cursor)
    {
      var n := ReadInt(1);
      if n.Failure? { return Failure(n.error); }
      if n.value > 1 { return Failure(Corrupt); }
      r := Success(n.value == 1);
    }

    method ReadCount(itemBytes: nat) returns (r: Read<nat>)
      modifies this
      ensures Matches(r, ParseCount(itemBytes, bytes, old(cursor)), cursor)
    {
      r := ReadInt(8);
      if r.Success? && r.value * itemBytes > |bytes| - cursor { r := Failure(Corrupt); }
    }

    method ReadOrdered(previous: Option<nat>) returns (r: Read<nat>)
      modifies this
      ensures Matches(r, ParseOrdered(previous, bytes, old(cursor)), cursor)
    {
      r := ReadInt(8);
      if r.Success? && previous.Some? && previous.value >= r.value { r := Failure(Corrupt); }
    }

    method ReadSamples() returns (r: Read<seq<nat>>)
      modifies this
      ensures Matches(r, ParseSamples(bytes, old(cursor)), cursor)
    {
      var count := ReadCount(4);
      if count.Failure? { return Failure(count.error); }
      var samples: seq<nat> := [];
      var i := 0;
      ghost var out := ParseMany(count.value, bytes, cursor);
      assert out.Ok? ==> [] + out.value == out.value;
      while i < count.value
        invariant 0 <= i <= count.value
        invariant out == match ParseMany(count.value - i, bytes, cursor)
                         case Ok(xs, c) => Ok(samples + xs, c) case Err(e) => Err(e)
      {
        var x := ReadInt(4);
        if x.Failure? { return Failure(x.error); }
        ghost var rest := ParseMany(count.value - i - 1, bytes, cursor);
        assert rest.Ok? ==> samples + ([x.value] + rest.value) == samples + [x.value] + rest.value;
        samples := samples + [x.value];
        i := i + 1;
      }
      assert samples + [] == samples;
      r := Success(samples);
    }

    method ReadSection() returns (r: Read<Bytes>)
      modifies this
      ensures Matches(r, ParseSection(bytes, old(cursor)), cursor)
    {
      var len := ReadInt(8);
      if len.Failure? { return Failure(len.error); }
      if cursor + len.value > |bytes| { return Failure(Corrupt); }
      r := Success(bytes[cursor..cursor + len.value]);
      cursor := cursor + len.value;
    }
  }

  // ---------------------------------------------------------------- reading at a written place

  ghost predicate At(bs: Bytes, at: nat, part: Bytes) {
    at + |part| <= |bs| && bs[at..at + |part|] == part
  }

  lemma AtConcat(bs: Bytes, at: nat, a: Bytes, b: Bytes)
    requires At(bs, at, a + b)
    ensures At(bs, at, a) && At(bs, at + |a|, b)
  {
    assert bs[at..at + |a|] == (a + b)[..|a|] == a;
    assert bs[at + |a|..at + |a| + |b|] == (a + b)[|a|..] == b;
  }

  lemma IntAt(v: nat, w: nat, bs: Bytes, at: nat)
    requires v < Pow256(w) && At(bs, at, LittleEndian(v, w))
    ensures ParseInt(w, bs, at) == Ok(v, at + w)
  {
    IntReadsBack(v, w);
  }

  /** A written count reads back when its items follow it. */
  lemma CountAt(n: nat, itemBytes: nat, items: Bytes, bs: Bytes, at: nat)
    requires n < Pow256(8) && At(bs, at, LittleEndian(n, 8) + items) && n * itemBytes <= |items|
    ensures ParseCount(itemBytes, bs, at) == Ok(n, at + 8) && At(bs, at + 8, items)
  {
    AtConcat(bs, at, LittleEndian(n, 8), items);
    IntAt(n, 8, bs, at);
  }

  function WriteMany(xs: seq<nat>): (bs: Bytes)
    ensures |bs| == 4 * |xs|
  {
    if xs == [] then [] else LittleEndian(xs[0], 4) + WriteMany(xs[1..])
  }

  function WriteSamples(xs: seq<nat>): Bytes {
    LittleEndian(|xs|, 8) + WriteMany(xs)
  }

  ghost predicate Patterns(xs: seq<nat>) {
    |xs| < Pow256(8) && forall i :: 0 <= i < |xs| ==> xs[i] < Pow256(4)
  }

  lemma {:induction false} ManyAt(xs: seq<nat>, bs: Bytes, at: nat)
    requires (forall i :: 0 <= i < |xs| ==> xs[i] < Pow256(4)) && At(bs, at, WriteMany(xs))
    ensures ParseMany(|xs|, bs, at) == Ok(xs, at + 4 * |xs|)
  {
    if xs != [] {
      AtConcat(bs, at, LittleEndian(xs[0], 4), WriteMany(xs[1..]));
      IntAt(xs[0], 4, bs, at);
      ManyAt(xs[1..], bs, at + 4);
      assert xs == [xs[0]] + xs[1..];
    }
  }

  lemma SamplesAt(xs: seq<nat>, bs: Bytes, at: nat)
    requires Patterns(xs) && At(bs, at, WriteSamples(xs))
    ensures ParseSamples(bs, at) == Ok(xs, at + |WriteSamples(xs)|)
  {
    CountAt(|xs|, 4, WriteMany(xs), bs, at);
    ManyAt(xs, bs, at + 8);
  }
}
