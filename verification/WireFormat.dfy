/**
 The wire format byte by byte, and the reader held to it: what each shape's bytes are, said without the
 writer, which bytes are refused and why, and that nothing is read that was not written.
 */
module WireFormat {
  import opened HandleMap
  import opened Octets
  import opened WireCodec

  // ---------------------------------------------------------------- numbers

  function B16(n: nat): Bytes {
    [n / 0x100 % 256, n % 256]
  }

  function B32(n: nat): (bs: Bytes)
    ensures |bs| == 4
  {
    [n / 0x100_0000 % 256, n / 0x1_0000 % 256, n / 0x100 % 256, n % 256]
  }

  function B64(n: nat): (bs: Bytes)
    ensures |bs| == 8
  {
    B32(n / 0x1_0000_0000) + B32(n)
  }

  lemma FourDigits(n: nat, w: nat)
    requires w >= 4
    ensures BigEndian(n, w) == BigEndian(n / 0x1_0000_0000, w - 4) + B32(n)
  {
    var a, b, c, d := n / 256, n / 256 / 256, n / 256 / 256 / 256, n / 256 / 256 / 256 / 256;
    assert BigEndian(n, w) == BigEndian(a, w - 1) + [n % 256];
    assert BigEndian(a, w - 1) == BigEndian(b, w - 2) + [a % 256];
    assert BigEndian(b, w - 2) == BigEndian(c, w - 3) + [b % 256];
    assert BigEndian(c, w - 3) == BigEndian(d, w - 4) + [c % 256];
  }

  lemma TwoDigits(n: nat)
    ensures BigEndian(n, 1) == [n % 256] && BigEndian(n, 2) == B16(n)
  {
    assert BigEndian(n, 2) == BigEndian(n / 256, 1) + [n % 256];
  }

  /** The highest byte first. */
  lemma HighestFirst(n: nat)
    ensures BigEndian(n, 1) == [n % 256] && BigEndian(n, 2) == B16(n)
    ensures BigEndian(n, 4) == B32(n) && BigEndian(n, 8) == B64(n)
  {
    TwoDigits(n);
    hide B16, B32;
    var upper := n / 0x1_0000_0000;
    FourDigits(n, 4);
    FourDigits(n, 8);
    FourDigits(upper, 4);
    NoDigits(upper);
    NoDigits(upper / 0x1_0000_0000);
    hide BigEndian;
    assert [] + B32(n) == B32(n) && [] + B32(upper) == B32(upper);
  }

  lemma NoDigits(n: nat)
    ensures BigEndian(n, 0) == []
  {}

  // ---------------------------------------------------------------- what each shape's bytes are

  function Joined(parts: seq<Bytes>): Bytes {
    if parts == [] then [] else parts[0] + Joined(parts[1..])
  }

  /** Values written one after the other, each from the table the one before left. */
  ghost predicate Chained(rust: Rust, shapes: seq<Shape>, values: seq<Value>, t0: Table<nat>, bs: Bytes, t1: Table<nat>,
                          parts: seq<Bytes>, tables: seq<Table<nat>>)
  {
    && |values| == |parts| == |shapes| && |tables| == |parts| + 1 && tables[0] == t0 && tables[|parts|] == t1
    && bs == Joined(parts)
    && forall i :: 0 <= i < |parts| ==> Writes(rust, shapes[i], values[i], tables[i], parts[i], tables[i + 1])
  }

  ghost predicate InTurn(rust: Rust, shapes: seq<Shape>, values: seq<Value>, t0: Table<nat>, bs: Bytes,
                         t1: Table<nat>) {
    exists parts, tables :: Chained(rust, shapes, values, t0, bs, t1, parts, tables)
  }

  lemma InTurnMore(rust: Rust, shape: Shape, shapes: seq<Shape>, value: Value, values: seq<Value>, t0: Table<nat>,
                   b: Bytes, t: Table<nat>, c: Bytes, t1: Table<nat>)
    requires Writes(rust, shape, value, t0, b, t) && InTurn(rust, shapes, values, t, c, t1)
    ensures InTurn(rust, [shape] + shapes, [value] + values, t0, b + c, t1)
  {
    hide Writes;
    var parts, tables :| Chained(rust, shapes, values, t, c, t1, parts, tables);
    assert ([b] + parts)[1..] == parts;
    assert Chained(rust, [shape] + shapes, [value] + values, t0, b + c, t1, [b] + parts, [t0] + tables);
  }

  lemma InTurnNone(rust: Rust, t: Table<nat>)
    ensures InTurn(rust, [], [], t, [], t)
  {
    assert Chained(rust, [], [], t, [], t, [], [t]);
  }

  function Same(of: Shape, n: nat): (shapes: seq<Shape>)
    ensures |shapes| == n
  {
    seq(n, _ => of)
  }

  lemma {:induction false} ItemsInTurn(rust: Rust, of: Shape, items: seq<Value>, t0: Table<nat>, bs: Bytes,
                                       t1: Table<nat>)
    requires WritesItems(rust, of, items, t0, bs, t1)
    ensures InTurn(rust, Same(of, |items|), items, t0, bs, t1)
    decreases |items|
  {
    hide InTurn, Writes;
    if items == [] {
      InTurnNone(rust, t0);
    } else {
      var b, c, t :| Writes(rust, of, items[0], t0, b, t) && WritesItems(rust, of, items[1..], t, c, t1) && bs == b + c;
      ItemsInTurn(rust, of, items[1..], t, c, t1);
      InTurnMore(rust, of, Same(of, |items| - 1), items[0], items[1..], t0, b, t, c, t1);
      assert [of] + Same(of, |items| - 1) == Same(of, |items|) && [items[0]] + items[1..] == items;
    }
  }

  function Shapes(fs: seq<Field>): (shapes: seq<Shape>)
    ensures |shapes| == |fs|
  {
    seq(|fs|, i requires 0 <= i < |fs| => fs[i].shape)
  }

  function Values(fs: seq<Field>, m: map<string, Value>): (values: seq<Value>)
    requires forall i :: 0 <= i < |fs| ==> fs[i].name in m
    ensures |values| == |fs|
  {
    seq(|fs|, i requires 0 <= i < |fs| => m[fs[i].name])
  }

  lemma {:induction false} FieldsInTurn(rust: Rust, fs: seq<Field>, m: map<string, Value>, t0: Table<nat>, bs: Bytes,
                                        t1: Table<nat>)
    requires WritesFields(rust, fs, m, t0, bs, t1)
    ensures forall i :: 0 <= i < |fs| ==> fs[i].name in m
    ensures InTurn(rust, Shapes(fs), Values(fs, m), t0, bs, t1)
    decreases |fs|
  {
    hide InTurn, Writes;
    if fs == [] {
      InTurnNone(rust, t0);
    } else {
      var b, c, t :| && Writes(rust, fs[0].shape, m[fs[0].name], t0, b, t) && WritesFields(rust, fs[1..], m, t, c, t1)
                     && bs == b + c;
      FieldsInTurn(rust, fs[1..], m, t, c, t1);
      assert forall i :: 0 < i < |fs| ==> fs[i] == fs[1..][i - 1];
      InTurnMore(rust, fs[0].shape, Shapes(fs[1..]), m[fs[0].name], Values(fs[1..], m), t0, b, t, c, t1);
      assert [fs[0].shape] + Shapes(fs[1..]) == Shapes(fs) && [m[fs[0].name]] + Values(fs[1..], m) == Values(fs, m);
    }
  }

  /** The first case of the name is at `place`. */
  ghost predicate IsCase(cases: seq<Case>, name: string, place: nat) {
    place < |cases| && cases[place].name == name && forall i :: 0 <= i < place ==> cases[i].name != name
  }

  lemma {:induction false} TagIsPlace(cases: seq<Case>, name: string)
    requires TagOf(cases, name) >= 1
    ensures IsCase(cases, name, TagOf(cases, name) - 1)
  {
    if cases[0].name != name {
      TagIsPlace(cases[1..], name);
      assert forall i :: 0 < i < |cases| ==> cases[i] == cases[1..][i - 1];
    }
  }

  /** A string: its length in four bytes, and its bytes. */
  function Counted(s: Bytes): Bytes {
    B32(|s|) + s
  }

  function PairBytes(keys: seq<Bytes>, m: map<Bytes, Bytes>): Bytes
    requires forall k :: k in keys ==> k in m
  {
    if keys == [] then [] else Counted(keys[0]) + Counted(m[keys[0]]) + PairBytes(keys[1..], m)
  }

  lemma {:induction false} PairsAre(keys: seq<Bytes>, m: map<Bytes, Bytes>)
    requires forall k :: k in keys ==> k in m
    ensures Pairs(keys, m) == PairBytes(keys, m)
  {
    if keys != [] {
      HighestFirst(|keys[0]|);
      HighestFirst(|m[keys[0]]|);
      PairsAre(keys[1..], m);
    }
  }

  /** A dictionary's bytes: how many entries, and each key with its value, every key once in some order. */
  ghost predicate MapBytes(m: map<Bytes, Bytes>, bs: Bytes) {
    exists keys :: Enumerates(keys, m) && bs == B32(|m|) + PairBytes(keys, m)
  }

  lemma MapIs(m: map<Bytes, Bytes>, bs: Bytes)
    requires WritesMap(m, bs)
    ensures MapBytes(m, bs)
  {
    var keys :| Enumerates(keys, m) && bs == BigEndian(|m|, 4) + Pairs(keys, m);
    HighestFirst(|m|);
    PairsAre(keys, m);
  }

  /** What the bytes of an optional value, a sequence, a record, an enum or an object are. */
  ghost predicate CompoundBytes(rust: Rust, sh: Shape, v: Value, t0: Table<nat>, bs: Bytes, t1: Table<nat>) {
    match sh
    case Optional(of) =>
      if v == Absent then bs == [0] && t1 == t0
      else v.Present? && bs != [] && bs[0] == 1 && Writes(rust, of, v.value, t0, bs[1..], t1)
    case Sequence(of) =>
      v.Items? && |bs| >= 4 && bs[..4] == B32(|v.items|)
      && InTurn(rust, Same(of, |v.items|), v.items, t0, bs[4..], t1)
    case Struct(fs) =>
      v.Record? && (forall i :: 0 <= i < |fs| ==> fs[i].name in v.fields)
      && InTurn(rust, Shapes(fs), Values(fs, v.fields), t0, bs, t1)
    case Enum(cases) =>
      v.Variant? && |bs| >= 4
      && exists place: nat ::
           && IsCase(cases, v.name, place) && bs[..4] == B32(place + 1)
           && var fs := cases[place].fields;
              (forall i :: 0 <= i < |fs| ==> fs[i].name in v.payload)
              && InTurn(rust, Shapes(fs), Values(fs, v.payload), t0, bs[4..], t1)
    case Object =>
      if v.Local? then bs == B64(t0.next) && t1.live == t0.live[t0.next := v.obj] && t1.next == t0.next + 2
      else v.Remote? && t1 == t0 && exists h: nat :: h % 2 == 0 && rust(h) == v.obj && bs == B64(h)
    case RustObject => v.Remote? && t1 == t0 && exists h: nat :: rust(h) == v.obj && bs == B64(h)
    case _ => true
  }

  lemma OptionalBytes(rust: Rust, of: Shape, v: Value, t0: Table<nat>, bs: Bytes, t1: Table<nat>)
    requires Writes(rust, Optional(of), v, t0, bs, t1)
    ensures CompoundBytes(rust, Optional(of), v, t0, bs, t1)
  {
    HighestFirst(0);
    HighestFirst(1);
    if v.Present? {
      var b :| Writes(rust, of, v.value, t0, b, t1) && bs == BigEndian(1, 1) + b;
      assert bs[1..] == b;
    }
  }

  lemma SequenceBytes(rust: Rust, of: Shape, v: Value, t0: Table<nat>, bs: Bytes, t1: Table<nat>)
    requires Writes(rust, Sequence(of), v, t0, bs, t1)
    ensures CompoundBytes(rust, Sequence(of), v, t0, bs, t1)
  {
    hide InTurn;
    HighestFirst(|v.items|);
    var b :| WritesItems(rust, of, v.items, t0, b, t1) && bs == BigEndian(|v.items|, 4) + b;
    ItemsInTurn(rust, of, v.items, t0, b, t1);
    assert bs[4..] == b;
  }

  lemma EnumBytes(rust: Rust, cases: seq<Case>, v: Value, t0: Table<nat>, bs: Bytes, t1: Table<nat>)
    requires Writes(rust, Enum(cases), v, t0, bs, t1)
    ensures CompoundBytes(rust, Enum(cases), v, t0, bs, t1)
  {
    hide InTurn, IsCase;
    var tag := TagOf(cases, v.name);
    TagIsPlace(cases, v.name);
    HighestFirst(tag);
    var b :| WritesFields(rust, cases[tag - 1].fields, v.payload, t0, b, t1) && bs == BigEndian(tag, 4) + b;
    FieldsInTurn(rust, cases[tag - 1].fields, v.payload, t0, b, t1);
    assert bs[4..] == b && bs[..4] == B32(tag - 1 + 1);
  }

  lemma ObjectBytes(rust: Rust, sh: Shape, v: Value, t0: Table<nat>, bs: Bytes, t1: Table<nat>)
    requires (sh.Object? || sh.RustObject?) && Writes(rust, sh, v, t0, bs, t1)
    ensures CompoundBytes(rust, sh, v, t0, bs, t1)
  {
    if v.Local? {
      HighestFirst(t0.next);
    } else {
      var h: nat :| RustHandle(rust, h, v.obj) && bs == BigEndian(h, 8);
      HighestFirst(h);
    }
  }

  /** What is written of a value that holds others. */
  lemma CompoundsAre(rust: Rust, sh: Shape, v: Value, t0: Table<nat>, bs: Bytes, t1: Table<nat>)
    requires Writes(rust, sh, v, t0, bs, t1)
    ensures CompoundBytes(rust, sh, v, t0, bs, t1)
  {
    hide CompoundBytes, InTurn;
    match sh
    case Optional(of) => OptionalBytes(rust, of, v, t0, bs, t1);
    case Sequence(of) => SequenceBytes(rust, of, v, t0, bs, t1);
    case Struct(fs) => StructBytes(rust, fs, v, t0, bs, t1);
    case Enum(cases) => EnumBytes(rust, cases, v, t0, bs, t1);
    case Object => ObjectBytes(rust, sh, v, t0, bs, t1);
    case RustObject => ObjectBytes(rust, sh, v, t0, bs, t1);
    case _ => OtherBytes(rust, sh, v, t0, bs, t1);
  }

  lemma StructBytes(rust: Rust, fs: seq<Field>, v: Value, t0: Table<nat>, bs: Bytes, t1: Table<nat>)
    requires Writes(rust, Struct(fs), v, t0, bs, t1)
    ensures CompoundBytes(rust, Struct(fs), v, t0, bs, t1)
  {
    hide InTurn;
    FieldsInTurn(rust, fs, v.fields, t0, bs, t1);
  }

  lemma OtherBytes(rust: Rust, sh: Shape, v: Value, t0: Table<nat>, bs: Bytes, t1: Table<nat>)
    requires sh.Int? || sh.Bool? || sh.String? || sh.StringMap?
    ensures CompoundBytes(rust, sh, v, t0, bs, t1)
  {}

  /** What is written of a number, a flag, a string or a dictionary; the table stays as it is. */
  lemma ScalarsAre(rust: Rust, sh: Shape, v: Value, t0: Table<nat>, bs: Bytes, t1: Table<nat>)
    requires Writes(rust, sh, v, t0, bs, t1)
    ensures sh == Int(1) ==> v.Bits? && bs == [v.bits % 256] && t1 == t0
    ensures sh == Int(2) ==> v.Bits? && bs == B16(v.bits) && t1 == t0
    ensures sh == Int(4) ==> v.Bits? && bs == B32(v.bits) && t1 == t0
    ensures sh == Int(8) ==> v.Bits? && bs == B64(v.bits) && t1 == t0
    ensures sh.Bool? ==> v.Flag? && bs == (if v.on then [1] else [0]) && t1 == t0
    ensures sh.String? ==> v.Text? && bs == Counted(v.utf8) && t1 == t0
    ensures sh.StringMap? ==> v.Entries? && MapBytes(v.entries, bs) && t1 == t0
  {
    hide B16, B32, B64, MapBytes;
    if sh.Int? && v.Bits? { HighestFirst(v.bits); }
    HighestFirst(0);
    HighestFirst(1);
    if sh.String? { HighestFirst(|v.utf8|); }
    if sh.StringMap? { MapIs(v.entries, bs); }
  }

  // ---------------------------------------------------------------- nothing is read that was not written

  /**
   Shapes every value of which has one encoding and whose readers look at every bit: not flags, where any
   byte but zero is true; not dictionaries, where a key may come twice; and not handles.
   */
  ghost predicate Exact(sh: Shape)
    decreases sh, 0
  {
    match sh
    case Int(_) => true
    case String => true
    case Optional(of) => Exact(of)
    case Sequence(of) => Exact(of)
    case Struct(fs) => ExactFields(fs)
    case Enum(cases) =>
      |cases| < INT32_LIMIT
      && (forall i, j :: 0 <= i < j < |cases| ==> cases[i].name != cases[j].name)
      && forall i :: 0 <= i < |cases| ==> ExactFields(cases[i].fields)
    case _ => false
  }

  ghost predicate ExactFields(fs: seq<Field>)
    decreases fs, 0
  {
    DistinctNames(fs) && forall i :: 0 <= i < |fs| ==> Exact(fs[i].shape)
  }

  lemma {:induction false} BytesAreNumbers(bs: Bytes)
    ensures FromBigEndian(bs) < Pow256(|bs|) && BigEndian(FromBigEndian(bs), |bs|) == bs
  {
    if bs != [] {
      BytesAreNumbers(bs[..|bs| - 1]);
      assert bs == bs[..|bs| - 1] + [bs[|bs| - 1]];
    }
  }

  lemma IntWasWritten(w: nat, data: Bytes, off: nat, t: Table<nat>)
    requires ReadInt(w, data, off, t).Ok?
    ensures var r := ReadInt(w, data, off, t);
      r.table == t && r.offset == off + w <= |data| && r.value < Pow256(w)
        && data[off..off + w] == BigEndian(r.value, w)
  {
    BytesAreNumbers(data[off..off + w]);
  }

  lemma SliceJoins(data: Bytes, off: nat, mid: nat, end: nat)
    requires off <= mid <= end <= |data|
    ensures data[off..end] == data[off..mid] + data[mid..end]
  {}

  ghost predicate WasWritten(rust: Rust, sh: Shape, data: Bytes, off: nat, t: Table<nat>, r: Outcome<Value>) {
    r.Ok? ==> r.table == t && off <= r.offset <= |data| && Writes(rust, sh, r.value, t, data[off..r.offset], t)
  }

  lemma StringWasWritten(rust: Rust, data: Bytes, off: nat, t: Table<nat>)
    ensures WasWritten(rust, String, data, off, t, Read(rust, String, data, off, t))
  {
    if Read(rust, String, data, off, t).Ok? {
      var n := ReadCount(data, off, t);
      IntWasWritten(4, data, off, t);
      SliceJoins(data, off, n.offset, n.offset + n.value);
    }
  }

  lemma {:induction false} ReadWasWritten(rust: Rust, sh: Shape, data: Bytes, off: nat, t: Table<nat>)
    requires Exact(sh) && off <= |data|
    ensures WasWritten(rust, sh, data, off, t, Read(rust, sh, data, off, t))
    decreases sh, 0, 0
  {
    hide FromBigEndian;
    var r := Read(rust, sh, data, off, t);
    if r.Ok? {
      match sh
      case Int(w) => IntWasWritten(w, data, off, t);
      case String => StringWasWritten(rust, data, off, t);
      case Optional(of) => OptionalWasWritten(rust, of, data, off, t);
      case Sequence(of) => SequenceWasWritten(rust, of, data, off, t);
      case Struct(fs) =>
        ExactIsDistinct(fs);
        FieldsWereWritten(rust, fs, data, off, t);
      case Enum(cases) => EnumWasWritten(rust, cases, data, off, t);
    }
  }

  lemma {:induction false} OptionalWasWritten(rust: Rust, of: Shape, data: Bytes, off: nat, t: Table<nat>)
    requires Exact(of) && Read(rust, Optional(of), data, off, t).Ok?
    ensures WasWritten(rust, Optional(of), data, off, t, Read(rust, Optional(of), data, off, t))
    decreases of, 3, 0
  {
    hide FromBigEndian, Exact;
    IntWasWritten(1, data, off, t);
    if ReadInt(1, data, off, t).value == 1 {
      ReadWasWritten(rust, of, data, off + 1, t);
      SliceJoins(data, off, off + 1, Read(rust, of, data, off + 1, t).offset);
    }
  }

  lemma {:induction false} SequenceWasWritten(rust: Rust, of: Shape, data: Bytes, off: nat, t: Table<nat>)
    requires Exact(of) && Read(rust, Sequence(of), data, off, t).Ok?
    ensures WasWritten(rust, Sequence(of), data, off, t, Read(rust, Sequence(of), data, off, t))
    decreases of, 2, 0
  {
    hide FromBigEndian, Exact;
    IntWasWritten(4, data, off, t);
    var n := ReadCount(data, off, t);
    ItemsWereWritten(rust, of, n.value, data, off + 4, t);
    SliceJoins(data, off, off + 4, ReadItems(rust, of, n.value, data, off + 4, t).offset);
  }

  lemma {:induction false} ItemsWereWritten(rust: Rust, of: Shape, n: nat, data: Bytes, off: nat, t: Table<nat>)
    requires Exact(of) && off <= |data|
    ensures var r := ReadItems(rust, of, n, data, off, t);
      r.Ok? ==> r.table == t && off <= r.offset <= |data| && |r.value| == n
                && WritesItems(rust, of, r.value, t, data[off..r.offset], t)
    decreases of, 1, n
  {
    var r := ReadItems(rust, of, n, data, off, t);
    if n > 0 && r.Ok? {
      hide Exact;
      var first := Read(rust, of, data, off, t);
      ReadWasWritten(rust, of, data, off, t);
      ItemsWereWritten(rust, of, n - 1, data, first.offset, t);
      SliceJoins(data, off, first.offset, r.offset);
      var rest := ReadItems(rust, of, n - 1, data, first.offset, t);
      assert r.value[0] == first.value && r.value[1..] == rest.value;
    }
  }

  lemma {:induction false} FieldsAlike(rust: Rust, fs: seq<Field>, m: map<string, Value>, n: map<string, Value>,
                                       t0: Table<nat>, bs: Bytes, t1: Table<nat>)
    requires WritesFields(rust, fs, m, t0, bs, t1)
    requires forall i :: 0 <= i < |fs| && fs[i].name in m ==> fs[i].name in n && n[fs[i].name] == m[fs[i].name]
    ensures WritesFields(rust, fs, n, t0, bs, t1)
    decreases |fs|
  {
    hide Writes;
    if fs != [] {
      var b, c, t :| && Writes(rust, fs[0].shape, m[fs[0].name], t0, b, t) && WritesFields(rust, fs[1..], m, t, c, t1)
                     && bs == b + c;
      assert forall i :: 0 < i < |fs| ==> fs[i] == fs[1..][i - 1];
      FieldsAlike(rust, fs[1..], m, n, t, c, t1);
    }
  }

  lemma {:induction false} FieldsWereWritten(rust: Rust, fs: seq<Field>, data: Bytes, off: nat, t: Table<nat>)
    requires ExactFields(fs) && off <= |data|
    ensures var r := ReadFields(rust, fs, data, off, t);
      r.Ok? ==> r.table == t && off <= r.offset <= |data| && r.value.Keys == Names(fs)
                && WritesFields(rust, fs, r.value, t, data[off..r.offset], t)
    decreases fs, 1, 0
  {
    var r := ReadFields(rust, fs, data, off, t);
    if fs != [] && r.Ok? {
      assert Exact(fs[0].shape) && ExactFields(fs[1..]) by {
        assert forall i :: 0 < i < |fs| ==> fs[i] == fs[1..][i - 1];
      }
      var first := Read(rust, fs[0].shape, data, off, t);
      ReadWasWritten(rust, fs[0].shape, data, off, t);
      FieldsWereWritten(rust, fs[1..], data, first.offset, t);
      FieldJoins(rust, fs, data, off, t);
    }
  }

  lemma FieldJoins(rust: Rust, fs: seq<Field>, data: Bytes, off: nat, t: Table<nat>)
    requires fs != [] && DistinctNames(fs) && ReadFields(rust, fs, data, off, t).Ok? && off <= |data|
    requires WasWritten(rust, fs[0].shape, data, off, t, Read(rust, fs[0].shape, data, off, t))
    requires var first := Read(rust, fs[0].shape, data, off, t);
      var rest := ReadFields(rust, fs[1..], data, first.offset, t);
      rest.Ok? && rest.table == t && first.offset <= rest.offset <= |data| && rest.value.Keys == Names(fs[1..])
      && WritesFields(rust, fs[1..], rest.value, t, data[first.offset..rest.offset], t)
    ensures var r := ReadFields(rust, fs, data, off, t);
      r.table == t && off <= r.offset <= |data| && r.value.Keys == Names(fs)
      && WritesFields(rust, fs, r.value, t, data[off..r.offset], t)
  {
    hide Writes, Read;
    var first := Read(rust, fs[0].shape, data, off, t);
    var rest := ReadFields(rust, fs[1..], data, first.offset, t);
    var r := ReadFields(rust, fs, data, off, t);
    NamesSplit(fs);
    assert fs[0].name !in Names(fs[1..]) by { assert forall i :: 0 < i < |fs| ==> fs[i] == fs[1..][i - 1]; }
    FieldsAlike(rust, fs[1..], rest.value, r.value, t, data[first.offset..rest.offset], t);
    SliceJoins(data, off, first.offset, rest.offset);
  }

  lemma {:induction false} TagOfPlace(cases: seq<Case>, place: nat)
    requires place < |cases| && forall i, j :: 0 <= i < j < |cases| ==> cases[i].name != cases[j].name
    ensures TagOf(cases, cases[place].name) == place + 1
  {
    if place > 0 { TagOfPlace(cases[1..], place - 1); }
  }

  lemma {:induction false} EnumWasWritten(rust: Rust, cases: seq<Case>, data: Bytes, off: nat, t: Table<nat>)
    requires Exact(Enum(cases)) && Read(rust, Enum(cases), data, off, t).Ok?
    ensures WasWritten(rust, Enum(cases), data, off, t, Read(rust, Enum(cases), data, off, t))
    decreases cases, 1, 0
  {
    hide FromBigEndian, ExactFields;
    IntWasWritten(4, data, off, t);
    var place := ReadInt(4, data, off, t).value - 1;
    TagOfPlace(cases, place);
    var fs := cases[place].fields;
    assert ExactFields(fs);
    ExactIsDistinct(fs);
    FieldsWereWritten(rust, fs, data, off + 4, t);
    SliceJoins(data, off, off + 4, ReadFields(rust, fs, data, off + 4, t).offset);
  }

  lemma ExactIsDistinct(fs: seq<Field>)
    requires ExactFields(fs)
    ensures DistinctNames(fs)
  {}

  /** Of an exact shape, a buffer lifts to a value exactly when it is what lowering that value gives. */
  lemma LiftsExactlyWhatIsWritten(rust: Rust, sh: Shape, v: Value, bs: Bytes, t: Table<nat>)
    requires Exact(sh) && Sound(t)
    ensures Lift(rust, sh, bs, t) == Ok(v, |bs|, t) <==> Writes(rust, sh, v, t, bs, t)
  {
    hide Writes, Read, Exact;
    if Lift(rust, sh, bs, t) == Ok(v, |bs|, t) {
      ReadWasWritten(rust, sh, bs, 0, t);
      assert bs[0..|bs|] == bs;
    }
    if Writes(rust, sh, v, t, bs, t) {
      LiftUndoesLower(rust, sh, v, t, bs, t, []);
    }
  }

  // ---------------------------------------------------------------- what is refused, and why

  /** The first byte of an optional value is a flag, and the first four of an enum one of its tags. */
  lemma TagsAreRefused(rust: Rust, sh: Shape, data: Bytes, t: Table<nat>)
    requires |data| >= 4
    ensures sh.Optional? && data[0] > 1 ==> Read(rust, sh, data, 0, t) == Err(UnexpectedOptionalTag)
    ensures sh.Enum? && (data[..4] == [0, 0, 0, 0] || FromBigEndian(data[..4]) > |sh.cases|) ==>
      Read(rust, sh, data, 0, t) == Err(UnexpectedEnumCase)
  {
    hide FromBigEndian;
    BytesAreNumbers(data[0..1]);
    TwoDigits(FromBigEndian(data[0..1]));
    Widths();
    assert data[0..4] == data[..4];
    ZeroTag();
  }

  lemma ZeroTag()
    ensures FromBigEndian([0, 0, 0, 0]) == 0
  {
    var zeros: Bytes := [0, 0, 0, 0];
    assert zeros[..3] == [0, 0, 0] && zeros[..3][..2] == [0, 0] && zeros[..3][..2][..1] == [0];
    assert FromBigEndian([0]) == 0;
    assert FromBigEndian(zeros[..3][..2]) == 0;
  }

  /** A handle with its lowest bit set is the table's: no longer live, it is refused; live, it is spent. */
  lemma HandlesAreSpent(rust: Rust, h: nat, t: Table<nat>)
    requires h < Pow256(8) && h % 2 == 1
    ensures var r := Read(rust, Object, B64(h), 0, t);
      if h in t.live then r == Ok(Local(t.live[h]), 8, t.(live := t.live - {h})) else r == Err(StaleHandle)
  {
    hide B64;
    HighestFirst(h);
    IntReads(h, 8, B64(h), 0, t);
  }

  /** A flag is any byte but zero. */
  lemma FlagsAreLoose(rust: Rust, b: byte, t: Table<nat>)
    ensures Read(rust, Bool, [b], 0, t) == Ok(Flag(b != 0), 1, t)
  {
    assert [b][0..1] == [b];
    BytesAreNumbers([b]);
    TwoDigits(FromBigEndian([b]));
    Widths();
  }
}
