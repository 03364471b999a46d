/**
 The converters as they run: readers advance an offset, writers append to a buffer, and both share the
 handle table. `WireCodec` says what they return and emit.
 */
module WireConverters {
  import opened HandleMap
  import opened Octets
  import opened WireCodec
  import opened Wrappers

  type Lifted<+T> = Result<T, WireError>

  class Reader {
    const data: Bytes
    var offset: nat

    constructor (data: Bytes)
      ensures this.data == data && offset == 0
    {
      this.data, offset := data, 0;
    }

    /** An integer at the offset, most significant byte first. */
    method ReadInt(w: nat) returns (r: Lifted<nat>)
      modifies this
      ensures Matches(r, WireCodec.ReadInt(w, data, old(offset), Empty()), offset, Empty())
    {
      if |data| < offset + w { return Failure(BufferOverflow); }
      var value: nat, i := 0, 0;
      ghost var bs := data[offset..offset + w];
      while i < w
        invariant 0 <= i <= w
        invariant value == FromBigEndian(bs[..i])
      {
        value := 256 * value + data[offset + i];
        assert bs[..i + 1][..i] == bs[..i];
        i := i + 1;
      }
      assert bs[..w] == bs;
      offset := offset + w;
      r := Success(value);
    }
  }

  class Writer {
    var buf: Bytes

    constructor ()
      ensures buf == []
    {
      buf := [];
    }

    method WriteInt(value: nat, w: nat)
      modifies this
      ensures buf == old(buf) + BigEndian(value, w)
    {
      buf := buf + BigEndian(value, w);
    }

    method WriteBytes(bs: Bytes)
      modifies this
      ensures buf == old(buf) + bs
    {
      buf := buf + bs;
    }
  }

  /** A reader's result, offset and table are those of the outcome. */
  ghost predicate Matches<T>(r: Lifted<T>, out: Outcome<T>, offset: nat, t: Table<nat>) {
    match out
    case Ok(v, o, u) => r == Success(v) && offset == o && t == u
    case Err(e) => r == Failure(e)
  }

  /** Fields that do not touch the table read the same whatever is in it. */
  lemma TableIgnored(w: nat, data: Bytes, off: nat, t: Table<nat>)
    ensures WireCodec.ReadInt(w, data, off, t)
      == match WireCodec.ReadInt(w, data, off, Empty()) case Ok(v, o, _) => Ok(v, o, t) case Err(e) => Err(e)
  {}

  // ---------------------------------------------------------------- reading

  method ReadCount(r: Reader, h: UniffiHandleMap<nat>) returns (n: Lifted<nat>)
    modifies r
    ensures Matches(n, WireCodec.ReadCount(r.data, old(r.offset), h.State()), r.offset, h.State())
  {
    TableIgnored(4, r.data, r.offset, h.State());
    n := r.ReadInt(4);
    if n.Success? && n.value >= INT32_LIMIT { n := Failure(Trap); }
  }

  method ReadString(r: Reader, h: UniffiHandleMap<nat>) returns (s: Lifted<Bytes>)
    modifies r
    ensures Matches(s, WireCodec.ReadString(r.data, old(r.offset), h.State()), r.offset, h.State())
  {
    var len := ReadCount(r, h);
    if len.Failure? { return Failure(len.error); }
    if |r.data| < r.offset + len.value { return Failure(BufferOverflow); }
    s := Success(r.data[r.offset..r.offset + len.value]);
    r.offset := r.offset + len.value;
  }

  method ReadStringMap(r: Reader, h: UniffiHandleMap<nat>) returns (m: Lifted<Value>)
    modifies r
    ensures forall rust :: Matches(m, Read(rust, StringMap, r.data, old(r.offset), h.State()), r.offset, h.State())
  {
    var len := ReadCount(r, h);
    if len.Failure? { return Failure(len.error); }
    var dict: map<Bytes, Bytes> := map[];
    var i := 0;
    ghost var out := ReadPairs(len.value, map[], r.data, r.offset, h.State());
    while i < len.value
      invariant 0 <= i <= len.value
      invariant ReadPairs(len.value - i, dict, r.data, r.offset, h.State()) == out
    {
      var key := ReadString(r, h);
      if key.Failure? { return Failure(key.error); }
      var value := ReadString(r, h);
      if value.Failure? { return Failure(value.error); }
      dict := dict[key.value := value.value];
      i := i + 1;
    }
    m := Success(Entries(dict));
  }

  method ReadObject(rust: Rust, r: Reader, h: UniffiHandleMap<nat>) returns (v: Lifted<Value>)
    modifies r, h
    ensures Matches(v, Read(rust, Object, r.data, old(r.offset), old(h.State())), r.offset, h.State())
  {
    TableIgnored(8, r.data, r.offset, h.State());
    var handle := r.ReadInt(8);
    if handle.Failure? { return Failure(handle.error); }
    if handle.value % 2 == 0 {
      v := Success(Remote(rust(handle.value)));
    } else {
      var obj := h.Remove(handle.value);
      v := if obj.Some? then Success(Local(obj.value)) else Failure(StaleHandle);
    }
  }

  method ReadValue(rust: Rust, sh: Shape, r: Reader, h: UniffiHandleMap<nat>) returns (v: Lifted<Value>)
    modifies r, h
    ensures Matches(v, Read(rust, sh, r.data, old(r.offset), old(h.State())), r.offset, h.State())
    decreases sh, 0, 0
  {
    TableIgnored(1, r.data, r.offset, h.State());
    TableIgnored(4, r.data, r.offset, h.State());
    match sh
    case Int(w) =>
      TableIgnored(w, r.data, r.offset, h.State());
      var n := r.ReadInt(w);
      v := if n.Success? then Success(Bits(n.value)) else Failure(n.error);
    case Bool =>
      var n := r.ReadInt(1);
      v := if n.Success? then Success(Flag(n.value != 0)) else Failure(n.error);
    case String =>
      var s := ReadString(r, h);
      v := if s.Success? then Success(Text(s.value)) else Failure(s.error);
    case Optional(of) =>
      var tag := r.ReadInt(1);
      if tag.Failure? { return Failure(tag.error); }
      if tag.value == 0 { return Success(Absent); }
      if tag.value != 1 { return Failure(UnexpectedOptionalTag); }
      v := ReadValue(rust, of, r, h);
      if v.Success? { v := Success(Present(v.value)); }
    case Sequence(of) => v := ReadSequence(rust, of, r, h);
    case StringMap => v := ReadStringMap(r, h);
    case Struct(fields) =>
      var m := ReadRecord(rust, fields, r, h);
      v := if m.Success? then Success(Record(m.value)) else Failure(m.error);
    case Enum(cases) =>
      var tag := r.ReadInt(4);
      if tag.Failure? { return Failure(tag.error); }
      if !(1 <= tag.value <= |cases|) { return Failure(UnexpectedEnumCase); }
      var m := ReadRecord(rust, cases[tag.value - 1].fields, r, h);
      v := if m.Success? then Success(Variant(cases[tag.value - 1].name, m.value)) else Failure(m.error);
    case Object => v := ReadObject(rust, r, h);
    case RustObject =>
      TableIgnored(8, r.data, r.offset, h.State());
      var handle := r.ReadInt(8);
      v := if handle.Success? then Success(Remote(rust(handle.value))) else Failure(handle.error);
  }

  /** `vs` put before the items an outcome holds. */
  ghost function Prepended(vs: seq<Value>, out: Outcome<seq<Value>>): Outcome<seq<Value>> {
    match out case Ok(ws, o, u) => Ok(vs + ws, o, u) case Err(e) => Err(e)
  }

  lemma PrependTwice(vs: seq<Value>, v: Value, out: Outcome<seq<Value>>)
    ensures Prepended(vs, Prepended([v], out)) == Prepended(vs + [v], out)
  {
    if out.Ok? { assert vs + ([v] + out.value) == vs + [v] + out.value; }
  }

  method ReadSequence(rust: Rust, of: Shape, r: Reader, h: UniffiHandleMap<nat>) returns (v: Lifted<Value>)
    modifies r, h
    ensures Matches(v, Read(rust, Sequence(of), r.data, old(r.offset), old(h.State())), r.offset, h.State())
    decreases of, 1, 1
  {
    var len := ReadCount(r, h);
    if len.Failure? { return Failure(len.error); }
    var items := ReadEach(rust, of, len.value, r, h);
    v := if items.Success? then Success(Items(items.value)) else Failure(items.error);
  }

  /** `for _ in 0 ..< len`. */
  method ReadEach(rust: Rust, of: Shape, len: nat, r: Reader, h: UniffiHandleMap<nat>) returns (v: Lifted<seq<Value>>)
    modifies r, h
    ensures Matches(v, ReadItems(rust, of, len, r.data, old(r.offset), old(h.State())), r.offset, h.State())
    decreases of, 1, 0
  {
    hide Read;
    var items: seq<Value> := [];
    var i := 0;
    ghost var out := ReadItems(rust, of, len, r.data, r.offset, h.State());
    assert out.Ok? ==> [] + out.value == out.value;
    while i < len
      invariant 0 <= i <= len && |items| == i
      invariant out == Prepended(items, ReadItems(rust, of, len - i, r.data, r.offset, h.State()))
    {
      ghost var here := ReadItems(rust, of, len - i, r.data, r.offset, h.State());
      var item := ReadValue(rust, of, r, h);
      if item.Failure? { return Failure(item.error); }
      ghost var rest := ReadItems(rust, of, len - i - 1, r.data, r.offset, h.State());
      assert here == Prepended([item.value], rest);
      PrependTwice(items, item.value, rest);
      items := items + [item.value];
      i := i + 1;
    }
    assert items + [] == items;
    v := Success(items);
  }

  method ReadRecord(rust: Rust, fs: seq<Field>, r: Reader, h: UniffiHandleMap<nat>)
    returns (m: Lifted<map<string, Value>>)
    modifies r, h
    ensures Matches(m, ReadFields(rust, fs, r.data, old(r.offset), old(h.State())), r.offset, h.State())
    decreases fs, 0, 0
  {
    if fs == [] { return Success(map[]); }
    var v := ReadValue(rust, fs[0].shape, r, h);
    if v.Failure? { return Failure(v.error); }
    m := ReadRecord(rust, fs[1..], r, h);
    if m.Success? { m := Success(m.value[fs[0].name := v.value]); }
  }

  /** `FfiConverterRustBuffer.lift`. */
  method LiftValue(rust: Rust, sh: Shape, data: Bytes, h: UniffiHandleMap<nat>) returns (v: Lifted<Value>)
    modifies h
    ensures match Lift(rust, sh, data, old(h.State()))
      case Ok(x, _, u) => v == Success(x) && h.State() == u
      case Err(e) => v == Failure(e)
  {
    var reader := new Reader(data);
    v := ReadValue(rust, sh, reader, h);
    if v.Success? && reader.offset < |data| { v := Failure(IncompleteData); }
  }

  // ---------------------------------------------------------------- writing

  /** The handle counter is at the end of its 64 bits; the increment traps. */
  ghost predicate HandlesSpent(t: Table<nat>) {
    t.next + DELTA >= Pow256(8)
  }

  method WriteString(s: Bytes, w: Writer) returns (trapped: bool)
    modifies w
    ensures trapped <==> |s| >= INT32_LIMIT
    ensures !trapped ==> w.buf == old(w.buf) + Str(s)
  {
    if |s| >= INT32_LIMIT { return true; }
    w.WriteInt(|s|, 4);
    w.WriteBytes(s);
    return false;
  }

  lemma {:induction false} PairsGrow(keys: seq<Bytes>, key: Bytes, m: map<Bytes, Bytes>)
    requires key in m && forall k :: k in keys ==> k in m
    ensures Pairs(keys + [key], m) == Pairs(keys, m) + Str(key) + Str(m[key])
  {
    if keys == [] {
      assert [key][1..] == [];
      assert Pairs([], m) == [];
    } else {
      assert (keys + [key])[1..] == keys[1..] + [key];
      PairsGrow(keys[1..], key, m);
    }
  }

  lemma {:induction false} EnumeratedSize(keys: seq<Bytes>, m: map<Bytes, Bytes>)
    requires forall k :: k in keys <==> k in m
    requires forall i, j :: 0 <= i < j < |keys| ==> keys[i] != keys[j]
    ensures |keys| == |m|
  {
    if keys == [] {
      assert m == map[];
    } else {
      var n := |keys| - 1;
      assert keys[n] in m;
      EnumeratedSize(keys[..n], m - {keys[n]});
      assert m == (m - {keys[n]})[keys[n] := m[keys[n]]];
    }
  }

  ghost predicate EntryFits(key: Bytes, m: map<Bytes, Bytes>)
    requires key in m
  {
    |key| < INT32_LIMIT && |m[key]| < INT32_LIMIT
  }

  lemma EntryMustFit(key: Bytes, m: map<Bytes, Bytes>)
    requires key in m && !EntryFits(key, m)
    ensures !MapFits(m)
  {}

  method WriteEntry(key: Bytes, m: map<Bytes, Bytes>, w: Writer) returns (trapped: bool)
    requires key in m
    modifies w
    ensures trapped <==> !EntryFits(key, m)
    ensures !trapped ==> w.buf == old(w.buf) + (Str(key) + Str(m[key]))
  {
    trapped := WriteString(key, w);
    if !trapped { trapped := WriteString(m[key], w); }
  }

  lemma MapWritten(keys: seq<Bytes>, m: map<Bytes, Bytes>)
    requires |m| < INT32_LIMIT && DistinctKeys(keys, m) && forall k :: k in m ==> EntryFits(k, m)
    ensures MapFits(m) && WritesMap(m, BigEndian(|m|, 4) + Pairs(keys, m))
  {
    EnumeratedSize(keys, m);
    assert Enumerates(keys, m);
  }

  /** The loop over the entries, in whatever order the dictionary yields them. */
  method WriteEntries(m: map<Bytes, Bytes>, w: Writer) returns (trapped: bool, ghost keys: seq<Bytes>)
    modifies w
    ensures !trapped ==>
      DistinctKeys(keys, m) && w.buf == old(w.buf) + Pairs(keys, m) && forall k :: k in m ==> EntryFits(k, m)
    ensures trapped ==> exists k :: k in m && !EntryFits(k, m)
  {
    ghost var start := w.buf;
    keys, trapped := [], false;
    var todo := m.Keys;
    assert start + Pairs(keys, m) == start;
    hide Pairs, Str, EntryFits;
    while todo != {}
      invariant todo <= m.Keys
      invariant forall k :: k in keys <==> k in m && k !in todo
      invariant forall i, j :: 0 <= i < j < |keys| ==> keys[i] != keys[j]
      invariant forall k :: k in m && k !in todo ==> EntryFits(k, m)
      invariant w.buf == start + Pairs(keys, m)
    {
      var key :| key in todo;
      trapped := WriteEntry(key, m, w);
      if trapped { return; }
      PairsGrow(keys, key, m);
      assert start + Pairs(keys, m) + (Str(key) + Str(m[key])) == start + (Pairs(keys, m) + Str(key) + Str(m[key]));
      keys := keys + [key];
      todo := todo - {key};
    }
  }

  ghost predicate DistinctKeys(keys: seq<Bytes>, m: map<Bytes, Bytes>) {
    (forall k :: k in keys <==> k in m) && forall i, j :: 0 <= i < j < |keys| ==> keys[i] != keys[j]
  }

  /** What is appended is one of the dictionary's encodings. */
  method WriteStringMap(m: map<Bytes, Bytes>, w: Writer) returns (trapped: bool, ghost bs: Bytes)
    modifies w
    ensures trapped <==> !MapFits(m)
    ensures !trapped ==> w.buf == old(w.buf) + bs && WritesMap(m, bs)
  {
    bs := [];
    hide Pairs, BigEndian, WritesMap, EntryFits;
    if |m| >= INT32_LIMIT { return true, bs; }
    w.WriteInt(|m|, 4);
    ghost var keys;
    trapped, keys := WriteEntries(m, w);
    if trapped {
      ghost var k :| k in m && !EntryFits(k, m);
      EntryMustFit(k, m);
      return;
    }
    MapWritten(keys, m);
    bs := BigEndian(|m|, 4) + Pairs(keys, m);
  }

  method WriteObject(rust: Rust, v: Value, w: Writer, h: UniffiHandleMap<nat>) returns (trapped: bool, ghost bs: Bytes)
    requires HasShape(rust, Object, v) && Sound(h.State())
    modifies w, h
    ensures !trapped ==>
      w.buf == old(w.buf) + bs && Writes(rust, Object, v, old(h.State()), bs, h.State()) && Sound(h.State())
    ensures trapped ==> HandlesSpent(h.State())
  {
    Widths();
    bs := [];
    match v
    case Local(obj) =>
      if h.currentHandle + DELTA >= Pow256(8) { return true, bs; }
      var handle := h.Insert(obj);
      w.WriteInt(handle, 8);
      bs := BigEndian(handle, 8);
      trapped := false;
    case Remote(obj) =>
      var handle := CloneHandle(rust, obj);
      w.WriteInt(handle, 8);
      bs := BigEndian(handle, 8);
      trapped := false;
  }

  /** `uniffiCloneHandle`: Rust answers with some handle of the object. */
  method CloneHandle(rust: Rust, obj: nat) returns (handle: nat)
    requires KnownToRust(rust, obj)
    ensures RustHandle(rust, handle, obj)
  {
    assert exists h: nat :: h < Pow256(8) && h % 2 == 0 && rust(h) == obj by {
      var h: nat :| RustHandle(rust, h, obj);
    }
    handle :| handle < Pow256(8) && handle % 2 == 0 && rust(handle) == obj;
  }

  method WriteValue(rust: Rust, sh: Shape, v: Value, w: Writer, h: UniffiHandleMap<nat>)
    returns (trapped: bool, ghost bs: Bytes)
    requires HasShape(rust, sh, v) && Sound(h.State())
    modifies w, h
    ensures !trapped ==>
      w.buf == old(w.buf) + bs && Writes(rust, sh, v, old(h.State()), bs, h.State()) && Sound(h.State()) && Fits(sh, v)
    ensures trapped ==> !Fits(sh, v) || HandlesSpent(h.State())
    decreases sh, 0, 0
  {
    trapped, bs := false, [];
    match sh
    case Int(width) =>
      w.WriteInt(v.bits, width);
      bs := BigEndian(v.bits, width);
    case Bool =>
      w.WriteInt(if v.on then 1 else 0, 1);
      bs := BigEndian(if v.on then 1 else 0, 1);
    case String =>
      trapped := WriteString(v.utf8, w);
      bs := Str(v.utf8);
    case Optional(of) =>
      if v == Absent {
        w.WriteInt(0, 1);
        bs := BigEndian(0, 1);
      } else {
        w.WriteInt(1, 1);
        ghost var b;
        trapped, b := WriteValue(rust, of, v.value, w, h);
        bs := BigEndian(1, 1) + b;
      }
    case Sequence(of) => trapped, bs := WriteSequence(rust, of, v.items, w, h);
    case StringMap => trapped, bs := WriteStringMap(v.entries, w);
    case Struct(fields) => trapped, bs := WriteRecord(rust, fields, v.fields, w, h);
    case Enum(cases) => trapped, bs := WriteEnum(rust, cases, v, w, h);
    case Object => trapped, bs := WriteObject(rust, v, w, h);
    case RustObject =>
      var handle := CloneHandle(rust, v.obj);
      w.WriteInt(handle, 8);
      bs := BigEndian(handle, 8);
  }

  method WriteEnum(rust: Rust, cases: seq<Case>, v: Value, w: Writer, h: UniffiHandleMap<nat>)
    returns (trapped: bool, ghost bs: Bytes)
    requires HasShape(rust, Enum(cases), v) && Sound(h.State())
    modifies w, h
    ensures !trapped ==>
      w.buf == old(w.buf) + bs && Writes(rust, Enum(cases), v, old(h.State()), bs, h.State())
      && Sound(h.State()) && Fits(Enum(cases), v)
    ensures trapped ==> !Fits(Enum(cases), v) || HandlesSpent(h.State())
    decreases cases, 0, 0
  {
    hide BigEndian, WritesFields, FieldsFit, TagOf;
    var tag := TagOf(cases, v.name);
    w.WriteInt(tag, 4);
    ghost var b;
    trapped, b := WriteRecord(rust, cases[tag - 1].fields, v.payload, w, h);
    bs := BigEndian(tag, 4) + b;
  }

  lemma {:induction false} ItemsGrow(rust: Rust, of: Shape, items: seq<Value>, t0: Table<nat>, b: Bytes, t: Table<nat>,
                                     item: Value, c: Bytes, t1: Table<nat>)
    requires WritesItems(rust, of, items, t0, b, t) && Writes(rust, of, item, t, c, t1)
    ensures WritesItems(rust, of, items + [item], t0, b + c, t1)
    decreases |items|
  {
    hide Writes;
    if items == [] {
      assert items + [item] == [item] && [item][1..] == [];
      assert WritesItems(rust, of, [], t1, [], t1);
      assert b + c == c && c == c + [];
    } else {
      var d, e, u :| Writes(rust, of, items[0], t0, d, u) && WritesItems(rust, of, items[1..], u, e, t) && b == d + e;
      ItemsGrow(rust, of, items[1..], u, e, t, item, c, t1);
      assert (items + [item])[1..] == items[1..] + [item] && (items + [item])[0] == items[0];
      Associate(d, e, c);
    }
  }

  method WriteSequence(rust: Rust, of: Shape, items: seq<Value>, w: Writer, h: UniffiHandleMap<nat>)
    returns (trapped: bool, ghost bs: Bytes)
    requires HasShape(rust, Sequence(of), Items(items)) && Sound(h.State())
    modifies w, h
    ensures !trapped ==>
      w.buf == old(w.buf) + bs && Writes(rust, Sequence(of), Items(items), old(h.State()), bs, h.State())
      && Sound(h.State()) && Fits(Sequence(of), Items(items))
    ensures trapped ==> !Fits(Sequence(of), Items(items)) || HandlesSpent(h.State())
    decreases of, 1, 1
  {
    hide BigEndian, WritesItems, Sound;
    bs := [];
    if |items| >= INT32_LIMIT { return true, bs; }
    w.WriteInt(|items|, 4);
    ghost var b;
    trapped, b := WriteItems(rust, of, items, w, h);
    bs := BigEndian(|items|, 4) + b;
  }

  method WriteItems(rust: Rust, of: Shape, items: seq<Value>, w: Writer, h: UniffiHandleMap<nat>)
    returns (trapped: bool, ghost b: Bytes)
    requires (forall i :: 0 <= i < |items| ==> HasShape(rust, of, items[i])) && Sound(h.State())
    modifies w, h
    ensures !trapped ==>
      w.buf == old(w.buf) + b && WritesItems(rust, of, items, old(h.State()), b, h.State()) && Sound(h.State())
    ensures !trapped ==> forall i :: 0 <= i < |items| ==> Fits(of, items[i])
    ensures trapped ==> HandlesSpent(h.State()) || exists i :: 0 <= i < |items| && !Fits(of, items[i])
    decreases of, 1, 0
  {
    hide HasShape, Fits, Writes;
    ghost var start, t0 := w.buf, h.State();
    b, trapped := [], false;
    var i := 0;
    while i < |items|
      invariant 0 <= i <= |items|
      invariant w.buf == start + b && Sound(h.State())
      invariant WritesItems(rust, of, items[..i], t0, b, h.State())
      invariant forall j :: 0 <= j < i ==> Fits(of, items[j])
    {
      hide WritesItems, Sound;
      ghost var c, t := [], h.State();
      trapped, c := WriteValue(rust, of, items[i], w, h);
      if trapped { return; }
      ItemsGrow(rust, of, items[..i], t0, b, t, items[i], c, h.State());
      assert items[..i + 1] == items[..i] + [items[i]];
      assert start + (b + c) == start + b + c;
      b := b + c;
      i := i + 1;
    }
    assert items[..i] == items;
  }

  method WriteRecord(rust: Rust, fs: seq<Field>, m: map<string, Value>, w: Writer, h: UniffiHandleMap<nat>)
    returns (trapped: bool, ghost bs: Bytes)
    requires forall i :: 0 <= i < |fs| ==> fs[i].name in m && HasShape(rust, fs[i].shape, m[fs[i].name])
    requires Sound(h.State())
    modifies w, h
    ensures !trapped ==>
      w.buf == old(w.buf) + bs && WritesFields(rust, fs, m, old(h.State()), bs, h.State()) && Sound(h.State())
        && FieldsFit(fs, m)
    ensures trapped ==> !FieldsFit(fs, m) || HandlesSpent(h.State())
    decreases fs, 0, 0
  {
    hide Writes, HasShape, Fits, Sound;
    bs := [];
    if fs == [] { return false, bs; }
    ghost var b, c;
    trapped, b := WriteValue(rust, fs[0].shape, m[fs[0].name], w, h);
    if trapped { return; }
    assert forall i :: 0 <= i < |fs[1..]| ==> fs[1..][i] == fs[i + 1];
    trapped, c := WriteRecord(rust, fs[1..], m, w, h);
    bs := b + c;
  }

  /** `FfiConverterRustBuffer.lower`: a value fits, or the count that does not fit traps. */
  method LowerValue(rust: Rust, sh: Shape, v: Value, h: UniffiHandleMap<nat>) returns (trapped: bool, data: Bytes)
    requires HasShape(rust, sh, v) && Sound(h.State())
    modifies h
    ensures !trapped ==> Fits(sh, v) && Writes(rust, sh, v, old(h.State()), data, h.State())
    ensures trapped ==> !Fits(sh, v) || HandlesSpent(h.State())
  {
    var writer := new Writer();
    ghost var bs;
    trapped, bs := WriteValue(rust, sh, v, writer, h);
    data := writer.buf;
    assert !trapped ==> data == bs;
  }

  /** Out and back: the receiver gets the value, and the sender's live objects are as they were. */
  method Cross(rust: Rust, sh: Shape, v: Value, h: UniffiHandleMap<nat>)
    returns (trapped: bool, received: Lifted<Value>)
    requires HasShape(rust, sh, v) && Sound(h.State())
    modifies h
    ensures !trapped ==> received == Success(v) && h.live == old(h.live)
    ensures trapped ==> !Fits(sh, v) || HandlesSpent(h.State())
  {
    var data;
    received := Failure(Trap);
    ghost var t0 := h.State();
    trapped, data := LowerValue(rust, sh, v, h);
    if !trapped {
      LiftUndoesLower(rust, sh, v, t0, data, h.State(), []);
      received := LiftValue(rust, sh, data, h);
    }
  }
}
