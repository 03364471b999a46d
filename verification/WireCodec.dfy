/**
 The byte format between Swift and Rust: what the generated `write` functions append, what the `read`
 functions accept, and that each undoes the other. A converter is a `Shape`; floats are their bit
 patterns and strings their UTF-8 bytes. Objects cross as handles: one implemented in Swift goes through
 the handle table, one implemented in Rust is known to Rust, `rust`, by any even handle of it.
 */
module WireCodec {
  import opened HandleMap
  import opened Octets

  /** The object an even handle stands for on the Rust side. */
  type Rust = nat -> nat

  datatype Field = Field(name: string, shape: Shape)

  datatype Case = Case(name: string, fields: seq<Field>)

  datatype Shape =
    | Int(width: nat)            // fixed-width integers and float patterns, in bytes
    | Bool
    | String
    | Optional(of: Shape)
    | Sequence(of: Shape)
    | StringMap                  // [String: String]
    | Struct(fields: seq<Field>)
    | Enum(cases: seq<Case>)     // the case at `i` has tag `i + 1`
    | Object                     // implemented on either side
    | RustObject                 // implemented in Rust alone: its handle's parity is not looked at

  datatype Value =
    | Bits(bits: nat)
    | Flag(on: bool)
    | Text(utf8: Bytes)
    | Absent
    | Present(value: Value)
    | Items(items: seq<Value>)
    | Entries(entries: map<Bytes, Bytes>)
    | Record(fields: map<string, Value>)
    | Variant(name: string, payload: map<string, Value>)
    | Local(obj: nat)
    | Remote(obj: nat)

  datatype WireError = BufferOverflow | IncompleteData | UnexpectedOptionalTag | UnexpectedEnumCase | StaleHandle | Trap

  datatype Outcome<+T> = Ok(value: T, offset: nat, table: Table<nat>) | Err(error: WireError)

  const INT32_LIMIT: nat := 0x8000_0000

  // ---------------------------------------------------------------- big-endian integers

  function BigEndian(v: nat, w: nat): (bs: Bytes)
    ensures |bs| == w
  {
    if w == 0 then [] else BigEndian(v / 256, w - 1) + [v % 256]
  }

  function FromBigEndian(bs: Bytes): nat {
    if bs == [] then 0 else 256 * FromBigEndian(bs[..|bs| - 1]) + bs[|bs| - 1]
  }

  lemma {:induction false} IntRoundTrip(v: nat, w: nat)
    requires v < Pow256(w)
    ensures FromBigEndian(BigEndian(v, w)) == v
  {
    if w > 0 {
      IntRoundTrip(v / 256, w - 1);
      assert BigEndian(v, w)[..w - 1] == BigEndian(v / 256, w - 1);
    }
  }

  // ---------------------------------------------------------------- values

  ghost predicate DistinctNames(fs: seq<Field>) {
    forall i, j :: 0 <= i < j < |fs| ==> fs[i].name != fs[j].name
  }

  ghost function Names(fs: seq<Field>): set<string> {
    set i | 0 <= i < |fs| :: fs[i].name
  }

  /** The tag the case called `name` is written with; 0 if there is none. */
  function TagOf(cases: seq<Case>, name: string): (tag: nat)
    ensures tag <= |cases| && (tag >= 1 ==> cases[tag - 1].name == name)
  {
    if cases == [] then 0
    else if cases[0].name == name then 1
    else var tag := TagOf(cases[1..], name); if tag == 0 then 0 else tag + 1
  }

  /** `v` is a value of the Swift type behind `sh`. */
  ghost predicate HasShape(rust: Rust, sh: Shape, v: Value)
    decreases sh
  {
    match sh
    case Int(w) => v.Bits? && v.bits < Pow256(w)
    case Bool => v.Flag?
    case String => v.Text?
    case Optional(of) => v == Absent || (v.Present? && HasShape(rust, of, v.value))
    case Sequence(of) => v.Items? && forall i :: 0 <= i < |v.items| ==> HasShape(rust, of, v.items[i])
    case StringMap => v.Entries?
    case Struct(fields) => v.Record? && HasFields(rust, fields, v.fields)
    case Enum(cases) =>
      v.Variant? && TagOf(cases, v.name) >= 1 && |cases| < INT32_LIMIT
      && HasFields(rust, cases[TagOf(cases, v.name) - 1].fields, v.payload)
    case Object => v.Local? || (v.Remote? && KnownToRust(rust, v.obj))
    case RustObject => v.Remote? && KnownToRust(rust, v.obj)
  }

  ghost predicate HasFields(rust: Rust, fs: seq<Field>, m: map<string, Value>)
    decreases fs
  {
    DistinctNames(fs) && m.Keys == Names(fs)
    && forall i :: 0 <= i < |fs| ==> HasShape(rust, fs[i].shape, m[fs[i].name])
  }

  ghost predicate KnownToRust(rust: Rust, obj: nat) {
    exists h: nat :: RustHandle(rust, h, obj)
  }

  ghost predicate RustHandle(rust: Rust, h: nat, obj: nat) {
    h % 2 == 0 && h < Pow256(8) && rust(h) == obj
  }

  /** No length in `v` is past what an `Int32` counts; `Int32(count)` traps otherwise. */
  ghost predicate Fits(sh: Shape, v: Value)
    decreases sh
  {
    match sh
    case String => v.Text? ==> |v.utf8| < INT32_LIMIT
    case Optional(of) => v.Present? ==> Fits(of, v.value)
    case Sequence(of) => v.Items? ==> |v.items| < INT32_LIMIT && forall i :: 0 <= i < |v.items| ==> Fits(of, v.items[i])
    case StringMap => v.Entries? ==> MapFits(v.entries)
    case Struct(fields) => v.Record? ==> FieldsFit(fields, v.fields)
    case Enum(cases) =>
      v.Variant? && TagOf(cases, v.name) >= 1 ==> FieldsFit(cases[TagOf(cases, v.name) - 1].fields, v.payload)
    case _ => true
  }

  predicate MapFits(m: map<Bytes, Bytes>) {
    |m| < INT32_LIMIT && forall k :: k in m ==> |k| < INT32_LIMIT && |m[k]| < INT32_LIMIT
  }

  ghost predicate FieldsFit(fs: seq<Field>, m: map<string, Value>)
    decreases fs
  {
    forall i :: 0 <= i < |fs| && fs[i].name in m ==> Fits(fs[i].shape, m[fs[i].name])
  }

  // ---------------------------------------------------------------- what writing may emit

  ghost function Str(s: Bytes): Bytes {
    BigEndian(|s|, 4) + s
  }

  ghost function Pairs(keys: seq<Bytes>, m: map<Bytes, Bytes>): Bytes
    requires forall k :: k in keys ==> k in m
  {
    if keys == [] then [] else Str(keys[0]) + Str(m[keys[0]]) + Pairs(keys[1..], m)
  }

  /** `keys` is one order the dictionary may be walked in. */
  ghost predicate Enumerates(keys: seq<Bytes>, m: map<Bytes, Bytes>) {
    && (forall k :: k in keys <==> k in m)
    && (forall i, j :: 0 <= i < j < |keys| ==> keys[i] != keys[j])
    && |keys| == |m|
  }

  ghost predicate WritesMap(m: map<Bytes, Bytes>, bs: Bytes) {
    MapFits(m) && exists keys :: Enumerates(keys, m) && bs == BigEndian(|m|, 4) + Pairs(keys, m)
  }

  /** Writing `v` from table `t0` may append `bs` and leave table `t1`. */
  ghost predicate Writes(rust: Rust, sh: Shape, v: Value, t0: Table<nat>, bs: Bytes, t1: Table<nat>)
    decreases sh, 0, 0
  {
    match sh
    case Int(w) => v.Bits? && v.bits < Pow256(w) && bs == BigEndian(v.bits, w) && t1 == t0
    case Bool => v.Flag? && bs == BigEndian(if v.on then 1 else 0, 1) && t1 == t0
    case String => v.Text? && |v.utf8| < INT32_LIMIT && bs == Str(v.utf8) && t1 == t0
    case Optional(of) =>
      || (v == Absent && bs == BigEndian(0, 1) && t1 == t0)
      || (v.Present? && exists b :: Writes(rust, of, v.value, t0, b, t1) && bs == BigEndian(1, 1) + b)
    case Sequence(of) =>
      v.Items? && |v.items| < INT32_LIMIT
      && exists b :: WritesItems(rust, of, v.items, t0, b, t1) && bs == BigEndian(|v.items|, 4) + b
    case StringMap => v.Entries? && WritesMap(v.entries, bs) && t1 == t0
    case Struct(fields) =>
      v.Record? && DistinctNames(fields) && v.fields.Keys == Names(fields)
        && WritesFields(rust, fields, v.fields, t0, bs, t1)
    case Enum(cases) =>
      v.Variant? && TagOf(cases, v.name) >= 1 && |cases| < INT32_LIMIT
      && var tag := TagOf(cases, v.name);
         var fields := cases[tag - 1].fields;
         DistinctNames(fields) && v.payload.Keys == Names(fields)
         && exists b :: WritesFields(rust, fields, v.payload, t0, b, t1) && bs == BigEndian(tag, 4) + b
    case Object =>
      || (v.Local? && t0.next < Pow256(8) && bs == BigEndian(t0.next, 8) && t1 == Inserted(t0, v.obj))
      || (v.Remote? && t1 == t0 && exists h: nat :: RustHandle(rust, h, v.obj) && bs == BigEndian(h, 8))
    case RustObject => v.Remote? && t1 == t0 && exists h: nat :: RustHandle(rust, h, v.obj) && bs == BigEndian(h, 8)
  }

  ghost predicate WritesItems(rust: Rust, of: Shape, items: seq<Value>, t0: Table<nat>, bs: Bytes, t1: Table<nat>)
    decreases of, 1, |items|
  {
    if items == [] then bs == [] && t1 == t0
    else exists b, c, t ::
      Writes(rust, of, items[0], t0, b, t) && WritesItems(rust, of, items[1..], t, c, t1) && bs == b + c
  }

  ghost predicate WritesFields(rust: Rust, fs: seq<Field>, m: map<string, Value>, t0: Table<nat>, bs: Bytes,
                               t1: Table<nat>)
    decreases fs, 0, 0
  {
    if fs == [] then bs == [] && t1 == t0
    else
      fs[0].name in m
      && exists b, c, t ::
        && Writes(rust, fs[0].shape, m[fs[0].name], t0, b, t)
        && WritesFields(rust, fs[1..], m, t, c, t1)
        && bs == b + c
  }

  // ---------------------------------------------------------------- what reading returns

  function ReadInt(w: nat, data: Bytes, off: nat, t: Table<nat>): Outcome<nat> {
    if off + w <= |data| then Ok(FromBigEndian(data[off..off + w]), off + w, t) else Err(BufferOverflow)
  }

  /** A count read as `Int32`: a negative one traps where it is used. */
  function ReadCount(data: Bytes, off: nat, t: Table<nat>): Outcome<nat> {
    match ReadInt(4, data, off, t)
    case Err(e) => Err(e)
    case Ok(n, o, u) => if n < INT32_LIMIT then Ok(n, o, u) else Err(Trap)
  }

  function ReadString(data: Bytes, off: nat, t: Table<nat>): Outcome<Bytes> {
    match ReadCount(data, off, t)
    case Err(e) => Err(e)
    case Ok(n, o, u) => if o + n <= |data| then Ok(data[o..o + n], o + n, u) else Err(BufferOverflow)
  }

  function ReadPairs(n: nat, dict: map<Bytes, Bytes>, data: Bytes, off: nat,
                     t: Table<nat>): Outcome<map<Bytes, Bytes>> {
    if n == 0 then Ok(dict, off, t)
    else match ReadString(data, off, t)
      case Err(e) => Err(e)
      case Ok(key, o, u) =>
        match ReadString(data, o, u)
        case Err(e) => Err(e)
        case Ok(value, o, u) => ReadPairs(n - 1, dict[key := value], data, o, u)
  }

  function Read(rust: Rust, sh: Shape, data: Bytes, off: nat, t: Table<nat>): Outcome<Value>
    decreases sh, 0, 0
  {
    match sh
    case Int(w) => (match ReadInt(w, data, off, t) case Err(e) => Err(e) case Ok(n, o, u) => Ok(Bits(n), o, u))
    case Bool => (match ReadInt(1, data, off, t) case Err(e) => Err(e) case Ok(n, o, u) => Ok(Flag(n != 0), o, u))
    case String => (match ReadString(data, off, t) case Err(e) => Err(e) case Ok(s, o, u) => Ok(Text(s), o, u))
    case Optional(of) =>
      (match ReadInt(1, data, off, t)
       case Err(e) => Err(e)
       case Ok(n, o, u) =>
         if n == 0 then Ok(Absent, o, u)
         else if n == 1 then
           (match Read(rust, of, data, o, u) case Err(e) => Err(e) case Ok(v, o, u) => Ok(Present(v), o, u))
         else Err(UnexpectedOptionalTag))
    case Sequence(of) =>
      (match ReadCount(data, off, t)
       case Err(e) => Err(e)
       case Ok(n, o, u) =>
         match ReadItems(rust, of, n, data, o, u) case Err(e) => Err(e) case Ok(vs, o, u) => Ok(Items(vs), o, u))
    case StringMap =>
      (match ReadCount(data, off, t)
       case Err(e) => Err(e)
       case Ok(n, o, u) =>
         match ReadPairs(n, map[], data, o, u) case Err(e) => Err(e) case Ok(m, o, u) => Ok(Entries(m), o, u))
    case Struct(fields) =>
      (match ReadFields(rust, fields, data, off, t) case Err(e) => Err(e) case Ok(m, o, u) => Ok(Record(m), o, u))
    case Enum(cases) =>
      (match ReadInt(4, data, off, t)
       case Err(e) => Err(e)
       case Ok(tag, o, u) =>
         if 1 <= tag <= |cases| then
           match ReadFields(rust, cases[tag - 1].fields, data, o, u)
           case Err(e) => Err(e)
           case Ok(m, o, u) => Ok(Variant(cases[tag - 1].name, m), o, u)
         else Err(UnexpectedEnumCase))
    case Object =>
      (match ReadInt(8, data, off, t)
       case Err(e) => Err(e)
       case Ok(h, o, u) =>
         if h % 2 == 0 then Ok(Remote(rust(h)), o, u)
         else if h in u.live then Ok(Local(u.live[h]), o, Removed(u, h))
         else Err(StaleHandle))
    case RustObject =>
      (match ReadInt(8, data, off, t) case Err(e) => Err(e) case Ok(h, o, u) => Ok(Remote(rust(h)), o, u))
  }

  function ReadItems(rust: Rust, of: Shape, n: nat, data: Bytes, off: nat, t: Table<nat>): Outcome<seq<Value>>
    decreases of, 1, n
  {
    if n == 0 then Ok([], off, t)
    else match Read(rust, of, data, off, t)
      case Err(e) => Err(e)
      case Ok(v, o, u) =>
        match ReadItems(rust, of, n - 1, data, o, u) case Err(e) => Err(e) case Ok(vs, o, u) => Ok([v] + vs, o, u)
  }

  function ReadFields(rust: Rust, fs: seq<Field>, data: Bytes, off: nat, t: Table<nat>): Outcome<map<string, Value>>
    decreases fs, 0, 0
  {
    if fs == [] then Ok(map[], off, t)
    else match Read(rust, fs[0].shape, data, off, t)
      case Err(e) => Err(e)
      case Ok(v, o, u) =>
        match ReadFields(rust, fs[1..], data, o, u)
        case Err(e) => Err(e)
        case Ok(m, o, u) => Ok(m[fs[0].name := v], o, u)
  }

  // ---------------------------------------------------------------- reading undoes writing

  ghost predicate At(data: Bytes, off: nat, bs: Bytes) {
    off + |bs| <= |data| && data[off..off + |bs|] == bs
  }

  lemma AtSplits(data: Bytes, off: nat, bs: Bytes, n: nat)
    requires At(data, off, bs) && n <= |bs|
    ensures At(data, off, bs[..n]) && At(data, off + n, bs[n..])
  {}

  lemma AtConcat(data: Bytes, off: nat, a: Bytes, b: Bytes)
    requires At(data, off, a + b)
    ensures At(data, off, a) && At(data, off + |a|, b)
  {
    AtSplits(data, off, a + b, |a|);
    assert (a + b)[..|a|] == a && (a + b)[|a|..] == b;
  }

  lemma IntReads(v: nat, w: nat, data: Bytes, off: nat, t: Table<nat>)
    requires v < Pow256(w) && At(data, off, BigEndian(v, w))
    ensures ReadInt(w, data, off, t) == Ok(v, off + w, t)
  {
    IntRoundTrip(v, w);
  }

  lemma CountReads(n: nat, data: Bytes, off: nat, t: Table<nat>)
    requires n < INT32_LIMIT && At(data, off, BigEndian(n, 4))
    ensures ReadCount(data, off, t) == Ok(n, off + 4, t)
  {
    Widths();
    IntReads(n, 4, data, off, t);
  }

  lemma StringReads(s: Bytes, data: Bytes, off: nat, t: Table<nat>)
    requires |s| < INT32_LIMIT && At(data, off, Str(s))
    ensures ReadString(data, off, t) == Ok(s, off + |Str(s)|, t)
  {
    AtConcat(data, off, BigEndian(|s|, 4), s);
    CountReads(|s|, data, off, t);
  }

  /** The dictionary `dict` with the entries of `keys` assigned on top. */
  ghost function Assigned(dict: map<Bytes, Bytes>, keys: seq<Bytes>, m: map<Bytes, Bytes>): map<Bytes, Bytes>
    requires forall k :: k in keys ==> k in m
  {
    dict + map k | k in keys :: m[k]
  }

  lemma AssignsFirst(dict: map<Bytes, Bytes>, keys: seq<Bytes>, m: map<Bytes, Bytes>)
    requires keys != [] && forall k :: k in keys ==> k in m
    ensures Assigned(dict[keys[0] := m[keys[0]]], keys[1..], m) == Assigned(dict, keys, m)
  {}

  lemma PairReads(key: Bytes, value: Bytes, n: nat, dict: map<Bytes, Bytes>, data: Bytes, off: nat, t: Table<nat>)
    requires |key| < INT32_LIMIT && |value| < INT32_LIMIT && n > 0
    requires At(data, off, Str(key)) && At(data, off + |Str(key)|, Str(value))
    ensures ReadPairs(n, dict, data, off, t)
      == ReadPairs(n - 1, dict[key := value], data, off + |Str(key)| + |Str(value)|, t)
  {
    StringReads(key, data, off, t);
    StringReads(value, data, off + |Str(key)|, t);
  }

  lemma NoPairsRead(m: map<Bytes, Bytes>, dict: map<Bytes, Bytes>, data: Bytes, off: nat, t: Table<nat>)
    ensures ReadPairs(0, dict, data, off, t) == Ok(Assigned(dict, [], m), off + |Pairs([], m)|, t)
  {
    assert Assigned(dict, [], m) == dict;
  }

  lemma Associate(a: Bytes, b: Bytes, c: Bytes)
    ensures a + b + c == a + (b + c)
  {}

  lemma AtConcat3(data: Bytes, off: nat, a: Bytes, b: Bytes, c: Bytes)
    requires At(data, off, a + b + c)
    ensures At(data, off, a) && At(data, off + |a|, b) && At(data, off + |a| + |b|, c)
    ensures |a + b + c| == |a| + |b| + |c|
  {
    AtConcat(data, off, a + b, c);
    AtConcat(data, off, a, b);
  }

  lemma PairsUnfold(keys: seq<Bytes>, m: map<Bytes, Bytes>)
    requires keys != [] && forall k :: k in keys ==> k in m
    ensures Pairs(keys, m) == Str(keys[0]) + Str(m[keys[0]]) + Pairs(keys[1..], m)
  {}

  lemma PairsSplit(keys: seq<Bytes>, m: map<Bytes, Bytes>, data: Bytes, off: nat)
    requires keys != [] && (forall k :: k in keys ==> k in m) && At(data, off, Pairs(keys, m))
    ensures var key, value := Str(keys[0]), Str(m[keys[0]]);
      && At(data, off, key) && At(data, off + |key|, value)
      && At(data, off + |key| + |value|, Pairs(keys[1..], m))
      && |Pairs(keys, m)| == |key| + |value| + |Pairs(keys[1..], m)|
  {
    PairsUnfold(keys, m);
    hide At, Str, Pairs;
    var key, value, rest := Str(keys[0]), Str(m[keys[0]]), Pairs(keys[1..], m);
    AtConcat3(data, off, key, value, rest);
  }

  lemma {:induction false} PairsRead(keys: seq<Bytes>, m: map<Bytes, Bytes>, dict: map<Bytes, Bytes>, data: Bytes,
                                     off: nat, t: Table<nat>)
    requires forall k :: k in keys ==> k in m && |k| < INT32_LIMIT && |m[k]| < INT32_LIMIT
    requires At(data, off, Pairs(keys, m))
    ensures ReadPairs(|keys|, dict, data, off, t) == Ok(Assigned(dict, keys, m), off + |Pairs(keys, m)|, t)
    decreases keys
  {
    hide At, Str, Pairs, Assigned, ReadPairs;
    if keys == [] {
      NoPairsRead(m, dict, data, off, t);
    } else {
      PairsSplit(keys, m, data, off);
      AssignsFirst(dict, keys, m);
      var key, value := keys[0], m[keys[0]];
      PairReads(key, value, |keys|, dict, data, off, t);
      PairsRead(keys[1..], m, dict[key := value], data, off + |Str(key)| + |Str(value)|, t);
    }
  }

  lemma MapReads(m: map<Bytes, Bytes>, bs: Bytes, data: Bytes, off: nat, t: Table<nat>)
    requires WritesMap(m, bs) && At(data, off, bs)
    ensures ReadCount(data, off, t) == Ok(|m|, off + 4, t)
    ensures ReadPairs(|m|, map[], data, off + 4, t) == Ok(m, off + |bs|, t)
  {
    hide At, Pairs, ReadPairs, ReadCount, BigEndian;
    var keys :| Enumerates(keys, m) && bs == BigEndian(|m|, 4) + Pairs(keys, m);
    AtConcat(data, off, BigEndian(|m|, 4), Pairs(keys, m));
    assert Assigned(map[], keys, m) == m;
    hide Assigned;
    CountReads(|m|, data, off, t);
    PairsRead(keys, m, map[], data, off + 4, t);
  }

  /** The handles from `a` to `b` taken out. */
  function Dropped(t: Table<nat>, a: nat, b: nat): Table<nat> {
    t.(live := map h | h in t.live && !(a <= h < b) :: t.live[h])
  }

  ghost predicate Agree(t: Table<nat>, u: Table<nat>, a: nat, b: nat) {
    forall h :: a <= h < b ==> (h in t.live <==> h in u.live) && (h in t.live ==> t.live[h] == u.live[h])
  }

  /** `t1` is `t0` with handles issued since. */
  ghost predicate Since(t0: Table<nat>, t1: Table<nat>) {
    Sound(t0) && Sound(t1) && t0.next <= t1.next && Agree(t0, t1, 0, t0.next)
  }

  lemma SinceStarts(t0: Table<nat>)
    requires Sound(t0)
    ensures Since(t0, t0)
  {}

  lemma SinceInserts(t0: Table<nat>, obj: nat)
    requires Sound(t0)
    ensures Since(t0, Inserted(t0, obj))
  {}

  lemma {:induction false} WritesMoves(rust: Rust, sh: Shape, v: Value, t0: Table<nat>, bs: Bytes, t1: Table<nat>)
    requires Writes(rust, sh, v, t0, bs, t1) && Sound(t0)
    ensures Since(t0, t1) && Sound(t1)
    decreases sh, 0, 0
  {
    hide Since, Sound, WritesItems, WritesFields, BigEndian, Str, Names;
    SinceStarts(t0);
    match sh
    case Optional(of) =>
      if v.Present? {
        var b :| Writes(rust, of, v.value, t0, b, t1);
        WritesMoves(rust, of, v.value, t0, b, t1);
      }
    case Sequence(of) =>
      var b :| WritesItems(rust, of, v.items, t0, b, t1);
      WritesItemsMoves(rust, of, v.items, t0, b, t1);
    case Struct(fields) => WritesFieldsMoves(rust, fields, v.fields, t0, bs, t1);
    case Enum(cases) =>
      var fields := cases[TagOf(cases, v.name) - 1].fields;
      var b :| WritesFields(rust, fields, v.payload, t0, b, t1);
      WritesFieldsMoves(rust, fields, v.payload, t0, b, t1);
    case Object => if v.Local? { SinceInserts(t0, v.obj); }
    case _ =>
  }

  lemma {:induction false} WritesItemsMoves(rust: Rust, of: Shape, items: seq<Value>, t0: Table<nat>, bs: Bytes,
                                            t1: Table<nat>)
    requires WritesItems(rust, of, items, t0, bs, t1) && Sound(t0)
    ensures Since(t0, t1) && Sound(t1)
    decreases of, 1, |items|
  {
    if items != [] {
      var b, c, t :| Writes(rust, of, items[0], t0, b, t) && WritesItems(rust, of, items[1..], t, c, t1);
      WritesMoves(rust, of, items[0], t0, b, t);
      WritesItemsMoves(rust, of, items[1..], t, c, t1);
    }
  }

  lemma {:induction false} WritesFieldsMoves(rust: Rust, fs: seq<Field>, m: map<string, Value>, t0: Table<nat>,
                                             bs: Bytes, t1: Table<nat>)
    requires WritesFields(rust, fs, m, t0, bs, t1) && Sound(t0)
    ensures Since(t0, t1) && Sound(t1)
    decreases fs, 0, 0
  {
    if fs != [] {
      var b, c, t :| Writes(rust, fs[0].shape, m[fs[0].name], t0, b, t) && WritesFields(rust, fs[1..], m, t, c, t1);
      WritesMoves(rust, fs[0].shape, m[fs[0].name], t0, b, t);
      WritesFieldsMoves(rust, fs[1..], m, t, c, t1);
    }
  }

  /** What reading the first half leaves is what reading the second half starts from. */
  lemma Halfway(t: Table<nat>, t0: Table<nat>, u: Table<nat>, t1: Table<nat>)
    requires Since(t0, u) && Since(u, t1) && Agree(t, t1, t0.next, t1.next)
    ensures Agree(t, u, t0.next, u.next) && Agree(Dropped(t, t0.next, u.next), t1, u.next, t1.next)
    ensures Dropped(Dropped(t, t0.next, u.next), u.next, t1.next) == Dropped(t, t0.next, t1.next)
    ensures Sound(u)
  {}

  lemma ObjectReads(rust: Rust, v: Value, t0: Table<nat>, bs: Bytes, t1: Table<nat>, data: Bytes, off: nat,
                    t: Table<nat>)
    requires Writes(rust, Object, v, t0, bs, t1) && Sound(t0)
    requires At(data, off, bs) && Agree(t, t1, t0.next, t1.next)
    ensures Read(rust, Object, data, off, t) == Ok(v, off + |bs|, Dropped(t, t0.next, t1.next))
  {
    if v.Local? {
      var h := t0.next;
      IntReads(h, 8, data, off, t);
      assert h in t1.live && h + 1 !in t1.live;
      assert Removed(t, h).live == Dropped(t, h, h + DELTA).live;
    } else {
      var h: nat :| RustHandle(rust, h, v.obj) && bs == BigEndian(h, 8);
      IntReads(h, 8, data, off, t);
      assert Dropped(t, t0.next, t0.next).live == t.live;
    }
  }

  lemma RustObjectReads(rust: Rust, v: Value, t0: Table<nat>, bs: Bytes, t1: Table<nat>, data: Bytes, off: nat,
                        t: Table<nat>)
    requires Writes(rust, RustObject, v, t0, bs, t1) && At(data, off, bs)
    ensures Read(rust, RustObject, data, off, t) == Ok(v, off + |bs|, t)
  {
    var h: nat :| RustHandle(rust, h, v.obj) && bs == BigEndian(h, 8);
    IntReads(h, 8, data, off, t);
  }

  lemma PresentReads(rust: Rust, of: Shape, data: Bytes, off: nat, t: Table<nat>, v: Value, end: nat, u: Table<nat>)
    requires At(data, off, BigEndian(1, 1)) && Read(rust, of, data, off + 1, t) == Ok(v, end, u)
    ensures Read(rust, Optional(of), data, off, t) == Ok(Present(v), end, u)
  {}

  lemma AbsentReads(rust: Rust, of: Shape, data: Bytes, off: nat, t: Table<nat>)
    requires At(data, off, BigEndian(0, 1))
    ensures Read(rust, Optional(of), data, off, t) == Ok(Absent, off + 1, t)
  {}

  lemma SequenceReads(rust: Rust, of: Shape, data: Bytes, off: nat, t: Table<nat>, vs: seq<Value>, end: nat,
                      u: Table<nat>)
    requires |vs| < INT32_LIMIT && At(data, off, BigEndian(|vs|, 4))
    requires ReadItems(rust, of, |vs|, data, off + 4, t) == Ok(vs, end, u)
    ensures Read(rust, Sequence(of), data, off, t) == Ok(Items(vs), end, u)
  {
    CountReads(|vs|, data, off, t);
  }

  lemma StructReads(rust: Rust, fields: seq<Field>, data: Bytes, off: nat, t: Table<nat>, m: map<string, Value>,
                    end: nat, u: Table<nat>)
    requires ReadFields(rust, fields, data, off, t) == Ok(m, end, u)
    ensures Read(rust, Struct(fields), data, off, t) == Ok(Record(m), end, u)
  {}

  lemma EnumReads(rust: Rust, cases: seq<Case>, tag: nat, data: Bytes, off: nat, t: Table<nat>,
                  m: map<string, Value>, end: nat, u: Table<nat>)
    requires 1 <= tag <= |cases| < INT32_LIMIT && At(data, off, BigEndian(tag, 4))
    requires ReadFields(rust, cases[tag - 1].fields, data, off + 4, t) == Ok(m, end, u)
    ensures Read(rust, Enum(cases), data, off, t) == Ok(Variant(cases[tag - 1].name, m), end, u)
  {
    Widths();
    IntReads(tag, 4, data, off, t);
  }

  lemma ScalarReads(rust: Rust, sh: Shape, v: Value, t0: Table<nat>, bs: Bytes, data: Bytes, off: nat, t: Table<nat>)
    requires sh.Int? || sh.Bool? || sh.String? || sh.StringMap?
    requires Writes(rust, sh, v, t0, bs, t0) && At(data, off, bs)
    ensures Read(rust, sh, data, off, t) == Ok(v, off + |bs|, t)
  {
    match sh
    case Int(w) => IntReads(v.bits, w, data, off, t);
    case Bool =>
      Widths();
      IntReads(if v.on then 1 else 0, 1, data, off, t);
    case String => StringReads(v.utf8, data, off, t);
    case StringMap => MapReads(v.entries, bs, data, off, t);
  }

  lemma DropsNothing(t: Table<nat>, a: nat)
    ensures Dropped(t, a, a) == t
  {}

  /**
   Reading at the place a value was written returns that value, stops where it ends, and takes back
   out of the table exactly the handles writing it put in.
   */
  lemma {:induction false} ReadUndoesWrite(rust: Rust, sh: Shape, v: Value, t0: Table<nat>, bs: Bytes, t1: Table<nat>,
                                           data: Bytes, off: nat, t: Table<nat>)
    requires Writes(rust, sh, v, t0, bs, t1) && Sound(t0)
    requires At(data, off, bs) && Agree(t, t1, t0.next, t1.next)
    ensures Read(rust, sh, data, off, t) == Ok(v, off + |bs|, Dropped(t, t0.next, t1.next))
    decreases sh, 0, 0
  {
    hide At, Agree, Dropped, Read, ReadItems, ReadFields, WritesItems, WritesFields, Picked, BigEndian;
    match sh
    case Optional(of) =>
      if v == Absent {
        DropsNothing(t, t0.next);
        AbsentReads(rust, of, data, off, t);
      } else {
        var b :| Writes(rust, of, v.value, t0, b, t1) && bs == BigEndian(1, 1) + b;
        AtConcat(data, off, BigEndian(1, 1), b);
        ReadUndoesWrite(rust, of, v.value, t0, b, t1, data, off + 1, t);
        PresentReads(rust, of, data, off, t, v.value, off + |bs|, Dropped(t, t0.next, t1.next));
      }
    case Sequence(of) =>
      var b :| WritesItems(rust, of, v.items, t0, b, t1) && bs == BigEndian(|v.items|, 4) + b;
      AtConcat(data, off, BigEndian(|v.items|, 4), b);
      ItemsUndoWrite(rust, of, v.items, t0, b, t1, data, off + 4, t);
      SequenceReads(rust, of, data, off, t, v.items, off + |bs|, Dropped(t, t0.next, t1.next));
    case Struct(fields) =>
      FieldsUndoWrite(rust, fields, v.fields, t0, bs, t1, data, off, t);
      PicksAll(fields, v.fields);
      StructReads(rust, fields, data, off, t, v.fields, off + |bs|, Dropped(t, t0.next, t1.next));
    case Enum(cases) =>
      var tag := TagOf(cases, v.name);
      var fields := cases[tag - 1].fields;
      PicksAll(fields, v.payload);
      var b :| WritesFields(rust, fields, v.payload, t0, b, t1) && bs == BigEndian(tag, 4) + b;
      AtConcat(data, off, BigEndian(tag, 4), b);
      FieldsUndoWrite(rust, fields, v.payload, t0, b, t1, data, off + 4, t);
      EnumReads(rust, cases, tag, data, off, t, v.payload, off + |bs|, Dropped(t, t0.next, t1.next));
    case Object => ObjectReads(rust, v, t0, bs, t1, data, off, t);
    case RustObject =>
      RustObjectReads(rust, v, t0, bs, t1, data, off, t);
      DropsNothing(t, t0.next);
    case _ =>
      DropsNothing(t, t0.next);
      ScalarReads(rust, sh, v, t0, bs, data, off, t);
  }

  lemma NoItemsRead(rust: Rust, of: Shape, data: Bytes, off: nat, t: Table<nat>, a: nat)
    ensures ReadItems(rust, of, 0, data, off, t) == Ok([], off, Dropped(t, a, a))
  {}

  lemma ItemReads(rust: Rust, of: Shape, items: seq<Value>, data: Bytes, off: nat, t: Table<nat>, mid: nat,
                  u: Table<nat>, end: nat, w: Table<nat>)
    requires items != [] && Read(rust, of, data, off, t) == Ok(items[0], mid, u)
    requires ReadItems(rust, of, |items| - 1, data, mid, u) == Ok(items[1..], end, w)
    ensures ReadItems(rust, of, |items|, data, off, t) == Ok(items, end, w)
  {
    assert items == [items[0]] + items[1..];
  }

  lemma {:induction false} ItemsUndoWrite(rust: Rust, of: Shape, items: seq<Value>, t0: Table<nat>, bs: Bytes,
                                          t1: Table<nat>,
                                          data: Bytes, off: nat, t: Table<nat>)
    requires WritesItems(rust, of, items, t0, bs, t1) && Sound(t0)
    requires At(data, off, bs) && Agree(t, t1, t0.next, t1.next)
    ensures ReadItems(rust, of, |items|, data, off, t) == Ok(items, off + |bs|, Dropped(t, t0.next, t1.next))
    decreases of, 1, |items|
  {
    hide At, Agree, Dropped, Since, Writes, Read, ReadItems;
    if items == [] {
      NoItemsRead(rust, of, data, off, t, t0.next);
    } else {
      var b, c, u :| Writes(rust, of, items[0], t0, b, u) && WritesItems(rust, of, items[1..], u, c, t1) && bs == b + c;
      hide WritesItems;
      WritesMoves(rust, of, items[0], t0, b, u);
      WritesItemsMoves(rust, of, items[1..], u, c, t1);
      AtConcat(data, off, b, c);
      Halfway(t, t0, u, t1);
      var t' := Dropped(t, t0.next, u.next);
      ReadUndoesWrite(rust, of, items[0], t0, b, u, data, off, t);
      ItemsUndoWrite(rust, of, items[1..], u, c, t1, data, off + |b|, t');
      ItemReads(rust, of, items, data, off, t, off + |b|, t', off + |bs|, Dropped(t, t0.next, t1.next));
    }
  }

  /** What reading fields leaves of `m`. */
  ghost function Picked(fs: seq<Field>, m: map<string, Value>): map<string, Value>
    requires Names(fs) <= m.Keys
  {
    map k | k in Names(fs) :: m[k]
  }

  lemma NoFieldsRead(rust: Rust, m: map<string, Value>, data: Bytes, off: nat, t: Table<nat>, a: nat)
    ensures Names([]) == {}
    ensures ReadFields(rust, [], data, off, t) == Ok(Picked([], m), off, Dropped(t, a, a))
  {
    DropsNothing(t, a);
    assert Picked([], m) == map[];
  }

  lemma PicksAll(fs: seq<Field>, m: map<string, Value>)
    requires m.Keys == Names(fs)
    ensures Picked(fs, m) == m
  {}

  lemma FieldReads(rust: Rust, fs: seq<Field>, m: map<string, Value>, data: Bytes, off: nat, t: Table<nat>,
                   mid: nat, u: Table<nat>, end: nat, w: Table<nat>)
    requires fs != [] && Names(fs) <= m.Keys && fs[0].name in m && Names(fs[1..]) <= m.Keys
    requires Read(rust, fs[0].shape, data, off, t) == Ok(m[fs[0].name], mid, u)
    requires ReadFields(rust, fs[1..], data, mid, u) == Ok(Picked(fs[1..], m), end, w)
    ensures ReadFields(rust, fs, data, off, t) == Ok(Picked(fs, m), end, w)
  {
    NamesSplit(fs);
    assert Picked(fs[1..], m)[fs[0].name := m[fs[0].name]] == Picked(fs, m);
  }

  lemma {:induction false} FieldsUndoWrite(rust: Rust, fs: seq<Field>, m: map<string, Value>, t0: Table<nat>,
                                           bs: Bytes, t1: Table<nat>,
                                           data: Bytes, off: nat, t: Table<nat>)
    requires WritesFields(rust, fs, m, t0, bs, t1) && Sound(t0)
    requires At(data, off, bs) && Agree(t, t1, t0.next, t1.next)
    ensures Names(fs) <= m.Keys
    ensures ReadFields(rust, fs, data, off, t) == Ok(Picked(fs, m), off + |bs|, Dropped(t, t0.next, t1.next))
    decreases fs, 0, 0
  {
    hide At, Agree, Dropped, Since, Writes, Read, ReadFields, Picked, Names;
    if fs == [] {
      NoFieldsRead(rust, m, data, off, t, t0.next);
    } else {
      var f, rest := fs[0], fs[1..];
      var b, c, u :| Writes(rust, f.shape, m[f.name], t0, b, u) && WritesFields(rust, rest, m, u, c, t1) && bs == b + c;
      hide WritesFields;
      NamesSplit(fs);
      WritesMoves(rust, f.shape, m[f.name], t0, b, u);
      WritesFieldsMoves(rust, rest, m, u, c, t1);
      AtConcat(data, off, b, c);
      Halfway(t, t0, u, t1);
      var t' := Dropped(t, t0.next, u.next);
      ReadUndoesWrite(rust, f.shape, m[f.name], t0, b, u, data, off, t);
      FieldsUndoWrite(rust, rest, m, u, c, t1, data, off + |b|, t');
      FieldReads(rust, fs, m, data, off, t, off + |b|, t', off + |bs|, Dropped(t, t0.next, t1.next));
    }
  }

  lemma NamesSplit(fs: seq<Field>)
    requires fs != []
    ensures Names(fs) == {fs[0].name} + Names(fs[1..])
  {}

  // ---------------------------------------------------------------- lift and lower

  function Lift(rust: Rust, sh: Shape, data: Bytes, t: Table<nat>): Outcome<Value> {
    match Read(rust, sh, data, 0, t)
    case Err(e) => Err(e)
    case Ok(v, o, u) => if o < |data| then Err(IncompleteData) else Ok(v, o, u)
  }

  /**
   Whatever bytes lowering a value gives, lifting them gives the value back and leaves the live objects
   as they were before; and the same bytes with anything after them are refused.
   */
  lemma LiftUndoesLower(rust: Rust, sh: Shape, v: Value, t0: Table<nat>, bs: Bytes, t1: Table<nat>, extra: Bytes)
    requires Writes(rust, sh, v, t0, bs, t1) && Sound(t0)
    ensures Lift(rust, sh, bs, t1) == Ok(v, |bs|, Table(t0.live, t1.next))
    ensures extra != [] ==> Lift(rust, sh, bs + extra, t1) == Err(IncompleteData)
  {
    hide Writes, Read;
    WritesMoves(rust, sh, v, t0, bs, t1);
    ReadUndoesWrite(rust, sh, v, t0, bs, t1, bs, 0, t1);
    ReadUndoesWrite(rust, sh, v, t0, bs, t1, bs + extra, 0, t1);
    assert Dropped(t1, t0.next, t1.next).live == t0.live;
  }

  /** No bytes stand for two values. */
  lemma WriteIsInjective(rust: Rust, sh: Shape, v: Value, w: Value, t: Table<nat>, bs: Bytes, t1: Table<nat>,
                         t2: Table<nat>)
    requires Writes(rust, sh, v, t, bs, t1) && Writes(rust, sh, w, t, bs, t2) && Sound(t) && t1.live == t2.live
    ensures v == w
  {
    hide Writes, Read;
    WritesMoves(rust, sh, v, t, bs, t1);
    WritesMoves(rust, sh, w, t, bs, t2);
    ReadUndoesWrite(rust, sh, v, t, bs, t1, bs, 0, t1);
    ReadUndoesWrite(rust, sh, w, t, bs, t2, bs, 0, t1);
  }
}
