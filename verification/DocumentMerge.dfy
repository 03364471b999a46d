/**
 Documents as trees, and the overlay: mappings merge key by key, everything else replaces what it
 covers. A tree handed over as `&mut` is a value in and a value out.
 */
module DocumentMerge {
  import Names
  import opened Wrappers

  /** A key that is not text, up to the equality mappings use. */
  datatype Key = Name(text: string) | Other(id: nat)

  /** A mapping keeps its keys in the order they were inserted. */
  datatype Value =
    | Null
    | Bool(b: bool)
    | Number(n: real)
    | Text(text: string)
    | Sequence(items: seq<Value>)
    | Mapping(keys: seq<Key>, at: map<Key, Value>)
    | Tagged(tag: string, inner: Value)

  /** Every mapping lists exactly the keys it holds, each once. */
  ghost predicate Wf(v: Value) {
    match v
    case Sequence(items) => forall i :: 0 <= i < |items| ==> Wf(items[i])
    case Mapping(keys, at) =>
      Names.Distinct(keys) && (forall k :: k in keys <==> k in at) && forall k :: k in at ==> Wf(at[k])
    case Tagged(_, inner) => Wf(inner)
    case _ => true
  }

  /** The keys of `ks` that `seen` has not, in order. */
  function New(ks: seq<Key>, seen: seq<Key>): seq<Key> {
    if ks == [] then [] else
    var rest := New(ks[1..], seen);
    if ks[0] in seen then rest else [ks[0]] + rest
  }

  function Merged(base: Value, over: Value): Value
    decreases over
  {
    if base.Mapping? && over.Mapping? then
      Mapping(base.keys + New(over.keys, base.keys),
              map k | k in base.at.Keys + over.at.Keys ::
                if k !in over.at then base.at[k] else if k in base.at then Merged(base.at[k], over.at[k])
                  else over.at[k])
    else over
  }

  // ---------------------------------------------------------------- the overlay as it runs

  /** Every key of a mapping is listed, once. */
  ghost predicate Indexed(v: Value) {
    v.Mapping? && Names.Distinct(v.keys) && forall k :: k in v.keys <==> k in v.at
  }

  /** `base` once the keys `done` of `over` are laid on it. */
  ghost function Laid(base: Value, over: Value, done: seq<Key>): Value
    requires base.Mapping? && over.Mapping? && forall k :: k in done ==> k in over.at
  {
    Mapping(base.keys + New(done, base.keys),
            map k | k in base.at.Keys + (set d | d in done) ::
              if k !in done then base.at[k] else if k in base.at then Merged(base.at[k], over.at[k]) else over.at[k])
  }

  /** One more key: the value already there is laid over, or the key is added last. */
  lemma LaidNext(base: Value, over: Value, done: seq<Key>, key: Key)
    requires Indexed(base) && over.Mapping? && (forall k :: k in done ==> k in over.at) && key in over.at
      && key !in done
    ensures var now, next := Laid(base, over, done), Laid(base, over, done + [key]);
      && (key in now.at <==> key in base.at)
      && (key in base.at ==>
            now.at[key] == base.at[key] && next == Mapping(now.keys, now.at[key := Merged(base.at[key], over.at[key])]))
      && (key !in base.at ==> next == Mapping(now.keys + [key], now.at[key := over.at[key]]))
  {
    hide Merged, New;
    NewOne(done, key, base.keys);
    var now, next := Laid(base, over, done), Laid(base, over, done + [key]);
    if key in base.at {
      assert next.at == now.at[key := Merged(base.at[key], over.at[key])];
    } else {
      assert next.at == now.at[key := over.at[key]];
    }
  }

  lemma LaidAll(base: Value, over: Value)
    requires Indexed(base) && Indexed(over)
    ensures Laid(base, over, []) == base && Laid(base, over, over.keys) == Merged(base, over)
  {}

  lemma NextKey(ks: seq<Key>, i: nat)
    requires Names.Distinct(ks) && i < |ks|
    ensures ks[..i + 1] == ks[..i] + [ks[i]] && ks[i] !in ks[..i]
  {}

  method Merge(base: Value, over: Value) returns (r: Value)
    requires Wf(base) && Wf(over)
    ensures r == Merged(base, over)
    decreases over
  {
    if !(base.Mapping? && over.Mapping?) { return over; }
    assert Indexed(base) && Indexed(over);
    LaidAll(base, over);
    assert forall k :: k in base.at ==> Wf(base.at[k]);
    assert forall k :: k in over.at ==> Wf(over.at[k]);
    hide Merged, Laid, New, Wf, Names.Distinct;
    r := base;
    var i := 0;
    while i < |over.keys|
      invariant i <= |over.keys| && r.Mapping? && r == Laid(base, over, over.keys[..i])
    {
      var key := over.keys[i];
      NextKey(over.keys, i);
      LaidNext(base, over, over.keys[..i], key);
      if key in r.at {
        var existing := Merge(r.at[key], over.at[key]);
        r := Mapping(r.keys, r.at[key := existing]);
      } else {
        r := Mapping(r.keys + [key], r.at[key := over.at[key]]);
      }
      i := i + 1;
    }
    assert over.keys[..i] == over.keys;
  }

  // ---------------------------------------------------------------- keys

  lemma {:induction false} NewAppend(xs: seq<Key>, ys: seq<Key>, seen: seq<Key>)
    ensures New(xs + ys, seen) == New(xs, seen) + New(ys, seen)
  {
    if xs == [] {
      assert xs + ys == ys;
    } else {
      NewAppend(xs[1..], ys, seen);
      assert (xs + ys)[1..] == xs[1..] + ys;
    }
  }

  lemma NewOne(done: seq<Key>, key: Key, seen: seq<Key>)
    ensures New(done + [key], seen) == if key in seen then New(done, seen) else New(done, seen) + [key]
  {
    NewAppend(done, [key], seen);
    assert New([key], seen) == if key in seen then [] else [key];
  }

  lemma {:induction false} NewHolds(ks: seq<Key>, seen: seq<Key>)
    ensures forall k :: k in New(ks, seen) <==> k in ks && k !in seen
  {
    if ks != [] {
      NewHolds(ks[1..], seen);
      assert forall k :: k in ks <==> k == ks[0] || k in ks[1..];
    }
  }

  lemma {:induction false} NewDistinct(ks: seq<Key>, seen: seq<Key>)
    requires Names.Distinct(ks)
    ensures Names.Distinct(New(ks, seen))
  {
    if ks != [] {
      NewDistinct(ks[1..], seen);
      NewHolds(ks[1..], seen);
      assert ks[0] !in ks[1..];
    }
  }

  lemma {:induction false} NewNone(ks: seq<Key>, seen: seq<Key>)
    requires forall k :: k in ks ==> k in seen
    ensures New(ks, seen) == []
  {
    if ks != [] { NewNone(ks[1..], seen); }
  }

  lemma {:induction false} NewAll(ks: seq<Key>, seen: seq<Key>)
    requires forall k :: k in ks ==> k !in seen
    ensures New(ks, seen) == ks
  {
    if ks != [] { NewAll(ks[1..], seen); }
  }

  lemma {:induction false} NewTwice(c: seq<Key>, b: seq<Key>, a: seq<Key>)
    ensures New(New(c, b), a) == New(c, a + New(b, a))
  {
    NewHolds(b, a);
    if c != [] { NewTwice(c[1..], b, a); }
  }

  /** Keys added over keys that begin with them add nothing but the rest. */
  lemma NewAfterPrefix(seen: seq<Key>, rest: seq<Key>)
    requires Names.Distinct(seen + rest)
    ensures New(seen + rest, seen) == rest
  {
    hide New;
    var whole := seen + rest;
    forall i, j | 0 <= i < |seen| && 0 <= j < |rest| ensures seen[i] != rest[j] {
      assert whole[i] != whole[|seen| + j];
    }
    NewAppend(seen, rest, seen);
    NewNone(seen, seen);
    NewAll(rest, seen);
  }

  // ---------------------------------------------------------------- what a path leads to

  function At(v: Value, path: seq<Key>): Option<Value> {
    if path == [] then Some(v)
    else if v.Mapping? && path[0] in v.at then At(v.at[path[0]], path[1..])
    else None
  }

  predicate Settles(v: Value, path: seq<Key>) {
    At(v, path).Some? && !At(v, path).value.Mapping?
  }

  /** Somewhere strictly above `path`, `v` has a value that holds no keys. */
  ghost predicate Cuts(v: Value, path: seq<Key>) {
    exists n :: 0 <= n < |path| && Settles(v, path[..n])
  }

  lemma CutsBelow(v: Value, path: seq<Key>)
    requires path != [] && v.Mapping?
    ensures Cuts(v, path) <==> path[0] in v.at && Cuts(v.at[path[0]], path[1..])
  {
    if Cuts(v, path) {
      var n :| 0 <= n < |path| && Settles(v, path[..n]);
      assert path[..n][1..] == path[1..][..n - 1];
    }
    if path[0] in v.at && Cuts(v.at[path[0]], path[1..]) {
      var n :| 0 <= n < |path[1..]| && Settles(v.at[path[0]], path[1..][..n]);
      assert path[..n + 1][1..] == path[1..][..n];
    }
  }

  /**
   What the merged document has at any path: what the overlay has there laid over what the base has, if
   the overlay gets there; nothing below a plain value of the overlay; else what the base has.
   */
  lemma {:induction false} MergedAt(a: Value, b: Value, path: seq<Key>)
    ensures At(Merged(a, b), path) ==
      match At(b, path)
      case Some(y) => Some(if At(a, path).Some? then Merged(At(a, path).value, y) else y)
      case None => if Cuts(b, path) then None else At(a, path)
    decreases |path|
  {
    if path != [] {
      if !b.Mapping? {
        assert Settles(b, path[..0]);
      } else {
        CutsBelow(b, path);
        if a.Mapping? && path[0] in a.at && path[0] in b.at {
          MergedAt(a.at[path[0]], b.at[path[0]], path[1..]);
        }
      }
    }
  }

  /** The overlay wins at every plain value it names. */
  lemma NamedWins(a: Value, b: Value, path: seq<Key>)
    requires Settles(b, path)
    ensures At(Merged(a, b), path) == At(b, path)
  {
    MergedAt(a, b, path);
  }

  // ---------------------------------------------------------------- laws

  lemma {:induction false} MergedWf(a: Value, b: Value)
    requires Wf(a) && Wf(b)
    ensures Wf(Merged(a, b))
    decreases b
  {
    if a.Mapping? && b.Mapping? {
      forall k | k in a.at && k in b.at ensures Wf(Merged(a.at[k], b.at[k])) { MergedWf(a.at[k], b.at[k]); }
      NewDistinct(b.keys, a.keys);
      NewHolds(b.keys, a.keys);
      JoinedDistinct(a.keys, New(b.keys, a.keys));
      hide New;
    }
  }

  lemma JoinedDistinct(xs: seq<Key>, ys: seq<Key>)
    requires Names.Distinct(xs) && Names.Distinct(ys) && forall k :: k in ys ==> k !in xs
    ensures Names.Distinct(xs + ys)
  {
    var whole := xs + ys;
    forall i, j | 0 <= i < j < |whole| ensures whole[i] != whole[j] {
      if i < |xs| <= j {
        assert ys[j - |xs|] in ys;
        assert xs[i] in xs;
      }
    }
  }

  /** `c` settles everything `a` does, in `a`'s order first. */
  ghost predicate Covers(c: Value, a: Value) {
    a.Mapping? && c.Mapping? ==>
      a.keys <= c.keys && forall k :: k in a.at && k in c.at ==> Covers(c.at[k], a.at[k])
  }

  /** An overlay swallows what it is laid on exactly when it covers it. */
  lemma {:induction false} SwallowsWhatItCovers(a: Value, c: Value)
    requires Wf(a) && Wf(c)
    ensures Merged(a, c) == c <==> Covers(c, a)
    decreases c
  {
    if a.Mapping? && c.Mapping? {
      forall k | k in a.at && k in c.at ensures Merged(a.at[k], c.at[k]) == c.at[k] <==> Covers(c.at[k], a.at[k]) {
        SwallowsWhatItCovers(a.at[k], c.at[k]);
      }
      assert Indexed(a) && Indexed(c);
      hide Wf, New, Covers, Merged;
      if Merged(a, c) == c { SwallowedIsCovered(a, c); }
      if Covers(c, a) { CoveredIsSwallowed(a, c); }
    }
  }

  lemma SwallowedIsCovered(a: Value, c: Value)
    requires a.Mapping? && c.Mapping? && Merged(a, c) == c
    requires forall k :: k in a.at && k in c.at ==> (Merged(a.at[k], c.at[k]) == c.at[k] <==> Covers(c.at[k], a.at[k]))
    ensures Covers(c, a)
  {}

  lemma CoveredIsSwallowed(a: Value, c: Value)
    requires Indexed(a) && Indexed(c) && Covers(c, a)
    requires forall k :: k in a.at && k in c.at ==> (Merged(a.at[k], c.at[k]) == c.at[k] <==> Covers(c.at[k], a.at[k]))
    ensures Merged(a, c) == c
  {
    hide New, Names.Distinct;
    var rest := c.keys[|a.keys|..];
    assert c.keys == a.keys + rest;
    NewAfterPrefix(a.keys, rest);
    hide Indexed;
    PrefixHolds(a, c);
    ValuesSwallowed(a, c);
  }

  lemma ValuesSwallowed(a: Value, c: Value)
    requires a.Mapping? && c.Mapping? && a.at.Keys <= c.at.Keys
    requires forall k :: k in a.at && k in c.at ==> Merged(a.at[k], c.at[k]) == c.at[k]
    ensures Merged(a, c).at == c.at
  {}

  lemma PrefixHolds(a: Value, c: Value)
    requires Indexed(a) && Indexed(c) && a.keys <= c.keys
    ensures forall k :: k in a.at ==> k in c.at
  {}

  lemma {:induction false} CoversItself(a: Value)
    ensures Covers(a, a)
    decreases a
  {
    if a.Mapping? {
      forall k | k in a.at ensures Covers(a.at[k], a.at[k]) { CoversItself(a.at[k]); }
    }
  }

  /** A document laid over itself is itself. */
  lemma MergedWithItself(a: Value)
    requires Wf(a)
    ensures Merged(a, a) == a
  {
    CoversItself(a);
    SwallowsWhatItCovers(a, a);
  }

  /** Laying an overlay a second time changes nothing. */
  lemma {:induction false} MergedTwice(a: Value, b: Value)
    requires Wf(a) && Wf(b)
    ensures Merged(Merged(a, b), b) == Merged(a, b)
    decreases b
  {
    if a.Mapping? && b.Mapping? {
      forall k | k in b.at ensures Merged(Merged(a, b).at[k], b.at[k]) == Merged(a, b).at[k] {
        if k in a.at { MergedTwice(a.at[k], b.at[k]); } else { MergedWithItself(b.at[k]); }
      }
      assert Indexed(a) && Indexed(b);
      hide Wf, New, Names.Distinct;
      KeysTwice(a, b);
      ValuesTwice(a, b);
    } else {
      MergedWithItself(b);
    }
  }

  lemma KeysTwice(a: Value, b: Value)
    requires a.Mapping? && b.Mapping?
    ensures Merged(Merged(a, b), b).keys == Merged(a, b).keys
  {
    hide New;
    var m := Merged(a, b);
    NewHolds(b.keys, a.keys);
    NewNone(b.keys, m.keys);
    assert m.keys + [] == m.keys;
  }

  lemma ValuesTwice(a: Value, b: Value)
    requires a.Mapping? && b.Mapping?
    requires forall k :: k in b.at ==> Merged(Merged(a, b).at[k], b.at[k]) == Merged(a, b).at[k]
    ensures Merged(Merged(a, b), b).at == Merged(a, b).at
  {}

  /** At `path` the middle document is plain between two mappings, and the last does not cover the first. */
  ghost predicate Clash(a: Value, b: Value, c: Value, path: seq<Key>) {
    && Settles(b, path)
    && At(a, path).Some? && At(a, path).value.Mapping?
    && At(c, path).Some? && At(c, path).value.Mapping?
    && !Covers(At(c, path).value, At(a, path).value)
  }

  /** Three documents layered from either end. */
  function FromLeft(a: Value, b: Value, c: Value): Value {
    Merged(Merged(a, b), c)
  }

  function FromRight(a: Value, b: Value, c: Value): Value {
    Merged(a, Merged(b, c))
  }

  lemma {:induction false} ClashFree(a: Value, b: Value, c: Value)
    requires Wf(a) && Wf(b) && Wf(c) && forall path :: !Clash(a, b, c, path)
    ensures FromLeft(a, b, c) == FromRight(a, b, c)
    decreases c
  {
    if a.Mapping? && c.Mapping? {
      if b.Mapping? {
        forall k | k in a.at && k in b.at && k in c.at
          ensures FromLeft(a.at[k], b.at[k], c.at[k]) == FromRight(a.at[k], b.at[k], c.at[k])
        {
          forall path ensures !Clash(a.at[k], b.at[k], c.at[k], path) { ClashInside(a, b, c, k, path); }
          ClashFree(a.at[k], b.at[k], c.at[k]);
        }
        KeysAssociate(a, b, c);
        ValuesAssociate(a, b, c);
      } else {
        assert !Clash(a, b, c, []);
        SwallowsWhatItCovers(a, c);
      }
    }
  }

  lemma ClashInside(a: Value, b: Value, c: Value, k: Key, path: seq<Key>)
    requires a.Mapping? && b.Mapping? && c.Mapping? && k in a.at && k in b.at && k in c.at
    ensures Clash(a, b, c, [k] + path) <==> Clash(a.at[k], b.at[k], c.at[k], path)
  {}

  lemma KeysAssociate(a: Value, b: Value, c: Value)
    requires a.Mapping? && b.Mapping? && c.Mapping?
    ensures FromLeft(a, b, c).keys == FromRight(a, b, c).keys
  {
    hide New;
    var ab, cb := New(b.keys, a.keys), New(c.keys, b.keys);
    NewTwice(c.keys, b.keys, a.keys);
    NewAppend(b.keys, cb, a.keys);
    assert (a.keys + ab) + New(c.keys, a.keys + ab) == a.keys + (ab + New(cb, a.keys));
  }

  lemma ValuesAssociate(a: Value, b: Value, c: Value)
    requires a.Mapping? && b.Mapping? && c.Mapping?
    requires forall k :: k in a.at && k in b.at && k in c.at ==>
      FromLeft(a.at[k], b.at[k], c.at[k]) == FromRight(a.at[k], b.at[k], c.at[k])
    ensures FromLeft(a, b, c).at == FromRight(a, b, c).at
  {}

  lemma {:induction false} ClashBreaks(a: Value, b: Value, c: Value, path: seq<Key>)
    requires Wf(a) && Wf(b) && Wf(c) && Clash(a, b, c, path)
    ensures FromLeft(a, b, c) != FromRight(a, b, c)
    decreases |path|
  {
    if path == [] {
      SwallowsWhatItCovers(a, c);
    } else {
      var k := path[0];
      assert path == [k] + path[1..];
      ClashInside(a, b, c, k, path[1..]);
      ClashBreaks(a.at[k], b.at[k], c.at[k], path[1..]);
      assert FromLeft(a, b, c).at[k] == FromLeft(a.at[k], b.at[k], c.at[k]);
      assert FromRight(a, b, c).at[k] == FromRight(a.at[k], b.at[k], c.at[k]);
    }
  }

  /** Layering three documents does not depend on which two are merged first, except across a clash. */
  lemma AssociatesExactlyWithoutClash(a: Value, b: Value, c: Value)
    requires Wf(a) && Wf(b) && Wf(c)
    ensures FromLeft(a, b, c) == FromRight(a, b, c) <==> forall path :: !Clash(a, b, c, path)
  {
    if forall path :: !Clash(a, b, c, path) {
      ClashFree(a, b, c);
    } else {
      var path :| Clash(a, b, c, path);
      ClashBreaks(a, b, c, path);
    }
  }

  /**
   A blanked section between two that set different keys: from the left the blank holds, from the right it is
   lost.
   */
  lemma BlankIsLost()
    ensures var a, c := Mapping([Name("x")], map[Name("x") := Null]), Mapping([Name("y")], map[Name("y") := Null]);
      Wf(a) && Wf(c) && FromLeft(a, Null, c) == c && FromRight(a, Null, c) != c
  {}
}
