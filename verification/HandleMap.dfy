/** The table that turns Swift objects into handles Rust can hold. Every method runs under its lock. */
module HandleMap {
  import opened Wrappers

  const INITIAL: nat := 1
  const DELTA: nat := 2

  datatype Table<T> = Table(live: map<nat, T>, next: nat)

  function Empty<T>(): Table<T> {
    Table(map[], INITIAL)
  }

  function Inserted<T>(t: Table<T>, obj: T): Table<T> {
    Table(t.live[t.next := obj], t.next + DELTA)
  }

  function Removed<T>(t: Table<T>, handle: nat): Table<T> {
    t.(live := t.live - {handle})
  }

  /** Handles are odd and below the next one to be issued. */
  ghost predicate Sound<T>(t: Table<T>) {
    t.next % 2 == 1 && forall h :: h in t.live ==> h % 2 == 1 && h < t.next
  }

  class UniffiHandleMap<T(==)> {
    var live: map<nat, T>
    var currentHandle: nat

    constructor ()
      ensures State() == Empty()
    {
      live, currentHandle := map[], INITIAL;
    }

    function State(): Table<T>
      reads this
    {
      Table(live, currentHandle)
    }

    method Insert(obj: T) returns (handle: nat)
      modifies this
      ensures handle == old(currentHandle) && State() == Inserted(old(State()), obj)
    {
      handle := currentHandle;
      currentHandle := currentHandle + DELTA;
      live := live[handle := obj];
    }

    /** `None` is the stale-handle error. */
    method Get(handle: nat) returns (obj: Option<T>)
      ensures obj == if handle in live then Some(live[handle]) else None
    {
      obj := if handle in live then Some(live[handle]) else None;
    }

    method Clone(handle: nat) returns (copy: Option<nat>)
      modifies this
      ensures if handle in old(live)
              then copy == Some(old(currentHandle)) && State() == Inserted(old(State()), old(live)[handle])
              else copy == None && State() == old(State())
    {
      if handle in live {
        var h := Insert(live[handle]);
        copy := Some(h);
      } else {
        copy := None;
      }
    }

    method Remove(handle: nat) returns (obj: Option<T>)
      modifies this
      ensures State() == Removed(old(State()), handle)
      ensures obj == if handle in old(live) then Some(old(live)[handle]) else None
    {
      if handle in live {
        obj := Some(live[handle]);
        live := live - {handle};
      } else {
        obj := None;
        assert live - {handle} == live;
      }
    }
  }

  // ---------------------------------------------------------------- whole runs

  datatype Op<T> = Insert(obj: T) | Get(handle: nat) | Clone(handle: nat) | Remove(handle: nat)

  function Apply<T>(t: Table<T>, op: Op<T>): Table<T> {
    match op
    case Insert(obj) => Inserted(t, obj)
    case Get(_) => t
    case Clone(handle) => if handle in t.live then Inserted(t, t.live[handle]) else t
    case Remove(handle) => Removed(t, handle)
  }

  function ApplyAll<T>(t: Table<T>, ops: seq<Op<T>>): Table<T>
    decreases |ops|
  {
    if ops == [] then t else ApplyAll(Apply(t, ops[0]), ops[1..])
  }

  /** The handles a run hands out, in order. */
  function Issued<T>(t: Table<T>, ops: seq<Op<T>>): (r: seq<nat>)
    decreases |ops|
  {
    if ops == [] then []
    else
      (if Apply(t, ops[0]).next != t.next then [t.next] else []) + Issued(Apply(t, ops[0]), ops[1..])
  }

  lemma ApplyIsSound<T>(t: Table<T>, op: Op<T>)
    requires Sound(t)
    ensures Sound(Apply(t, op)) && Apply(t, op).next >= t.next
  {}

  /** Every handle is odd, above every handle issued before it, and so issued once. */
  lemma {:induction false} IssuedAscend<T>(t: Table<T>, ops: seq<Op<T>>)
    requires Sound(t)
    ensures Sound(ApplyAll(t, ops))
    ensures forall i :: 0 <= i < |Issued(t, ops)| ==> Issued(t, ops)[i] % 2 == 1 && t.next <= Issued(t, ops)[i]
    ensures forall i, j :: 0 <= i < j < |Issued(t, ops)| ==> Issued(t, ops)[i] < Issued(t, ops)[j]
    ensures forall i :: 0 <= i < |Issued(t, ops)| ==> Issued(t, ops)[i] == t.next + 2 * i
    ensures ApplyAll(t, ops).next == t.next + 2 * |Issued(t, ops)|
    decreases |ops|
  {
    if ops != [] {
      ApplyIsSound(t, ops[0]);
      IssuedAscend(Apply(t, ops[0]), ops[1..]);
    }
  }

  /** A handle that was issued and is not live stays stale whatever follows. */
  lemma {:induction false} StaleForever<T>(t: Table<T>, ops: seq<Op<T>>, handle: nat)
    requires Sound(t) && handle < t.next && handle !in t.live
    ensures handle !in ApplyAll(t, ops).live
    decreases |ops|
  {
    if ops != [] {
      ApplyIsSound(t, ops[0]);
      StaleForever(Apply(t, ops[0]), ops[1..], handle);
    }
  }

  /** A live handle keeps its object until that handle itself is removed. */
  lemma {:induction false} LiveUntilRemoved<T>(t: Table<T>, ops: seq<Op<T>>, handle: nat)
    requires Sound(t) && handle in t.live
    ensures handle in ApplyAll(t, ops).live <==> Remove(handle) !in ops
    ensures handle in ApplyAll(t, ops).live ==> ApplyAll(t, ops).live[handle] == t.live[handle]
    decreases |ops|
  {
    if ops != [] {
      var next := Apply(t, ops[0]);
      ApplyIsSound(t, ops[0]);
      assert ops == [ops[0]] + ops[1..];
      if ops[0] == Remove(handle) {
        StaleForever(next, ops[1..], handle);
      } else {
        LiveUntilRemoved(next, ops[1..], handle);
      }
    }
  }
}
