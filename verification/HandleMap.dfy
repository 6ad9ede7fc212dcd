/** `HandleMap` of `bindings/cpp/marketdata_uniffi.hpp`, which routes callbacks from the
    Rust side to the listener that was registered for a handle.

    Every method holds the mutex, so any interleaving of threads is a sequence of
    operations. */
module HandleMap {
  import opened Wrappers

  /** `uint64_t` handles. */
  const TWO_64: nat := 0x1_0000_0000_0000_0000

  datatype Table<T> = Table(handles: map<nat, T>, cur: nat)

  datatype Op<T> =
    | Insert(x: T)         // FfiConverterWebSocketListener::lower
    | At(handle: nat)      // a callback
    | Erase(handle: nat)   // uniffi_free

  /** `std::map::insert` leaves a key that is there already alone; `cur_handle` wraps. */
  function Step<T>(t: Table<T>, op: Op<T>): Table<T> {
    match op
    case Insert(x) => Table(if t.cur in t.handles then t.handles else t.handles[t.cur := x], (t.cur + 1) % TWO_64)
    case At(_) => t
    case Erase(h) => t.(handles := t.handles - {h})
  }

  /** `map.at(handle)`: None where it throws. */
  function Lookup<T>(t: Table<T>, handle: nat): Option<T> {
    if handle in t.handles then Some(t.handles[handle]) else None
  }

  function Run<T>(ops: seq<Op<T>>): Table<T> {
    if ops == [] then Table(map[], 0) else Step(Run(ops[..|ops| - 1]), ops[|ops| - 1])
  }

  class Handles<T> {
    var handles: map<nat, T>
    var curHandle: nat
    ghost var log: seq<Op<T>>

    ghost predicate Valid()
      reads this
    {
      Run(log) == Table(handles, curHandle)
    }

    constructor ()
      ensures Valid() && log == []
    {
      handles, curHandle := map[], 0;
      log := [];
    }

    method CallAt(handle: nat) returns (r: Option<T>)
      requires Valid()
      modifies this`log
      ensures Valid() && log == old(log) + [At(handle)]
      ensures r == Lookup(Run(old(log)), handle)
    {
      r := if handle in handles then Some(handles[handle]) else None;
      log := log + [At(handle)];
    }

    method CallInsert(x: T) returns (handle: nat)
      requires Valid()
      modifies this
      ensures Valid() && log == old(log) + [Insert(x)]
      ensures handle == Run(old(log)).cur
    {
      handle := curHandle;
      if handle !in handles {
        handles := handles[handle := x];
      }
      curHandle := (curHandle + 1) % TWO_64;
      log := log + [Insert(x)];
    }

    method CallErase(handle: nat)
      requires Valid()
      modifies this
      ensures Valid() && log == old(log) + [Erase(handle)]
    {
      if handle in handles {
        handles := handles - {handle};
      }
      assert handles == old(handles) - {handle};
      log := log + [Erase(handle)];
    }
  }

  // ---------------------------------------------------------------- what callers may expect

  function Inserts<T>(ops: seq<Op<T>>): nat {
    if ops == [] then 0 else Inserts(ops[..|ops| - 1]) + if ops[|ops| - 1].Insert? then 1 else 0
  }

  /** The listener registered for handle number h, the h-th insert, until it is freed. */
  function Registered<T>(ops: seq<Op<T>>, h: nat): Option<T> {
    if ops == [] then None
    else
      var before, last := ops[..|ops| - 1], ops[|ops| - 1];
      if last.Insert? && Inserts(before) == h then Some(last.x)
      else if last == Erase(h) then None
      else Registered(before, h)
  }

  lemma {:induction false} InsertsGrow<T>(ops: seq<Op<T>>, i: nat)
    requires i <= |ops|
    ensures Inserts(ops[..i]) <= Inserts(ops)
    ensures i < |ops| && ops[i].Insert? ==> Inserts(ops[..i]) < Inserts(ops)
    decreases |ops|
  {
    if i < |ops| {
      var before := ops[..|ops| - 1];
      assert before[..i] == ops[..i];
      InsertsGrow(before, i);
    } else {
      assert ops[..i] == ops;
    }
  }

  /** Before the counter wraps, the table holds exactly the listeners registered and not
      freed, and the next handle is the number of inserts so far. */
  lemma {:induction false} TableIsRegistry<T>(ops: seq<Op<T>>, h: nat)
    requires Inserts(ops) < TWO_64
    ensures Run(ops).cur == Inserts(ops)
    ensures Lookup(Run(ops), h) == Registered(ops, h)
    ensures h >= Inserts(ops) ==> Registered(ops, h) == None
    decreases |ops|
  {
    if ops != [] {
      var before := ops[..|ops| - 1];
      TableIsRegistry(before, h);
      TableIsRegistry(before, Inserts(before));
    }
  }

  /** The handle that the i-th operation of a run returns. */
  function Issued<T>(ops: seq<Op<T>>, i: nat): nat
    requires i < |ops| && ops[i].Insert?
  {
    Run(ops[..i]).cur
  }

  /** No handle is issued twice. */
  lemma NeverReissued<T>(ops: seq<Op<T>>, i: nat, j: nat)
    requires Inserts(ops) <= TWO_64
    requires i < j < |ops| && ops[i].Insert? && ops[j].Insert?
    ensures Issued(ops, i) < Issued(ops, j)
  {
    InsertsGrow(ops, j);
    assert ops[..j][..i] == ops[..i];
    InsertsGrow(ops[..j], i);
    TableIsRegistry(ops[..i], 0);
    TableIsRegistry(ops[..j], 0);
  }

  lemma {:induction false} StaysRegistered<T>(ops: seq<Op<T>>, i: nat)
    requires i < |ops| && ops[i].Insert?
    requires forall k :: i < k < |ops| ==> ops[k] != Erase(Inserts(ops[..i]))
    ensures Registered(ops, Inserts(ops[..i])) == Some(ops[i].x)
    decreases |ops|
  {
    var n := |ops| - 1;
    var before := ops[..n];
    if i < n {
      assert before[..i] == ops[..i];
      StaysRegistered(before, i);
      InsertsGrow(before, i);
    }
  }

  lemma {:induction false} StaysFreed<T>(ops: seq<Op<T>>, h: nat, k: nat)
    requires k < |ops| && ops[k] == Erase(h) && h < Inserts(ops[..k])
    ensures Registered(ops, h) == None
    decreases |ops|
  {
    var n := |ops| - 1;
    if k < n {
      assert ops[..n][..k] == ops[..k];
      StaysFreed(ops[..n], h, k);
      InsertsGrow(ops[..n], k);
    }
  }

  /** A callback on a handle reaches the listener that `lower` registered for it, and no
      other, exactly as long as the handle has not been freed. */
  lemma CallbackRouting<T>(ops: seq<Op<T>>, i: nat)
    requires Inserts(ops) < TWO_64 && i < |ops| && ops[i].Insert?
    ensures Lookup(Run(ops), Issued(ops, i)) ==
            if exists k :: i < k < |ops| && ops[k] == Erase(Issued(ops, i)) then None else Some(ops[i].x)
  {
    var h := Issued(ops, i);
    InsertsGrow(ops, i);
    TableIsRegistry(ops[..i], h);
    TableIsRegistry(ops, h);
    if k :| i < k < |ops| && ops[k] == Erase(h) {
      assert ops[..k][..i] == ops[..i];
      InsertsGrow(ops[..k], i);
      StaysFreed(ops, h, k);
    } else {
      StaysRegistered(ops, i);
    }
  }

  lemma {:induction false} EntryStays<T>(ops: seq<Op<T>>, i: nat, h: nat)
    requires i <= |ops| && h in Run(ops[..i]).handles
    requires forall k :: i <= k < |ops| ==> ops[k] != Erase(h)
    ensures Lookup(Run(ops), h) == Lookup(Run(ops[..i]), h)
    decreases |ops|
  {
    if i < |ops| {
      var before := ops[..|ops| - 1];
      assert before[..i] == ops[..i];
      EntryStays(before, i, h);
    } else {
      assert ops[..i] == ops;
    }
  }

  /** In every run, wrapped or not: until it is freed, a handle routes to the listener it was
      issued for if and only if it was then free, or in use for that very listener. */
  lemma RoutesUntilFreed<T>(ops: seq<Op<T>>, i: nat)
    requires i < |ops| && ops[i].Insert?
    requires forall k :: i < k < |ops| ==> ops[k] != Erase(Issued(ops, i))
    ensures var h := Issued(ops, i);
      Lookup(Run(ops), h) == Some(ops[i].x) <==> Lookup(Run(ops[..i]), h) in {None, Some(ops[i].x)}
  {
    var after := ops[..i + 1];
    assert after[..i] == ops[..i] && after[i] == ops[i];
    EntryStays(ops, i + 1, Issued(ops, i));
  }

  /** After 2^64 inserts a handle that was never freed is issued again, and its callbacks
      go to the old listener. */
  lemma WrappedHandleMisroutes<T>(ops: seq<Op<T>>, last: T, a: T, b: T)
    requires Inserts(ops) == TWO_64 - 1 && Registered(ops, 0) == Some(a) && a != b
    ensures var wrapped := ops + [Insert(last)];
      Run(wrapped).cur == 0 && Lookup(Run(wrapped + [Insert(b)]), 0) == Some(a)
  {
    TableIsRegistry(ops, 0);
    TableIsRegistry(ops, TWO_64 - 1);
    var wrapped := ops + [Insert(last)];
    assert wrapped[..|wrapped| - 1] == ops;
    assert (wrapped + [Insert(b)])[..|wrapped|] == wrapped;
  }
}
