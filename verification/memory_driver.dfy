/** The in-memory driver of the status revision (drivers/database/memory.go) and its error
    vocabulary (drivers/database/database.go). */
module MemoryDriver {
  import opened Wrappers
  import opened Models
  import opened Histories

  /** `DatabaseInvalidDataError` and `DatabaseUnexpectedError`: two distinct Go string types,
      each of whose `Error()` returns the string it wraps. */
  datatype DriverError = InvalidData(msg: string) | Unexpected(msg: string)

  /** The driver value behind a non-nil `*Memory`. */
  datatype Memory = Memory(data: Store<StatusData>)

  /** NewMemory: a nil map is refused; any other map, broken slots included, is kept as is. */
  function NewMemory(data: Option<Store<StatusData>>): (r: Result<Memory, DriverError>)
    ensures r.Success? <==> data.Some?
    ensures r.Failure? ==> r.error == InvalidData("nil data")
    ensures r.Success? ==> r.value.data == data.value
  {
    match data
    case None => Failure(InvalidData("nil data"))
    case Some(m) => Success(Memory(m))
  }

  /** Exists: whether `id` is a key, broken slot or not; the error part is always nil.
      (Calling it through a nil `*Memory` panics in Go, so it takes a `Memory`.) */
  function Exists(d: Memory, id: nat): (r: (bool, Option<DriverError>))
    ensures r.1 == None
    ensures r.0 <==> id in d.data
  {
    (id in d.data, None)
  }

  /** A driver built from a non-nil map knows exactly that map's keys, broken slots included. */
  lemma NewMemoryExists(m: Store<StatusData>, id: nat)
    ensures NewMemory(Some(m)).Success?
    ensures Exists(NewMemory(Some(m)).value, id).0 == (id in m)
  {
  }

  /** Every check of WriteStatus passes: a driver, a reading, a known id and a non-nil list. */
  predicate Accepts(d: Option<Memory>, temp: Option<StatusData>)
  {
    && d.Some?
    && temp.Some?
    && temp.value.id in d.value.data
    && d.value.data[temp.value.id].Some?
  }

  /** WriteStatus: returns the driver after the call together with the error it reports.
      The checks run in the order nil driver, nil data, unknown id, nil list; each failure
      leaves the driver as it was, and success appends the reading to its id's history. */
  function WriteStatus(d: Option<Memory>, temp: Option<StatusData>): (r: (Option<Memory>, Option<DriverError>))
    ensures d.None? ==> r.1 == Some(Unexpected("nil driver"))
    ensures d.Some? && temp.None? ==> r.1 == Some(InvalidData("nil data"))
    ensures d.Some? && temp.Some? && temp.value.id !in d.value.data ==>
              r.1 == Some(InvalidData("invalid ID"))
    ensures d.Some? && temp.Some? && temp.value.id in d.value.data && d.value.data[temp.value.id].None? ==>
              r.1 == Some(Unexpected("nil list"))
    ensures r.1.None? <==> Accepts(d, temp)
    ensures r.1.Some? ==> r.0 == d
    ensures r.1.None? ==> r.0.Some? && AppendedAt(d.value.data, r.0.value.data, temp.value.id, temp.value)
  {
    if d.None? then (d, Some(Unexpected("nil driver")))
    else if temp.None? then (d, Some(InvalidData("nil data")))
    else
      var m := d.value.data;
      var x := temp.value;
      if x.id !in m then (d, Some(InvalidData("invalid ID")))
      else if m[x.id].None? then (d, Some(Unexpected("nil list")))
      else (Some(Memory(m[x.id := Some(m[x.id].value + [x])])), None)
  }

  /** Exists is the guard WriteStatus applies: a reading is refused as an invalid ID exactly
      when Exists says its id is unknown. */
  lemma ExistsDecidesInvalidID(d: Memory, x: StatusData)
    ensures WriteStatus(Some(d), Some(x)).1 == Some(InvalidData("invalid ID")) <==> !Exists(d, x.id).0
  {
  }

  /** No write, successful or not, changes what Exists reports for any id, and every write
      keeps the store append-only. */
  lemma WriteStatusPreservesExists(d: Memory, temp: Option<StatusData>, id: nat)
    ensures WriteStatus(Some(d), temp).0.Some?
    ensures Exists(WriteStatus(Some(d), temp).0.value, id).0 == Exists(d, id).0
    ensures Extends(d.data, WriteStatus(Some(d), temp).0.value.data)
  {
  }

  /** A successful write can be read back: the last entry of the id's history is the reading. */
  lemma WrittenReadingIsLast(d: Memory, x: StatusData)
    requires WriteStatus(Some(d), Some(x)).1.None?
    ensures var h := WriteStatus(Some(d), Some(x)).0.value.data[x.id];
            h.Some? && |h.value| > 0 && h.value[|h.value| - 1] == x
  {
  }

  /** The readings of `xs` that carry `id`, in their original order. */
  function ReadingsFor(xs: seq<StatusData>, id: nat): (r: seq<StatusData>)
    ensures |r| <= |xs|
    ensures forall i :: 0 <= i < |r| ==> r[i].id == id && r[i] in xs
  {
    if |xs| == 0 then []
    else (if xs[0].id == id then [xs[0]] else []) + ReadingsFor(xs[1..], id)
  }

  /** The driver after WriteStatus has been called with each reading of `xs` in turn; refused
      readings leave it unchanged. */
  function Replay(m: Memory, xs: seq<StatusData>): (r: Memory)
    ensures r.data.Keys == m.data.Keys
    decreases |xs|
  {
    if |xs| == 0 then m
    else Replay(WriteStatus(Some(m), Some(xs[0])).0.value, xs[1..])
  }

  /** Histories are append-only and ordered: after any sequence of writes, a working slot holds
      its old history followed by exactly the readings sent for that id, in order, and a broken
      slot is still broken. */
  lemma {:induction false} ReplayHistory(m: Memory, xs: seq<StatusData>, id: nat)
    requires id in m.data
    ensures m.data[id].None? ==> Replay(m, xs).data[id].None?
    ensures m.data[id].Some? ==> Replay(m, xs).data[id] == Some(m.data[id].value + ReadingsFor(xs, id))
    decreases |xs|
  {
    if |xs| == 0 {
      assert ReadingsFor(xs, id) == [];
      if m.data[id].Some? {
        assert m.data[id].value + [] == m.data[id].value;
      }
    } else {
      var m' := WriteStatus(Some(m), Some(xs[0])).0.value;
      ReplayHistory(m', xs[1..], id);
      assert Replay(m, xs) == Replay(m', xs[1..]);
      var rest := ReadingsFor(xs[1..], id);
      if xs[0].id == id {
        assert ReadingsFor(xs, id) == [xs[0]] + rest;
        if m.data[id].Some? {
          assert m'.data[id] == Some(m.data[id].value + [xs[0]]);
          assert m.data[id].value + [xs[0]] + rest == m.data[id].value + ([xs[0]] + rest);
        }
      } else {
        assert ReadingsFor(xs, id) == rest;
      }
    }
  }
}
