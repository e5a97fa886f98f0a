/** The in-memory driver of the temperature revision (drivers/database.go). */
module TemperatureDriver {
  import opened Wrappers
  import opened Models
  import opened Histories

  /** `DatabaseError`, a Go string type, of which the driver only ever returns the two
      declared constants. */
  datatype DatabaseError = InvalidID | Unexpected {
    /** Error(): the string the constant was declared with. */
    function Message(): string
    {
      match this
      case InvalidID => "invalid ID"
      case Unexpected => "unexpected error"
    }
  }

  /** Go compares `DatabaseError` values by their string, so the two constructors stand for
      the two constants exactly when their messages differ. */
  lemma MessageIdentifiesError(a: DatabaseError, b: DatabaseError)
    ensures a.Message() == b.Message() <==> a == b
    ensures InvalidID.Message() == "invalid ID" && Unexpected.Message() == "unexpected error"
  {
  }

  /** The driver value behind a non-nil `*DatabaseMemory`; its exported map may itself be nil. */
  datatype DatabaseMemory = DatabaseMemory(data: Option<Store<TemperatureData>>)

  /** Every check of WriteTemperature passes: driver, map and reading present, the id known
      and its list non-nil. */
  predicate Accepts(d: Option<DatabaseMemory>, temp: Option<TemperatureData>)
  {
    && d.Some?
    && d.value.data.Some?
    && temp.Some?
    && temp.value.id in d.value.data.value
    && d.value.data.value[temp.value.id].Some?
  }

  /** WriteTemperature: returns the driver after the call and the error it reports. A nil
      driver, nil map or nil reading is an unexpected error, an unknown id is an invalid ID,
      a nil list is again unexpected; failures change nothing, success appends the reading. */
  function WriteTemperature(d: Option<DatabaseMemory>, temp: Option<TemperatureData>)
    : (r: (Option<DatabaseMemory>, Option<DatabaseError>))
    ensures d.None? || d.value.data.None? || temp.None? ==> r.1 == Some(Unexpected)
    ensures d.Some? && d.value.data.Some? && temp.Some? && temp.value.id !in d.value.data.value ==>
              r.1 == Some(InvalidID)
    ensures d.Some? && d.value.data.Some? && temp.Some? && temp.value.id in d.value.data.value &&
            d.value.data.value[temp.value.id].None? ==>
              r.1 == Some(Unexpected)
    ensures r.1 == Some(InvalidID) ==>
              temp.Some? && d.Some? && d.value.data.Some? && temp.value.id !in d.value.data.value
    ensures r.1.None? <==> Accepts(d, temp)
    ensures r.1.Some? ==> r.0 == d
    ensures r.1.None? ==>
              && r.0.Some? && r.0.value.data.Some?
              && AppendedAt(d.value.data.value, r.0.value.data.value, temp.value.id, temp.value)
  {
    if d.None? || d.value.data.None? || temp.None? then (d, Some(Unexpected))
    else
      var m := d.value.data.value;
      var x := temp.value;
      if x.id !in m then (d, Some(InvalidID))
      else if m[x.id].None? then (d, Some(Unexpected))
      else (Some(DatabaseMemory(Some(m[x.id := Some(m[x.id].value + [x])]))), None)
  }

  /** Every write keeps a working store append-only and never removes its map. */
  lemma WriteTemperatureExtends(d: DatabaseMemory, temp: Option<TemperatureData>)
    requires d.data.Some?
    ensures var r := WriteTemperature(Some(d), temp);
            r.0.Some? && r.0.value.data.Some? && Extends(d.data.value, r.0.value.data.value)
  {
  }

  /** A successful write can be read back as the last entry of its id's history. */
  lemma WrittenReadingIsLast(d: DatabaseMemory, x: TemperatureData)
    requires WriteTemperature(Some(d), Some(x)).1.None?
    ensures var h := WriteTemperature(Some(d), Some(x)).0.value.data.value[x.id];
            h.Some? && |h.value| > 0 && h.value[|h.value| - 1] == x
  {
  }
}
