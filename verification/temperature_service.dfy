/** The validating service of the temperature revision (services/temperature.go). */
module TemperatureService {
  import opened Wrappers
  import opened Models
  import Db = TemperatureDriver

  /** `TemperatureError`, a Go string type of which the service returns only four constants. */
  datatype TemperatureError = NilData | InvalidID | InvalidTemperature | DatabaseDriver {
    /** Error(): the string each constant was declared with. */
    function Message(): string
    {
      match this
      case NilData => "nil temperature data"
      case InvalidID => "invalid ID"
      case InvalidTemperature => "invalid temperature"
      case DatabaseDriver => "database driver error"
    }
  }

  /** Go compares these errors by string, so the four constructors are the four constants
      exactly when their messages are pairwise different. */
  lemma MessageIdentifiesError(a: TemperatureError, b: TemperatureError)
    ensures a.Message() == b.Message() <==> a == b
    ensures NilData.Message() == "nil temperature data" && InvalidID.Message() == "invalid ID"
    ensures InvalidTemperature.Message() == "invalid temperature"
    ensures DatabaseDriver.Message() == "database driver error"
  {
  }

  const MinTemperature: real := -30.0
  const MaxTemperature: real := 50.0

  predicate TemperatureInRange(t: real)
  {
    MinTemperature <= t <= MaxTemperature
  }

  /** The switch on the driver's answer: nil stays nil, the invalid-ID constant becomes the
      service's invalid-ID error, every other error collapses to the driver-error constant. */
  function Reclassify(e: Option<Db.DatabaseError>): (r: Option<TemperatureError>)
    ensures r.None? <==> e.None?
    ensures r == Some(InvalidID) <==> e == Some(Db.InvalidID)
    ensures r.Some? ==> r.value in {InvalidID, DatabaseDriver}
  {
    if e.None? then None
    else if e.value == Db.InvalidID then Some(InvalidID)
    else Some(DatabaseDriver)
  }

  /** TemperatureDatabase.Write over a driver with state `S` and WriteTemperature `driver`:
      a nil reading and an out-of-range temperature are refused without the driver being
      called; otherwise the driver's answer is reclassified and its message dropped. */
  function Write<S>(state: S, temp: Option<TemperatureData>, driver: (S, TemperatureData) -> (S, Option<Db.DatabaseError>))
    : (r: (S, Option<TemperatureError>))
    ensures temp.None? ==> r == (state, Some(NilData))
    ensures temp.Some? && !TemperatureInRange(temp.value.temperature) ==> r == (state, Some(InvalidTemperature))
    ensures temp.Some? && TemperatureInRange(temp.value.temperature) ==>
              r.0 == driver(state, temp.value).0 && r.1 == Reclassify(driver(state, temp.value).1)
    ensures r.1.None? <==>
              temp.Some? && TemperatureInRange(temp.value.temperature) && driver(state, temp.value).1.None?
  {
    if temp.None? then (state, Some(NilData))
    else if temp.value.temperature < -30.0 || temp.value.temperature > 50.0 then (state, Some(InvalidTemperature))
    else
      var (s', e) := driver(state, temp.value);
      (s', Reclassify(e))
  }
}
