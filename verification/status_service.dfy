/** The validating service of the status revision (services/status.go). */
module StatusService {
  import opened Wrappers
  import opened Models
  import Db = MemoryDriver

  /** `StatusInvalidDataError` and `StatusDatabaseDriverError`: two Go string types, each
      wrapping its message. Go's `==` on errors compares type and string, as `==` does here. */
  datatype ServiceError = InvalidData(msg: string) | DatabaseDriver(msg: string) {
    /** Error(): the wrapped string. */
    function Message(): string { msg }
  }

  /** `StatusInvalidStatus`: the reading is outside the accepted range. The status controller
      refers to it as `StatusInvalidData`, a name the service never declares. */
  const InvalidStatus: ServiceError := InvalidData("invalid status")

  /** `StatusInvalidID`: the driver does not know the reading's id. */
  const InvalidID: ServiceError := InvalidData("invalid ID")

  /** The only range the service enforces, both ends included. */
  const MinTemperature: int := -30
  const MaxTemperature: int := 50

  predicate TemperatureInRange(t: int)
  {
    MinTemperature <= t <= MaxTemperature
  }

  /** The richer thresholds a controller test's service stand-in applies (temperature, plus
      humidity at most 100 and light at most 150). The service itself does NOT apply them;
      they are here only to state how the two rules relate. */
  predicate WithinMockThresholds(x: StatusData)
  {
    TemperatureInRange(x.temperature) && x.humidity <= 100 && x.light <= 150
  }

  /** The type switch on the driver's answer: nil stays nil, any invalid-data error becomes
      `StatusInvalidID` whatever its message, any other error is wrapped with its message. */
  function Reclassify(e: Option<Db.DriverError>): (r: Option<ServiceError>)
    ensures r.None? <==> e.None?
    ensures r == Some(InvalidID) <==> e.Some? && e.value.InvalidData?
    ensures r.Some? && r.value.DatabaseDriver? <==> e.Some? && e.value.Unexpected?
    ensures r.Some? && r.value.DatabaseDriver? ==> r.value.Message() == e.value.msg
  {
    if e.None? then None
    else if e.value.InvalidData? then Some(InvalidID)
    else Some(DatabaseDriver(e.value.msg))
  }

  /** StatusDatabase.Write over a driver whose state is `S` and whose WriteStatus is `driver`.
      A nil reading and an out-of-range temperature are refused without the driver being
      called, so its state comes back untouched; otherwise the driver is called with the
      reading, whatever its humidity and light, and its answer reclassified. */
  function Write<S>(state: S, temp: Option<StatusData>, driver: (S, StatusData) -> (S, Option<Db.DriverError>))
    : (r: (S, Option<ServiceError>))
    ensures temp.None? ==> r == (state, Some(InvalidData("nil data")))
    ensures temp.Some? && !TemperatureInRange(temp.value.temperature) ==> r == (state, Some(InvalidStatus))
    ensures temp.Some? && TemperatureInRange(temp.value.temperature) ==>
              r.0 == driver(state, temp.value).0 && r.1 == Reclassify(driver(state, temp.value).1)
    ensures r.1.None? <==>
              temp.Some? && TemperatureInRange(temp.value.temperature) && driver(state, temp.value).1.None?
  {
    if temp.None? then (state, Some(InvalidData("nil data")))
    else if temp.value.temperature < -30 || temp.value.temperature > 50 then (state, Some(InvalidStatus))
    else
      var (s', e) := driver(state, temp.value);
      (s', Reclassify(e))
  }

  /** The service does not apply the test stand-in's humidity and light thresholds: a reading
      with an in-range temperature that the stand-in refuses still goes to the driver, and the
      service answers whatever the reclassified driver answer is. Such readings exist. */
  lemma MockThresholdsAreStricter<S>(state: S, x: StatusData, driver: (S, StatusData) -> (S, Option<Db.DriverError>))
    ensures TemperatureInRange(x.temperature) && !WithinMockThresholds(x) ==>
              Write(state, Some(x), driver) == (driver(state, x).0, Reclassify(driver(state, x).1))
    ensures WithinMockThresholds(x) ==> Write(state, Some(x), driver).1 != Some(InvalidStatus)
    ensures var y := x.(temperature := 20, humidity := 103);
            TemperatureInRange(y.temperature) && !WithinMockThresholds(y)
  {
  }
}
