/** The readings the broker ingests (models/status.go and models/temperature.go). */
module Models {

  /** One environmental measurement of the status revision. Go's `uint` fields are `nat`;
      the JSON decoder rejects values that do not fit, so no wrap-around is modelled. */
  datatype StatusData = StatusData(
    id: nat,
    timestamp: int,
    temperature: int,
    humidity: nat,
    light: nat)

  /** One temperature measurement of the temperature revision; `float64` becomes `real`. */
  datatype TemperatureData = TemperatureData(
    id: nat,
    timestamp: int,
    temperature: real)
}
