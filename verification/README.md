# HTTP ingestion broker: request pipeline model

This Dafny project models the core of an HTTP broker that ingests sensor readings. A
**controller** reads and decodes the request body. It hands the reading to a validating
**service**, which checks the temperature range. The service calls an in-memory storage
**driver**, which appends the reading to the history of its id. Errors travel back up and
are reclassified at each layer, and the controller turns them into an HTTP status and body.

The repository holds this pipeline in two parallel revisions, and both are modelled:

- the *status* revision: `drivers/database/memory.go`, `services/status.go`,
  `controllers/status.go`, with readings `StatusData` (integer temperature, humidity, light);
- the *temperature* revision: `drivers/database.go`, `services/temperature.go`,
  `controllers/temperature.go`, with readings `TemperatureData` (real temperature).

Modules (one file each):

| module | file | models |
|---|---|---|
| `Wrappers` | wrappers.dfy | Go `nil` as `Option.None`; constructor results as `Result` |
| `Models` | models.dfy | `models/status.go`, `models/temperature.go` |
| `Histories` | histories.dfy | the store `map<nat, Option<seq<T>>>`; a `None` slot is a nil list |
| `MemoryDriver` | memory_driver.dfy | `drivers/database/memory.go`, `drivers/database/database.go` |
| `TemperatureDriver` | temperature_driver.dfy | `drivers/database.go` |
| `StatusService` | status_service.dfy | `services/status.go` |
| `TemperatureService` | temperature_service.dfy | `services/temperature.go` |
| `Http` | http.dfy | `http.Error` (message plus `"\n"`) and a plain 200 write |
| `StatusController` | status_controller.dfy | `controllers/status.go` |
| `TemperatureController` | temperature_controller.dfy | `controllers/temperature.go` |
| `Pipeline` | pipeline.dfy | the layers wired together over the in-memory drivers |

Modelling choices:

- Every operation is a pure function. It returns the lower layer's state after the call
  together with the error, so `WriteStatus` returns `(driver after, error)`.
- A Go interface (the service's `Driver`, the controller's `Service`) becomes a function
  parameter over an arbitrary state type `S`. The layer above is then proved for every
  implementation of the layer below whose errors lie in the modelled error vocabulary.
  "The driver is not called" is stated as "the driver state comes back unchanged".
- The body read and the JSON decoding are inputs. `ReadFailed(cause)` means the read
  failed. `Received(None)` means decoding failed, and `Received(Some(x))` means it produced
  `x`. Logging is the message handed to `util.LogError`, as `logged: Option<string>`.
- Go error values are compared with `==`, which checks both dynamic type and string. The
  model keeps that shape: `StatusService.ServiceError` is `InvalidData(msg) |
  DatabaseDriver(msg)`, and the controller matches the whole values `InvalidData("invalid ID")`
  and `InvalidData("invalid status")`.

The source does not compile as shown. These gaps were resolved as follows:

- `controllers/status.go:44` names `services.StatusInvalidData`, which is not declared. It is
  read as `StatusInvalidStatus` (`services/status.go:19`), the range-failure value.
- `controllers/temperature.go:40,42` name `TemperatureInvalidID` and
  `TemperatureInvalidTemperature`. These are read as the declared `TemperatureInvalidIDError`
  and `TemperatureInvalidTemperatureError` (`services/temperature.go:19,21`).
- `DatabaseMemory` (`drivers/database.go`) has no `Exists`, although `drivers/interfaces.go:11`
  requires one. No `Exists` is invented for it, because no modelled code calls one.
- `services/status.go:4,26,38,41` use a `drivers.Database` with a `WriteStatus` method and a
  `drivers.DatabaseInvalidDataError` type. The only `drivers.Database` declared
  (`drivers/interfaces.go:10-13`) has `WriteTemperature` instead. The memory driver and its
  error types live in package `database` (`drivers/database/database.go:10-19`). The model
  treats the status service's driver as that `database.Database`, and its invalid-data type
  as `database.DatabaseInvalidDataError`. Taken literally, these are different Go types.
  The type switch at `services/status.go:41` would then not match the memory driver's
  "invalid ID" error, which would become `StatusDatabaseDriverError("invalid ID")` and a 500.
  The 404 outcomes of `Pipeline.StatusServiceOverMemory` and `Pipeline.HandleStatusOutcomes`
  rest on this identification.
- `controllers/status.go:19` names a `services.Status` interface that `services/interfaces.go`
  does not declare. It is read as an interface with the `Write` method of `StatusDatabase`
  (`services/status.go:30`).

The status service checks only the temperature (`services/status.go:34`). The humidity ≤ 100
and light ≤ 150 thresholds appear only in the controller test's stand-in service
(`controllers/status_test.go:36-38`). They are
stated separately as `StatusService.WithinMockThresholds`, and `Pipeline.StatusScenarios`
shows that the real stack answers 200 to humidity 103 and light 165.

## Model

| member | source | states |
|---|---|---|
| MemoryDriver.NewMemory | drivers/database/memory.go:11-17 | a nil map fails with `InvalidData("nil data")`; any other map, broken slots included, is stored unchanged |
| MemoryDriver.Exists | drivers/database/memory.go:20-27 | true exactly when the id is a key, even when its list is nil; the error is always nil |
| MemoryDriver.NewMemoryExists | drivers/database/memory.go:11-27 | a driver built from any non-nil map succeeds and `Exists` reports exactly that map's keys, broken slots included |
| MemoryDriver.WriteStatus | drivers/database/memory.go:30-48 | checks run in the order nil driver, nil data, unknown id, nil list, each with its own error and message; success exactly when all pass; on success the id's history becomes old plus the reading and every other slot and the key set are unchanged; on failure nothing changes |
| MemoryDriver.ExistsDecidesInvalidID | drivers/database/memory.go:38-41 | a write is refused with `InvalidData("invalid ID")` exactly when `Exists` reports the id unknown |
| MemoryDriver.WriteStatusPreservesExists | drivers/database/memory.go:38-47 | no write changes what `Exists` answers for any id, and every write leaves the store append-only |
| MemoryDriver.WrittenReadingIsLast | drivers/database/memory.go:45-47 | after a successful write, the reading is the last entry of its id's history |
| MemoryDriver.Replay | drivers/database/memory.go:38-47 | any sequence of writes leaves the key set unchanged |
| MemoryDriver.ReplayHistory | drivers/database/memory.go:42-47 | after any sequence of writes, a working slot holds its old history followed by exactly the readings sent for that id, in order; a nil slot stays nil |
| TemperatureDriver.MessageIdentifiesError | drivers/database.go:10-17 | the constants' strings are "invalid ID" and "unexpected error", and they differ, so the two constructors are exactly the two Go values |
| TemperatureDriver.WriteTemperature | drivers/database.go:27-41 | a nil driver, nil map or nil reading gives the unexpected error, not invalid-ID; an unknown id gives invalid-ID; a nil list gives unexpected; success exactly when all checks pass, appending one entry at the end of that id's list with the other ids and the key set unchanged; failures change nothing |
| TemperatureDriver.WriteTemperatureExtends | drivers/database.go:31-40 | every write keeps a working store append-only |
| TemperatureDriver.WrittenReadingIsLast | drivers/database.go:38-40 | after a successful write, the reading is the last entry of its id's history |
| StatusService.Reclassify | services/status.go:38-45 | a nil driver result stays nil; any invalid-data driver error, whatever its message, becomes `StatusInvalidID`; any other error becomes a database-driver error with the identical message |
| StatusService.Write | services/status.go:30-46 | a nil reading gives `InvalidData("nil data")` and an out-of-range temperature gives `StatusInvalidStatus`, both without calling the driver; the bounds -30 and 50 are inclusive; otherwise the driver is called, whatever the humidity or light, and its answer reclassified; success exactly when the temperature is in range and the driver succeeds |
| StatusService.MockThresholdsAreStricter | services/status.go:34-38 | a reading with an in-range temperature that the stand-in's humidity or light thresholds refuse still reaches the driver, and `Write` returns the reclassified driver answer; a reading within the stand-in's thresholds is never refused for range; such readings exist (humidity 103) |
| TemperatureService.MessageIdentifiesError | services/temperature.go:15-24 | the four error strings are exactly "nil temperature data", "invalid ID", "invalid temperature" and "database driver error", and they are pairwise different, so the four constructors are exactly the four Go constants |
| TemperatureService.Reclassify | services/temperature.go:43-50 | nil stays nil; the driver's invalid-ID constant becomes the service's invalid-ID error; every other driver error becomes the driver-error constant, with the original message dropped |
| TemperatureService.Write | services/temperature.go:34-51 | a nil reading gives the nil-data error and an out-of-range temperature the invalid-temperature error, both without calling the driver; otherwise the driver's answer is reclassified; success exactly when the temperature is in range and the driver succeeds |
| StatusController.Respond | controllers/status.go:39-49 | nil gives 200 "OK.\n"; `StatusInvalidID` and only it gives 404 "Invalid ID.\n"; the range failure and only it gives 400 "Invalid data.\n"; every other error gives 500 "Internal server error.\n" and logs that error's message; logging happens exactly on 500 |
| StatusController.Write | controllers/status.go:22-50 | a failed body read gives a logged 500; a decode failure gives 400 "Invalid body.\n" without logging; neither calls the service; otherwise the service is called with the decoded, non-nil reading and its answer mapped by `Respond` |
| StatusController.OneOfFiveAnswers | controllers/status.go:22-50 | every request, whatever the service does, gets exactly one of five (code, body) answers, and is logged exactly when the code is 500 |
| TemperatureController.Respond | controllers/temperature.go:37-47 | nil gives 200 "OK.\n"; the invalid-ID error gives 404 "Invalid ID.\n"; the invalid-temperature error gives 400 "Invalid temperature.\n"; the nil-data and driver errors give 500 "Internal server error.\n", each in both directions |
| TemperatureController.Write | controllers/temperature.go:21-48 | a failed read gives 500 and a decode failure 400 "Invalid body.\n", neither calling the service; otherwise the decoded reading goes to the service and its answer is mapped by `Respond` |
| TemperatureController.OneOfFiveAnswers | controllers/temperature.go:21-48 | every request, whatever the service does, gets exactly one of five (code, body) answers |
| Pipeline.StatusWriteAppends | services/status.go:34-40 | the status service over the memory driver, given an in-range reading whose id holds a non-nil list, returns nil and that history grows by exactly that reading |
| Pipeline.StatusServiceOverMemory | services/status.go:30-46 | over the memory driver, success exactly for an in-range reading the driver accepts; `StatusInvalidID` exactly for an unknown id; a wrapped "nil driver" or "nil list" exactly for those driver states; the store changes only on success |
| Pipeline.HandleStatusOutcomes | controllers/status.go:22-50 | end to end: 200 exactly when decoded, in range and accepted by the driver, and then the history grows by the reading; every other answer leaves the store unchanged; each 400/404 answer holds exactly for its cause; a 500 after decoding comes only from a nil driver or nil list, never from the service's "nil data" |
| Pipeline.TemperatureServiceOverDatabase | services/temperature.go:34-51 | over the memory driver, success exactly for an in-range reading the driver accepts, appending it; invalid-ID exactly for an unknown id; the nil-data error never arises; the store changes only on success |
| Pipeline.HandleTemperatureOutcomes | controllers/temperature.go:21-48 | end to end: 200 exactly when decoded, in range and accepted; every other answer leaves the store unchanged; each 400/404 answer holds exactly for its cause |
| Pipeline.StatusScenarios | controllers/status_test.go:79-123 | the controller test's requests, decoded as Go decodes them (the unknown key "status" ignored, so temperature 0), over a store built by `NewMemory` with ids 1-4 empty and 5 nil, get 200, 400 "Invalid body.", 404, 400 "Invalid data." and a logged 500 "nil list"; humidity 103 and light 165 get 200 |
| Pipeline.TemperatureScenarios | controllers/temperature_test.go:72-106 | the controller test's requests, over a store with ids 1-4 empty and 5 nil, get 200, 400 "Invalid body.", 404, 400 "Invalid temperature." and 500 |

## Left out

- `drivers/database/mysql.go`: SQL connection handling, prepared `REPLACE` statements and local-time timestamp formatting, which need a database and the process's timezone.
- `main.go`: flag parsing, logger configuration, routing and the listener. This is wiring only. main.go wires only the temperature revision (main.go:45-86, route at main.go:111). `Pipeline` wires that revision the same way, and the status revision by analogy.
- `util/controller.go`: looking up the logger in the request context, and its panic on a value of the wrong type. The model records only which message is handed to `LogError`, not whether a logger is present or the method and path fields.
- Body reading (`ioutil.ReadAll`) and JSON decoding are abstract inputs. JSON syntax and the unsigned-integer overflow that rejects `"id":-1` are not modelled. Unknown JSON keys are ignored, as the decoder does, so `{"status":20}` decodes with temperature 0.
- `float64` temperatures are `real`. IEEE rounding is not modelled, and JSON input cannot produce NaN or infinities.
- Concurrency: the Go map is unsynchronised, and the model is sequential.
- A nil Go interface value (a service without a driver, a controller without a service) would panic. It is not modelled: the lower layer is a total function. A nil `*Memory` or `*DatabaseMemory` inside the interface is modelled.
- `Exists` on a nil `*Memory` panics in Go, so `MemoryDriver.Exists` takes a `Memory`.
- The memory driver stores the reading's pointer, not a copy. Nothing mutates a reading after the write, so readings are stored as values.
- `DatabaseMemory.Exists`, `NewDatabaseMemory` and a temperature-revision `DatabaseInvalidDataError` are named by `drivers/interfaces.go` or `drivers/database_internal_test.go` but not defined in `drivers/database.go`, so they are not modelled.
- Slice and map aliasing is not modelled. `NewMemory` keeps the caller's map by reference, and `DatabaseMemory.Data` is exported. Each history is a Go slice that `append` (`drivers/database/memory.go:45`, `drivers/database.go:38`) may grow inside a backing array shared with another slice. If two slots share spare capacity, for example both built from one `make([]*StatusData, 0, 1)`, a write to one id overwrites the other id's entry. The frame clauses of `MemoryDriver.WriteStatus` and `TemperatureDriver.WriteTemperature` ("every other slot unchanged"), and `MemoryDriver.ReplayHistory`, therefore hold only when no two histories share a backing array and nobody else mutates the map. Every store built in the repository uses capacity-0 literals, so none of them shares one.
- Errors outside the modelled vocabulary at the service boundary are not modelled. A Go `services.Temperature` may return any `error`, for example `TemperatureError("x")`, which `controllers/temperature.go:44-46` sends to 500. The controller's service parameter can return only the four declared constants, and likewise the status controller's only `InvalidData`/`DatabaseDriver` values.
- Driver errors of other Go types are not modelled. Only the declared kinds are: `InvalidData`/`Unexpected` with any message, and `DatabaseInvalidIDError`/`DatabaseUnexpectedError`. Any other error value takes the same default branch of the service switch as `Unexpected`.
- StatusService.Write: "the driver is not called" is stated as "the driver's state is returned unchanged", since a pure function cannot observe a call that did not happen.
- TemperatureService.Write: "the driver is not called" is stated the same way.
- `Error()` on every error type just returns its string. It is the `msg` field, or `Message()` where the type is an enumeration, and has no contract of its own.
