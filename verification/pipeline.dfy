/** The three layers wired together: controller, then service, then in-memory driver.
    main.go wires only the temperature revision this way (main.go:63-83); the status revision
    is wired the same way by analogy. */
module Pipeline {
  import opened Wrappers
  import opened Models
  import opened Histories
  import opened Http
  import Mem = MemoryDriver
  import SS = StatusService
  import SC = StatusController
  import TD = TemperatureDriver
  import TS = TemperatureService
  import TC = TemperatureController

  /** The status service's call into the memory driver; the service only calls it with a
      reading. */
  function MemoryWrite(d: Option<Mem.Memory>, x: StatusData): (Option<Mem.Memory>, Option<Mem.DriverError>)
  {
    Mem.WriteStatus(d, Some(x))
  }

  /** The controller's call into the status service; the controller only passes a reading. */
  function StatusServiceWrite(d: Option<Mem.Memory>, x: StatusData): (Option<Mem.Memory>, Option<SS.ServiceError>)
  {
    SS.Write(d, Some(x), MemoryWrite)
  }

  /** One status request handled end to end over the memory driver `d`. */
  function HandleStatus(d: Option<Mem.Memory>, req: SC.Request): (Option<Mem.Memory>, SC.Reply)
  {
    SC.Write(d, req, StatusServiceWrite)
  }

  function DatabaseWrite(d: Option<TD.DatabaseMemory>, x: TemperatureData): (Option<TD.DatabaseMemory>, Option<TD.DatabaseError>)
  {
    TD.WriteTemperature(d, Some(x))
  }

  function TemperatureServiceWrite(d: Option<TD.DatabaseMemory>, x: TemperatureData)
    : (Option<TD.DatabaseMemory>, Option<TS.TemperatureError>)
  {
    TS.Write(d, Some(x), DatabaseWrite)
  }

  /** One temperature request handled end to end over the driver `d`. */
  function HandleTemperature(d: Option<TD.DatabaseMemory>, req: TC.Request): (Option<TD.DatabaseMemory>, Response)
  {
    TC.Write(d, req, TemperatureServiceWrite)
  }

  /** The status service over the memory driver, given an in-range reading whose id holds a
      working history, succeeds, and that history grows by exactly that reading. */
  lemma StatusWriteAppends(m: Mem.Memory, x: StatusData)
    requires SS.TemperatureInRange(x.temperature)
    requires x.id in m.data && m.data[x.id].Some?
    ensures var r := StatusServiceWrite(Some(m), x);
            && r.1.None?
            && r.0.Some?
            && AppendedAt(m.data, r.0.value.data, x.id, x)
            && r.0.value.data[x.id] == Some(m.data[x.id].value + [x])
  {
  }

  /** Every answer of the status service over the memory driver, for every driver and reading:
      success exactly when the temperature is in range and the driver accepts the reading;
      `StatusInvalidID` exactly for an unknown id; a wrapped driver error exactly for a nil
      driver or a nil list; and nothing changes unless the write succeeds. */
  lemma StatusServiceOverMemory(d: Option<Mem.Memory>, x: StatusData)
    ensures var r := StatusServiceWrite(d, x);
            && (r.1.None? <==> SS.TemperatureInRange(x.temperature) && Mem.Accepts(d, Some(x)))
            && (r.1.Some? ==> r.0 == d)
            && (r.1 == Some(SS.InvalidStatus) <==> !SS.TemperatureInRange(x.temperature))
            && (r.1 == Some(SS.InvalidID) <==>
                  SS.TemperatureInRange(x.temperature) && d.Some? && x.id !in d.value.data)
            && (r.1 == Some(SS.DatabaseDriver("nil driver")) <==> SS.TemperatureInRange(x.temperature) && d.None?)
            && (r.1 == Some(SS.DatabaseDriver("nil list")) <==>
                  SS.TemperatureInRange(x.temperature) && d.Some? &&
                  x.id in d.value.data && d.value.data[x.id].None?)
  {
  }

  /** Every status request handled end to end: the response says which check failed, only a
      200 changes the store, and the 500s are a failed body read or a broken driver, never the
      service's own "nil data" refusal, since the controller always hands it a reading. */
  lemma HandleStatusOutcomes(d: Option<Mem.Memory>, req: SC.Request)
    ensures var (d', reply) := HandleStatus(d, req);
            && (reply.response.code == 200 <==>
                  req.Received? && req.decoded.Some? &&
                  SS.TemperatureInRange(req.decoded.value.temperature) && Mem.Accepts(d, req.decoded))
            && (reply.response.code == 200 ==>
                  d'.Some? && AppendedAt(d.value.data, d'.value.data, req.decoded.value.id, req.decoded.value))
            && (reply.response.code != 200 ==> d' == d)
            && (reply.response == Response(400, "Invalid body.\n") <==> req.Received? && req.decoded.None?)
            && (reply.response == Response(400, "Invalid data.\n") <==>
                  req.Received? && req.decoded.Some? && !SS.TemperatureInRange(req.decoded.value.temperature))
            && (reply.response == Response(404, "Invalid ID.\n") <==>
                  req.Received? && req.decoded.Some? && SS.TemperatureInRange(req.decoded.value.temperature) &&
                  d.Some? && req.decoded.value.id !in d.value.data)
            && (reply.logged.Some? <==> reply.response.code == 500)
            && (reply.logged.Some? && req.Received? ==> reply.logged.value in {"nil driver", "nil list"})
  {
  }

  /** The temperature service over its driver, for every driver and reading: success exactly
      when the temperature is in range and the driver accepts; the invalid-ID error exactly for
      an unknown id in a working map; nothing changes unless the write succeeds. */
  lemma TemperatureServiceOverDatabase(d: Option<TD.DatabaseMemory>, x: TemperatureData)
    ensures var r := TemperatureServiceWrite(d, x);
            && (r.1.None? <==> TS.TemperatureInRange(x.temperature) && TD.Accepts(d, Some(x)))
            && (r.1.None? ==>
                  r.0.Some? && r.0.value.data.Some? &&
                  AppendedAt(d.value.data.value, r.0.value.data.value, x.id, x))
            && (r.1.Some? ==> r.0 == d)
            && (r.1 == Some(TS.InvalidTemperature) <==> !TS.TemperatureInRange(x.temperature))
            && (r.1 == Some(TS.InvalidID) <==>
                  TS.TemperatureInRange(x.temperature) && d.Some? && d.value.data.Some? &&
                  x.id !in d.value.data.value)
            && r.1 != Some(TS.NilData)
  {
  }

  /** Every temperature request handled end to end. */
  lemma HandleTemperatureOutcomes(d: Option<TD.DatabaseMemory>, req: TC.Request)
    ensures var (d', resp) := HandleTemperature(d, req);
            && (resp.code == 200 <==>
                  req.Received? && req.decoded.Some? &&
                  TS.TemperatureInRange(req.decoded.value.temperature) && TD.Accepts(d, req.decoded))
            && (resp.code != 200 ==> d' == d)
            && (resp == Response(400, "Invalid body.\n") <==> req.Received? && req.decoded.None?)
            && (resp == Response(400, "Invalid temperature.\n") <==>
                  req.Received? && req.decoded.Some? && !TS.TemperatureInRange(req.decoded.value.temperature))
            && (resp == Response(404, "Invalid ID.\n") <==>
                  req.Received? && req.decoded.Some? && TS.TemperatureInRange(req.decoded.value.temperature) &&
                  d.Some? && d.value.data.Some? && req.decoded.value.id !in d.value.data.value)
  {
  }

  /** The store the driver tests start from: ids 1 to 4 with empty histories, id 5 broken. */
  function StatusFixture(): Mem.Memory
  {
    Mem.NewMemory(Some(map[1 := Some([]), 2 := Some([]), 3 := Some([]), 4 := Some([]), 5 := None])).value
  }

  function TemperatureFixture(): TD.DatabaseMemory
  {
    TD.DatabaseMemory(Some(map[1 := Some([]), 2 := Some([]), 3 := Some([]), 4 := Some([]), 5 := None]))
  }

  /** The controller test's requests, decoded as Go decodes them, sent through the real stack
      over the fixture. The unknown key "status" is ignored, so those bodies carry temperature 0.
      Humidity 103 and light 165 are accepted: the real service checks temperature only. */
  lemma StatusScenarios()
    ensures var x := StatusData(1, 1516472722, 0, 0, 0);
            var (d', reply) := HandleStatus(Some(StatusFixture()), SC.Received(Some(x)));
            reply == SC.Reply(Response(200, "OK.\n"), None) && d'.value.data[1] == Some([x])
    ensures HandleStatus(Some(StatusFixture()), SC.Received(None)).1.response == Response(400, "Invalid body.\n")
    ensures HandleStatus(Some(StatusFixture()), SC.Received(Some(StatusData(7, 1516472722, 0, 0, 0)))).1.response
              == Response(404, "Invalid ID.\n")
    ensures HandleStatus(Some(StatusFixture()), SC.Received(Some(StatusData(1, 1516472722, 163, 0, 0)))).1.response
              == Response(400, "Invalid data.\n")
    ensures HandleStatus(Some(StatusFixture()), SC.Received(Some(StatusData(1, 1516472722, -80, 0, 0)))).1.response
              == Response(400, "Invalid data.\n")
    ensures HandleStatus(Some(StatusFixture()), SC.Received(Some(StatusData(1, 1516472722, 0, 103, 0)))).1.response
              == Response(200, "OK.\n")
    ensures HandleStatus(Some(StatusFixture()), SC.Received(Some(StatusData(1, 1516472722, 0, 0, 165)))).1.response
              == Response(200, "OK.\n")
    ensures HandleStatus(Some(StatusFixture()), SC.Received(Some(StatusData(5, 1516472722, 0, 0, 0)))).1
              == SC.Reply(Response(500, "Internal server error.\n"), Some("nil list"))
  {
    var x := StatusData(1, 1516472722, 0, 0, 0);
    StatusWriteAppends(StatusFixture(), x);
    assert [] + [x] == [x];
  }

  /** The temperature controller test's requests, decoded, through the real stack. */
  lemma TemperatureScenarios()
    ensures var x := TemperatureData(1, 1516472722, 20.0);
            var (d', resp) := HandleTemperature(Some(TemperatureFixture()), TC.Received(Some(x)));
            resp == Response(200, "OK.\n") && d'.value.data.value[1] == Some([x])
    ensures HandleTemperature(Some(TemperatureFixture()), TC.Received(None)).1 == Response(400, "Invalid body.\n")
    ensures HandleTemperature(Some(TemperatureFixture()), TC.Received(Some(TemperatureData(7, 1516472722, 20.0)))).1
              == Response(404, "Invalid ID.\n")
    ensures HandleTemperature(Some(TemperatureFixture()), TC.Received(Some(TemperatureData(1, 0, 163.4)))).1
              == Response(400, "Invalid temperature.\n")
    ensures HandleTemperature(Some(TemperatureFixture()), TC.Received(Some(TemperatureData(1, 0, -80.4)))).1
              == Response(400, "Invalid temperature.\n")
    ensures HandleTemperature(Some(TemperatureFixture()), TC.Received(Some(TemperatureData(5, 1516472722, 20.0)))).1
              == Response(500, "Internal server error.\n")
  {
    var x := TemperatureData(1, 1516472722, 20.0);
    TemperatureServiceOverDatabase(Some(TemperatureFixture()), x);
    assert [] + [x] == [x];
  }
}
