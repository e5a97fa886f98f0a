/** The HTTP controller of the temperature revision (controllers/temperature.go). */
module TemperatureController {
  import opened Wrappers
  import opened Models
  import opened Http
  import Svc = TemperatureService

  /** Reading the body failed, or it was read and decoding gave a reading (`Some`) or failed. */
  datatype Request = ReadFailed | Received(decoded: Option<TemperatureData>)

  /** The switch on the service's error. The controller names `TemperatureInvalidID` and
      `TemperatureInvalidTemperature`, which the service declares with an `Error` suffix;
      they are read as those two constants. It logs nothing. */
  function Respond(err: Option<Svc.TemperatureError>): (r: Response)
    ensures err.None? <==> r == Response(200, "OK.\n")
    ensures err == Some(Svc.InvalidID) <==> r == Response(404, "Invalid ID.\n")
    ensures err == Some(Svc.InvalidTemperature) <==> r == Response(400, "Invalid temperature.\n")
    ensures err == Some(Svc.NilData) || err == Some(Svc.DatabaseDriver) <==>
              r == Response(500, "Internal server error.\n")
  {
    match err
    case None => Written("OK.\n")
    case Some(InvalidID) => Error("Invalid ID.", StatusNotFound)
    case Some(InvalidTemperature) => Error("Invalid temperature.", StatusBadRequest)
    case Some(_) => Error("Internal server error.", StatusInternalServerError)
  }

  /** Temperature.Write over a service with state `S` and Write `service`: an unreadable body
      is a 500 and an undecodable one a 400, neither calling the service; otherwise the
      decoded reading goes to the service and its answer becomes the response. */
  function Write<S>(state: S, req: Request, service: (S, TemperatureData) -> (S, Option<Svc.TemperatureError>))
    : (r: (S, Response))
    ensures req.ReadFailed? ==> r == (state, Response(500, "Internal server error.\n"))
    ensures req.Received? && req.decoded.None? ==> r == (state, Response(400, "Invalid body.\n"))
    ensures req.Received? && req.decoded.Some? ==>
              r.0 == service(state, req.decoded.value).0 && r.1 == Respond(service(state, req.decoded.value).1)
  {
    match req
    case ReadFailed =>
      assert "Internal server error." + "\n" == "Internal server error.\n";
      (state, Error("Internal server error.", StatusInternalServerError))
    case Received(None) =>
      assert "Invalid body." + "\n" == "Invalid body.\n";
      (state, Error("Invalid body.", StatusBadRequest))
    case Received(Some(x)) =>
      var (s', e) := service(state, x);
      (s', Respond(e))
  }

  /** Every request gets one of five answers, each body a line ending in a newline. */
  lemma OneOfFiveAnswers<S>(state: S, req: Request, service: (S, TemperatureData) -> (S, Option<Svc.TemperatureError>))
    ensures Write(state, req, service).1 in {
              Response(200, "OK.\n"),
              Response(400, "Invalid body.\n"),
              Response(400, "Invalid temperature.\n"),
              Response(404, "Invalid ID.\n"),
              Response(500, "Internal server error.\n")}
  {
  }
}
