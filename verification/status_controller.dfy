/** The HTTP controller of the status revision (controllers/status.go). */
module StatusController {
  import opened Wrappers
  import opened Models
  import opened Http
  import Svc = StatusService

  /** What the controller learns from the request before calling the service: either reading
      the body failed (with the error's message), or it was read and JSON decoding produced a
      reading (`Some`) or failed (`None`). */
  datatype Request = ReadFailed(cause: string) | Received(decoded: Option<StatusData>)

  /** One request's effect: the response written, and the message handed to `util.LogError`
      if it was called. */
  datatype Reply = Reply(response: Response, logged: Option<string>)

  /** The switch on the service's error. Go compares the error value with `==`, so only the
      exact values `StatusInvalidID` and `StatusInvalidStatus` are singled out; every other
      error, including a driver error and the service's own "nil data", is a logged 500. */
  function Respond(err: Option<Svc.ServiceError>): (r: Reply)
    ensures err.None? <==> r.response == Response(200, "OK.\n")
    ensures err == Some(Svc.InvalidID) <==> r.response == Response(404, "Invalid ID.\n")
    ensures err == Some(Svc.InvalidStatus) <==> r.response == Response(400, "Invalid data.\n")
    ensures r.response.code == 500 <==> err.Some? && err.value != Svc.InvalidID && err.value != Svc.InvalidStatus
    ensures r.response.code == 500 ==> r.response.body == "Internal server error.\n"
    ensures r.logged.Some? <==> r.response.code == 500
    ensures r.logged.Some? ==> err.Some? && r.logged.value == err.value.Message()
  {
    match err
    case None => Reply(Written("OK.\n"), None)
    case Some(e) =>
      if e == Svc.InvalidID then Reply(Error("Invalid ID.", StatusNotFound), None)
      else if e == Svc.InvalidStatus then Reply(Error("Invalid data.", StatusBadRequest), None)
      else Reply(Error("Internal server error.", StatusInternalServerError), Some(e.Message()))
  }

  /** Status.Write over a service whose state is `S` and whose Write is `service`. A body that
      cannot be read is a logged 500, one that does not decode a 400 without logging, and in
      both cases the service is not called; otherwise the service gets the decoded reading,
      never nil, and its answer is turned into the response. */
  function Write<S>(state: S, req: Request, service: (S, StatusData) -> (S, Option<Svc.ServiceError>))
    : (r: (S, Reply))
    ensures req.ReadFailed? ==>
              r == (state, Reply(Response(500, "Internal server error.\n"), Some(req.cause)))
    ensures req.Received? && req.decoded.None? ==>
              r == (state, Reply(Response(400, "Invalid body.\n"), None))
    ensures req.Received? && req.decoded.Some? ==>
              r.0 == service(state, req.decoded.value).0 && r.1 == Respond(service(state, req.decoded.value).1)
  {
    match req
    case ReadFailed(cause) =>
      assert "Internal server error." + "\n" == "Internal server error.\n";
      (state, Reply(Error("Internal server error.", StatusInternalServerError), Some(cause)))
    case Received(None) =>
      assert "Invalid body." + "\n" == "Invalid body.\n";
      (state, Reply(Error("Invalid body.", StatusBadRequest), None))
    case Received(Some(x)) =>
      var (s', e) := service(state, x);
      (s', Respond(e))
  }

  /** Every request gets one of five answers, each body a plain line ending in a newline, and
      the controller logs exactly when it answers 500. */
  lemma OneOfFiveAnswers<S>(state: S, req: Request, service: (S, StatusData) -> (S, Option<Svc.ServiceError>))
    ensures Write(state, req, service).1.response in {
              Response(200, "OK.\n"),
              Response(400, "Invalid body.\n"),
              Response(400, "Invalid data.\n"),
              Response(404, "Invalid ID.\n"),
              Response(500, "Internal server error.\n")}
    ensures Write(state, req, service).1.logged.Some? <==> Write(state, req, service).1.response.code == 500
  {
  }
}
