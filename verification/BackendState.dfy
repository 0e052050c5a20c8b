/** The routable view of one engine process, shared by the health check and the
    request handlers. */
module BackendStates {
  import L = Latency
  import S = Supervision

  class BackendState {
    var status: S.Status
    var hardFailure: bool
    var inFlight: int
    var maxModelLen: int
    const latency: L.LatencyWindow

    constructor (window: int)
      ensures status == S.Starting && !hardFailure && inFlight == 0 && maxModelLen == 0
      ensures fresh(latency) && latency.window == window && latency.samples == []
    {
      latency := new L.LatencyWindow(window);
      status, hardFailure, inFlight, maxModelLen := S.Starting, false, 0, 0;
    }

    method IncrInFlight()
      modifies this`inFlight
      ensures inFlight == old(inFlight) + 1
    {
      inFlight := inFlight + 1;
    }

    method DecrInFlight()
      modifies this`inFlight
      ensures inFlight == old(inFlight) - 1
    {
      inFlight := inFlight - 1;
    }

    /** A request saw the process gone: the two stores of a report. */
    method NoteHardFailure()
      modifies this`hardFailure, this`status
      ensures hardFailure && status == S.Unhealthy
    {
      hardFailure := true;
      status := S.Unhealthy;
    }

    method TakeHardFailure() returns (was: bool)
      modifies this`hardFailure
      ensures was == old(hardFailure) && !hardFailure
    {
      was := hardFailure;
      hardFailure := false;
    }
  }
}
