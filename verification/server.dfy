/** The FastAPI application of `main.py`: the process-wide engine slot, the
    initialisation error, the global request counter with its hard stop, and
    the `/health` and `/analyze` handlers. The sleeps are recorded as the
    number of seconds waited. */
module Server {
  import opened Wrappers
  import opened KnowledgeBase
  import opened ResponseParser
  import opened RagEngine

  const MaxRequests: nat := 300
  const BatchSize: nat := 3
  const BatchPause: nat := 60
  const SafetyPause: nat := 1

  const NotInitialized := "Engine not yet initialized"

  /** The module globals `engine`, `init_error` and `request_count`. */
  datatype State = State(engine: Option<Engine>, initError: Option<string>, requestCount: nat)

  /** The globals at import time. */
  const Initial := State(None, Some(NotInitialized), 0)

  /** The states the handlers can reach: without an engine there is always an
      error to report, and the counter never passes the hard stop. */
  predicate Consistent(s: State) {
    && (s.engine.None? ==> s.initError.Some?)
    && (s.engine.Some? ==> s.initError.None?)
    && s.requestCount <= MaxRequests
  }

  /** `startup_event`: a constructed engine clears the error; a failure
      records its text and leaves the engine slot as it was. */
  function Startup(s: State, init: Result<Engine, string>): (s': State)
    ensures s'.requestCount == s.requestCount
    ensures init.Success? ==> s'.engine == Some(init.value) && s'.initError.None?
    ensures init.Failure? ==> s'.engine == s.engine && s'.initError == Some(init.error)
  {
    match init
    case Success(e) => State(Some(e), None, s.requestCount)
    case Failure(err) => State(s.engine, Some(err), s.requestCount)
  }

  /** Starting up from a state without an engine (the import-time globals are one) yields a consistent state. */
  lemma StartupConsistent(s: State, init: Result<Engine, string>)
    requires Consistent(s) && s.engine.None?
    ensures Consistent(Startup(s, init))
    ensures Startup(s, init).engine.Some? <==> init.Success?
  {
  }

  /** Without an API key the server comes up without an engine and reports
      why, whatever the model client and the collection would have done. */
  lemma StartupWithoutKey(key: Option<string>, configured: Result<Model, string>,
                          persisted: Result<Collection, string>, add: StoreAdd,
                          search: Collection -> StoreQuery)
    requires key.None? || key == Some("")
    ensures var s := Startup(Initial, NewEngine(key, configured, persisted, add, search));
      s.engine.None? && s.initError == Some(MissingKeyError) && Consistent(s)
  {
  }

  /** With a key present, a failure of the model client or of opening the
      collection leaves the server without an engine, reporting that failure's
      text. */
  lemma StartupRecordsCollaboratorError(key: string, configured: Result<Model, string>,
                                        persisted: Result<Collection, string>, add: StoreAdd,
                                        search: Collection -> StoreQuery)
    requires key != ""
    requires configured.Failure? || persisted.Failure?
    ensures var s := Startup(Initial, NewEngine(Some(key), configured, persisted, add, search));
      && s.engine.None? && Consistent(s)
      && s.initError == Some(if configured.Failure? then configured.error else persisted.error)
  {
  }

  /** The `/health` response body. */
  datatype Health = Health(status: string, service: string, modelLoaded: bool, error: Option<string>)

  function HealthOf(s: State): (h: Health)
    ensures h.service == "ScamSense Backend"
    ensures h.modelLoaded <==> s.engine.Some?
    ensures h.status == "healthy" <==> h.modelLoaded
    ensures h.status == "healthy" || h.status == "error"
    ensures h.error == s.initError
  {
    var loaded := s.engine.Some?;
    Health(if loaded then "healthy" else "error", "ScamSense Backend", loaded, s.initError)
  }

  /** On a consistent state the health report never says healthy while carrying an error. */
  lemma HealthyHasNoError(s: State)
    requires Consistent(s)
    ensures HealthOf(s).modelLoaded <==> HealthOf(s).error.None?
  {
  }

  /** Python's `str()` of an optional string inside an f-string. */
  function Show(o: Option<string>): string {
    match o
    case None => "None"
    case Some(t) => t
  }

  const EngineErrorLead := "AI Engine Error: "
  const EngineErrorTail := ". Please ensure GEMINI_API_KEY is set in backend/.env"
  const RateLimitDetail := "Rate limit exceeded: Hard stop at 300 requests reached."
  const AnalysisFailedLead := "Analysis failed: "

  /** What `/analyze` answers: an `HTTPException`, or the engine's dictionary. */
  datatype Reply<V> = HttpError(status: nat, detail: string) | Ok(answer: Answer<V>)

  /** One `/analyze` call: the globals afterwards, the seconds slept and the reply. */
  datatype Step<V> = Step(state: State, slept: nat, reply: Reply<V>)

  /** The pause of the request that brought the counter to `count`: every
      third request waits a minute, the others one second. */
  function Pause(count: nat): (seconds: nat)
    ensures seconds == BatchPause <==> count % BatchSize == 0
    ensures seconds == SafetyPause <==> count % BatchSize != 0
  {
    if count % BatchSize == 0 then BatchPause else SafetyPause
  }

  /** The two gates of `analyze`, passed before the engine is consulted: a
      refusal with its status and detail, or admission with the engine, the
      globals afterwards and the seconds slept. */
  datatype Admission = Refused(status: nat, detail: string) | Admitted(engine: Engine, next: State, pause: nat)

  /** Without an engine the request is refused with 503 and the initialisation
      error; at or past the hard stop with 429; otherwise the counter is
      incremented before anything else and the request sleeps. */
  function Admit(s: State): (a: Admission)
    ensures a.Admitted? <==> s.engine.Some? && s.requestCount < MaxRequests
    ensures s.engine.None? ==> a == Refused(503, EngineErrorLead + Show(s.initError) + EngineErrorTail)
    ensures s.engine.Some? && s.requestCount >= MaxRequests ==> a == Refused(429, RateLimitDetail)
    ensures a.Admitted? ==>
      && Some(a.engine) == s.engine
      && a.next == s.(requestCount := s.requestCount + 1)
      && a.pause == Pause(s.requestCount + 1)
  {
    match s.engine
    case None => Refused(503, EngineErrorLead + Show(s.initError) + EngineErrorTail)
    case Some(engine) =>
      if s.requestCount >= MaxRequests then Refused(429, RateLimitDetail)
      else
        var count := s.requestCount + 1;
        Admitted(engine, s.(requestCount := count), Pause(count))
  }

  /** `analyze`: a refused request changes nothing and sleeps not at all; an
      admitted one is answered by the engine, its exceptions becoming 500
      errors. */
  function Analyze<V>(s: State, sender: string, content: string, decode: string -> Result<V, string>): (t: Step<V>)
    ensures s.engine.None? ==>
      t.state == s && t.slept == 0 &&
      t.reply == HttpError(503, EngineErrorLead + Show(s.initError) + EngineErrorTail)
    ensures s.engine.Some? && s.requestCount >= MaxRequests ==>
      t.state == s && t.slept == 0 && t.reply == HttpError(429, RateLimitDetail)
    ensures s.engine.Some? && s.requestCount < MaxRequests ==>
      && t.state == s.(requestCount := s.requestCount + 1)
      && t.slept == Pause(s.requestCount + 1)
      && t.reply.Ok? == AnalyzeMessage(s.engine.value, sender, content, decode).Success?
  {
    match Admit(s)
    case Refused(status, detail) => Step(s, 0, HttpError(status, detail))
    case Admitted(engine, next, pause) =>
      match AnalyzeMessage(engine, sender, content, decode)
      case Success(answer) => Step(next, pause, Ok(answer))
      case Failure(e) => Step(next, pause, HttpError(500, AnalysisFailedLead + e))
  }

  /** Every request handled keeps the globals consistent. */
  lemma AnalyzeConsistent<V>(s: State, sender: string, content: string, decode: string -> Result<V, string>)
    requires Consistent(s)
    ensures Consistent(Analyze(s, sender, content, decode).state)
    ensures Analyze(s, sender, content, decode).state.engine == s.engine
  {
  }

  /** The engine is consulted only for requests that pass both gates, and an
      exception from it becomes a 500 carrying its text. */
  lemma AnalyzeReplies<V>(s: State, sender: string, content: string, decode: string -> Result<V, string>)
    requires s.engine.Some? && s.requestCount < MaxRequests
    ensures var r := AnalyzeMessage(s.engine.value, sender, content, decode);
      var reply := Analyze(s, sender, content, decode).reply;
      && (r.Success? ==> reply == Ok(r.value))
      && (r.Failure? ==> reply == HttpError(500, AnalysisFailedLead + r.error))
  {
  }

  /** The globals after `n` further requests, with the total sleep. Only the
      gates decide these, never the requests' contents or the engine's replies
      (`RunStep`). */
  function Run(s: State, n: nat): (State, nat)
    decreases n
  {
    if n == 0 then (s, 0)
    else
      match Admit(s)
      case Refused(_, _) => Run(s, n - 1)
      case Admitted(_, next, pause) =>
        var (s', total) := Run(next, n - 1);
        (s', pause + total)
  }

  /** A run is the handling of its first request followed by the run of the
      rest, whatever the request says and whatever the engine answers. */
  lemma RunStep<V>(s: State, sender: string, content: string, decode: string -> Result<V, string>, n: nat)
    ensures var t := Analyze(s, sender, content, decode);
      Run(s, n + 1) == (Run(t.state, n).0, t.slept + Run(t.state, n).1)
  {
    var t := Analyze(s, sender, content, decode);
    match Admit(s)
    case Refused(_, _) =>
      assert t.state == s && t.slept == 0;
    case Admitted(_, next, pause) =>
      assert t.state == next && t.slept == pause;
  }

  /** The counter after a run is the count before plus the requests, capped at
      the hard stop; the engine slot and the error are never touched. */
  lemma {:induction false} RunCounts(s: State, n: nat)
    requires s.engine.Some? && s.requestCount <= MaxRequests
    ensures Run(s, n).0.requestCount ==
      if s.requestCount + n <= MaxRequests then s.requestCount + n else MaxRequests
    ensures Run(s, n).0.engine == s.engine
    ensures Run(s, n).0.initError == s.initError
    decreases n
  {
    if n > 0 {
      match Admit(s)
      case Refused(_, _) => RunCounts(s, n - 1);
      case Admitted(_, next, _) => RunCounts(next, n - 1);
    }
  }

  /** Without an engine nothing is counted and nothing sleeps. */
  lemma {:induction false} RunWithoutEngine(s: State, n: nat)
    requires s.engine.None?
    ensures Run(s, n) == (s, 0)
    decreases n
  {
    if n > 0 {
      RunWithoutEngine(s, n - 1);
    }
  }

  /** Once the hard stop is reached, every further request is refused: the
      globals stay as they are and nobody sleeps. */
  lemma {:induction false} RunAtLimit(s: State, n: nat)
    requires s.engine.Some? && s.requestCount >= MaxRequests
    ensures Run(s, n) == (s, 0)
    decreases n
  {
    if n > 0 {
      RunAtLimit(s, n - 1);
    }
  }

  /** Seconds slept by the requests that move the counter from `c` to `c + n`. */
  function Slept(c: nat, n: nat): nat
    decreases n
  {
    if n == 0 then 0 else Pause(c + 1) + Slept(c + 1, n - 1)
  }

  /** From a fresh counter, `n` admitted requests sleep a minute for every
      complete batch of three and a second for each of the rest. */
  lemma {:induction false} SleptFromZero(n: nat)
    ensures Slept(0, n) == BatchPause * (n / BatchSize) + SafetyPause * (n - n / BatchSize)
  {
    SleptShift(0, n);
  }

  lemma {:induction false} SleptShift(c: nat, n: nat)
    ensures Slept(c, n) ==
      BatchPause * ((c + n) / BatchSize - c / BatchSize)
      + SafetyPause * (n - ((c + n) / BatchSize - c / BatchSize))
    decreases n
  {
    if n > 0 {
      SleptShift(c + 1, n - 1);
    }
  }

  /** The sleeps of a run of admitted requests are those of `Slept`. */
  lemma {:induction false} RunSleeps(s: State, n: nat)
    requires s.engine.Some? && s.requestCount + n <= MaxRequests
    ensures Run(s, n).1 == Slept(s.requestCount, n)
    decreases n
  {
    if n > 0 {
      RunSleeps(Admit(s).next, n - 1);
    }
  }

  /** The request that reaches the hard stop is a batch boundary: it waits a
      minute, and the next one is refused without sleeping. */
  lemma LastAdmittedWaits<V>(s: State, sender: string, content: string, decode: string -> Result<V, string>)
    requires s.engine.Some? && s.requestCount == MaxRequests - 1
    ensures Analyze(s, sender, content, decode).slept == BatchPause
    ensures var t := Analyze(Analyze(s, sender, content, decode).state, sender, content, decode);
      t.slept == 0 && t.reply == HttpError(429, RateLimitDetail)
  {
  }
}
