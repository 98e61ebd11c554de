/** The recorder of response sizes (upstream/e2e-playwright/utils/RequestsRecorder.ts).

    handleResponse runs without interruption up to its first await, then in segments after the body
    and after the sizes; segments of different handlers interleave freely. What the page delivers is
    the input. The prom-client counters are kept as totals over all labels. */
module RequestsRecorder {
  import opened Common

  /** A url and what new URL(text).hostname gives; None where the constructor throws. */
  datatype Url = Url(text: string, host: Option<string>)

  const EMPTY := Url("", None)

  datatype Request = Request(id: nat, isDocument: bool)

  datatype Response = Response(request: Request, url: Url, status: int)

  /** What a handler waits for, or that it is through; Threw is getHostType throwing before the try. */
  datatype Await = Body | Sizes | Through | Threw

  /** The recorder's fields. resolver is the position of the promise #resolve settles; promises are
      those the stop closures returned, true once resolved. */
  datatype State = State(
    documentUrl: Option<Url>,
    inFlight: int,
    current: set<Request>,
    resolver: Option<nat>,
    promises: seq<bool>,
    inflatedBytes: nat,
    transferBytes: nat,
    requestCount: nat)

  const START := State(None, 0, {}, None, [], 0, 0, 0)

  predicate Truthy(u: Option<Url>) {
    u.Some? && u.value.text != ""
  }

  predicate NoBody(status: int) {
    status <= 199 || status == 204 || status == 205 || status == 304
  }

  /** Both urls getHostType parses are urls. */
  predicate HostKnown(url: Url, documentUrl: Option<Url>) {
    url.host.Some? && (if documentUrl.Some? then documentUrl.value else EMPTY).host.Some?
  }

  function Requested(s: State, r: Request): State {
    if Truthy(s.documentUrl) || r.isDocument then s.(current := s.current + {r}) else s
  }

  function DocumentSeen(s: State, r: Response): State {
    if r.request.isDocument then s.(documentUrl := Some(r.url)) else s
  }

  /** handleResponse up to its first await. */
  function Responded(s: State, r: Response): (State, Await) {
    var t := DocumentSeen(s, r);
    if r.request !in t.current then (t, Through)
    else
      (t.(inFlight := t.inFlight + 1),
       if !HostKnown(r.url, t.documentUrl) then Threw else if NoBody(r.status) then Sizes else Body)
  }

  /** The finally block. */
  function Finished(s: State): State {
    var n := s.inFlight - 1;
    if n == 0 && s.resolver.Some? && s.resolver.value < |s.promises| then
      s.(inFlight := n, promises := s.promises[s.resolver.value := true])
    else s.(inFlight := n)
  }

  /** After the body: its length, None when it rejects. */
  function BodyArrived(s: State, length: Option<nat>): (State, Await) {
    match length
    case Some(n) => (s.(inflatedBytes := s.inflatedBytes + n), Sizes)
    case None => (Finished(s), Through)
  }

  function SizesArrived(s: State, total: Option<nat>): (State, Await) {
    match total
    case Some(n) =>
      (Finished(s.(transferBytes := s.transferBytes + n, requestCount := s.requestCount + 1)), Through)
    case None => (Finished(s), Through)
  }

  /** The stop closure; its promise is the last of promises. */
  function Stopped(s: State): State {
    if s.inFlight == 0 then s.(promises := s.promises + [true])
    else s.(promises := s.promises + [false], resolver := Some(|s.promises|))
  }

  class Recorder {
    var documentUrl: Option<Url>
    var requestsInFlight: int
    var currentRequests: set<Request>
    var resolver: Option<nat>
    var promises: seq<bool>
    var inflatedBytes: nat
    var transferBytes: nat
    var requestCount: nat

    ghost function View(): State
      reads this
    {
      State(documentUrl, requestsInFlight, currentRequests, resolver, promises,
            inflatedBytes, transferBytes, requestCount)
    }

    constructor ()
      ensures View() == START
    {
      documentUrl, requestsInFlight, currentRequests := None, 0, {};
      resolver, promises := None, [];
      inflatedBytes, transferBytes, requestCount := 0, 0, 0;
    }

    method HandleRequest(request: Request)
      modifies this
      ensures View() == Requested(old(View()), request)
    {
      if (documentUrl.Some? && documentUrl.value.text != "") || request.isDocument {
        currentRequests := currentRequests + {request};
      }
    }

    method HandleResponse(response: Response) returns (next: Await)
      modifies this
      ensures (View(), next) == Responded(old(View()), response)
    {
      if response.request.isDocument {
        documentUrl := Some(response.url);
      }
      if response.request !in currentRequests {
        return Through;
      }
      requestsInFlight := requestsInFlight + 1;
      var document := if documentUrl.Some? then documentUrl.value else EMPTY;
      if response.url.host.None? || document.host.None? {
        return Threw;
      }
      next := if NoBody(response.status) then Sizes else Body;
    }

    method OnBody(length: Option<nat>) returns (next: Await)
      modifies this
      ensures (View(), next) == BodyArrived(old(View()), length)
    {
      if length.None? {
        Finish();
        return Through;
      }
      inflatedBytes := inflatedBytes + length.value;
      return Sizes;
    }

    method OnSizes(total: Option<nat>) returns (next: Await)
      modifies this
      ensures (View(), next) == SizesArrived(old(View()), total)
    {
      if total.Some? {
        transferBytes := transferBytes + total.value;
        requestCount := requestCount + 1;
      }
      Finish();
      return Through;
    }

    method Finish()
      modifies this`requestsInFlight, this`promises
      ensures View() == Finished(old(View()))
    {
      requestsInFlight := requestsInFlight - 1;
      if requestsInFlight == 0 && resolver.Some? && resolver.value < |promises| {
        promises := promises[resolver.value := true];
      }
    }

    method Stop() returns (promise: nat)
      modifies this`promises, this`resolver
      ensures promise == |old(promises)| && View() == Stopped(old(View()))
    {
      promise := |promises|;
      if requestsInFlight == 0 {
        promises := promises + [true];
      } else {
        promises := promises + [false];
        resolver := Some(promise);
      }
    }
  }

  // ---- runs -------------------------------------------------------------------------------------

  /** The recorder, its registered listeners, and the response handlers ever started that count:
      what each waits for next. */
  datatype System = System(state: State, listeners: set<nat>, handlers: seq<Await>)

  const BIRTH := System(START, {}, [])

  /** The page emits to every listener in turn, so one response is one event per listener. */
  datatype Event =
    | Listen(listener: nat)
    | Stop(listener: nat)
    | OnRequest(listener: nat, request: Request)
    | OnResponse(listener: nat, response: Response)
    | OnBody(handler: nat, length: Option<nat>)
    | OnSizes(handler: nat, total: Option<nat>)

  predicate Enabled(y: System, e: Event) {
    match e
    case Listen(_) => true
    case Stop(_) => true
    case OnRequest(l, _) => l in y.listeners
    case OnResponse(l, _) => l in y.listeners
    case OnBody(h, _) => h < |y.handlers| && y.handlers[h] == Body
    case OnSizes(h, _) => h < |y.handlers| && y.handlers[h] == Sizes
  }

  function After(y: System, e: Event): System
    requires Enabled(y, e)
  {
    match e
    case Listen(l) => y.(listeners := y.listeners + {l})
    case Stop(l) => y.(state := Stopped(y.state), listeners := y.listeners - {l})
    case OnRequest(_, r) => y.(state := Requested(y.state, r))
    case OnResponse(_, r) =>
      var (t, next) := Responded(y.state, r);
      if next == Through then y.(state := t)
      else y.(state := t, handlers := y.handlers + [next])
    case OnBody(h, length) =>
      var (t, next) := BodyArrived(y.state, length);
      y.(state := t, handlers := y.handlers[h := next])
    case OnSizes(h, total) =>
      var (t, next) := SizesArrived(y.state, total);
      y.(state := t, handlers := y.handlers[h := next])
  }

  /** Handlers past the increment and not past the decrement. */
  function Live(hs: seq<Await>): nat {
    if hs == [] then 0
    else Live(hs[..|hs| - 1]) + (if hs[|hs| - 1] == Body || hs[|hs| - 1] == Sizes then 1 else 0)
  }

  /** Handlers that died between the increment and the try. */
  function Leaked(hs: seq<Await>): nat {
    if hs == [] then 0
    else Leaked(hs[..|hs| - 1]) + (if hs[|hs| - 1] == Threw then 1 else 0)
  }

  lemma {:induction false} Replaced(hs: seq<Await>, h: nat, a: Await)
    requires h < |hs| && (hs[h] == Body || hs[h] == Sizes) && a != Threw
    ensures Leaked(hs[h := a]) == Leaked(hs)
    ensures Live(hs[h := a]) == Live(hs) - (if a == Through then 1 else 0)
  {
    var n := |hs| - 1;
    if h == n {
      assert hs[h := a][..n] == hs[..n];
    } else {
      assert hs[h := a][..n] == hs[..n][h := a];
      Replaced(hs[..n], h, a);
    }
  }

  /** A tracked request is a document, or was added once a document url was known. */
  ghost predicate Tracked(s: State) {
    forall r | r in s.current :: r.isDocument || s.documentUrl.Some?
  }

  /** #resolve belongs to the last promise made while responses were in flight; every unresolved
      promise from it on waits for a response still in flight. */
  ghost predicate Resolving(s: State) {
    && (s.resolver.Some? ==> s.resolver.value < |s.promises|)
    && (forall i | 0 <= i < |s.promises| && !s.promises[i] ::
          s.resolver.Some? && i <= s.resolver.value && (i == s.resolver.value ==> s.inFlight > 0))
  }

  ghost predicate Inv(y: System) {
    && y.state.inFlight == Live(y.handlers) + Leaked(y.handlers)
    && Tracked(y.state) && Resolving(y.state)
  }

  lemma {:induction false} ResponseKeepsInv(y: System, l: nat, r: Response)
    requires Inv(y) && l in y.listeners
    ensures Inv(After(y, OnResponse(l, r)))
  {
    var (t, next) := Responded(y.state, r);
    assert (y.handlers + [next])[..|y.handlers|] == y.handlers;
    assert Resolving(t);
  }

  lemma {:induction false} FinishKeepsResolving(s: State)
    requires Resolving(s) && s.inFlight > 0
    ensures Resolving(Finished(s))
  {
  }

  lemma {:induction false} LiveHandlerCounts(hs: seq<Await>, h: nat)
    requires h < |hs| && (hs[h] == Body || hs[h] == Sizes)
    ensures Live(hs) > 0
  {
    if h < |hs| - 1 {
      LiveHandlerCounts(hs[..|hs| - 1], h);
    }
  }

  lemma {:induction false} BodyKeepsInv(y: System, h: nat, length: Option<nat>)
    requires Inv(y) && h < |y.handlers| && y.handlers[h] == Body
    ensures Inv(After(y, OnBody(h, length)))
  {
    LiveHandlerCounts(y.handlers, h);
    Replaced(y.handlers, h, BodyArrived(y.state, length).1);
    FinishKeepsResolving(y.state);
  }

  lemma {:induction false} SizesKeepInv(y: System, h: nat, total: Option<nat>)
    requires Inv(y) && h < |y.handlers| && y.handlers[h] == Sizes
    ensures Inv(After(y, OnSizes(h, total)))
  {
    LiveHandlerCounts(y.handlers, h);
    Replaced(y.handlers, h, Through);
    FinishKeepsResolving(y.state);
  }

  lemma {:induction false} AfterKeepsInv(y: System, e: Event)
    requires Inv(y) && Enabled(y, e)
    ensures Inv(After(y, e))
  {
    match e
    case Listen(_) =>
    case Stop(_) =>
    case OnRequest(_, _) =>
    case OnResponse(l, r) => ResponseKeepsInv(y, l, r);
    case OnBody(h, length) => BodyKeepsInv(y, h, length);
    case OnSizes(h, total) => SizesKeepInv(y, h, total);
  }

  ghost predicate Execution(ys: seq<System>, es: seq<Event>) {
    && |ys| == |es| + 1 && ys[0] == BIRTH
    && (forall i | 0 <= i < |es| :: Enabled(ys[i], es[i]) && ys[i + 1] == After(ys[i], es[i]))
  }

  lemma {:induction false} Reached(ys: seq<System>, es: seq<Event>, i: nat)
    requires Execution(ys, es) && i <= |es|
    ensures Inv(ys[i])
  {
    if i > 0 {
      Reached(ys, es, i - 1);
      AfterKeepsInv(ys[i - 1], es[i - 1]);
    }
  }

  // ---- the count --------------------------------------------------------------------------------

  /** In every reachable state the count is the handlers past the increment and not past the
      decrement, plus those that died between the increment and the try. */
  lemma {:induction false} CountIsLiveAndLeaked(ys: seq<System>, es: seq<Event>, i: nat)
    requires Execution(ys, es) && i <= |es|
    ensures ys[i].state.inFlight == Live(ys[i].handlers) + Leaked(ys[i].handlers)
  {
    Reached(ys, es, i);
  }

  /** A counted response always has a document url to compare with, and its handler dies outside the
      try exactly when its own url or that document url is no url. */
  lemma {:induction false} HandlerDiesIff(ys: seq<System>, es: seq<Event>, i: nat)
    requires Execution(ys, es) && i < |es| && es[i].OnResponse?
    requires es[i].response.request in ys[i].state.current
    ensures ys[i + 1].state.documentUrl.Some?
    ensures Leaked(ys[i + 1].handlers) > Leaked(ys[i].handlers) <==>
              es[i].response.url.host.None? || ys[i + 1].state.documentUrl.value.host.None?
  {
    Reached(ys, es, i);
    var next := Responded(ys[i].state, es[i].response).1;
    assert (ys[i].handlers + [next])[..|ys[i].handlers|] == ys[i].handlers;
  }

  /** The event is a counted response whose own url, or the document url it is compared with, is no
      url. */
  predicate Unparsable(y: System, e: Event) {
    && e.OnResponse? && e.response.request in y.state.current
    && !HostKnown(e.response.url, DocumentSeen(y.state, e.response).documentUrl)
  }

  lemma {:induction false} OneEventLeaks(y: System, e: Event)
    requires Enabled(y, e)
    ensures Leaked(After(y, e).handlers) == Leaked(y.handlers) + if Unparsable(y, e) then 1 else 0
  {
    match e
    case OnResponse(_, r) =>
      var next := Responded(y.state, r).1;
      assert (y.handlers + [next])[..|y.handlers|] == y.handlers;
    case OnBody(h, length) => Replaced(y.handlers, h, BodyArrived(y.state, length).1);
    case OnSizes(h, _) => Replaced(y.handlers, h, Through);
    case _ =>
  }

  lemma {:induction false} StepAt(ys: seq<System>, es: seq<Event>, i: nat)
    requires Execution(ys, es) && i < |es|
    ensures Inv(ys[i]) && Enabled(ys[i], es[i]) && ys[i + 1] == After(ys[i], es[i])
  {
    Reached(ys, es, i);
  }

  /** The count is exactly the handlers past the increment and not past the decrement if and only if
      no counted response has met a url that is none. */
  lemma {:induction false} CountIsExactIff(ys: seq<System>, es: seq<Event>, i: nat)
    requires Execution(ys, es) && i <= |es|
    ensures ys[i].state.inFlight == Live(ys[i].handlers) <==>
              forall k | 0 <= k < i :: !Unparsable(ys[k], es[k])
  {
    LeakedIff(ys, es, i);
    CountIsLiveAndLeaked(ys, es, i);
  }

  lemma {:induction false} LeakedIff(ys: seq<System>, es: seq<Event>, i: nat)
    requires Execution(ys, es) && i <= |es|
    ensures Leaked(ys[i].handlers) == 0 <==> forall k | 0 <= k < i :: !Unparsable(ys[k], es[k])
  {
    if i > 0 {
      var k := i - 1;
      LeakedIff(ys, es, k);
      StepAt(ys, es, k);
      OneEventLeaks(ys[k], es[k]);
    }
  }

  predicate UrlsParse(es: seq<Event>, i: nat)
    requires i <= |es|
  {
    forall k | 0 <= k < i && es[k].OnResponse? :: es[k].response.url.host.Some?
  }

  lemma {:induction false} DocumentParses(ys: seq<System>, es: seq<Event>, i: nat)
    requires Execution(ys, es) && i <= |es| && UrlsParse(es, i)
    ensures ys[i].state.documentUrl.Some? ==> ys[i].state.documentUrl.value.host.Some?
  {
    if i > 0 {
      var k := i - 1;
      DocumentParses(ys, es, k);
      StepAt(ys, es, k);
    }
  }

  /** In particular when every response url is a url. */
  lemma {:induction false} CountIsExact(ys: seq<System>, es: seq<Event>, i: nat)
    requires Execution(ys, es) && i <= |es| && UrlsParse(es, i)
    ensures ys[i].state.inFlight == Live(ys[i].handlers)
  {
    forall k | 0 <= k < i ensures !Unparsable(ys[k], es[k]) {
      DocumentParses(ys, es, k);
      if Unparsable(ys[k], es[k]) {
        HandlerDiesIff(ys, es, k);
      }
    }
    CountIsExactIff(ys, es, i);
  }

  /** Once a handler has died the count never comes back to zero. */
  lemma {:induction false} LeakIsForGood(ys: seq<System>, es: seq<Event>, k: nat, j: nat)
    requires Execution(ys, es) && k <= j <= |es| && Leaked(ys[k].handlers) > 0
    ensures Leaked(ys[j].handlers) > 0 && ys[j].state.inFlight > 0
  {
    if k < j {
      var i := j - 1;
      LeakIsForGood(ys, es, k, i);
      StepAt(ys, es, i);
      OneEventLeaks(ys[i], es[i]);
    }
    CountIsLiveAndLeaked(ys, es, j);
  }

  predicate Unresolved(s: State, p: nat) {
    p < |s.promises| && !s.promises[p]
  }

  lemma {:induction false} NothingResolvesAboveZero(y: System, e: Event, p: nat)
    requires Enabled(y, e) && Unresolved(y.state, p) && After(y, e).state.inFlight > 0
    ensures Unresolved(After(y, e).state, p)
  {
  }

  /** So every promise unresolved by then, and that of every later stop, never resolves. */
  lemma {:induction false} StopsHangAfterLeak(ys: seq<System>, es: seq<Event>, k: nat, j: nat, p: nat)
    requires Execution(ys, es) && k <= j <= |es| && Leaked(ys[k].handlers) > 0
    requires Unresolved(ys[k].state, p) || (k < |es| && es[k].Stop? && p == |ys[k].state.promises| && k < j)
    ensures Unresolved(ys[j].state, p)
  {
    if k < j {
      var i := j - 1;
      StepAt(ys, es, i);
      LeakIsForGood(ys, es, k, i);
      LeakIsForGood(ys, es, k, i + 1);
      if i > k || Unresolved(ys[k].state, p) {
        StopsHangAfterLeak(ys, es, k, i, p);
        NothingResolvesAboveZero(ys[i], es[i], p);
      }
    }
  }

  /** It takes one response whose url is none: every handler is done, the count stays at one, and the
      stop's promise does not resolve. */
  lemma {:induction false} OneBadUrlLeaks(bad: Url) returns (ys: seq<System>, es: seq<Event>)
    requires bad.host.None?
    ensures Execution(ys, es) && |es| == 4 && es[3].Stop?
    ensures Live(ys[4].handlers) == 0 && ys[4].state.inFlight == 1
    ensures ys[4].state.promises == [false]
  {
    var request := Request(0, true);
    es := [Listen(0), OnRequest(0, request), OnResponse(0, Response(request, bad, 204)), Stop(0)];
    var y1 := After(BIRTH, es[0]);
    var y2 := After(y1, es[1]);
    var y3 := After(y2, es[2]);
    assert y3.handlers == [Threw];
    assert Live([Threw]) == 0 by {
      assert [Threw][..0] == [];
    }
    ys := [BIRTH, y1, y2, y3, After(y3, es[3])];
  }

  // ---- what is counted, by the events alone -----------------------------------------------------

  /** The url of the last document response among the first k events. */
  function LastDocument(es: seq<Event>, k: nat): Option<Url>
    requires k <= |es|
  {
    if k == 0 then None
    else if es[k - 1].OnResponse? && es[k - 1].response.request.isDocument then Some(es[k - 1].response.url)
    else LastDocument(es, k - 1)
  }

  /** Event k asks for r at a moment when r is to be tracked: r is a document, or a document response
      with a url has come in before. */
  predicate AsksTracked(es: seq<Event>, k: nat, r: Request)
    requires k < |es|
  {
    && es[k].OnRequest? && es[k].request == r
    && (r.isDocument || (LastDocument(es, k).Some? && LastDocument(es, k).value.text != ""))
  }

  predicate TrackedBy(es: seq<Event>, i: nat, r: Request)
    requires i <= |es|
  {
    exists k | 0 <= k < i :: AsksTracked(es, k, r)
  }

  lemma {:induction false} DocumentIsLast(ys: seq<System>, es: seq<Event>, i: nat)
    requires Execution(ys, es) && i <= |es|
    ensures ys[i].state.documentUrl == LastDocument(es, i)
  {
    if i > 0 {
      DocumentIsLast(ys, es, i - 1);
      StepAt(ys, es, i - 1);
    }
  }

  /** A request is tracked exactly when some event asked for it at such a moment. */
  lemma {:induction false} TrackedIff(ys: seq<System>, es: seq<Event>, i: nat, r: Request)
    requires Execution(ys, es) && i <= |es|
    ensures r in ys[i].state.current <==> TrackedBy(es, i, r)
  {
    if i > 0 {
      var k := i - 1;
      TrackedIff(ys, es, k, r);
      StepAt(ys, es, k);
      DocumentIsLast(ys, es, k);
      OneEventTracks(ys[k], es[k], r);
      assert TrackedBy(es, i, r) <==> TrackedBy(es, k, r) || AsksTracked(es, k, r);
    }
  }

  lemma {:induction false} OneEventTracks(y: System, e: Event, r: Request)
    requires Enabled(y, e)
    ensures r in After(y, e).state.current <==>
              || r in y.state.current
              || (&& e.OnRequest? && e.request == r
                  && (r.isDocument || (y.state.documentUrl.Some? && y.state.documentUrl.value.text != "")))
  {
  }

  /** Event k is the response of a request tracked by then. */
  predicate CountsResponse(es: seq<Event>, k: nat)
    requires k < |es|
  {
    es[k].OnResponse? && TrackedBy(es, k, es[k].response.request)
  }

  function CountedResponses(es: seq<Event>, i: nat): nat
    requires i <= |es|
  {
    if i == 0 then 0 else CountedResponses(es, i - 1) + if CountsResponse(es, i - 1) then 1 else 0
  }

  /** The handlers ever counted are as many as the responses of requests tracked by then. */
  lemma {:induction false} HandlersAreCounted(ys: seq<System>, es: seq<Event>, i: nat)
    requires Execution(ys, es) && i <= |es|
    ensures |ys[i].handlers| == CountedResponses(es, i)
  {
    if i > 0 {
      var k := i - 1;
      HandlersAreCounted(ys, es, k);
      StepAt(ys, es, k);
      if es[k].OnResponse? {
        TrackedIff(ys, es, k, es[k].response.request);
      }
    }
  }

  /** What the handler of a counted response does first: it dies if one of the urls is none, goes
      straight to the sizes if the status has no body, and else reads the body. */
  lemma {:induction false} CountedResponseGoesOn(ys: seq<System>, es: seq<Event>, k: nat)
    requires Execution(ys, es) && k < |es| && CountsResponse(es, k)
    ensures |ys[k + 1].handlers| == |ys[k].handlers| + 1 && LastDocument(es, k + 1).Some?
    ensures var r := es[k].response;
            ys[k + 1].handlers[|ys[k].handlers|] ==
              if r.url.host.None? || LastDocument(es, k + 1).value.host.None? then Threw
              else if r.status <= 199 || r.status in {204, 205, 304} then Sizes
              else Body
  {
    StepAt(ys, es, k);
    TrackedIff(ys, es, k, es[k].response.request);
    DocumentIsLast(ys, es, k + 1);
    HandlerDiesIff(ys, es, k);
  }

  /** Bytes of the bodies and of the transfers reported so far, and how many transfers. */
  function BodyBytes(es: seq<Event>, i: nat): nat
    requires i <= |es|
  {
    if i == 0 then 0
    else
      BodyBytes(es, i - 1)
      + match es[i - 1] case OnBody(_, Some(n)) => n case _ => 0
  }

  function TransferBytes(es: seq<Event>, i: nat): nat
    requires i <= |es|
  {
    if i == 0 then 0
    else
      TransferBytes(es, i - 1)
      + match es[i - 1] case OnSizes(_, Some(n)) => n case _ => 0
  }

  function Transfers(es: seq<Event>, i: nat): nat
    requires i <= |es|
  {
    if i == 0 then 0
    else
      Transfers(es, i - 1)
      + match es[i - 1] case OnSizes(_, Some(_)) => 1 case _ => 0
  }

  /** The meters show what was reported. */
  lemma {:induction false} MetersAreTrue(ys: seq<System>, es: seq<Event>, i: nat)
    requires Execution(ys, es) && i <= |es|
    ensures ys[i].state.inflatedBytes == BodyBytes(es, i)
    ensures ys[i].state.transferBytes == TransferBytes(es, i)
    ensures ys[i].state.requestCount == Transfers(es, i)
  {
    if i > 0 {
      MetersAreTrue(ys, es, i - 1);
      StepAt(ys, es, i - 1);
    }
  }

  // ---- the stop promise -------------------------------------------------------------------------

  /** A stop while responses are in flight, which takes #resolve over. */
  predicate TakesOver(y: System, e: Event) {
    e.Stop? && y.state.inFlight != 0
  }

  /** No other stop, after the one at k and before j, takes #resolve over. */
  predicate Untaken(ys: seq<System>, es: seq<Event>, k: nat, j: nat)
    requires j <= |es| && |ys| == |es| + 1
  {
    forall i | k < i < j :: !TakesOver(ys[i], es[i])
  }

  predicate ZeroSince(ys: seq<System>, k: nat, j: nat)
    requires j < |ys|
  {
    exists i | k <= i <= j :: ys[i].state.inFlight == 0
  }

  /** Promise p is resolved, or waits and owns #resolve. */
  predicate Owned(s: State, p: nat) {
    p < |s.promises| && (!s.promises[p] ==> s.resolver == Some(p))
  }

  lemma {:induction false} ZeroSinceStep(ys: seq<System>, k: nat, j: nat)
    requires k < j < |ys|
    ensures ZeroSince(ys, k, j) <==> ZeroSince(ys, k, j - 1) || ys[j].state.inFlight == 0
  {
  }

  lemma {:induction false} StopOwns(y: System, e: Event)
    requires Enabled(y, e) && e.Stop?
    ensures var s, p := After(y, e).state, |y.state.promises|;
            && Owned(s, p) && s.inFlight == y.state.inFlight && (s.promises[p] <==> s.inFlight == 0)
  {
  }

  /** A stop's promise is resolved exactly when the count has been zero at some moment since, as long
      as no later stop takes #resolve over. */
  lemma {:induction false} StopResolvesIffDrained(ys: seq<System>, es: seq<Event>, k: nat, j: nat)
    requires Execution(ys, es) && k < j <= |es| && es[k].Stop? && Untaken(ys, es, k, j)
    ensures Owned(ys[j].state, |ys[k].state.promises|)
    ensures ys[j].state.promises[|ys[k].state.promises|] <==> ZeroSince(ys, k, j)
  {
    var p, i := |ys[k].state.promises|, j - 1;
    StepAt(ys, es, i);
    ZeroSinceStep(ys, k, j);
    if k < i {
      StopResolvesIffDrained(ys, es, k, i);
      OneEventSettles(ys[i], es[i], p);
    } else {
      StopOwns(ys[i], es[i]);
    }
  }

  /** What one event does to promise p while it owns #resolve or is resolved. */
  lemma {:induction false} OneEventSettles(y: System, e: Event, p: nat)
    requires Inv(y) && Enabled(y, e) && !TakesOver(y, e) && Owned(y.state, p)
    ensures Owned(After(y, e).state, p)
    ensures After(y, e).state.promises[p] <==> y.state.promises[p] || After(y, e).state.inFlight == 0
  {
    match e
    case OnResponse(_, r) =>
    case OnBody(h, length) => LiveHandlerCounts(y.handlers, h);
    case OnSizes(h, total) => LiveHandlerCounts(y.handlers, h);
    case _ =>
  }

  /** Every counted response has gone through its handler's finally block. */
  predicate AllFinished(hs: seq<Await>) {
    forall h | 0 <= h < |hs| :: hs[h] == Through
  }

  lemma {:induction false} AllFinishedIff(hs: seq<Await>)
    ensures AllFinished(hs) <==> Live(hs) + Leaked(hs) == 0
  {
    if hs != [] {
      AllFinishedIff(hs[..|hs| - 1]);
    }
  }

  predicate FinishedSince(ys: seq<System>, k: nat, j: nat)
    requires j < |ys|
  {
    exists i | k <= i <= j :: AllFinished(ys[i].handlers)
  }

  /** In terms of responses: the promise is resolved exactly when at some moment since the stop every
      response counted so far had finished. */
  lemma {:induction false} StopResolvesIffAllFinished(ys: seq<System>, es: seq<Event>, k: nat, j: nat)
    requires Execution(ys, es) && k < j <= |es| && es[k].Stop? && Untaken(ys, es, k, j)
    ensures |ys[k].state.promises| < |ys[j].state.promises|
    ensures ys[j].state.promises[|ys[k].state.promises|] <==> FinishedSince(ys, k, j)
  {
    StopResolvesIffDrained(ys, es, k, j);
    forall i | k <= i <= j ensures AllFinished(ys[i].handlers) <==> ys[i].state.inFlight == 0 {
      CountIsLiveAndLeaked(ys, es, i);
      AllFinishedIff(ys[i].handlers);
    }
  }

  /** Promise p is unresolved, and a later one owns #resolve. */
  predicate Overtaken(s: State, p: nat) {
    p < |s.promises| && !s.promises[p] && s.resolver.Some? && p < s.resolver.value
  }

  /** Once a later stop has taken #resolve over, a promise still unresolved never resolves. */
  lemma {:induction false} OvertakenNeverResolves(
    ys: seq<System>, es: seq<Event>, k: nat, j: nat, p: nat)
    requires Execution(ys, es) && k <= j <= |es|
    requires Overtaken(ys[k].state, p)
    ensures Overtaken(ys[j].state, p)
  {
    if k < j {
      var i := j - 1;
      OvertakenNeverResolves(ys, es, k, i, p);
      StepAt(ys, es, i);
      StaysOvertaken(ys[i], es[i], p);
    }
  }

  lemma {:induction false} StaysOvertaken(y: System, e: Event, p: nat)
    requires Enabled(y, e) && Overtaken(y.state, p)
    ensures Overtaken(After(y, e).state, p)
  {
  }

  /** It does happen: two stops while one response is in flight. The response finishes, the second
      promise resolves, the first stays behind for good. */
  lemma {:induction false} FirstStopLeftBehind(document: Url) returns (ys: seq<System>, es: seq<Event>)
    requires document.host.Some? && document.text != ""
    ensures Execution(ys, es) && |es| == 6
    ensures es[3].Stop? && es[4].Stop?
    ensures Live(ys[6].handlers) == 0 && ys[6].state.inFlight == 0
    ensures ys[6].state.promises == [false, true]
  {
    var request := Request(0, true);
    es := [Listen(0), OnRequest(0, request), OnResponse(0, Response(request, document, 204)),
           Stop(0), Stop(0), OnSizes(0, Some(1))];
    var y1 := After(BIRTH, es[0]);
    var y2 := After(y1, es[1]);
    var y3 := After(y2, es[2]);
    var y4 := After(y3, es[3]);
    var y5 := After(y4, es[4]);
    assert y5.handlers == [Sizes] && y5.state.promises == [false, false];
    var y6 := After(y5, es[5]);
    assert y6.handlers == [Through];
    assert Live([Through]) == 0 by {
      assert [Through][..0] == [];
    }
    ys := [BIRTH, y1, y2, y3, y4, y5, y6];
  }
}
