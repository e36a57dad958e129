/**
  auth/server.go: the loopback listener that receives the authorization
  response of section 4.1.2 of RFC 6749. The request handler publishes the
  `code` and `error` query parameters into a channel with room for one
  result; the waiting side takes whichever comes first, a published result or
  the end of the login context, and classifies it. Goroutines and the HTTP
  server are replaced by a sequential state machine.
*/
module Callback {
  import opened Wrappers

  /** What one request to the callback route published. */
  datatype CallbackResult = CallbackResult(code: string, error: string)

  datatype LoginError = ProviderError(message: string) | MissingCode | TimedOut

  /**
    `r.URL.Query().Get(key)`: the first value given for `key`, or "" when the
    key is absent. The query is taken as already-decoded (key, value) pairs in
    the order they appear.
  */
  function Get(query: seq<(string, string)>, key: string): (x: string)
    ensures (forall i :: 0 <= i < |query| ==> query[i].0 != key) ==> x == ""
    ensures forall i :: 0 <= i < |query| && query[i].0 == key && (forall j :: 0 <= j < i ==> query[j].0 != key)
              ==> x == query[i].1
  {
    if |query| == 0 then ""
    else if query[0].0 == key then query[0].1
    else Get(query[1..], key)
  }

  /** The handler records both parameters verbatim. */
  function ResultOf(query: seq<(string, string)>): (r: CallbackResult)
    ensures r.code == Get(query, "code") && r.error == Get(query, "error")
  {
    CallbackResult(Get(query, "code"), Get(query, "error"))
  }

  /**
    The decision taken on the received result: a provider error wins over a
    code, an empty code is a failure, and otherwise the code is the outcome.
  */
  function Classify(r: CallbackResult): (out: Result<string, LoginError>)
    ensures r.error != "" <==> out == Err(ProviderError(r.error))
    ensures r.error == "" && r.code == "" <==> out == Err(MissingCode)
    ensures out.Ok? <==> r.error == "" && r.code != ""
    ensures out.Ok? ==> out.value == r.code
    ensures out != Err(TimedOut)
  {
    if r.error != "" then Err(ProviderError(r.error))
    else if r.code == "" then Err(MissingCode)
    else Ok(r.code)
  }

  /** The page the handler writes back to the browser. */
  datatype Page = SuccessPage | FailurePage(error: string)

  function PageFor(r: CallbackResult): (p: Page)
    ensures p == SuccessPage <==> r.code != ""
    ensures p.FailurePage? ==> p.error == r.error
  {
    if r.code != "" then SuccessPage else FailurePage(r.error)
  }

  /** The page only looks at the code: a response with both a code and an error shows success while the login fails. */
  lemma PageIgnoresError(r: CallbackResult)
    requires r.code != "" && r.error != ""
    ensures PageFor(r) == SuccessPage && Classify(r) == Err(ProviderError(r.error))
  {
  }

  /** One thing that can happen while the listener waits. */
  datatype Event = Request(query: seq<(string, string)>) | Deadline

  /** The outcome the first event decides, if any event has happened. */
  function FirstOutcome(events: seq<Event>): (o: Option<Result<string, LoginError>>)
    ensures o.None? <==> |events| == 0
    ensures |events| > 0 && events[0].Deadline? ==> o == Some(Err(TimedOut))
    ensures |events| > 0 && events[0].Request? ==> o == Some(Classify(ResultOf(events[0].query)))
  {
    if |events| == 0 then None
    else match events[0]
      case Request(q) => Some(Classify(ResultOf(q)))
      case Deadline => Some(Err(TimedOut))
  }

  datatype ServerState = Listening | Finished(outcome: Result<string, LoginError>)

  /**
    `StartCallbackServer` as a state machine. `slot` is the channel's one-slot
    buffer, `deadlinePassed` whether the login context is done, and `state`
    whether the function is still waiting or has returned, and with what.
  */
  class CallbackServer {
    var slot: Option<CallbackResult>
    var deadlinePassed: bool
    var state: ServerState

    constructor ()
      ensures slot == None && !deadlinePassed && state == Listening
    {
      slot := None;
      deadlinePassed := false;
      state := Listening;
    }

    /**
      A request to `/callback`. While the server listens the handler buffers
      the page and then sends the result; the send completes only into an
      empty slot. When the slot is full the handler blocks on the send and
      never returns, so its buffered page never reaches the browser and
      nothing is published. Once the function has returned, the server is down
      and the request is not served. No request changes the state.
    */
    method HandleCallback(query: seq<(string, string)>) returns (page: Option<Page>, published: bool)
      modifies this
      ensures state == old(state) && deadlinePassed == old(deadlinePassed)
      ensures page.Some? <==> published
      ensures page.Some? ==> page.value == PageFor(ResultOf(query))
      ensures published <==> state.Listening? && old(slot).None?
      ensures slot == (if published then Some(ResultOf(query)) else old(slot))
    {
      published := false;
      if !state.Listening? {
        return None, false;
      }
      var r := ResultOf(query);
      page := None;
      if slot.None? {
        slot := Some(r);
        published := true;
        page := Some(PageFor(r));
      }
    }

    /** The login context's deadline passes, or it is cancelled. */
    method ExpireContext()
      modifies this
      ensures deadlinePassed && slot == old(slot) && state == old(state)
    {
      deadlinePassed := true;
    }

    /**
      The `select`: with nothing ready it keeps waiting (None, no change);
      otherwise it takes a ready event, returns its outcome and the function
      ends. When both are ready Go picks one at random; `preferCallback` is
      that choice.
    */
    method Select(preferCallback: bool) returns (r: Option<Result<string, LoginError>>)
      requires state.Listening?
      modifies this
      ensures deadlinePassed == old(deadlinePassed)
      ensures old(slot).None? && !deadlinePassed ==> r.None? && state == Listening && slot == None
      ensures old(slot).Some? && (preferCallback || !deadlinePassed)
              ==> r == Some(Classify(old(slot).value)) && slot == None
      ensures deadlinePassed && (old(slot).None? || !preferCallback)
              ==> r == Some(Err(TimedOut)) && slot == old(slot)
      ensures r.Some? ==> state == Finished(r.value)
    {
      if slot.Some? && (preferCallback || !deadlinePassed) {
        var received := slot.value;
        slot := None;
        r := Some(Classify(received));
        state := Finished(r.value);
      } else if deadlinePassed {
        r := Some(Err(TimedOut));
        state := Finished(r.value);
      } else {
        r := None;
      }
    }

    /**
      A run of the listener: the events happen one after another and the
      waiting side looks after each of them. The function's result is decided
      by the first event alone, whatever happens afterwards; until an event
      happens it is still waiting. Since the waiting side looks after every
      event before the next one happens, a callback and the deadline are never
      ready together here, and `preferCallback` never decides anything; it is
      passed on so that `Select` is used as it stands.
    */
    method Await(events: seq<Event>, preferCallback: bool)
      requires state == Listening && slot == None && !deadlinePassed
      modifies this
      ensures state == (if |events| == 0 then Listening else Finished(FirstOutcome(events).value))
    {
      var i := 0;
      while i < |events|
        invariant 0 <= i <= |events|
        invariant i == 0 ==> state == Listening && slot == None && !deadlinePassed
        invariant i > 0 ==> state == Finished(FirstOutcome(events).value)
      {
        match events[i] {
          case Request(q) =>
            var page, published := HandleCallback(q);
          case Deadline =>
            ExpireContext();
        }
        if state.Listening? {
          var r := Select(preferCallback);
        }
        i := i + 1;
      }
    }
  }
}
