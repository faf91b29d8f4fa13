// The blocking connect of net/client.cpp over SyncConnector of net/sync_connect.hpp: connect attempts race
// one timer. Every callback holds the context's mutex, so every callback is one event.
module SyncConnect {
  import opened ErrorCodes

  datatype Context = Context(
    endpoints: nat,          // how many were resolved
    nextEndpoint: nat,
    timerFinished: bool,
    connectFinished: bool,
    connectResult: ErrorCode,
    connects: nat,           // async_connect operations pending
    waits: nat,              // timer waits pending
    // what has happened so far
    tried: seq<nat>,
    succeeded: bool)         // some attempt connected

  datatype Event =
    | Connected(ec: ErrorCode, opening: ErrorCode)   // and the answer to the next socket.open, if there is one
    | TimerDone                                      // fired or cancelled, the callback does not ask

  function Finished(c: Context, ec: ErrorCode): Context {
    c.(connectResult := ec, connectFinished := true)
  }

  /** startConnect */
  function Begun(c: Context, last: ErrorCode, opening: ErrorCode): Context {
    if c.nextEndpoint >= c.endpoints then Finished(c, if last.Success? then NotFound else last)
    else if !opening.Success? then Finished(c, opening)
    else c.(connects := c.connects + 1, tried := c.tried + [c.nextEndpoint])
  }

  predicate Enabled(c: Context, e: Event) {
    match e
    case Connected(_, _) => c.connects > 0
    case TimerDone => c.waits > 0
  }

  /** async_connect_handler, and the timer's callback */
  function Next(c: Context, e: Event): Context
    requires Enabled(c, e)
  {
    match e
    case Connected(ec, opening) =>
      var c := c.(connects := c.connects - 1, succeeded := c.succeeded || ec.Success?);
      if ec.Success? then Finished(c, Success)
      else if c.timerFinished then Finished(c, TimedOut)
      else Begun(c.(nextEndpoint := c.nextEndpoint + 1), ec, opening)
    case TimerDone => c.(timerFinished := true, waits := c.waits - 1)
  }

  /** sync_connect up to its waiting loop: the wait is started, then the first attempt. */
  function Initial(endpoints: nat, opening: ErrorCode): Context {
    Begun(Context(endpoints, 0, false, false, Success, 0, 1, [], false), Success, opening)
  }

  ghost predicate Run(c: Context, events: seq<Event>)
    decreases |events|
  {
    events == [] || (Enabled(c, events[0]) && Run(Next(c, events[0]), events[1..]))
  }

  function After(c: Context, events: seq<Event>): Context
    requires Run(c, events)
    decreases |events|
  {
    if events == [] then c else After(Next(c, events[0]), events[1..])
  }

  // -------------------------------------------------------------- every run

  predicate One(pending: nat, finished: bool) {
    pending + (if finished then 1 else 0) == 1
  }

  ghost predicate Invariant(c: Context) {
    && One(c.connects, c.connectFinished)
    && One(c.waits, c.timerFinished)
    && (c.connectFinished ==> (c.connectResult.Success? <==> c.succeeded))
    && (c.succeeded ==> c.connectFinished)
    && (!c.connectFinished ==> c.nextEndpoint < c.endpoints)
    && |c.tried| <= c.endpoints && (c.connects > 0 ==> |c.tried| == c.nextEndpoint + 1)
    && forall i :: 0 <= i < |c.tried| ==> c.tried[i] == i
  }

  /** Callbacks still to come, at most. */
  function Left(c: Context): nat {
    c.waits + if c.connects > 0 && c.nextEndpoint < c.endpoints then c.endpoints - c.nextEndpoint else 0
  }

  lemma Step(c: Context, e: Event)
    requires Invariant(c) && Enabled(c, e)
    ensures var d := Next(c, e);
            && Invariant(d) && Left(d) < Left(c)
            && (c.timerFinished ==> d.timerFinished && d.tried == c.tried)
            && c.tried <= d.tried && d.endpoints == c.endpoints
  {
  }

  lemma {:induction false} EveryRun(c: Context, events: seq<Event>)
    requires Invariant(c) && Run(c, events)
    ensures var d := After(c, events);
            && Invariant(d) && |events| + Left(d) <= Left(c)
            && (c.timerFinished ==> d.tried == c.tried)
            && c.tried <= d.tried && d.endpoints == c.endpoints
    decreases |events|
  {
    if events != [] {
      Step(c, events[0]);
      hide Invariant, Next, Left;
      EveryRun(Next(c, events[0]), events[1..]);
    }
  }

  lemma InitiallyHolds(endpoints: nat, opening: ErrorCode)
    ensures var c := Initial(endpoints, opening); Invariant(c) && Left(c) <= endpoints + 1 && c.endpoints == endpoints
  {
  }

  /** In every interleaving: exactly one of an attempt pending and the connect finished, exactly one of a wait
      pending and the timer finished; the endpoints are tried in order and at most once each. */
  lemma AlwaysOneOfEach(endpoints: nat, opening: ErrorCode, events: seq<Event>)
    requires Run(Initial(endpoints, opening), events)
    ensures var c := After(Initial(endpoints, opening), events);
            && One(c.connects, c.connectFinished) && One(c.waits, c.timerFinished)
            && |c.tried| <= endpoints && forall i :: 0 <= i < |c.tried| ==> c.tried[i] == i
  {
    hide Initial;
    InitiallyHolds(endpoints, opening);
    EveryRun(Initial(endpoints, opening), events);
  }

  /** Once the timer has finished no attempt starts. */
  lemma NoAttemptAfterTimer(endpoints: nat, opening: ErrorCode, before: seq<Event>, after: seq<Event>)
    requires Run(Initial(endpoints, opening), before)
    requires var c := After(Initial(endpoints, opening), before); c.timerFinished && Run(c, after)
    ensures var c := After(Initial(endpoints, opening), before); After(c, after).tried == c.tried
  {
    hide Initial, Invariant;
    InitiallyHolds(endpoints, opening);
    EveryRun(Initial(endpoints, opening), before);
    EveryRun(After(Initial(endpoints, opening), before), after);
  }

  /** No run is longer than the endpoints and the timer allow, and a run can only end with both finished. */
  lemma EveryRunEnds(endpoints: nat, opening: ErrorCode, events: seq<Event>)
    requires Run(Initial(endpoints, opening), events)
    ensures |events| <= endpoints + 1
    ensures var c := After(Initial(endpoints, opening), events);
            (forall e :: !Enabled(c, e)) <==> c.timerFinished && c.connectFinished
  {
    hide Initial;
    InitiallyHolds(endpoints, opening);
    EveryRun(Initial(endpoints, opening), events);
    var c := After(Initial(endpoints, opening), events);
    assert Enabled(c, TimerDone) <==> !c.timerFinished;
    assert Enabled(c, Connected(Success, Success)) <==> !c.connectFinished;
  }

  /** Whatever a run's events were, one of them connected exactly when the run says so. */
  lemma {:induction false} SucceededMeans(c: Context, events: seq<Event>)
    requires Run(c, events)
    ensures After(c, events).succeeded <==>
              c.succeeded || exists i :: 0 <= i < |events| && events[i].Connected? && events[i].ec.Success?
    decreases |events|
  {
    if events != [] {
      SucceededMeans(Next(c, events[0]), events[1..]);
      assert Next(c, events[0]).succeeded <==> c.succeeded || (events[0].Connected? && events[0].ec.Success?);
      hide Next;
      forall i | 0 <= i < |events| && events[i].Connected? && events[i].ec.Success?
        ensures i == 0 || events[1..][i - 1] == events[i]
      {
      }
      if j :| 0 <= j < |events| - 1 && events[1..][j].Connected? && events[1..][j].ec.Success? {
        assert events[j + 1] == events[1..][j];
      }
    }
  }

  /** The finished connect reports success exactly when some attempt connected, however late. */
  lemma SuccessReported(endpoints: nat, opening: ErrorCode, events: seq<Event>)
    requires Run(Initial(endpoints, opening), events)
    requires After(Initial(endpoints, opening), events).connectFinished
    ensures After(Initial(endpoints, opening), events).connectResult.Success?
       <==> exists i :: 0 <= i < |events| && events[i].Connected? && events[i].ec.Success?
  {
    InitiallyHolds(endpoints, opening);
    hide Next, Enabled;
    EveryRun(Initial(endpoints, opening), events);
    SucceededMeans(Initial(endpoints, opening), events);
    assert !Initial(endpoints, opening).succeeded;
  }

  /** Event i ended the search, and this is what it left behind as the result. */
  ghost predicate Explains(c: Context, events: seq<Event>, i: nat, d: Context)
    requires i < |events|
  {
    && events[i].Connected?
    && d.connectResult == if c.timerFinished || TimerDone in events[..i] then TimedOut
                          else if |d.tried| < d.endpoints then events[i].opening
                          else events[i].ec
  }

  lemma {:induction false} StaysFinished(c: Context, events: seq<Event>)
    requires Invariant(c) && Run(c, events) && c.connectFinished
    ensures After(c, events).connectResult == c.connectResult && After(c, events).tried == c.tried
    decreases |events|
  {
    if events != [] {
      Step(c, events[0]);
      StaysFinished(Next(c, events[0]), events[1..]);
    }
  }

  lemma {:induction false} FailureExplained(c: Context, events: seq<Event>)
    requires Invariant(c) && Run(c, events) && !c.connectFinished
    requires var d := After(c, events); d.connectFinished && !d.connectResult.Success?
    ensures exists i: nat :: i < |events| && Explains(c, events, i, After(c, events))
    decreases |events|
  {
    var next, rest := Next(c, events[0]), events[1..];
    Step(c, events[0]);
    if next.connectFinished {
      StaysFinished(next, rest);
      EveryRun(next, rest);
      assert Explains(c, events, 0, After(c, events));
    } else {
      FailureExplained(next, rest);
      var i: nat :| i < |rest| && Explains(next, rest, i, After(next, rest));
      assert events[..i + 1] == [events[0]] + rest[..i];
      assert Explains(c, events, i + 1, After(c, events));
    }
  }

  /** A failed connect reports: nothing to try, the first socket that could not be opened, the timer if it
      finished before the attempt that failed last, or else what that attempt met. */
  lemma FailureReported(endpoints: nat, opening: ErrorCode, events: seq<Event>)
    requires Run(Initial(endpoints, opening), events)
    requires var d := After(Initial(endpoints, opening), events); d.connectFinished && !d.connectResult.Success?
    ensures var c := Initial(endpoints, opening);
            var d := After(c, events);
            if endpoints == 0 then d.connectResult == NotFound
            else if !opening.Success? then d.connectResult == opening
            else exists i: nat :: i < |events| && Explains(c, events, i, d)
  {
    InitiallyHolds(endpoints, opening);
    var c := Initial(endpoints, opening);
    hide Next;
    if c.connectFinished {
      StaysFinished(c, events);
    } else {
      FailureExplained(c, events);
    }
  }

  // ------------------------------------------------------------- the classes

  class SyncConnectContext {
    const endpoints: nat
    var nextEndpoint: nat
    var timerFinished: bool
    var connectFinished: bool
    var connectResult: ErrorCode
    ghost var connects: nat
    ghost var waits: nat
    ghost var tried: seq<nat>
    ghost var succeeded: bool

    ghost function State(): Context
      reads this
    {
      Context(endpoints, nextEndpoint, timerFinished, connectFinished, connectResult, connects, waits, tried, succeeded)
    }

    constructor (endpoints: nat)
      ensures State() == Context(endpoints, 0, false, false, Success, 0, 0, [], false)
    {
      this.endpoints := endpoints;
      nextEndpoint, timerFinished, connectFinished, connectResult := 0, false, false, Success;
      connects, waits, tried, succeeded := 0, 0, [], false;
    }

    method TimerCallback()
      requires Enabled(State(), TimerDone)
      modifies this
      ensures State() == Next(old(State()), TimerDone)
    {
      waits := waits - 1;
      timerFinished := true;
    }
  }

  class SyncConnector {
    const context: SyncConnectContext

    constructor (context: SyncConnectContext)
      ensures this.context == context
    {
      this.context := context;
    }

    method StartConnect(last: ErrorCode, opening: ErrorCode)
      modifies context
      ensures context.State() == Begun(old(context.State()), last, opening)
    {
      if context.nextEndpoint >= context.endpoints {
        FinishConnect(if !last.Success? then last else NotFound);
        return;
      }
      if !opening.Success? {
        FinishConnect(opening);
        return;
      }
      context.connects := context.connects + 1;
      context.tried := context.tried + [context.nextEndpoint];
    }

    method FinishConnect(ec: ErrorCode)
      modifies context
      ensures context.State() == Finished(old(context.State()), ec)
    {
      context.connectResult := ec;
      context.connectFinished := true;
    }

    method AsyncConnectHandler(ec: ErrorCode, opening: ErrorCode)
      requires Enabled(context.State(), Connected(ec, opening))
      modifies context
      ensures context.State() == Next(old(context.State()), Connected(ec, opening))
    {
      context.connects := context.connects - 1;
      context.succeeded := context.succeeded || ec.Success?;
      if ec.Success? {
        FinishConnect(Success);
        return;
      }
      if context.timerFinished {
        FinishConnect(TimedOut);
        return;
      }
      context.nextEndpoint := context.nextEndpoint + 1;
      StartConnect(ec, opening);
    }
  }

  /** The whole call: callbacks come in any order and bring anything until both have finished. The trace of
      what happened is returned beside the result. */
  method Connect(endpoints: nat) returns (result: ErrorCode, opening: ErrorCode, events: seq<Event>)
    ensures Run(Initial(endpoints, opening), events) && |events| <= endpoints + 1
    ensures var c := After(Initial(endpoints, opening), events);
            c.timerFinished && c.connectFinished && result == c.connectResult
    ensures result.Success? <==> exists i :: 0 <= i < |events| && events[i].Connected? && events[i].ec.Success?
  {
    var context := new SyncConnectContext(endpoints);
    context.waits := 1;
    var connector := new SyncConnector(context);
    var first: ErrorCode := *;
    connector.StartConnect(Success, first);
    opening, events := first, [];
    ghost var c := Initial(endpoints, opening);
    InitiallyHolds(endpoints, opening);
    hide Next, Initial;
    while !context.timerFinished || !context.connectFinished
      invariant Run(c, events) && After(c, events) == context.State() && Invariant(context.State())
      decreases Left(context.State())
    {
      EveryRun(c, events);
      ghost var was := context.State();
      var e: Event;
      var timer: bool := *;
      if (timer || context.connectFinished) && !context.timerFinished {
        context.TimerCallback();
        e := TimerDone;
      } else {
        var ec: ErrorCode, next: ErrorCode := *, *;
        connector.AsyncConnectHandler(ec, next);
        e := Connected(ec, next);
      }
      Step(was, e);
      Snoc(c, events, e);
      events := events + [e];
    }
    EveryRunEnds(endpoints, opening, events);
    SuccessReported(endpoints, opening, events);
    result := context.connectResult;
  }

  lemma {:induction false} Snoc(c: Context, events: seq<Event>, e: Event)
    requires Run(c, events) && Enabled(After(c, events), e)
    ensures Run(c, events + [e]) && After(c, events + [e]) == Next(After(c, events), e)
    decreases |events|
  {
    if events == [] {
      assert [e][1..] == [];
    } else {
      assert (events + [e])[1..] == events[1..] + [e];
      Snoc(Next(c, events[0]), events[1..], e);
    }
  }
}
