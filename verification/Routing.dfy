// What becomes of a request: which of the resources queues which command, what is answered at once, and when a
// polling connection pings.
module Routing {
  import opened Wrappers
  import opened Text
  import opened Letters
  import opened Worker
  import opened Session

  /** The resources that queue a task. */
  const ROUTES: seq<(string, Command)> := [
    ("/v1/message/send", MessageSend),
    ("/v1/message/sendchat", MessageSendChat),
    ("/v1/user/login", UserLogin),
    ("/v1/user/create", UserCreate),
    ("/v1/chat/create", ChatCreate),
    ("/v1/user/history", UserHistory),
    ("/v1/group/history", ChatHistory),
    ("/v1/user/status", UserStatus),
    ("/v1/chat/adduser", ChatAdduser)]

  /** Names of resources are told apart by more than the case of their letters. */
  predicate Asks(resource: string, i: nat) {
    i < |ROUTES| && SameButCase(resource, ROUTES[i].0)
  }

  predicate AsksToPoll(resource: string) {
    SameButCase(resource, "/v1/idle")
  }

  predicate Begins(s: string, p: string) {
    |p| <= |s| && s[..|p|] == p
  }

  predicate TypeAllowed(contentType: string) {
    Begins(contentType, "text/plain") || Begins(contentType, "application/json")
  }

  lemma LowerAlready(i: nat)
    requires i < |ROUTES|
    ensures Lowercased(ROUTES[i].0) == ROUTES[i].0
  {
    var s := ROUTES[i].0;
    hide Lowercased;
    OneLowered(i);
    assert forall k :: 0 <= k < |s| ==> s[k] == Lowercased(s)[k];
  }

  lemma OneLowered(i: nat)
    requires i < |ROUTES|
    ensures forall k :: 0 <= k < |ROUTES[i].0| ==> Lowercased(ROUTES[i].0)[k] == ROUTES[i].0[k]
  {
    forall k | 0 <= k < |ROUTES[i].0|
      ensures Lower(ROUTES[i].0[k]) == ROUTES[i].0[k]
    {
      assert !('A' <= ROUTES[i].0[k] <= 'Z');
    }
  }

  lemma AskedExactly(resource: string, i: nat)
    requires i < |ROUTES|
    ensures Asks(resource, i) <==> Lowercased(resource) == ROUTES[i].0
  {
    hide ROUTES, Lowercased, SameButCase;
    LowerAlready(i);
    SameExactly(resource, ROUTES[i].0);
  }

  lemma PollExactly(resource: string)
    ensures AsksToPoll(resource) <==> Lowercased(resource) == IDLE_RESOURCE
  {
    assert Lowercased("/v1/idle") == "/v1/idle";
    hide Lowercased, SameButCase;
    SameExactly(resource, "/v1/idle");
  }

  lemma TableOf(lowered: string)
    ensures forall i :: 0 <= i < |ROUTES| ==> (lowered == ROUTES[i].0 <==> Route(lowered) == Some(ROUTES[i].1))
    ensures (forall i :: 0 <= i < |ROUTES| ==> lowered != ROUTES[i].0) <==> Route(lowered).None?
    ensures lowered == IDLE_RESOURCE ==> Route(lowered).None?
  {
    assert |ROUTES| == 9;
    assert ROUTES[0] == ("/v1/message/send", MessageSend) && ROUTES[1] == ("/v1/message/sendchat", MessageSendChat);
    assert ROUTES[2] == ("/v1/user/login", UserLogin) && ROUTES[3] == ("/v1/user/create", UserCreate);
    assert ROUTES[4] == ("/v1/chat/create", ChatCreate) && ROUTES[5] == ("/v1/user/history", UserHistory);
    assert ROUTES[6] == ("/v1/group/history", ChatHistory) && ROUTES[7] == ("/v1/user/status", UserStatus);
    assert ROUTES[8] == ("/v1/chat/adduser", ChatAdduser);
  }

  lemma AllowedExactly(contentType: string)
    ensures AllowedType(contentType) <==> TypeAllowed(contentType)
  {
  }

  /** A request of an allowed type whose body is not refused. */
  lemma RequestRouted(k: Conn, c: nat, resource: string, contentType: string, parsed: Task)
    requires k.reading > 0 && TypeAllowed(contentType)
    ensures var (k', task) := ReadDone(k, c, Request(resource, contentType, parsed, false));
            && (forall i :: 0 <= i < |ROUTES| ==> (task.Some? && task.value.cmd == ROUTES[i].1 <==> Asks(resource, i)))
            && (task.Some? ==>
                  && k'.writing == k.writing && k'.idle == k.idle
                  && task.value == parsed.(client := c, cmd := task.value.cmd, ping := false,
                                           storage := if task.value.cmd.UserCreate? then "localhost:3306" else ""))
            && (task.None? && k'.writing == k.writing + [Response(404)]
                <==> !AsksToPoll(resource) && forall i :: 0 <= i < |ROUTES| ==> !Asks(resource, i))
            && (k'.writing == k.writing + [IdleStart] && k'.idle && k'.timers == k.timers + 1
                && k'.start == k'.request.ts == parsed.ts && k'.request.uid == parsed.uid
                <==> AsksToPoll(resource))
            && k'.reading == k.reading - 1
  {
    AllowedExactly(contentType);
    PollExactly(resource);
    var lowered := Lowercased(resource);
    TableOf(lowered);
    forall i | 0 <= i < |ROUTES|
      ensures Asks(resource, i) <==> lowered == ROUTES[i].0
    {
      AskedExactly(resource, i);
    }
    hide ROUTES, Route, Lowercased, AllowedType, TypeAllowed, Asks, AsksToPoll, IDLE_RESOURCE;
    var (k', task) := ReadDone(k, c, Request(resource, contentType, parsed, false));
    assert k'.writing != k.writing + [Response(404)] || k'.writing != k.writing + [IdleStart] by {
      assert (k.writing + [Response(404)])[|k.writing|] != (k.writing + [IdleStart])[|k.writing|];
    }
  }

  /** What is answered with 400, and queues nothing: a type that is not allowed, a body that is refused. */
  lemma RequestRefused(k: Conn, c: nat, resource: string, contentType: string, parsed: Task, refused: bool)
    requires k.reading > 0
    requires (AsksToPoll(resource) && refused)
             || (exists i :: 0 <= i < |ROUTES| && Asks(resource, i) && (refused || !TypeAllowed(contentType)))
    ensures var (k', task) := ReadDone(k, c, Request(resource, contentType, parsed, refused));
            && task.None? && k'.writing == k.writing + [Response(400)]
            && k'.idle == k.idle && k'.timers == k.timers && k'.stalled == k.stalled && k'.reading == k.reading - 1
  {
    AllowedExactly(contentType);
    PollExactly(resource);
    var lowered := Lowercased(resource);
    TableOf(lowered);
    forall i | 0 <= i < |ROUTES|
      ensures Asks(resource, i) <==> lowered == ROUTES[i].0
    {
      AskedExactly(resource, i);
    }
    hide ROUTES, Route, Lowercased, AllowedType, TypeAllowed, Asks, AsksToPoll, IDLE_RESOURCE;
  }

  /** Whatever else a request to no resource brings, it is answered with 404. */
  lemma RequestUnknown(k: Conn, c: nat, resource: string, contentType: string, parsed: Task, refused: bool)
    requires k.reading > 0
    requires !AsksToPoll(resource) && forall i :: 0 <= i < |ROUTES| ==> !Asks(resource, i)
    ensures ReadDone(k, c, Request(resource, contentType, parsed, refused))
         == (Posted(k, Response(404)).(reading := k.reading - 1), None)
  {
    PollExactly(resource);
    var lowered := Lowercased(resource);
    TableOf(lowered);
    forall i | 0 <= i < |ROUTES|
      ensures lowered != ROUTES[i].0
    {
      AskedExactly(resource, i);
    }
    hide ROUTES, Route, Lowercased, Asks, AsksToPoll, IDLE_RESOURCE;
  }

  /** A read or a handshake that fails starts nothing. */
  lemma FailureStartsNothing(k: Conn, c: nat)
    ensures k.reading > 0 ==> ReadDone(k, c, Broken) == (k.(reading := k.reading - 1, failed := true), None)
    ensures k.handshake ==> HandshakeDone(k, false) == k.(handshake := false, failed := true)
  {
  }

  /** One write for each reply of a worker: an error with its code, a batch with the newest of its stamps, all
      else with 200. */
  lemma ReplySent(k: Conn, reply: Reply)
    ensures var k' := Replied(k, reply);
            && |k'.writing| == |k.writing| + 1 && k.writing <= k'.writing
            && var w := k'.writing[|k.writing|];
               if reply.Error? then w == Response(reply.code)
               else if reply.IdleMessages? then
                 && w.IdleBatch? && w.msgs == reply.msgs
                 && (forall i :: 0 <= i < |w.msgs| ==> w.msgs[i].ts <= w.newest)
                 && (if w.msgs == [] then w.newest == 0 else w.newest == 0 || HasStamp(w.msgs, w.newest))
               else w == Response(200)
  {
    hide HasStamp;
  }

  // -------------------------------------------------------------------- pings

  /** The ticks of one connection at these times: at which of them its poll pings. */
  function Pings(k: Conn, c: nat, times: seq<nat>): (r: seq<bool>)
    requires k.timers > 0
    ensures |r| == |times|
    decreases |times|
  {
    if times == [] then []
    else
      var (k', task) := Ticked(k, c, times[0]);
      [task.ping] + Pings(k', c, times[1..])
  }

  predicate NeverBack(times: seq<nat>) {
    forall i, j :: 0 <= i < j < |times| ==> times[i] <= times[j]
  }

  /** A ping comes more than five seconds behind the last one before these ticks. */
  lemma {:induction false} PingsLate(k: Conn, c: nat, times: seq<nat>, j: nat)
    requires k.timers > 0 && NeverBack(times) && j < |times| && k.lastPing <= times[0]
    requires Pings(k, c, times)[j]
    ensures times[j] > k.lastPing + 5
    decreases |times|
  {
    if j > 0 {
      var k' := Ticked(k, c, times[0]).0;
      assert times[1..][j - 1] == times[j];
      PingsLate(k', c, times[1..], j - 1);
    }
  }

  /** While the clock does not go back, any two pings are more than five seconds apart. */
  lemma {:induction false} PingsApart(k: Conn, c: nat, times: seq<nat>, i: nat, j: nat)
    requires k.timers > 0 && NeverBack(times) && i < j < |times| && k.lastPing <= times[0]
    requires Pings(k, c, times)[i] && Pings(k, c, times)[j]
    ensures times[j] > times[i] + 5
    decreases |times|
  {
    var k' := Ticked(k, c, times[0]).0;
    assert times[1..][j - 1] == times[j];
    if i > 0 {
      assert times[1..][i - 1] == times[i];
      PingsApart(k', c, times[1..], i - 1, j - 1);
    } else {
      PingsLate(k', c, times[1..], j - 1);
    }
  }

  /** Once more than five seconds have passed there has been a ping. */
  lemma {:induction false} PingDueBy(k: Conn, c: nat, times: seq<nat>, j: nat) returns (m: nat)
    requires k.timers > 0 && NeverBack(times) && j < |times| && k.lastPing <= times[0]
    requires times[j] > k.lastPing + 5
    ensures m <= j && Pings(k, c, times)[m]
    decreases |times|
  {
    if Pings(k, c, times)[0] {
      return 0;
    }
    var k' := Ticked(k, c, times[0]).0;
    assert j > 0 && times[1..][j - 1] == times[j];
    m := PingDueBy(k', c, times[1..], j - 1);
    m := m + 1;
  }

  /** So between any two ticks more than five seconds apart, the second one included, there is one. */
  lemma {:induction false} PingsCome(k: Conn, c: nat, times: seq<nat>, i: nat, j: nat) returns (m: nat)
    requires k.timers > 0 && NeverBack(times) && i < j < |times| && k.lastPing <= times[0]
    requires times[j] > times[i] + 5
    ensures i < m <= j && Pings(k, c, times)[m]
    decreases |times|
  {
    var k' := Ticked(k, c, times[0]).0;
    assert times[1..][j - 1] == times[j];
    if i > 0 {
      assert times[1..][i - 1] == times[i];
      m := PingsCome(k', c, times[1..], i - 1, j - 1);
    } else {
      m := PingDueBy(k', c, times[1..], j - 1);
    }
    m := m + 1;
  }
}
