// Two ways in which a message never reaches its polling client, as runs of the server from its start: one user
// writes to another, whose client polls.
module Losses {
  import opened Wrappers
  import opened Text
  import opened Tables
  import opened Integrity
  import opened Worker
  import opened Ledger
  import opened Session
  import opened Server
  import opened Runs
  import D = Delivery
  import P = Poll
  import I = Idle
  import H = History

  // ------------------------------------------------------------- joined runs

  lemma {:induction false} AfterJoin(h: Host, s: Sys, a: seq<Event>, b: seq<Event>)
    ensures After(h, s, a + b) == After(h, After(h, s, a), b)
    decreases |a|
  {
    if a == [] {
      assert a + b == b;
    } else {
      hide Next, Enabled;
      assert (a + b)[1..] == a[1..] + b;
      AfterJoin(h, if Enabled(s, a[0]) then Next(h, s, a[0]) else s, a[1..], b);
    }
  }

  /** The moves keep the discipline and lead to this state, by way of these rounds. */
  ghost predicate Leads(h: Host, s: Sys, c: nat, moves: seq<D.Move>, rounds: seq<I.Round>, end: Sys) {
    D.Plays(h, s, c, moves) && D.Rounds(h, s, moves) == rounds && D.End(h, s, moves) == end
  }

  lemma {:induction false} Joins(h: Host, s: Sys, c: nat, a: seq<D.Move>, b: seq<D.Move>)
    ensures var mid := D.End(h, s, a);
            && D.End(h, s, a + b) == D.End(h, mid, b)
            && D.Rounds(h, s, a + b) == D.Rounds(h, s, a) + D.Rounds(h, mid, b)
            && (D.Plays(h, s, c, a + b) <==> D.Plays(h, s, c, a) && D.Plays(h, mid, c, b))
    decreases |a|
  {
    hide D.Orderly, D.Played, After, D.RoundOf;
    if a == [] {
      assert a + b == b;
    } else {
      assert (a + b)[1..] == a[1..] + b && (a + b)[0] == a[0];
      var s' := After(h, s, D.Played(a[0]));
      Joins(h, s', c, a[1..], b);
      D.Regroup(D.RoundOf(s, a[0]), D.Rounds(h, s', a[1..]), D.Rounds(h, D.End(h, s, a), b));
    }
  }

  lemma LeadsJoin(h: Host, s: Sys, c: nat, a: seq<D.Move>, rounds: seq<I.Round>, mid: Sys,
                  b: seq<D.Move>, more: seq<I.Round>, end: Sys)
    requires Leads(h, s, c, a, rounds, mid) && Leads(h, mid, c, b, more, end)
    ensures Leads(h, s, c, a + b, rounds + more, end)
  {
    hide D.Plays, D.Rounds, D.End;
    Joins(h, s, c, a, b);
  }

  function SingleMoves(events: seq<Event>): (r: seq<D.Move>)
    ensures |r| == |events| && forall i :: 0 <= i < |r| ==> r[i] == D.Single(events[i])
  {
    seq(|events|, i requires 0 <= i < |events| => D.Single(events[i]))
  }

  lemma ConnsStay(h: Host, s: Sys, e: Event)
    requires Enabled(s, e)
    ensures |s.conns| <= |Next(h, s, e).conns|
  {
    hide Step, Replied, ReadDone, WriteDone, HandshakeDone, Ticked, TimerDropped;
  }

  /** An event that the discipline of connection 1 leaves alone. */
  predicate Unhindered(e: Event) {
    !e.Take? && (e.Tick? ==> e.c != 1) && (e.WriteEvent? ==> e.c != 1 || e.ok)
  }

  lemma {:induction false} SingleMovesLead(h: Host, s: Sys, events: seq<Event>)
    requires 1 < |s.conns| && forall i :: 0 <= i < |events| ==> Unhindered(events[i])
    ensures Leads(h, s, 1, SingleMoves(events), [], After(h, s, events))
    decreases |events|
  {
    if events != [] {
      var e := events[0];
      var s' := if Enabled(s, e) then Next(h, s, e) else s;
      assert SingleMoves(events)[0] == D.Single(e) && SingleMoves(events)[1..] == SingleMoves(events[1..]);
      FreeMove(h, s, e);
      hide Next, Enabled, D.Orderly;
      SingleMovesLead(h, s', events[1..]);
      assert [] + D.Rounds(h, s', SingleMoves(events[1..])) == D.Rounds(h, s', SingleMoves(events[1..]));
    }
  }

  lemma FreeMove(h: Host, s: Sys, e: Event)
    requires 1 < |s.conns| && Unhindered(e)
    ensures D.Orderly(h, s, 1, D.Single(e)) && D.RoundOf(s, D.Single(e)) == []
    ensures After(h, s, D.Played(D.Single(e))) == if Enabled(s, e) then Next(h, s, e) else s
    ensures 1 < |After(h, s, D.Played(D.Single(e))).conns|
  {
    D.SingleIs(h, s, e);
    if Enabled(s, e) {
      ConnsStay(h, s, e);
    }
    hide Next, Enabled;
  }

  // ------------------------------------------------------------ one request

  /** The connection waits for the next request. */
  predicate Reading(k: Conn) {
    !k.idle && k.reading == 1 && k.writing == []
  }

  /** The only worker rests and no task waits. */
  predicate AtEase(s: Sys) {
    s.queue == [] && s.workers == [None]
  }

  /** The request becomes this task. */
  predicate Brings(k: Conn, input: Incoming, t: Task) {
    && k.reading > 0 && t.client == 0
    && var (k', task) := ReadDone(k, 0, input);
       k' == k.(reading := k.reading - 1, request := k'.request) && task == Some(t)
  }

  /** The task has been taken by the only worker. */
  predicate UnderWay(s: Sys, t: Task) {
    && s.queue == [] && s.workers == [Some(Job(t, Start, NOTHING))] && t.client == 0
    && s.conns != [] && !s.conns[0].idle && s.conns[0].reading == 0 && s.conns[0].writing == []
  }

  /** Nobody but connection 0 has changed. */
  predicate Beside(s: Sys, s': Sys) {
    |s'.conns| == |s.conns| && forall i :: 0 < i < |s.conns| ==> s'.conns[i] == s.conns[i]
  }

  lemma Arrives(h: Host, s: Sys, input: Incoming, t: Task)
    requires s.conns != [] && AtEase(s) && Reading(s.conns[0]) && Brings(s.conns[0], input, t)
    ensures Enabled(s, ReadEvent(0, input))
    ensures var s1 := Next(h, s, ReadEvent(0, input));
            Enabled(s1, Take(0)) && s1.queue == [t]
            && var s2 := Next(h, s1, Take(0)); UnderWay(s2, t) && s2.store == s.store && Beside(s, s1) && Beside(s, s2)
  {
    hide ReadDone;
  }

  function AnswerEvents(now: nat, steps: nat): seq<Event> {
    D.Works(0, now, steps) + [WriteEvent(0, 0, true)]
  }

  lemma AnswerWritten(h: Host, s: Sys, k: Conn, reply: Reply)
    requires s.conns != [] && s.conns[0] == Replied(k, reply) && !reply.IdleMessages?
    requires !k.idle && k.reading == 0 && k.writing == []
    ensures Enabled(s, WriteEvent(0, 0, true))
    ensures var end := Next(h, s, WriteEvent(0, 0, true));
            && end.store == s.store && end.queue == s.queue && end.workers == s.workers
            && Beside(s, end) && Reading(end.conns[0])
  {
  }

  lemma Answered(h: Host, s: Sys, t: Task, now: nat, n: nat, st: Storage, reply: Reply)
    requires UnderWay(s, t) && D.EndsAt(h, s.store, t, Start, now, n, st, Send(reply)) && !reply.IdleMessages?
    ensures var end := After(h, s, AnswerEvents(now, n + 1));
            AtEase(end) && end.store == st && Beside(s, end) && Reading(end.conns[0])
  {
    hide D.EndsAt, After, Next, D.Works, Replied, Reading;
    D.WorksAreSteps(h, s, 0, now, n + 1, n, st, Send(reply));
    var s1 := After(h, s, D.Works(0, now, n + 1));
    AfterJoin(h, s, D.Works(0, now, n + 1), [WriteEvent(0, 0, true)]);
    D.SingleIs(h, s1, WriteEvent(0, 0, true));
    AnswerWritten(h, s1, s.conns[0], reply);
  }

  // ---------------------------------------------------- what they ask

  function Sign(name: string): Incoming {
    Request("/v1/user/create", "text/plain", NO_TASK.(user := name), false)
  }

  function SignTask(name: string): Task {
    NO_TASK.(cmd := UserCreate, user := name, storage := ONLY_STORAGE)
  }

  const MAIL := Request("/v1/message/send", "text/plain", NO_TASK.(uid := 1, toUser := "bob"), false)
  const MAIL_TASK := NO_TASK.(cmd := MessageSend, uid := 1, toUser := "bob")
  const LISTEN := Request("/v1/idle", "text/plain", NO_TASK.(uid := 2), false)

  lemma Routes()
    ensures Route(Lowercased("/v1/user/create")) == Some(UserCreate)
    ensures Route(Lowercased("/v1/message/send")) == Some(MessageSend)
    ensures Lowercased("/v1/user/create") != IDLE_RESOURCE && Lowercased("/v1/message/send") != IDLE_RESOURCE
    ensures Lowercased("/v1/idle") == IDLE_RESOURCE && AllowedType("text/plain")
  {
    assert Lowercased("/v1/user/create") == "/v1/user/create";
    assert Lowercased("/v1/message/send") == "/v1/message/send";
    assert Lowercased("/v1/idle") == "/v1/idle";
  }

  lemma TheyBring(k: Conn, name: string)
    requires k.reading > 0
    ensures Brings(k, Sign(name), SignTask(name)) && Brings(k, MAIL, MAIL_TASK)
  {
    Routes();
    hide Route, Lowercased, IDLE_RESOURCE, AllowedType;
  }

  function User1(h: Host): User {
    User(1, 1, 0, "ann", h.digest(""), ONLY_STORAGE)
  }

  function User2(h: Host): User {
    User(2, 2, 0, "bob", h.digest(""), ONLY_STORAGE)
  }

  /** The tables know both users. */
  ghost predicate Peopled(h: Host, s: Storage) {
    && Intact(s) && |s.users| >= 2 && SameUser(s.users[0], User1(h)) && SameUser(s.users[1], User2(h))
    && Chatuser(2, 2) in s.chatuser
  }

  lemma PeopledStays(h: Host, s: Storage, s': Storage)
    requires Peopled(h, s) && Extends(s, s') && Intact(s')
    ensures Peopled(h, s')
  {
    RowStays(s.chatuser, s'.chatuser);
    assert SameUser(s.users[0], s'.users[0]) && SameUser(s.users[1], s'.users[1]);
    hide Intact;
  }

  lemma Addressee(h: Host, s: Storage)
    requires Peopled(h, s)
    ensures var users := UsersByName(s.users, "bob"); |users| == 1 && users[0].selfChatId == 2
    ensures UserById(s.users, 1) == s.users[0] && UserById(s.users, 2) == s.users[1]
  {
    UserFound(s, 1);
    UserFound(s, 2);
    AtMostOneUser(s.users, "bob");
    ByNameAre(s.users, "bob");
    assert s.users[1].name == "bob" && UserNameTaken(s.users, "bob");
    var users := UsersByName(s.users, "bob");
    assert users[0] in users;
  }

  /** A message from the one to the other is saved in three steps. */
  lemma MailSteps(h: Host, s: Storage, now: nat)
    requires Peopled(h, s)
    ensures D.EndsAt(h, s, MAIL_TASK, Start, now, 3, WithMessage(s, I.Note(2, now)), Send(OkStatus))
  {
    Addressee(h, s);
    var ann := s.users[0];
    hide Intact, UserById, UsersByName, P.Steps;
    assert Step(h, s, MAIL_TASK, Start, now) == (s, Authed(ann));
    assert Step(h, s, MAIL_TASK, Authed(ann), now) == (s, Save(I.Note(2, now)));
    assert Step(h, s, MAIL_TASK, Save(I.Note(2, now)), now) == (WithMessage(s, I.Note(2, now)), Send(OkStatus));
    hide Step, Peopled;
    ThreeSteps(h, s, s, s, WithMessage(s, I.Note(2, now)), MAIL_TASK, Authed(ann), Save(I.Note(2, now)), OkStatus, now);
  }

  lemma ThreeSteps(h: Host, s: Storage, s1: Storage, s2: Storage, s3: Storage, t: Task, a: Pc, b: Pc, r: Reply,
                   now: nat)
    requires Step(h, s, t, Start, now) == (s1, a) && Step(h, s1, t, a, now) == (s2, b)
    requires Step(h, s2, t, b, now) == (s3, Send(r))
    ensures D.EndsAt(h, s, t, Start, now, 3, s3, Send(r))
  {
    hide Step;
    assert P.Steps(h, s3, t, Send(r), now, 0) == (s3, Send(r));
    assert P.Steps(h, s2, t, b, now, 1) == (s3, Send(r));
    assert P.Steps(h, s1, t, a, now, 2) == (s3, Send(r));
  }

  lemma SignSteps(h: Host, s: Storage, name: string, now: nat)
    requires !UserNameTaken(s.users, name) && s.userAutoincrement > 0
    ensures var (s', u) := WithUser(s, name, h.digest(""), ONLY_STORAGE);
            D.EndsAt(h, s, SignTask(name), Start, now, 1, s', Send(OkUser(u)))
  {
    hide UserNameTaken;
    var (s', u) := WithUser(s, name, h.digest(""), ONLY_STORAGE);
    assert Step(h, s, SignTask(name), Start, now) == (s', Send(OkUser(u)));
    hide Step, WithUser;
    assert P.Steps(h, s', SignTask(name), Send(OkUser(u)), now, 0) == (s', Send(OkUser(u)));
  }

  // ---------------------------------------------------- between two moves of theirs

  predicate Listening(k: Conn) {
    && k.idle && !k.refused && k.writing == [] && k.timers > 0
    && k.request.cmd.Idle? && k.request.uid == 2 && k.request.password == ""
  }

  ghost predicate Ready(h: Host, s: Sys) {
    && Permutes(h) && Consistent(s) && AtEase(s) && |s.conns| == 2
    && Reading(s.conns[0]) && Listening(s.conns[1]) && Peopled(h, s.store)
  }

  lemma {:induction false} EndKeeps(h: Host, s: Sys, moves: seq<D.Move>)
    requires Permutes(h) && Consistent(s)
    ensures Consistent(D.End(h, s, moves)) && Extends(s.store, D.End(h, s, moves).store)
    decreases |moves|
  {
    hide Consistent, D.Played, After, Extends;
    if moves == [] {
      ExtendsReflexive(s.store);
    } else {
      var s' := After(h, s, D.Played(moves[0]));
      EveryRun(h, s, D.Played(moves[0]));
      EndKeeps(h, s', moves[1..]);
      ExtendsTransitive(s.store, s'.store, D.End(h, s', moves[1..]).store);
    }
  }

  lemma LeadsKeep(h: Host, s: Sys, moves: seq<D.Move>, rounds: seq<I.Round>, end: Sys)
    requires Permutes(h) && Consistent(s) && Peopled(h, s.store) && Leads(h, s, 1, moves, rounds, end)
    ensures Consistent(end) && Peopled(h, end.store) && Extends(s.store, end.store)
  {
    hide Consistent, Extends, Peopled;
    EndKeeps(h, s, moves);
    D.ConsistentIntact(end);
    PeopledStays(h, s.store, end.store);
  }

  function MailMoves(now: nat): seq<D.Move> {
    SingleMoves([ReadEvent(0, MAIL)]) + [D.Single(Take(0))] + SingleMoves(AnswerEvents(now, 4))
  }

  lemma TakeLeads(h: Host, s: Sys)
    requires Enabled(s, Take(0)) && 1 < |s.conns| && s.queue[0].client != 1
    ensures Leads(h, s, 1, [D.Single(Take(0))], [], Next(h, s, Take(0)))
  {
    D.SingleIs(h, s, Take(0));
    OneMoveLeads(h, s, 1, D.Single(Take(0)));
  }

  lemma OneMoveLeads(h: Host, s: Sys, c: nat, m: D.Move)
    requires c < |s.conns| && D.Orderly(h, s, c, m)
    ensures Leads(h, s, c, [m], D.RoundOf(s, m), After(h, s, D.Played(m)))
  {
    hide D.Orderly, D.Played, After, D.RoundOf;
    var moves := [m];
    var s' := After(h, s, D.Played(m));
    assert moves[1..] == [] && moves[0] == m;
    assert D.End(h, s', moves[1..]) == s' && D.Plays(h, s', c, moves[1..]);
    var none: seq<I.Round> := D.Rounds(h, s', moves[1..]);
    assert none == [];
    assert D.RoundOf(s, m) + none == D.RoundOf(s, m);
    assert D.Plays(h, s, c, moves) && D.Rounds(h, s, moves) == D.RoundOf(s, m) && D.End(h, s, moves) == s';
  }

  lemma AnswerUnhindered(now: nat, steps: nat)
    ensures forall i :: 0 <= i < |AnswerEvents(now, steps)| ==> Unhindered(AnswerEvents(now, steps)[i])
  {
    WorksOnly(now, steps);
  }

  lemma {:induction false} WorksOnly(now: nat, steps: nat)
    ensures forall i :: 0 <= i < |D.Works(0, now, steps)| ==> D.Works(0, now, steps)[i] == Work(0, now)
  {
    if steps > 0 {
      WorksOnly(now, steps - 1);
    }
  }

  /** One message, sent and answered. */
  lemma MailLeads(h: Host, s: Sys, now: nat) returns (end: Sys)
    requires Ready(h, s)
    ensures Leads(h, s, 1, MailMoves(now), [], end) && Ready(h, end)
    ensures end.store == WithMessage(s.store, I.Note(2, now)) && end.conns[1] == s.conns[1]
  {
    hide Consistent, Peopled, Leads, Next, Enabled, After, Brings, D.EndsAt, MAIL, MAIL_TASK, SingleMoves, AnswerEvents;
    TheyBring(s.conns[0], "");
    Arrives(h, s, MAIL, MAIL_TASK);
    var s1 := Next(h, s, ReadEvent(0, MAIL));
    var s2 := Next(h, s1, Take(0));
    MailSteps(h, s.store, now);
    Answered(h, s2, MAIL_TASK, now, 3, WithMessage(s.store, I.Note(2, now)), OkStatus);
    end := After(h, s2, AnswerEvents(now, 4));
    D.SingleIs(h, s, ReadEvent(0, MAIL));
    SingleMovesLead(h, s, [ReadEvent(0, MAIL)]);
    TakeLeads(h, s1);
    AnswerUnhindered(now, 4);
    SingleMovesLead(h, s2, AnswerEvents(now, 4));
    LeadsJoin(h, s, 1, SingleMoves([ReadEvent(0, MAIL)]), [], s1, [D.Single(Take(0))], [], s2);
    LeadsJoin(h, s, 1, SingleMoves([ReadEvent(0, MAIL)]) + [D.Single(Take(0))], [] + [], s2,
              SingleMoves(AnswerEvents(now, 4)), [], end);
    var none: seq<I.Round> := [];
    assert none + none + none == none;
    LeadsKeep(h, s, MailMoves(now), [], end);
  }

  // ------------------------------------------------------------- one poll

  function PollMoves(now: nat, steps: nat): seq<D.Move> {
    [D.Single(Tick(1, now))] + [D.Scan(0, now, steps)] + [D.Single(WriteEvent(1, 0, true))]
  }

  lemma Ticks(h: Host, s: Sys, now: nat)
    requires Ready(h, s)
    ensures Enabled(s, Tick(1, now)) && D.Orderly(h, s, 1, D.Single(Tick(1, now)))
    ensures var s1 := Next(h, s, Tick(1, now));
            && |s1.conns| == 2 && s1.store == s.store && s1.workers == [None] && |s1.queue| == 1
            && s1.conns[0] == s.conns[0] && Listening(s1.conns[1])
            && s1.queue[0].client == 1 && s1.queue[0].uid == 2 && P.Admitted(h, s.store, s1.queue[0])
  {
    Addressee(h, s.store);
    hide Consistent, UserById, UsersByName, Intact;
  }

  lemma Written(h: Host, s: Sys, k: Conn, pc: Pc, log: seq<Message>, at: seq<nat>, ping: bool)
    requires |s.conns| == 2 && Listening(k) && P.EndsWith(log, at, ping, pc)
    requires s.conns[1] == if pc.Send? then Replied(k, pc.reply) else k
    ensures D.Orderly(h, s, 1, D.Single(WriteEvent(1, 0, true)))
    ensures var s' := if Enabled(s, WriteEvent(1, 0, true)) then Next(h, s, WriteEvent(1, 0, true)) else s;
            && s'.store == s.store && s'.queue == s.queue && s'.workers == s.workers && |s'.conns| == 2
            && s'.conns[0] == s.conns[0] && Listening(s'.conns[1])
  {
    hide P.Gathered, MaxTimestamp;
  }

  /** One tick, its scan and the write of its batch. */
  lemma PollLeads(h: Host, s: Sys, now: nat) returns (steps: nat, r: I.Round, end: Sys)
    requires Ready(h, s)
    ensures Leads(h, s, 1, PollMoves(now, steps), [r], end) && Ready(h, end)
    ensures r.log == s.store.messages && 2 in r.ids && I.Distinct(r.ids) && Extends(s.store, end.store)
  {
    hide Consistent, Peopled, Leads, Next, Enabled, After, D.EndsAt, Listening, Reading, P.Admitted, P.EndsWith;
    hide D.Played, D.Orderly, Extends, I.Batch, Intact, D.Spoken, Replied, ChatIdsOf, I.Distinct;
    Ticks(h, s, now);
    var s1 := Next(h, s, Tick(1, now));
    D.SingleIs(h, s, Tick(1, now));
    TickPlayed(now);
    EveryRun(h, s, [Tick(1, now)]);
    FreeWorker(s1);
    steps := D.ScanCanEnd(h, s1, 1, 0, now);
    var st, pc := D.ScanEnds(h, s1, 1, 0, now, steps);
    var s2 := After(h, s1, D.Played(D.Scan(0, now, steps)));
    var t := s1.queue[0];
    Written(h, s2, s1.conns[1], pc, s1.store.messages,
            I.Batch(s1.store.messages, ChatIdsOf(s1.store.chatuser, t.uid), t.ts), t.ping);
    D.SingleIs(h, s2, WriteEvent(1, 0, true));
    WritePlayed();
    end := After(h, s2, D.Played(D.Single(WriteEvent(1, 0, true))));
    r := D.RoundAt(s1);
    OneMoveLeads(h, s, 1, D.Single(Tick(1, now)));
    OneMoveLeads(h, s1, 1, D.Scan(0, now, steps));
    OneMoveLeads(h, s2, 1, D.Single(WriteEvent(1, 0, true)));
    LeadsJoin(h, s, 1, [D.Single(Tick(1, now))], [], s1, [D.Scan(0, now, steps)], [r], s2);
    LeadsJoin(h, s, 1, [D.Single(Tick(1, now))] + [D.Scan(0, now, steps)], [] + [r], s2,
              [D.Single(WriteEvent(1, 0, true))], [], end);
    assert [] + [r] + [] == [r];
    LeadsKeep(h, s, PollMoves(now, steps), [r], end);
    ListenerIsMember(h, s.store);
  }

  lemma ListenerIsMember(h: Host, s: Storage)
    requires Peopled(h, s)
    ensures 2 in ChatIdsOf(s.chatuser, 2) && I.Distinct(ChatIdsOf(s.chatuser, 2))
  {
    P.MembersDistinct(s, 2);
  }

  lemma TickPlayed(now: nat)
    ensures D.Played(D.Single(Tick(1, now))) == [Tick(1, now)]
  {
  }

  lemma WritePlayed()
    ensures D.Played(D.Single(WriteEvent(1, 0, true))) == [WriteEvent(1, 0, true)]
  {
  }

  lemma FreeWorker(s: Sys)
    requires s.workers == [None] && |s.queue| == 1
    ensures Enabled(s, Take(0)) && s.workers[0 := None] == [None] && s.queue[1..] == []
  {
  }

  // ---------------------------------------------------------- the opening

  function Signing(name: string): seq<Event> {
    [ReadEvent(0, Sign(name)), Take(0)] + AnswerEvents(0, 2)
  }

  /** The second connection is made, and asks to poll from the very beginning. */
  const JOINING := [Accept, Handshake(1, true), ReadEvent(1, LISTEN), WriteEvent(1, 0, true)]

  /** A first connection, over which two users are created, and a second one that polls for the second of them. */
  function Opening(): seq<Event> {
    [Accept, Handshake(0, true)] + Signing("ann") + Signing("bob") + JOINING
  }

  lemma UnfoldTwo(h: Host, s: Sys, a: Event, b: Event)
    requires Enabled(s, a) && Enabled(Next(h, s, a), b)
    ensures After(h, s, [a, b]) == Next(h, Next(h, s, a), b)
  {
    hide Next, Enabled;
    assert [a, b][1..] == [b];
    D.SingleIs(h, Next(h, s, a), b);
  }

  lemma Signed(h: Host, s: Sys, name: string)
    requires s.conns != [] && AtEase(s) && Reading(s.conns[0])
    requires !UserNameTaken(s.store.users, name) && s.store.userAutoincrement > 0
    ensures var end := After(h, s, Signing(name));
            && AtEase(end) && Beside(s, end) && Reading(end.conns[0])
            && end.store == WithUser(s.store, name, h.digest(""), ONLY_STORAGE).0
  {
    hide Next, Enabled, After, Brings, D.EndsAt, Sign, SignTask, AnswerEvents, UserNameTaken, WithUser;
    TheyBring(s.conns[0], name);
    Arrives(h, s, Sign(name), SignTask(name));
    var s1 := Next(h, s, ReadEvent(0, Sign(name)));
    var s2 := Next(h, s1, Take(0));
    UnfoldTwo(h, s, ReadEvent(0, Sign(name)), Take(0));
    SignSteps(h, s.store, name, 0);
    var (st, u) := WithUser(s.store, name, h.digest(""), ONLY_STORAGE);
    Answered(h, s2, SignTask(name), 0, 1, st, OkUser(u));
    AfterJoin(h, s, [ReadEvent(0, Sign(name)), Take(0)], AnswerEvents(0, 2));
  }

  lemma PollerJoins(h: Host, s: Sys)
    requires |s.conns| == 1
    ensures var end := After(h, s, JOINING);
            && end.store == s.store && end.queue == s.queue && end.workers == s.workers
            && |end.conns| == 2 && end.conns[0] == s.conns[0] && Listening(end.conns[1])
            && end.conns[1].request.ts == 0 && end.conns[1].newest == 0
  {
    Routes();
    hide Route, Lowercased, IDLE_RESOURCE, AllowedType;
    var s1 := Next(h, s, Accept);
    var s2 := Next(h, s1, Handshake(1, true));
    UnfoldTwo(h, s, Accept, Handshake(1, true));
    var s3 := Next(h, s2, ReadEvent(1, LISTEN));
    var s4 := Next(h, s3, WriteEvent(1, 0, true));
    UnfoldTwo(h, s2, ReadEvent(1, LISTEN), WriteEvent(1, 0, true));
    hide After;
    assert JOINING == [Accept, Handshake(1, true)] + [ReadEvent(1, LISTEN), WriteEvent(1, 0, true)];
    AfterJoin(h, s, [Accept, Handshake(1, true)], [ReadEvent(1, LISTEN), WriteEvent(1, 0, true)]);
  }

  lemma BothSigned(h: Host)
    ensures !UserNameTaken(EMPTY.users, "ann") && EMPTY.userAutoincrement > 0
    ensures var s := WithUser(EMPTY, "ann", h.digest(""), ONLY_STORAGE).0;
            && !UserNameTaken(s.users, "bob") && s.userAutoincrement > 0
            && var s' := WithUser(s, "bob", h.digest(""), ONLY_STORAGE).0;
               && s'.users == [User1(h), User2(h)] && Chatuser(2, 2) in s'.chatuser && s'.messages == []
  {
    hide ONLY_STORAGE;
    var s := WithUser(EMPTY, "ann", h.digest(""), ONLY_STORAGE).0;
    assert s.users == [User1(h)];
    assert "ann" != "bob";
  }

  lemma Connected(h: Host)
    ensures var s := After(h, Initial(1), [Accept, Handshake(0, true)]);
            AtEase(s) && |s.conns| == 1 && Reading(s.conns[0]) && s.store == EMPTY
  {
    assert Resting(1) == [None];
    UnfoldTwo(h, Initial(1), Accept, Handshake(0, true));
    hide After;
  }

  lemma OpenedBy(h: Host, s: Sys, s0: Sys, s1: Sys, s2: Sys)
    requires s0 == After(h, Initial(1), [Accept, Handshake(0, true)]) && s1 == After(h, s0, Signing("ann"))
    requires s2 == After(h, s1, Signing("bob")) && s == After(h, s2, JOINING)
    ensures s == After(h, Initial(1), Opening())
  {
    hide After, Signing, JOINING;
    var first := [Accept, Handshake(0, true)];
    AfterJoin(h, Initial(1), first, Signing("ann"));
    AfterJoin(h, Initial(1), first + Signing("ann"), Signing("bob"));
    AfterJoin(h, Initial(1), first + Signing("ann") + Signing("bob"), JOINING);
  }

  lemma SamePeople(h: Host, s: Storage)
    requires Intact(s) && s.users == [User1(h), User2(h)] && Chatuser(2, 2) in s.chatuser
    ensures Peopled(h, s)
  {
    hide Intact;
  }

  /** The server gets there: both users exist, nothing has been written, the second one's client polls. */
  lemma Opened(h: Host) returns (s: Sys)
    requires Permutes(h)
    ensures s == After(h, Initial(1), Opening()) && Ready(h, s) && s.store.messages == []
    ensures D.BegunPolling(s, 1) && s.conns[1].request.ts == 0
  {
    BothSigned(h);
    Connected(h);
    hide After, Consistent, WithUser, UserNameTaken, JOINING, Signing, Listening, Reading, EMPTY, Opening, User1, User2;
    hide Initial, Peopled;
    var s0 := After(h, Initial(1), [Accept, Handshake(0, true)]);
    Signed(h, s0, "ann");
    var s1 := After(h, s0, Signing("ann"));
    Signed(h, s1, "bob");
    var s2 := After(h, s1, Signing("bob"));
    PollerJoins(h, s2);
    s := After(h, s2, JOINING);
    OpenedBy(h, s, s0, s1, s2);
    RunConsistent(h, 1, Opening());
    D.ConsistentIntact(s);
    SamePeople(h, s.store);
    BeginsThere(s);
  }

  lemma BeginsThere(s: Sys)
    requires AtEase(s) && |s.conns| == 2 && Listening(s.conns[1]) && s.conns[1].newest == 0
    ensures D.BegunPolling(s, 1)
  {
  }

  // ---------------------------------------------------------- what is lost

  lemma {:induction false} FirstBatch(rounds: seq<I.Round>, k: nat)
    requires rounds != []
    ensures k in I.Polled(0, rounds).batches[0] <==> I.Due(rounds[0].log, rounds[0].ids, 0, k)
  {
    hide I.Polled, I.Batch, I.LevelAt, I.Due;
    I.LevelAtStart(0, rounds);
    I.BatchAt(0, rounds, 0);
    I.TickDelivers(rounds[0].log, rounds[0].ids, 0, k);
  }

  lemma LastThreeDue(ids: seq<nat>, k: nat)
    requires 2 in ids && k < 4
    ensures I.Due(I.FourNotes(2), ids, 0, k) <==> k > 0
  {
    hide I.Rivals;
    I.RivalsOf(2, I.FourNotes(2));
  }

  lemma FourAreInOrder()
    ensures H.InOrder(I.FourNotes(2)) && |I.FourNotes(2)| == 4 && I.FourNotes(2)[0].chatTo == 2
  {
  }

  /** Of four messages at the first scan the last three are delivered, whatever comes behind it. */
  lemma {:induction false} FourAtOnce(rounds: seq<I.Round>, k: nat)
    requires rounds != [] && rounds[0].log == I.FourNotes(2) && 2 in rounds[0].ids && I.Saved(rounds) && k < 4
    ensures k in Flatten(I.Polled(0, rounds).batches) <==> k > 0
  {
    hide I.Polled, I.Due, I.Saved, Flatten, I.FourNotes, H.InOrder;
    var batches := I.Polled(0, rounds).batches;
    FirstBatch(rounds, k);
    LastThreeDue(rounds[0].ids, k);
    FourAreInOrder();
    I.InFlatten(batches, k);
    if k == 0 {
      forall i | 0 <= i < |batches|
        ensures 0 !in batches[i]
      {
        if i > 0 {
          I.NoSecondChance(0, rounds, i, 0, 0);
        }
      }
    }
  }

  /** Of two messages of one second the one that is saved behind the other's scan is lost, whatever comes. */
  lemma {:induction false} TwoInOneSecond(rounds: seq<I.Round>, k: nat)
    requires |rounds| > 1 && rounds[0].log == [I.Note(2, 1)] && 2 in rounds[0].ids && I.Saved(rounds)
    requires 0 < k < |rounds[1].log| && rounds[1].log[k] == I.Note(2, 1)
    ensures 0 in Flatten(I.Polled(0, rounds).batches) && k !in Flatten(I.Polled(0, rounds).batches)
  {
    assert rounds[0].log[1..] == [] && I.Rivals(rounds[0].log, 0, 0) == 0;
    hide I.Polled, I.Rivals, I.Saved, Flatten;
    FirstBatch(rounds, 0);
    I.InFlatten(I.Polled(0, rounds).batches, 0);
    I.LateStampIsLost(0, rounds, 0, 0, 1, k);
  }

  /** Every longer run begins with the rounds of this one. */
  lemma LongerRun(h: Host, s: Sys, moves: seq<D.Move>, more: seq<D.Move>, rounds: seq<I.Round>, end: Sys)
    requires Leads(h, s, 1, moves, rounds, end) && D.Run(h, s, 1, moves + more)
    ensures rounds <= D.Rounds(h, s, moves + more) && I.Saved(D.Rounds(h, s, moves + more))
  {
    Joins(h, s, 1, moves, more);
    hide D.Run, D.Plays, D.Rounds, D.End, I.Saved;
    D.RunGrows(h, s, 1, moves + more);
  }

  lemma ReadyRuns(h: Host, s: Sys, moves: seq<D.Move>, rounds: seq<I.Round>, end: Sys)
    requires Ready(h, s) && D.BegunPolling(s, 1) && Leads(h, s, 1, moves, rounds, end) && Ready(h, end)
    ensures D.Run(h, s, 1, moves) && D.AtRest(D.End(h, s, moves), 1)
  {
    hide Consistent, Peopled, D.BegunPolling, D.Plays, D.Rounds, D.End;
  }

  lemma FourLead(h: Host, s: Sys) returns (moves: seq<D.Move>, r: I.Round, end: Sys)
    requires Ready(h, s) && s.store.messages == []
    ensures Leads(h, s, 1, moves, [r], end) && Ready(h, end)
    ensures r.log == I.FourNotes(2) && 2 in r.ids && I.Grows(I.FourNotes(2), end.store.messages)
  {
    hide Ready, Leads, MailMoves, PollMoves, I.Grows, Extends;
    var s1 := MailLeads(h, s, 1);
    var s2 := MailLeads(h, s1, 2);
    var s3 := MailLeads(h, s2, 3);
    var s4 := MailLeads(h, s3, 4);
    var steps;
    steps, r, end := PollLeads(h, s4, 0);
    LeadsJoin(h, s, 1, MailMoves(1), [], s1, MailMoves(2), [], s2);
    LeadsJoin(h, s, 1, MailMoves(1) + MailMoves(2), [] + [], s2, MailMoves(3), [], s3);
    LeadsJoin(h, s, 1, MailMoves(1) + MailMoves(2) + MailMoves(3), [] + [] + [], s3, MailMoves(4), [], s4);
    var mails := MailMoves(1) + MailMoves(2) + MailMoves(3) + MailMoves(4);
    LeadsJoin(h, s, 1, mails, [] + [] + [] + [], s4, PollMoves(0, steps), [r], end);
    moves := mails + PollMoves(0, steps);
    var none: seq<I.Round> := [];
    assert none + none + none + none + [r] == [r];
    assert s4.store.messages == I.FourNotes(2);
    I.ExtendsGrows(s4.store, end.store);
  }

  /** Four messages between two polls: the last three arrive, and the first never does. */
  lemma FourthIsLost(h: Host) returns (s: Sys, moves: seq<D.Move>)
    requires Permutes(h)
    ensures s == After(h, Initial(1), Opening()) && D.Run(h, s, 1, moves) && D.AtRest(D.End(h, s, moves), 1)
    ensures I.Grows(I.FourNotes(2), D.End(h, s, moves).store.messages)
    ensures forall more, k: nat :: D.Run(h, s, 1, moves + more) && k < 4 ==>
              (k in Flatten(D.BatchesOf(h, s, 1, moves + more)) <==> k > 0)
  {
    s := Opened(h);
    hide After, Initial, Opening, Ready, Leads, D.BegunPolling, D.Run, D.AtRest, D.End, Flatten, I.Grows;
    hide I.Saved, I.Polled, D.Rounds, I.FourNotes, Permutes;
    var r, end;
    moves, r, end := FourLead(h, s);
    ReadyRuns(h, s, moves, [r], end);
    LeadsEnd(h, s, moves, [r], end);
    D.BegunExists(s, 1);
    forall more, k: nat | D.Run(h, s, 1, moves + more) && k < 4
      ensures k in Flatten(D.BatchesOf(h, s, 1, moves + more)) <==> k > 0
    {
      LongerRun(h, s, moves, more, [r], end);
      FourAtOnce(D.Rounds(h, s, moves + more), k);
    }
  }

  lemma LeadsEnd(h: Host, s: Sys, moves: seq<D.Move>, rounds: seq<I.Round>, end: Sys)
    requires Leads(h, s, 1, moves, rounds, end)
    ensures D.End(h, s, moves) == end
  {
  }

  lemma TwoLead(h: Host, s: Sys) returns (moves: seq<D.Move>, r: I.Round, r': I.Round, k: nat, end: Sys)
    requires Ready(h, s) && s.store.messages == []
    ensures Leads(h, s, 1, moves, [r, r'], end) && Ready(h, end)
    ensures r.log == [I.Note(2, 1)] && 2 in r.ids && 0 < k < |r'.log| && r'.log[k] == I.Note(2, 1)
    ensures k < |end.store.messages|
    ensures SameMessage(end.store.messages[0], I.Note(2, 1)) && SameMessage(end.store.messages[k], I.Note(2, 1))
  {
    hide Ready, Leads, MailMoves, PollMoves, I.Note;
    var s1 := MailLeads(h, s, 1);
    var steps, s2, steps';
    steps, r, s2 := PollLeads(h, s1, 0);
    var s3 := MailLeads(h, s2, 1);
    steps', r', end := PollLeads(h, s3, 0);
    LeadsJoin(h, s, 1, MailMoves(1), [], s1, PollMoves(0, steps), [r], s2);
    LeadsJoin(h, s, 1, MailMoves(1) + PollMoves(0, steps), [] + [r], s2, MailMoves(1), [], s3);
    var three := MailMoves(1) + PollMoves(0, steps) + MailMoves(1);
    LeadsJoin(h, s, 1, three, [] + [r] + [], s3, PollMoves(0, steps'), [r'], end);
    moves := three + PollMoves(0, steps');
    assert [] + [r] + [] + [r'] == [r, r'];
    k := |s2.store.messages|;
    assert SameMessage(s1.store.messages[0], s2.store.messages[0]);
    assert SameMessage(s3.store.messages[0], end.store.messages[0]);
    assert SameMessage(s3.store.messages[k], end.store.messages[k]);
  }

  /** Two messages of one second with a poll between them: the first arrives, and the second never does. */
  lemma SameSecondIsLost(h: Host) returns (s: Sys, moves: seq<D.Move>, k: nat)
    requires Permutes(h)
    ensures s == After(h, Initial(1), Opening()) && D.Run(h, s, 1, moves) && D.AtRest(D.End(h, s, moves), 1)
    ensures var log := D.End(h, s, moves).store.messages;
            0 < k < |log| && SameMessage(log[0], I.Note(2, 1)) && SameMessage(log[k], I.Note(2, 1))
    ensures forall more :: D.Run(h, s, 1, moves + more) ==>
              var at := Flatten(D.BatchesOf(h, s, 1, moves + more)); 0 in at && k !in at
  {
    s := Opened(h);
    hide After, Initial, Opening, Ready, Leads, D.BegunPolling, D.Run, D.AtRest, D.End, Flatten;
    hide I.Saved, I.Polled, D.Rounds, I.Note, Permutes;
    var r, r', end;
    moves, r, r', k, end := TwoLead(h, s);
    ReadyRuns(h, s, moves, [r, r'], end);
    LeadsEnd(h, s, moves, [r, r'], end);
    D.BegunExists(s, 1);
    forall more | D.Run(h, s, 1, moves + more)
      ensures var at := Flatten(D.BatchesOf(h, s, 1, moves + more)); 0 in at && k !in at
    {
      LongerRun(h, s, moves, more, [r, r'], end);
      TwoInOneSecond(D.Rounds(h, s, moves + more), k);
    }
  }
}
