// Two promises about every connection, in every interleaving: one operation in flight on a connection
// that does not poll, and a safe cursor on one that does.
module InFlight {
  import opened Wrappers
  import opened Text
  import opened Tables
  import opened Integrity
  import opened Worker
  import opened Ledger
  import opened Session
  import opened Server

  // ---------------------------------------------------------------- counting

  function Queued(q: seq<Task>, c: nat): nat {
    if q == [] then 0 else (if q[0].client == c then 1 else 0) + Queued(q[1..], c)
  }

  function Mine(w: Option<Job>, c: nat): nat {
    if w.Some? && w.value.task.client == c then 1 else 0
  }

  function Running(ws: seq<Option<Job>>, c: nat): nat {
    if ws == [] then 0 else Mine(ws[0], c) + Running(ws[1..], c)
  }

  lemma {:induction false} QueuedPush(q: seq<Task>, t: Task, c: nat)
    ensures Queued(q + [t], c) == Queued(q, c) + if t.client == c then 1 else 0
  {
    if q == [] {
      assert q + [t] == [t] && [t][1..] == [];
    } else {
      assert (q + [t])[1..] == q[1..] + [t];
      QueuedPush(q[1..], t, c);
    }
  }

  lemma {:induction false} QueuedNone(q: seq<Task>, c: nat)
    ensures Queued(q, c) == 0 <==> forall i :: 0 <= i < |q| ==> q[i].client != c
  {
    if q != [] {
      QueuedNone(q[1..], c);
      assert forall i :: 0 < i < |q| ==> q[i] == q[1..][i - 1];
    }
  }

  lemma {:induction false} RunningUpdate(ws: seq<Option<Job>>, w: nat, x: Option<Job>, c: nat)
    requires w < |ws|
    ensures Running(ws[w := x], c) + Mine(ws[w], c) == Running(ws, c) + Mine(x, c)
  {
    if w == 0 {
      assert ws[w := x][1..] == ws[1..];
    } else {
      assert ws[w := x][1..] == ws[1..][w - 1 := x];
      RunningUpdate(ws[1..], w - 1, x, c);
    }
  }

  lemma {:induction false} RunningNone(ws: seq<Option<Job>>, c: nat)
    ensures Running(ws, c) == 0 <==> forall w :: 0 <= w < |ws| ==> Mine(ws[w], c) == 0
  {
    if ws != [] {
      RunningNone(ws[1..], c);
      assert forall w :: 0 < w < |ws| ==> ws[w] == ws[1..][w - 1];
    }
  }

  /** Everything pending for a connection: handshake, reads, writes, queued and running tasks. */
  function Pending(s: Sys, c: nat): nat
    requires c < |s.conns|
  {
    var k := s.conns[c];
    (if k.handshake then 1 else 0) + k.reading + |k.writing| + Queued(s.queue, c) + Running(s.workers, c)
  }

  // -------------------------------------------------------------- invariants

  /** A task of a connection that does not poll. */
  predicate Plain(k: Conn, t: Task) {
    !t.cmd.Idle? && (Unanswered(t.cmd) ==> k.stalled)
  }

  /** A task of a connection that polls. */
  predicate Poll(k: Conn, t: Task) {
    t.cmd.Idle? && t.ts <= k.request.ts
  }

  ghost predicate AllTasks(s: Sys, c: nat, p: Task -> bool) {
    && (forall i :: 0 <= i < |s.queue| && s.queue[i].client == c ==> p(s.queue[i]))
    && (forall w :: 0 <= w < |s.workers| && s.workers[w].Some? && s.workers[w].value.task.client == c ==>
          p(s.workers[w].value.task))
  }

  /** One operation in flight; none is lost before an error or a CHAT_HISTORY request. */
  ghost predicate Quiet(s: Sys, c: nat)
    requires c < |s.conns|
  {
    var k := s.conns[c];
    && Pending(s, c) <= 1
    && (!k.failed && !k.stalled ==> Pending(s, c) == 1)
    && !k.clobbered && k.timers == 0 && k.newest == 0
    && (forall i :: 0 <= i < |k.writing| ==> k.writing[i].Response?)
    && AllTasks(s, c, (t: Task) => Plain(k, t))
  }

  predicate BatchHonest(w: Write) {
    w.IdleStart? || (w.IdleBatch? && (w.newest == 0 || HasStamp(w.msgs, w.newest)))
  }

  /** The cursor is where polling began or at a message that has reached the client. */
  ghost predicate Polling(s: Sys, c: nat)
    requires c < |s.conns|
  {
    var k := s.conns[c];
    && !k.handshake && k.reading == 0 && k.request.cmd.Idle?
    && (forall i :: 0 <= i < |k.writing| ==> BatchHonest(k.writing[i]))
    && (k.request.ts == k.start || HasStamp(k.received, k.request.ts))
    && (k.newest == 0 || HasStamp(k.received, k.newest))
    && AllTasks(s, c, (t: Task) => Poll(k, t))
  }

  ghost predicate Kept(s: Sys, c: nat)
    requires c < |s.conns|
  {
    var k := s.conns[c];
    if !k.idle then Quiet(s, c) else k.refused || Polling(s, c)
  }

  /** Every task belongs to a connection that exists. */
  ghost predicate Known(s: Sys) {
    && (forall i :: 0 <= i < |s.queue| ==> s.queue[i].client < |s.conns|)
    && (forall w :: 0 <= w < |s.workers| && s.workers[w].Some? ==> s.workers[w].value.task.client < |s.conns|)
  }

  ghost predicate AllKept(s: Sys) {
    Known(s) && forall c :: 0 <= c < |s.conns| ==> Kept(s, c)
  }

  // ------------------------------------------------------------ every event

  lemma KeptAccept(s: Sys, c: nat)
    requires AllKept(s) && c <= |s.conns|
    ensures Kept(s.(conns := s.conns + [ACCEPTED]), c)
  {
    var s' := s.(conns := s.conns + [ACCEPTED]);
    if c < |s.conns| {
      assert s'.conns[c] == s.conns[c];
      assert Kept(s, c);
    } else {
      QueuedNone(s.queue, c);
      RunningNone(s.workers, c);
    }
  }

  /** An event of connection d that queues nothing concerns no other connection. */
  lemma KeptElsewhere(s: Sys, d: nat, k: Conn, c: nat)
    requires d < |s.conns| && c < |s.conns| && c != d && Kept(s, c)
    ensures Kept(s.(conns := s.conns[d := k]), c)
  {
  }

  lemma KeptElsewherePush(s: Sys, d: nat, k: Conn, t: Task, c: nat)
    requires d < |s.conns| && c < |s.conns| && c != d && Kept(s, c) && t.client == d
    ensures Kept(Push(s.(conns := s.conns[d := k]), t), c)
  {
    QueuedPush(s.queue, t, c);
  }

  lemma KeptHandshake(s: Sys, c: nat, ok: bool)
    requires c < |s.conns| && s.conns[c].handshake && Kept(s, c)
    ensures Kept(s.(conns := s.conns[c := HandshakeDone(s.conns[c], ok)]), c)
  {
  }

  lemma KeptWrite(s: Sys, c: nat, i: nat, ok: bool)
    requires c < |s.conns| && i < |s.conns[c].writing| && Kept(s, c)
    ensures Kept(s.(conns := s.conns[c := WriteDone(s.conns[c], i, ok)]), c)
  {
    var k := s.conns[c];
    if k.idle && k.writing[i].IdleBatch? && ok {
      forall ts: nat | HasStamp(k.received, ts) || HasStamp(k.writing[i].msgs, ts)
        ensures HasStamp(k.received + k.writing[i].msgs, ts)
      {
        StampStays(k.received, k.writing[i].msgs, ts);
      }
    }
    hide HasStamp;
  }

  lemma KeptDrop(s: Sys, c: nat)
    requires c < |s.conns| && s.conns[c].timers > 0 && Kept(s, c)
    ensures Kept(s.(conns := s.conns[c := TimerDropped(s.conns[c])]), c)
  {
  }

  /** With a read pending nothing else is: no write to overwrite, no task under way. */
  lemma OnlyTheRead(s: Sys, c: nat)
    requires c < |s.conns| && s.conns[c].reading > 0 && Pending(s, c) <= 1
    ensures s.conns[c].reading == 1 && !s.conns[c].handshake && s.conns[c].writing == []
    ensures Queued(s.queue, c) == 0 && Running(s.workers, c) == 0
    ensures forall i :: 0 <= i < |s.queue| ==> s.queue[i].client != c
    ensures forall w :: 0 <= w < |s.workers| && s.workers[w].Some? ==> s.workers[w].value.task.client != c
  {
    QueuedNone(s.queue, c);
    RunningNone(s.workers, c);
    forall w | 0 <= w < |s.workers| && s.workers[w].Some?
      ensures s.workers[w].value.task.client != c
    {
      assert Mine(s.workers[w], c) == 0;
    }
  }

  lemma KeptRead(s: Sys, c: nat, input: Incoming)
    requires c < |s.conns| && s.conns[c].reading > 0 && Kept(s, c)
    ensures var (k, task) := ReadDone(s.conns[c], c, input);
            var s' := s.(conns := s.conns[c := k]);
            Kept(if task.Some? then Push(s', task.value) else s', c)
  {
    hide AllTasks, ReadDone, Plain, Poll;
    if !s.conns[c].idle {
      OnlyTheRead(s, c);
      ReadAlone(s.conns[c], c, input);
      var (k, task) := ReadDone(s.conns[c], c, input);
      var s' := s.(conns := s.conns[c := k]);
      NoTasks(s', c, (t: Task) => Plain(k, t));
      NoTasks(s', c, (t: Task) => Poll(k, t));
      if task.Some? {
        QueuedPush(s.queue, task.value, c);
        OneTask(s', c, task.value, (t: Task) => Plain(k, t));
      }
    } else {
      ReadWhilePolling(s.conns[c], c, input);
    }
  }

  lemma ReadWhilePolling(k: Conn, c: nat, input: Incoming)
    requires k.idle && k.reading > 0
    ensures var k' := ReadDone(k, c, input).0; k'.idle && k'.refused == k.refused
  {
    hide Route, IDLE_RESOURCE, Lowercased, IdleAsked, Handled;
  }

  /** What a lone read turns into: an error, one write, one plain task, or polling. */
  lemma ReadAlone(k: Conn, c: nat, input: Incoming)
    requires !k.idle && !k.handshake && k.reading == 1 && k.writing == []
    ensures var (k', task) := ReadDone(k, c, input);
            && !k'.handshake && k'.reading == 0 && k'.clobbered == k.clobbered
            && k'.newest == k.newest && k'.refused == k.refused
            && k'.received == k.received && k'.positions == k.positions
            && (task.Some? ==> !k'.idle && k'.writing == [] && Plain(k', task.value) && task.value.client == c)
            && (!k'.idle ==> k'.timers == k.timers
                             && ((|k'.writing| == 1 && k'.writing[0].Response?)
                                 || (k'.writing == [] && (k'.failed || task.Some?))))
            && (k'.idle ==> k'.writing == [IdleStart] && k'.request.cmd.Idle? && k'.request.ts == k'.start)
  {
    hide Route, AllowedType, IDLE_RESOURCE, ONLY_STORAGE, Plain, Lowercased;
    match input
    case Broken =>
    case Request(asSent, contentType, parsed, refused) =>
      var resource := Lowercased(asSent);
      if resource != IDLE_RESOURCE && Route(resource).Some? && AllowedType(contentType) && !refused {
        var (k', task) := ReadDone(k, c, input);
        assert Plain(k', task.value) by {
          RouteIsPlain(resource);
          PlainTask(k', task.value);
        }
      }
  }

  lemma PlainTask(k: Conn, t: Task)
    requires !t.cmd.Idle? && (Unanswered(t.cmd) ==> k.stalled)
    ensures Plain(k, t)
  {
  }

  lemma NoTasks(s: Sys, c: nat, p: Task -> bool)
    requires forall i :: 0 <= i < |s.queue| ==> s.queue[i].client != c
    requires forall w :: 0 <= w < |s.workers| && s.workers[w].Some? ==> s.workers[w].value.task.client != c
    ensures AllTasks(s, c, p)
  {
  }

  lemma OneTask(s: Sys, c: nat, t: Task, p: Task -> bool)
    requires AllTasks(s, c, p) && p(t)
    ensures AllTasks(Push(s, t), c, p)
  {
  }

  lemma RouteIsPlain(resource: string)
    ensures Route(resource).Some? ==>
              var cmd := Route(resource).value; !cmd.Idle? && (Unanswered(cmd) <==> cmd.ChatHistory?)
  {
  }

  lemma KeptTick(s: Sys, c: nat, now: nat)
    requires c < |s.conns| && s.conns[c].timers > 0 && Kept(s, c)
    ensures var (k, task) := Ticked(s.conns[c], c, now);
            Kept(Push(s.(conns := s.conns[c := k]), task), c)
  {
  }

  lemma KeptTake(s: Sys, w: nat, c: nat)
    requires w < |s.workers| && s.workers[w].None? && s.queue != [] && c < |s.conns| && Kept(s, c)
    ensures Kept(s.(queue := s.queue[1..], taken := s.taken + [s.queue[0]],
                    workers := s.workers[w := Some(Job(s.queue[0], Start, NOTHING))]), c)
  {
    RunningUpdate(s.workers, w, Some(Job(s.queue[0], Start, NOTHING)), c);
  }

  /** A task that ends without having sent anything is a poll or a command without an answer. */
  lemma SilentEnd(h: Host, store: Storage, job: Job, now: nat)
    requires IdsCount(store) && Balanced(job.task, job.pc, job.account) && !job.pc.Done?
    ensures Step(h, store, job.task, job.pc, now).1.Done? && !job.pc.Send? ==>
              job.task.cmd.Idle? || Unanswered(job.task.cmd)
    ensures job.pc.Send? ==> Step(h, store, job.task, job.pc, now) == (store, Done)
    ensures job.pc.Send? ==> (job.task.cmd.Idle? <==> job.pc.reply.IdleMessages?) || job.pc.reply.Error?
    ensures job.pc.Send? && job.pc.reply.IdleMessages? ==> job.task.cmd.Idle?
  {
    StepBalances(h, store, job.task, job.pc, job.account, now);
    hide Step, IdsCount;
  }

  lemma WorkElsewhere(h: Host, s: Sys, w: nat, now: nat, c: nat)
    requires Enabled(s, Work(w, now)) && c < |s.conns| && Kept(s, c)
    requires s.workers[w].value.task.client != c
    ensures Kept(WorkOn(h, s, w, now), c)
  {
    hide Step, Booked, Replied;
    var s' := WorkOn(h, s, w, now);
    RunningUpdate(s.workers, w, s'.workers[w], c);
    assert s'.conns[c] == s.conns[c];
  }

  lemma WorkTasks(h: Host, s: Sys, w: nat, now: nat, c: nat, p: Task -> bool)
    requires Enabled(s, Work(w, now)) && AllTasks(s, c, p)
    ensures AllTasks(WorkOn(h, s, w, now), c, p)
  {
    hide Step, Booked, Replied;
  }

  lemma WorkQuiet(h: Host, s: Sys, w: nat, now: nat)
    requires Enabled(s, Work(w, now)) && IdsCount(s.store)
    requires var job := s.workers[w].value; Balanced(job.task, job.pc, job.account) && !job.pc.Done?
    requires var c := s.workers[w].value.task.client; !s.conns[c].idle && Quiet(s, c)
    ensures Kept(WorkOn(h, s, w, now), s.workers[w].value.task.client)
  {
    var job := s.workers[w].value;
    var c := job.task.client;
    var k := s.conns[c];
    assert Plain(k, job.task);
    hide Step, Booked, Balanced, IdsCount, Settled, Replied;
    var s' := WorkOn(h, s, w, now);
    SilentEnd(h, s.store, job, now);
    RunningUpdate(s.workers, w, s'.workers[w], c);
    WorkTasks(h, s, w, now, c, (t: Task) => Plain(k, t));
    hide AllTasks;
    if job.pc.Send? {
      RepliedQuietly(k, job.pc.reply);
      SamePlain(s', c, k, Replied(k, job.pc.reply));
    }
  }

  lemma RepliedQuietly(k: Conn, reply: Reply)
    requires !k.idle && !reply.IdleMessages? && k.writing == []
    ensures exists code :: Replied(k, reply) == k.(writing := [Response(code)])
  {
    assert Replied(k, reply) == k.(writing := [Response(if reply.Error? then reply.code else 200)]);
  }

  lemma SamePlain(s: Sys, c: nat, k: Conn, k': Conn)
    requires k'.stalled == k.stalled && AllTasks(s, c, (t: Task) => Plain(k, t))
    ensures AllTasks(s, c, (t: Task) => Plain(k', t))
  {
  }

  lemma WorkPolling(h: Host, s: Sys, w: nat, now: nat)
    requires Enabled(s, Work(w, now)) && IdsCount(s.store)
    requires var job := s.workers[w].value; Balanced(job.task, job.pc, job.account) && !job.pc.Done?
    requires var c := s.workers[w].value.task.client; s.conns[c].idle && (s.conns[c].refused || Polling(s, c))
    ensures Kept(WorkOn(h, s, w, now), s.workers[w].value.task.client)
  {
    var job := s.workers[w].value;
    var c := job.task.client;
    var k := s.conns[c];
    var s' := WorkOn(h, s, w, now);
    SilentEnd(h, s.store, job, now);
    if !k.refused {
      WorkTasks(h, s, w, now, c, (t: Task) => Poll(k, t));
      assert Poll(k, job.task);
    }
    hide Step, Booked, Balanced, IdsCount, Settled, HasStamp, MaxTimestamp;
  }

  lemma KeptWork(h: Host, s: Sys, w: nat, now: nat, c: nat)
    requires Enabled(s, Work(w, now)) && c < |s.conns| && Kept(s, c) && IdsCount(s.store)
    requires var job := s.workers[w].value; Balanced(job.task, job.pc, job.account) && !job.pc.Done?
    ensures Kept(WorkOn(h, s, w, now), c)
  {
    hide Balanced, IdsCount, Booked, Settled, Step, Quiet, Polling;
    if s.workers[w].value.task.client != c {
      WorkElsewhere(h, s, w, now, c);
    } else if s.conns[c].idle {
      WorkPolling(h, s, w, now);
    } else {
      WorkQuiet(h, s, w, now);
    }
  }

  lemma KnownStep(h: Host, s: Sys, e: Event)
    requires Known(s) && Enabled(s, e)
    ensures Known(Next(h, s, e)) && |s.conns| <= |Next(h, s, e).conns|
  {
    hide Step, Booked, Replied, Route, AllowedType;
  }

  lemma KeptStep(h: Host, s: Sys, e: Event)
    requires Sound(s) && AllKept(s) && Enabled(s, e)
    ensures AllKept(Next(h, s, e))
  {
    KnownStep(h, s, e);
    var s' := Next(h, s, e);
    forall c | 0 <= c < |s'.conns|
      ensures Kept(s', c)
    {
      KeptStepAt(h, s, e, c);
    }
  }

  lemma KeptStepAt(h: Host, s: Sys, e: Event, c: nat)
    requires Sound(s) && AllKept(s) && Enabled(s, e) && c < |Next(h, s, e).conns|
    ensures Kept(Next(h, s, e), c)
  {
    hide Kept, Known, Step, Booked, Carries, Balanced, Settled;
    hide ReadDone, WriteDone, HandshakeDone, Ticked, TimerDropped;
    match e
    case Accept => KeptAccept(s, c);
    case Handshake(d, ok) =>
      if c == d { KeptHandshake(s, c, ok); } else { KeptElsewhere(s, d, HandshakeDone(s.conns[d], ok), c); }
    case ReadEvent(d, input) =>
      var (k, task) := ReadDone(s.conns[d], d, input);
      if c == d { KeptRead(s, c, input); }
      else if task.Some? { ReadTasksClient(s.conns[d], d, input); KeptElsewherePush(s, d, k, task.value, c); }
      else { KeptElsewhere(s, d, k, c); }
    case WriteEvent(d, i, ok) =>
      if c == d { KeptWrite(s, c, i, ok); } else { KeptElsewhere(s, d, WriteDone(s.conns[d], i, ok), c); }
    case Tick(d, now) =>
      var (k, task) := Ticked(s.conns[d], d, now);
      if c == d { KeptTick(s, c, now); }
      else { TickTasksClient(s.conns[d], d, now); KeptElsewherePush(s, d, k, task, c); }
    case DropTimer(d) =>
      if c == d { KeptDrop(s, c); } else { KeptElsewhere(s, d, TimerDropped(s.conns[d]), c); }
    case Take(w) => KeptTake(s, w, c);
    case Work(w, now) => KeptWork(h, s, w, now, c);
  }

  lemma ReadTasksClient(k: Conn, d: nat, input: Incoming)
    requires k.reading > 0
    ensures var (_, task) := ReadDone(k, d, input); task.Some? ==> task.value.client == d
  {
  }

  lemma TickTasksClient(k: Conn, d: nat, now: nat)
    requires k.timers > 0
    ensures Ticked(k, d, now).1.client == d
  {
  }

  // -------------------------------------------------- a connection at rest

  /** Nothing is pending for the connection, and it does not poll. */
  ghost predicate Silent(s: Sys, c: nat) {
    c < |s.conns| && !s.conns[c].idle && Pending(s, c) == 0
  }

  lemma NoneRunning(s: Sys, c: nat)
    requires Silent(s, c)
    ensures forall i :: 0 <= i < |s.queue| ==> s.queue[i].client != c
    ensures forall w :: 0 <= w < |s.workers| && s.workers[w].Some? ==> s.workers[w].value.task.client != c
  {
    QueuedNone(s.queue, c);
    RunningNone(s.workers, c);
    forall w | 0 <= w < |s.workers| && s.workers[w].Some?
      ensures s.workers[w].value.task.client != c
    {
      assert Mine(s.workers[w], c) == 0;
    }
  }

  /** No event reaches such a connection any more. */
  lemma SilentStays(h: Host, s: Sys, e: Event, c: nat)
    requires AllKept(s) && Silent(s, c) && Enabled(s, e)
    ensures Silent(Next(h, s, e), c) && Next(h, s, e).conns[c] == s.conns[c]
  {
    assert Kept(s, c);
    assert s.conns[c].timers == 0;
    NoneRunning(s, c);
    hide AllKept, Quiet, Step, Booked, Replied, ReadDone, WriteDone, HandshakeDone, Ticked, TimerDropped;
    match e
    case Accept =>
    case Handshake(_, _) =>
    case ReadEvent(d, input) =>
      var (_, task) := ReadDone(s.conns[d], d, input);
      if task.Some? {
        ReadTasksClient(s.conns[d], d, input);
        QueuedPush(s.queue, task.value, c);
      }
    case WriteEvent(_, _, _) =>
    case Tick(d, now) =>
      TickTasksClient(s.conns[d], d, now);
      QueuedPush(s.queue, Ticked(s.conns[d], d, now).1, c);
    case DropTimer(_) =>
    case Take(w) => RunningUpdate(s.workers, w, Some(Job(s.queue[0], Start, NOTHING)), c);
    case Work(w, now) => RunningUpdate(s.workers, w, WorkOn(h, s, w, now).workers[w], c);
  }

  /** A command that processQueue does not serve ends in one step, without a reply, and leaves its connection
      with nothing pending. */
  lemma UnansweredEnds(h: Host, s: Sys, w: nat, now: nat)
    requires Sound(s) && AllKept(s) && Enabled(s, Work(w, now))
    requires Unanswered(s.workers[w].value.task.cmd) && !s.conns[s.workers[w].value.task.client].idle
    ensures var c := s.workers[w].value.task.client;
            var s' := WorkOn(h, s, w, now);
            s'.workers[w] == None && s'.conns == s.conns && Silent(s', c)
  {
    var job := s.workers[w].value;
    var c := job.task.client;
    assert Balanced(job.task, job.pc, job.account) && job.pc.Start?;
    assert Kept(s, c);
    assert Pending(s, c) <= 1;
    hide AllKept, Sound, Quiet, Booked, Balanced, Settled;
    assert Step(h, s.store, job.task, job.pc, now) == (s.store, Done);
    hide Step;
    RunningUpdate(s.workers, w, None, c);
  }
}
