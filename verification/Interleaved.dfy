// No message twice, with the polls of a client scanned in pieces: between any two locked sections of a scan other
// workers and connections may do as they like, and a batch may fail to be written. The client's timer alone must
// not fire before its last poll is done with.
module Interleaved {
  import opened Wrappers
  import opened Tables
  import opened Integrity
  import opened Worker
  import opened Ledger
  import opened Session
  import opened Server
  import opened InFlight
  import Runs
  import B = Batches
  import P = Poll
  import I = Idle

  // --------------------------------------------------------------- deliveries

  /** The positions hold messages stamped above one stamp and up to another, from chats of the user. */
  predicate Spans(s: Storage, uid: nat, at: seq<nat>, low: nat, high: nat) {
    forall i :: 0 <= i < |at| ==>
      && at[i] < |s.messages| && low < s.messages[at[i]].ts <= high
      && Chatuser(s.messages[at[i]].chatTo, uid) in s.chatuser
  }

  /** These words are what stands at the positions, no position comes twice, and they lie in the span. */
  ghost predicate Once(s: Storage, uid: nat, msgs: seq<ApiMessage>, at: seq<nat>, low: nat, high: nat) {
    I.Distinct(at) && B.InWordsAt(s, msgs, at) && Spans(s, uid, at, low, high)
  }

  lemma OnceStays(s: Storage, s': Storage, uid: nat, msgs: seq<ApiMessage>, at: seq<nat>, low: nat, high: nat)
    requires Extends(s, s') && Once(s, uid, msgs, at, low, high)
    ensures Once(s', uid, msgs, at, low, high)
  {
    RowStays(s.chatuser, s'.chatuser);
    forall i | 0 <= i < |at|
      ensures at[i] < |s'.messages| && low < s'.messages[at[i]].ts <= high
      ensures Chatuser(s'.messages[at[i]].chatTo, uid) in s'.chatuser
      ensures Refers(s', s'.messages[at[i]]) && msgs[i] == InWords(s', s'.messages[at[i]])
    {
      assert SameMessage(s.messages[at[i]], s'.messages[at[i]]);
      P.SameWords(s, s', s.messages[at[i]], s'.messages[at[i]]);
    }
  }

  function Later(a: nat, b: nat): nat {
    if a > b then a else b
  }

  /** What lies above all that came before comes for the first time. */
  lemma OnceJoins(s: Storage, uid: nat, msgs: seq<ApiMessage>, at: seq<nat>, low: nat, mid: nat,
                  more: seq<ApiMessage>, next: seq<nat>, high: nat)
    requires Once(s, uid, msgs, at, low, mid) && Once(s, uid, more, next, mid, high) && low <= mid
    ensures Once(s, uid, msgs + more, at + next, low, Later(mid, high))
  {
    forall i, j | 0 <= i < j < |at + next|
      ensures (at + next)[i] != (at + next)[j]
    {
      if i < |at| <= j {
        assert s.messages[at[i]].ts <= mid < s.messages[next[j - |at|]].ts;
      }
    }
  }

  // --------------------------------------------------------------- the connection

  /** From where its next poll will ask. */
  function Cursor(k: Conn): nat {
    Later(k.newest, k.request.ts)
  }

  /** A poll that asks for what is above everything delivered. */
  predicate Current(k: Conn, t: Task) {
    t.cmd.Idle? && t.uid == k.request.uid && t.ts == k.request.ts && k.newest <= t.ts
  }

  ghost predicate AllCurrent(s: Sys, c: nat, k: Conn) {
    && (forall i :: 0 <= i < |s.queue| && s.queue[i].client == c ==> Current(k, s.queue[i]))
    && (forall w :: 0 <= w < |s.workers| && s.workers[w].Some? && s.workers[w].value.task.client == c ==>
          Current(k, s.workers[w].value.task))
  }

  /** What is being written is newer than everything delivered. */
  ghost predicate WriteNew(s: Storage, k: Conn, w: Write) {
    && k.newest <= k.request.ts
    && (w.IdleStart? || (w.IdleBatch? && Once(s, k.request.uid, w.msgs, w.at, k.request.ts, w.newest)))
  }

  ghost predicate WritesNew(s: Storage, k: Conn) {
    forall i :: 0 <= i < |k.writing| ==> WriteNew(s, k, k.writing[i])
  }

  ghost predicate UpToDate(s: Storage, k: Conn) {
    && k.idle && !k.handshake && k.reading == 0 && k.request.cmd.Idle? && k.start <= k.request.ts
    && Once(s, k.request.uid, k.received, k.positions, k.start, Cursor(k))
    && WritesNew(s, k)
  }

  ghost predicate Reliable(s: Sys, c: nat)
    requires c < |s.conns|
  {
    var k := s.conns[c];
    if !k.idle then k.received == [] && k.positions == []
    else k.refused || (UpToDate(s.store, k) && Pending(s, c) <= 1 && AllCurrent(s, c, k))
  }

  ghost predicate ReliableIfAny(s: Sys, c: nat) {
    c < |s.conns| ==> Reliable(s, c)
  }

  /** The discipline: connection c ticks only when its poll is answered and the answer written, or lost. */
  predicate Paced(s: Sys, c: nat, e: Event) {
    e.Tick? && e.c == c && c < |s.conns| ==> Pending(s, c) == 0
  }

  predicate PacedRun(h: Host, s: Sys, c: nat, events: seq<Event>)
    decreases |events|
  {
    events == [] ||
    (if Enabled(s, events[0]) then Paced(s, c, events[0]) && PacedRun(h, Next(h, s, events[0]), c, events[1..])
     else PacedRun(h, s, c, events[1..]))
  }

  lemma UpToDateStays(s: Storage, s': Storage, k: Conn)
    requires Extends(s, s') && UpToDate(s, k)
    ensures UpToDate(s', k)
  {
    hide Extends, Once, Cursor;
    OnceStays(s, s', k.request.uid, k.received, k.positions, k.start, Cursor(k));
    forall i | 0 <= i < |k.writing|
      ensures WriteNew(s', k, k.writing[i])
    {
      var w := k.writing[i];
      assert WriteNew(s, k, w);
      if w.IdleBatch? {
        OnceStays(s, s', k.request.uid, w.msgs, w.at, k.request.ts, w.newest);
      }
    }
  }

  // --------------------------------------------------------------- every event

  lemma WriteUpToDate(s: Storage, k: Conn, i: nat, ok: bool)
    requires UpToDate(s, k) && i < |k.writing| && |k.writing| <= 1
    ensures UpToDate(s, WriteDone(k, i, ok)) && WriteDone(k, i, ok).writing == []
  {
    var w := k.writing[i];
    assert WriteNew(s, k, w);
    if w.IdleBatch? && ok {
      OnceJoins(s, k.request.uid, k.received, k.positions, k.start, k.request.ts, w.msgs, w.at, w.newest);
    }
    hide Once;
  }

  lemma TickUpToDate(s: Storage, k: Conn, c: nat, now: nat)
    requires UpToDate(s, k) && k.writing == [] && k.timers > 0
    ensures var (k', t) := Ticked(k, c, now);
            UpToDate(s, k') && k'.writing == [] && k'.refused == k.refused && Current(k', t) && t.client == c
  {
    hide Once;
  }

  lemma DropUpToDate(s: Storage, k: Conn)
    requires UpToDate(s, k) && k.timers > 0
    ensures var k' := TimerDropped(k); UpToDate(s, k') && k'.writing == k.writing && k'.refused == k.refused
    ensures forall t :: Current(k, t) ==> Current(TimerDropped(k), t)
  {
    hide Once;
  }

  /** A connection that begins to poll has been delivered nothing. */
  lemma BeginUpToDate(s: Storage, k: Conn)
    requires k.idle && !k.handshake && k.reading == 0 && k.request.cmd.Idle? && k.start == k.request.ts
    requires k.received == [] && k.positions == [] && k.newest == 0 && k.writing == [IdleStart]
    ensures UpToDate(s, k)
  {
  }

  lemma ReadReliable(s: Sys, c: nat, input: Incoming)
    requires c < |s.conns| && s.conns[c].reading > 0 && Kept(s, c) && Reliable(s, c)
    ensures var (k, task) := ReadDone(s.conns[c], c, input);
            var s' := s.(conns := s.conns[c := k]);
            Reliable(if task.Some? then Push(s', task.value) else s', c)
  {
    hide AllTasks, ReadDone, UpToDate;
    var k := ReadDone(s.conns[c], c, input).0;
    if !s.conns[c].idle {
      OnlyTheRead(s, c);
      ReadAlone(s.conns[c], c, input);
      if k.idle {
        BeginUpToDate(s.store, k);
      }
    } else {
      ReadWhilePolling(s.conns[c], c, input);
      NotReading(s.store, s.conns[c]);
    }
  }

  lemma NotReading(s: Storage, k: Conn)
    requires k.reading > 0
    ensures !UpToDate(s, k)
  {
  }

  lemma NoneCurrent(s: Sys, c: nat, k: Conn)
    requires Queued(s.queue, c) == 0 && Running(s.workers, c) == 0
    ensures AllCurrent(s, c, k)
  {
    QueuedNone(s.queue, c);
    RunningNone(s.workers, c);
    forall w | 0 <= w < |s.workers| && s.workers[w].Some?
      ensures s.workers[w].value.task.client != c
    {
      assert Mine(s.workers[w], c) == 0;
    }
  }

  lemma OneCurrent(s: Sys, c: nat, k: Conn, t: Task)
    requires AllCurrent(s, c, k) && Current(k, t)
    ensures AllCurrent(Push(s, t), c, k)
  {
  }

  lemma CurrentStays(s: Sys, s': Sys, c: nat, k: Conn)
    requires AllCurrent(s, c, k) && s'.queue == s.queue && s'.workers == s.workers
    ensures AllCurrent(s', c, k)
  {
  }

  lemma TickReliable(s: Sys, c: nat, now: nat)
    requires c < |s.conns| && s.conns[c].timers > 0 && Reliable(s, c) && Pending(s, c) == 0
    ensures var (k, task) := Ticked(s.conns[c], c, now);
            Reliable(Push(s.(conns := s.conns[c := k]), task), c)
  {
    var k := s.conns[c];
    if k.idle && !k.refused {
      var (k', t) := Ticked(k, c, now);
      TickUpToDate(s.store, k, c, now);
      hide UpToDate, Ticked, AllCurrent;
      var s' := s.(conns := s.conns[c := k']);
      NoneCurrent(s, c, k');
      CurrentStays(s, s', c, k');
      OneCurrent(s', c, k', t);
      QueuedPush(s.queue, t, c);
    }
  }

  /** A callback of the connection that leaves queue and workers alone. */
  lemma CallbackReliable(s: Sys, c: nat, k: Conn)
    requires c < |s.conns| && Reliable(s, c) && s.conns[c].idle && !s.conns[c].refused
    requires UpToDate(s.store, k) && |k.writing| <= |s.conns[c].writing|
    requires forall t :: Current(s.conns[c], t) && |s.conns[c].writing| == |k.writing| ==> Current(k, t)
    ensures Reliable(s.(conns := s.conns[c := k]), c)
  {
    var s' := s.(conns := s.conns[c := k]);
    if |s.conns[c].writing| == |k.writing| {
      forall i | 0 <= i < |s.queue| && s.queue[i].client == c
        ensures Current(k, s.queue[i])
      {
      }
      hide UpToDate, Current;
    } else {
      hide UpToDate, Current;
      NoneCurrent(s, c, k);
    }
  }

  /** Another connection's event, whose task, if any, is its own. */
  lemma ElsewhereReliable(s: Sys, d: nat, k: Conn, task: Option<Task>, c: nat)
    requires d < |s.conns| && c < |s.conns| && c != d && Reliable(s, c) && (task.Some? ==> task.value.client == d)
    ensures var s' := s.(conns := s.conns[d := k]); Reliable(if task.Some? then Push(s', task.value) else s', c)
  {
    hide UpToDate, Current;
    if task.Some? {
      QueuedPush(s.queue, task.value, c);
    }
  }

  lemma TakeReliable(s: Sys, w: nat, c: nat)
    requires c < |s.conns| && Reliable(s, c) && Enabled(s, Take(w))
    ensures Reliable(s.(queue := s.queue[1..], taken := s.taken + [s.queue[0]],
                      workers := s.workers[w := Some(Job(s.queue[0], Start, NOTHING))]), c)
  {
    hide UpToDate, Current;
    RunningUpdate(s.workers, w, Some(Job(s.queue[0], Start, NOTHING)), c);
  }

  // ------------------------------------------------------------------ a worker's step

  /** The batch about to be sent is new to the client. */
  lemma SendingNew(s: Sys, w: nat)
    requires Sound(s) && B.AllLocated(s) && Runs.Sending(s, w)
    ensures var (t, r) := (s.workers[w].value.task, s.workers[w].value.pc.reply);
            Once(s.store, t.uid, r.msgs, r.at, t.ts, MaxTimestamp(r.msgs))
  {
    var (t, r) := (s.workers[w].value.task, s.workers[w].value.pc.reply);
    hide Sound, B.AllLocated, B.InWordsAt, MaxTimestamp;
    B.SendingLocated(s, w);
    BatchOnce(s.store, t, r);
  }

  lemma BatchOnce(s: Storage, t: Task, r: Reply)
    requires r.IdleMessages? && B.Placed(s, t, r.source, r.at) && B.InWordsAt(s, r.msgs, r.at)
    ensures Once(s, t.uid, r.msgs, r.at, t.ts, MaxTimestamp(r.msgs))
  {
    hide MaxTimestamp;
    forall i | 0 <= i < |r.at|
      ensures r.at[i] < |s.messages| && t.ts < s.messages[r.at[i]].ts <= MaxTimestamp(r.msgs)
      ensures Chatuser(s.messages[r.at[i]].chatTo, t.uid) in s.chatuser
    {
      assert B.Place(s, t, r.source[i], r.at[i]);
      assert r.msgs[i].ts <= MaxTimestamp(r.msgs);
    }
  }

  lemma ReplyUpToDate(s: Storage, k: Conn, t: Task, r: Reply)
    requires UpToDate(s, k) && k.writing == [] && Current(k, t) && r.IdleMessages?
    requires Once(s, t.uid, r.msgs, r.at, t.ts, MaxTimestamp(r.msgs))
    ensures UpToDate(s, Replied(k, r)) && |Replied(k, r).writing| == 1 && Replied(k, r).refused == k.refused
  {
    hide Once, MaxTimestamp;
  }

  lemma WorkedTasks(h: Host, s: Sys, w: nat, now: nat, c: nat, k: Conn)
    requires Enabled(s, Work(w, now)) && AllCurrent(s, c, k)
    ensures AllCurrent(WorkOn(h, s, w, now), c, k)
  {
    hide Step, Booked, Replied, Current;
  }

  /** A step of another connection's task, or one of its own that sends nothing. */
  lemma WorkReliable(h: Host, s: Sys, w: nat, now: nat, c: nat)
    requires Enabled(s, Work(w, now)) && c < |s.conns| && Reliable(s, c)
    requires s.workers[w].value.task.client != c || !s.workers[w].value.pc.Send?
    requires Extends(s.store, WorkOn(h, s, w, now).store)
    ensures Reliable(WorkOn(h, s, w, now), c)
  {
    var s' := WorkOn(h, s, w, now);
    var k := s.conns[c];
    hide Step, Booked, Replied, UpToDate, AllCurrent, Extends;
    RunningUpdate(s.workers, w, s'.workers[w], c);
    assert s'.conns[c] == k;
    if k.idle && !k.refused {
      UpToDateStays(s.store, s'.store, k);
      WorkedTasks(h, s, w, now, c, k);
    }
  }

  lemma JobBalanced(s: Sys, w: nat)
    requires Sound(s) && w < |s.workers| && s.workers[w].Some?
    ensures var job := s.workers[w].value;
            Balanced(job.task, job.pc, job.account) && !job.pc.Done? && IdsCount(s.store)
  {
    hide Balanced;
  }

  lemma SendReliable(h: Host, s: Sys, w: nat, now: nat)
    requires Sound(s) && B.AllLocated(s) && Enabled(s, Work(w, now)) && s.workers[w].value.pc.Send?
    requires Kept(s, s.workers[w].value.task.client) && Reliable(s, s.workers[w].value.task.client)
    ensures Reliable(WorkOn(h, s, w, now), s.workers[w].value.task.client)
  {
    var job := s.workers[w].value;
    var c := job.task.client;
    var k := s.conns[c];
    var s' := WorkOn(h, s, w, now);
    hide Sound, Kept, B.AllLocated, Booked, Step, Balanced, IdsCount, MaxTimestamp, UpToDate;
    JobBalanced(s, w);
    SilentEnd(h, s.store, job, now);
    assert s'.store == s.store && s'.workers == s.workers[w := None];
    assert s'.conns == s.conns[c := Replied(k, job.pc.reply)];
    if k.idle && !k.refused {
      assert Current(k, job.task);
      hide AllCurrent;
      RunningUpdate(s.workers, w, None, c);
      if job.pc.reply.IdleMessages? {
        SendingNew(s, w);
        hide Once;
        ReplyUpToDate(s.store, k, job.task, job.pc.reply);
        hide Current, Replied;
        assert Pending(s', c) <= 1;
        assert Running(s'.workers, c) == 0;
        NoneCurrent(s', c, Replied(k, job.pc.reply));
      }
    }
  }

  // ------------------------------------------------------------------ whole runs

  lemma AcceptReliable(s: Sys, c: nat)
    requires ReliableIfAny(s, c)
    ensures ReliableIfAny(s.(conns := s.conns + [ACCEPTED]), c)
  {
    var s' := s.(conns := s.conns + [ACCEPTED]);
    hide UpToDate, AllCurrent;
    if c < |s.conns| {
      assert s'.conns[c] == s.conns[c];
      if s.conns[c].idle && !s.conns[c].refused {
        CurrentStays(s, s', c, s.conns[c]);
      }
    }
  }

  lemma ReliableEvent(h: Host, s: Sys, e: Event, c: nat)
    requires Permutes(h) && Sound(s) && B.AllLocated(s) && AllKept(s) && ReliableIfAny(s, c)
    requires Enabled(s, e) && Paced(s, c, e)
    ensures ReliableIfAny(Next(h, s, e), c)
  {
    assert c < |s.conns| ==> Kept(s, c);
    SoundStep(h, s, e);
    hide Sound, B.AllLocated, AllKept, Kept, Reliable, Step, Booked, Extends;
    hide ReadDone, WriteDone, HandshakeDone, Ticked, TimerDropped, Replied, Pending;
    if e.Accept? {
      AcceptReliable(s, c);
    } else if c < |s.conns| {
      match e
      case Handshake(d, ok) =>
        if c == d { HandshakeReliable(s, c, ok); }
        else { ElsewhereReliable(s, d, HandshakeDone(s.conns[d], ok), None, c); }
      case ReadEvent(d, input) =>
        var (k, task) := ReadDone(s.conns[d], d, input);
        ReadTasksClient(s.conns[d], d, input);
        if c == d { ReadReliable(s, c, input); } else { ElsewhereReliable(s, d, k, task, c); }
      case WriteEvent(d, i, ok) =>
        if c == d { WriteReliable(s, c, i, ok); }
        else { ElsewhereReliable(s, d, WriteDone(s.conns[d], i, ok), None, c); }
      case Tick(d, now) =>
        var (k, task) := Ticked(s.conns[d], d, now);
        TickTasksClient(s.conns[d], d, now);
        if c == d { TickReliable(s, c, now); } else { ElsewhereReliable(s, d, k, Some(task), c); }
      case DropTimer(d) =>
        if c == d { DropReliable(s, c); } else { ElsewhereReliable(s, d, TimerDropped(s.conns[d]), None, c); }
      case Take(w) => TakeReliable(s, w, c);
      case Work(w, now) =>
        if s.workers[w].value.task.client != c || !s.workers[w].value.pc.Send? {
          WorkReliable(h, s, w, now, c);
        } else {
          SendReliable(h, s, w, now);
        }
    }
  }

  lemma HandshakeReliable(s: Sys, c: nat, ok: bool)
    requires c < |s.conns| && s.conns[c].handshake && Reliable(s, c)
    ensures Reliable(s.(conns := s.conns[c := HandshakeDone(s.conns[c], ok)]), c)
  {
    hide Once, AllCurrent;
  }

  lemma WriteReliable(s: Sys, c: nat, i: nat, ok: bool)
    requires c < |s.conns| && i < |s.conns[c].writing| && Reliable(s, c)
    requires Kept(s, c)
    ensures Reliable(s.(conns := s.conns[c := WriteDone(s.conns[c], i, ok)]), c)
  {
    var k := s.conns[c];
    if k.idle && !k.refused {
      WriteUpToDate(s.store, k, i, ok);
      hide UpToDate;
      CallbackReliable(s, c, WriteDone(k, i, ok));
    } else if !k.idle {
      assert k.writing[i].Response?;
    }
  }

  lemma DropReliable(s: Sys, c: nat)
    requires c < |s.conns| && s.conns[c].timers > 0 && Reliable(s, c)
    ensures Reliable(s.(conns := s.conns[c := TimerDropped(s.conns[c])]), c)
  {
    var k := s.conns[c];
    if k.idle && !k.refused {
      DropUpToDate(s.store, k);
      hide UpToDate, TimerDropped;
      CallbackReliable(s, c, TimerDropped(k));
    }
  }

  lemma {:induction false} ReliableRun(h: Host, s: Sys, events: seq<Event>, c: nat)
    requires Permutes(h) && Sound(s) && B.AllLocated(s) && AllKept(s) && ReliableIfAny(s, c)
    requires PacedRun(h, s, c, events)
    ensures ReliableIfAny(After(h, s, events), c)
    decreases |events|
  {
    hide Sound, B.AllLocated, AllKept, ReliableIfAny, Paced, Next, Enabled, Extends;
    if events != [] {
      var e := events[0];
      if Enabled(s, e) {
        SoundStep(h, s, e);
        B.LocatedEvent(h, s, e);
        KeptStep(h, s, e);
        ReliableEvent(h, s, e, c);
        ReliableRun(h, Next(h, s, e), events[1..], c);
      } else {
        ReliableRun(h, s, events[1..], c);
      }
    }
  }

  /** In every run in which connection c ticks only when its last poll is done with, however the scans of its polls
      are interleaved with others and whichever writes fail: what it has received is, in words, what stands in the
      log at positions of which none comes twice, all from chats the client is in and newer than its start. */
  lemma NeverTwice(h: Host, workers: nat, events: seq<Event>, c: nat)
    requires Permutes(h) && PacedRun(h, Initial(workers), c, events)
    requires c < |After(h, Initial(workers), events).conns|
    ensures var s := After(h, Initial(workers), events);
            var k := s.conns[c];
            k.idle && !k.refused ==>
              && I.Distinct(k.positions) && B.InWordsAt(s.store, k.received, k.positions)
              && Spans(s.store, k.request.uid, k.positions, k.start, Cursor(k))
  {
    B.InitiallyLocated(workers);
    Runs.InitiallyConsistent(workers);
    assert AllKept(Initial(workers)) && ReliableIfAny(Initial(workers), c);
    hide After, Sound, B.AllLocated, AllKept, B.InWordsAt, Spans, I.Distinct, PacedRun;
    ReliableRun(h, Initial(workers), events, c);
  }
}
