// What a polling client receives over a whole run of the server: other connections and workers do as they
// like, but each of its polls is scanned without interruption and each of its batches is written before its
// next tick. The rounds of the Idle module are then what happens to the connection.
module Delivery {
  import opened Wrappers
  import opened Tables
  import opened Integrity
  import opened Worker
  import opened Ledger
  import opened Session
  import opened Server
  import opened InFlight
  import opened Runs
  import P = Poll
  import I = Idle
  import H = History

  /** One event of the server, or a worker that takes a poll and makes its steps in a row. */
  datatype Move = Single(e: Event) | Scan(w: nat, now: nat, steps: nat)

  function Works(w: nat, now: nat, n: nat): seq<Event> {
    if n == 0 then [] else [Work(w, now)] + Works(w, now, n - 1)
  }

  function Played(m: Move): seq<Event> {
    match m
    case Single(e) => [e]
    case Scan(w, now, steps) => [Take(w)] + Works(w, now, steps)
  }

  function TasksOf(q: seq<Task>, c: nat): seq<Task> {
    if q == [] then [] else (if q[0].client == c then [q[0]] else []) + TasksOf(q[1..], c)
  }

  /** The discipline: connection c ticks only when its last batch is written, its writes succeed, and its polls
      pass the password check and are scanned to their end. */
  predicate Orderly(h: Host, s: Sys, c: nat, m: Move)
    requires c < |s.conns|
  {
    match m
    case Single(Tick(d, _)) => d == c ==> TasksOf(s.queue, c) == [] && s.conns[c].writing == []
    case Single(WriteEvent(d, _, ok)) => d == c ==> ok
    case Single(Take(_)) => s.queue != [] ==> s.queue[0].client != c
    case Single(_) => true
    case Scan(w, now, steps) =>
      && Enabled(s, Take(w)) && s.queue[0].client == c
      && P.Admitted(h, s.store, s.queue[0])
      && var ws := After(h, s, Played(m)).workers; w < |ws| && ws[w].None?
  }

  function End(h: Host, s: Sys, moves: seq<Move>): Sys
    decreases |moves|
  {
    if moves == [] then s else End(h, After(h, s, Played(moves[0])), moves[1..])
  }

  predicate Plays(h: Host, s: Sys, c: nat, moves: seq<Move>)
    decreases |moves|
  {
    moves == [] ||
    (c < |s.conns| && Orderly(h, s, c, moves[0]) && Plays(h, After(h, s, Played(moves[0])), c, moves[1..]))
  }

  /** The rounds of a run: the log and the chats each scan sees, and whether its poll was a ping. */
  function Rounds(h: Host, s: Sys, moves: seq<Move>): seq<I.Round>
    decreases |moves|
  {
    if moves == [] then []
    else RoundOf(s, moves[0]) + Rounds(h, After(h, s, Played(moves[0])), moves[1..])
  }

  function RoundOf(s: Sys, m: Move): seq<I.Round> {
    if m.Scan? && s.queue != [] then [RoundAt(s)] else []
  }

  function RoundAt(s: Sys): I.Round
    requires s.queue != []
  {
    I.Round(s.store.messages, ChatIdsOf(s.store.chatuser, s.queue[0].uid), s.queue[0].ping)
  }

  // ------------------------------------------------------- the worker's half

  lemma {:induction false} DoneStays(h: Host, s: Storage, t: Task, now: nat, n: nat)
    ensures P.Steps(h, s, t, Done, now, n) == (s, Done)
    decreases n
  {
    if n > 0 {
      DoneStays(h, s, t, now, n - 1);
    }
  }

  lemma {:induction false} NoMoreWork(h: Host, s: Sys, w: nat, now: nat, n: nat)
    requires w < |s.workers| && s.workers[w].None?
    ensures After(h, s, Works(w, now, n)) == s
  {
    if n > 0 {
      assert Works(w, now, n)[1..] == Works(w, now, n - 1);
      NoMoreWork(h, s, w, now, n - 1);
    }
  }

  /** A task that ends at its nth step: with a reply to be sent, or silently out of a scan. */
  predicate EndsAt(h: Host, s: Storage, t: Task, pc: Pc, now: nat, n: nat, st: Storage, last: Pc) {
    && P.Steps(h, s, t, pc, now, n) == (st, last)
    && (last.Send? || (last.Done? && n > 0 && P.Steps(h, s, t, pc, now, n - 1).1.Scanning?))
  }

  lemma DoneBefore(h: Host, s: Storage, t: Task, now: nat, n: nat)
    requires n > 0
    ensures P.Steps(h, s, t, Done, now, n - 1) == (s, Done)
    ensures n > 1 ==> P.Steps(h, s, t, Done, now, n - 2) == (s, Done)
  {
    DoneStays(h, s, t, now, n - 1);
    if n > 1 {
      DoneStays(h, s, t, now, n - 2);
    }
  }

  /** Behind the first step of such a task. */
  lemma EndsStep(h: Host, s: Storage, t: Task, pc: Pc, now: nat, n: nat, st: Storage, last: Pc)
    requires EndsAt(h, s, t, pc, now, n, st, last) && !pc.Done?
    ensures var (s1, pc1) := Step(h, s, t, pc, now);
            if pc.Send? then n == 0 && (st, last) == (s, pc)
            else if pc1.Done? then n == 1 && (st, last) == (s1, Done)
            else n > 0 && EndsAt(h, s1, t, pc1, now, n - 1, st, last)
  {
    var (s1, pc1) := Step(h, s, t, pc, now);
    assert pc.Send? ==> (s1, pc1) == (s, Done);
    hide Step;
    if n > 1 {
      assert P.Steps(h, s, t, pc, now, n - 1) == P.Steps(h, s1, t, pc1, now, n - 2);
    }
    if n > 0 && pc1.Done? {
      DoneBefore(h, s1, t, now, n);
    }
  }

  /** Work events of one worker in a row are its steps in a row. */
  lemma {:induction false} WorksAreSteps(h: Host, s: Sys, w: nat, now: nat, steps: nat, n: nat, st: Storage, last: Pc)
    requires Enabled(s, Work(w, now)) && !s.workers[w].value.pc.Done?
    requires EndsAt(h, s.store, s.workers[w].value.task, s.workers[w].value.pc, now, n, st, last)
    ensures var end := After(h, s, Works(w, now, steps));
            var c := s.workers[w].value.task.client;
            && |end.workers| == |s.workers| && (steps > n ==> end.workers[w].None?)
            && (end.workers[w].None? ==>
                  && end.store == st && end.queue == s.queue && end.workers == s.workers[w := None]
                  && end.conns == if last.Send? then s.conns[c := Replied(s.conns[c], last.reply)] else s.conns)
    decreases steps
  {
    hide Step, EndsAt, Replied, Booked, P.Steps;
    if steps > 0 {
      var job := s.workers[w].value;
      assert Works(w, now, steps)[0] == Work(w, now) && Works(w, now, steps)[1..] == Works(w, now, steps - 1);
      EndsStep(h, s.store, job.task, job.pc, now, n, st, last);
      SendStep(h, s.store, job, now);
      var s1 := WorkOn(h, s, w, now);
      if s1.workers[w].None? {
        NoMoreWork(h, s1, w, now, steps - 1);
      } else {
        WorksAreSteps(h, s1, w, now, steps - 1, n - 1, st, last);
        assert s1.workers[w := None] == s.workers[w := None];
      }
    }
  }

  lemma SendStep(h: Host, store: Storage, job: Job, now: nat)
    ensures job.pc.Send? ==> Step(h, store, job.task, job.pc, now) == (store, Done)
  {
  }

  // --------------------------------------------------- the connection's half

  /** The connection, polling since `from`, between its ticks and in step with a poller: at rest, with its poll
      queued, or with its batch being written. `heard` is what the client has when the poller's batches are written. */
  predicate Stands(k: Conn, mine: seq<Task>, c: nat, from: Conn, p: I.Poller, heard: seq<ApiMessage>) {
    && k.idle && !k.refused && !k.handshake && k.reading == 0 && k.request.cmd.Idle?
    && k.request.uid == from.request.uid && k.clobbered == from.clobbered
    && if mine != [] then
         && |mine| == 1 && mine[0] == k.request.(ping := mine[0].ping, client := c)
         && k.writing == [] && k.request.ts == I.Level(p) && k.newest == p.newest && k.received == heard
       else if k.writing == [] then k.request.ts == p.cursor && k.newest == p.newest && k.received == heard
       else
         && |k.writing| == 1 && k.writing[0].IdleBatch? && k.writing[0].newest == p.newest
         && k.request.ts == p.cursor && k.received + k.writing[0].msgs == heard
  }

  lemma StandsTick(k: Conn, c: nat, from: Conn, p: I.Poller, heard: seq<ApiMessage>, now: nat)
    requires Stands(k, [], c, from, p, heard) && k.writing == [] && k.timers > 0
    ensures var (k', t) := Ticked(k, c, now); Stands(k', [t], c, from, p, heard) && t.client == c
  {
  }

  lemma StandsWritten(k: Conn, mine: seq<Task>, c: nat, from: Conn, p: I.Poller, heard: seq<ApiMessage>, i: nat)
    requires Stands(k, mine, c, from, p, heard) && i < |k.writing|
    ensures mine == [] && Stands(WriteDone(k, i, true), [], c, from, p, heard)
  {
  }

  lemma StandsScanned(k: Conn, t: Task, c: nat, from: Conn, p: I.Poller, heard: seq<ApiMessage>,
                      log: seq<Message>, ids: seq<nat>, pc: Pc)
    requires Stands(k, [t], c, from, p, heard)
    requires P.EndsWith(log, I.Batch(log, ids, t.ts), t.ping, pc)
    ensures var at := I.Batch(log, ids, t.ts);
            var p' := I.Tick(p, I.Round(log, ids, t.ping));
            Stands(if pc.Send? then Replied(k, pc.reply) else k, [], c, from, p',
                   heard + if at != [] then pc.reply.msgs else [])
  {
    var at := I.Batch(log, ids, t.ts);
    hide P.Gathered, I.Batch, MaxTimestamp, I.Maximum;
    if pc.Send? {
      P.MaximumOfStamps(pc.reply.msgs, I.StampsAt(log, at));
    }
    hide I.StampsAt;
  }

  // ------------------------------------------------------------- both halves

  ghost predicate Within(log: seq<Message>, at: seq<nat>) {
    forall i :: 0 <= i < |at| ==> at[i] < |log|
  }

  /** Connection c follows the poller: what its client has heard since `from` is, in words and in order, what
      stands in the log at the poller's positions. */
  ghost predicate Follows(s: Sys, c: nat, from: Conn, p: I.Poller) {
    && c < |s.conns| && Running(s.workers, c) == 0
    && MessagesRefer(s.store) && Within(s.store.messages, Flatten(p.batches))
    && Stands(s.conns[c], TasksOf(s.queue, c), c, from, p,
              from.received + P.WordsAt(s.store, Flatten(p.batches)))
  }

  lemma {:induction false} TasksPush(q: seq<Task>, t: Task, c: nat)
    ensures TasksOf(q + [t], c) == if t.client == c then TasksOf(q, c) + [t] else TasksOf(q, c)
  {
    if q == [] {
      assert q + [t] == [t] && [t][1..] == [];
    } else {
      assert (q + [t])[1..] == q[1..] + [t];
      TasksPush(q[1..], t, c);
    }
  }

  /** Words once heard stay the words of the same positions. */
  lemma WordsStay(s: Storage, s': Storage, at: seq<nat>)
    requires MessagesRefer(s) && MessagesRefer(s') && Extends(s, s') && Within(s.messages, at)
    ensures Within(s'.messages, at) && P.WordsAt(s', at) == P.WordsAt(s, at)
  {
    forall i | 0 <= i < |at|
      ensures at[i] < |s'.messages| && InWords(s', s'.messages[at[i]]) == InWords(s, s.messages[at[i]])
    {
      assert Refers(s, s.messages[at[i]]);
      P.SameWords(s, s', s.messages[at[i]], s'.messages[at[i]]);
    }
  }

  lemma WordsJoin(s: Storage, a: seq<nat>, b: seq<nat>)
    requires MessagesRefer(s) && Within(s.messages, a) && Within(s.messages, b)
    ensures Within(s.messages, a + b) && P.WordsAt(s, a + b) == P.WordsAt(s, a) + P.WordsAt(s, b)
  {
  }

  lemma ConsistentIntact(s: Sys)
    requires Consistent(s)
    ensures Intact(s.store)
  {
  }

  /** What the discipline and the connection's standing say of one enabled event. */
  lemma ConnectionStands(h: Host, s: Sys, c: nat, from: Conn, p: I.Poller, heard: seq<ApiMessage>, e: Event)
    requires c < |s.conns| && Running(s.workers, c) == 0 && Enabled(s, e)
    requires Stands(s.conns[c], TasksOf(s.queue, c), c, from, p, heard) && Orderly(h, s, c, Single(e))
    ensures var s' := Next(h, s, e);
            && c < |s'.conns| && Running(s'.workers, c) == 0
            && Stands(s'.conns[c], TasksOf(s'.queue, c), c, from, p, heard)
  {
    hide Stands, Step, Booked, Replied, ReadDone, WriteDone, HandshakeDone, Ticked, TimerDropped, I.Level;
    hide TasksOf, Running, After, P.Admitted, ChatIdsOf;
    NotPolling(s, c, from, p, heard);
    match e
    case Accept =>
    case Handshake(_, _) =>
    case ReadEvent(d, input) =>
      var (_, task) := ReadDone(s.conns[d], d, input);
      if task.Some? {
        ReadTasksClient(s.conns[d], d, input);
        TasksPush(s.queue, task.value, c);
      }
    case WriteEvent(d, i, ok) => if d == c { StandsWritten(s.conns[c], TasksOf(s.queue, c), c, from, p, heard, i); }
    case Tick(d, now) =>
      TickTasksClient(s.conns[d], d, now);
      TasksPush(s.queue, Ticked(s.conns[d], d, now).1, c);
      if d == c {
        var t := Ticked(s.conns[d], d, now).1;
        assert TasksOf(s.queue, c) + [t] == [t];
        StandsTick(s.conns[c], c, from, p, heard, now);
      }
    case DropTimer(d) => if d == c { StandsDropped(s.conns[c], TasksOf(s.queue, c), c, from, p, heard); }
    case Take(w) =>
      RunningUpdate(s.workers, w, Some(Job(s.queue[0], Start, NOTHING)), c);
      HeadIsOther(s.queue, c);
    case Work(w, now) =>
      RunningNone(s.workers, c);
      assert Mine(s.workers[w], c) == 0;
      RunningUpdate(s.workers, w, WorkOn(h, s, w, now).workers[w], c);
  }

  lemma HeadIsOther(q: seq<Task>, c: nat)
    requires q != [] && q[0].client != c
    ensures TasksOf(q, c) == TasksOf(q[1..], c)
  {
  }

  lemma NotPolling(s: Sys, c: nat, from: Conn, p: I.Poller, heard: seq<ApiMessage>)
    requires c < |s.conns| && Stands(s.conns[c], TasksOf(s.queue, c), c, from, p, heard)
    ensures !s.conns[c].handshake && s.conns[c].reading == 0
  {
  }

  lemma StandsDropped(k: Conn, mine: seq<Task>, c: nat, from: Conn, p: I.Poller, heard: seq<ApiMessage>)
    requires Stands(k, mine, c, from, p, heard) && k.timers > 0
    ensures Stands(TimerDropped(k), mine, c, from, p, heard)
  {
  }

  lemma SingleFollows(h: Host, s: Sys, c: nat, from: Conn, p: I.Poller, e: Event)
    requires Permutes(h) && Consistent(s) && Follows(s, c, from, p) && Enabled(s, e)
    requires Orderly(h, s, c, Single(e))
    ensures Follows(Next(h, s, e), c, from, p)
  {
    var s' := Next(h, s, e);
    ConsistentSound(s);
    hide Consistent, Sound, Stands, Next, Orderly, Enabled, Extends, P.WordsAt, Flatten;
    hide TasksOf, Running, MessagesRefer;
    SoundStep(h, s, e);
    SoundRefers(s');
    WordsStay(s.store, s'.store, Flatten(p.batches));
    ConnectionStands(h, s, c, from, p, from.received + P.WordsAt(s.store, Flatten(p.batches)), e);
  }

  lemma ConsistentSound(s: Sys)
    requires Consistent(s)
    ensures Sound(s)
  {
  }

  lemma SoundRefers(s: Sys)
    requires Sound(s)
    ensures Intact(s.store) && MessagesRefer(s.store)
  {
  }

  lemma HeadIsMine(q: seq<Task>, c: nat)
    requires q != [] && q[0].client == c
    ensures TasksOf(q, c) == [q[0]] + TasksOf(q[1..], c)
  {
  }

  lemma AnswersEnds(h: Host, s: Storage, t: Task, now: nat, n: nat, st: Storage, pc: Pc, at: seq<nat>)
    requires P.Steps(h, s, t, Start, now, n) == (st, pc) && P.EndsWith(s.messages, at, t.ping, pc)
    requires pc.Done? ==> n > 0 && P.Steps(h, s, t, Start, now, n - 1).1.Scanning?
    ensures EndsAt(h, s, t, Start, now, n, st, pc)
    ensures at != [] ==> pc.Send? && pc.reply.IdleMessages?
  {
    hide P.Steps, P.Gathered;
  }

  lemma ScanUnfolds(h: Host, s: Sys, w: nat, now: nat, steps: nat)
    requires Enabled(s, Take(w))
    ensures After(h, s, Played(Scan(w, now, steps))) == After(h, Next(h, s, Take(w)), Works(w, now, steps))
  {
    var events := Played(Scan(w, now, steps));
    assert events[0] == Take(w) && events[1..] == Works(w, now, steps);
  }

  /** These messages are what stands in the log at these positions, in words. */
  ghost predicate Spoken(s: Storage, msgs: seq<ApiMessage>, at: seq<nat>) {
    MessagesRefer(s) && Within(s.messages, at) && msgs == P.WordsAt(s, at)
  }

  lemma NothingSpoken(s: Storage)
    requires MessagesRefer(s)
    ensures Spoken(s, [], [])
  {
  }

  /** An undisturbed poll ends, with the batch of its tick in words. */
  lemma PollEnds(h: Host, s: Storage, t: Task, now: nat) returns (n: nat, st: Storage, pc: Pc)
    requires Permutes(h) && Intact(s) && P.Admitted(h, s, t)
    ensures EndsAt(h, s, t, Start, now, n, st, pc)
    ensures var at := I.Batch(s.messages, ChatIdsOf(s.chatuser, t.uid), t.ts);
            && P.EndsWith(s.messages, at, t.ping, pc)
            && (at != [] ==> pc.Send? && pc.reply.IdleMessages? && Spoken(s, pc.reply.msgs, at))
  {
    hide Intact, P.Steps, P.EndsWith, I.Batch, EndsAt, P.Admitted, ChatIdsOf, P.WordsAt, MessagesRefer;
    assert P.Welcome(h, s, t);
    hide P.Welcome;
    n, st, pc := P.PollAlone(h, s, t, now);
    var at := I.Batch(s.messages, ChatIdsOf(s.chatuser, t.uid), t.ts);
    AnswersEnds(h, s, t, now, n, st, pc, at);
    if at != [] {
      P.BatchInWords(h, s, t, now, n, st, pc, at);
      P.IntactRefers(s);
    }
  }

  /** A scan that comes to its end: the worker is free again and the connection has the poll's reply. */
  lemma ScanEnds(h: Host, s: Sys, c: nat, w: nat, now: nat, steps: nat) returns (st: Storage, pc: Pc)
    requires Permutes(h) && Consistent(s) && c < |s.conns| && Orderly(h, s, c, Scan(w, now, steps))
    ensures var end := After(h, s, Played(Scan(w, now, steps)));
            var t := s.queue[0];
            var at := I.Batch(s.store.messages, ChatIdsOf(s.store.chatuser, t.uid), t.ts);
            && end.store == st && end.queue == s.queue[1..] && end.workers == s.workers[w := None]
            && end.conns == (if pc.Send? then s.conns[c := Replied(s.conns[c], pc.reply)] else s.conns)
            && P.EndsWith(s.store.messages, at, t.ping, pc)
            && (at != [] ==> pc.Send? && pc.reply.IdleMessages? && Spoken(s.store, pc.reply.msgs, at))
  {
    hide Consistent, Intact, P.EndsWith, I.Batch, After, Works, Played, EndsAt, Replied, P.Admitted, ChatIdsOf;
    hide P.WordsAt, MessagesRefer;
    ConsistentIntact(s);
    var n;
    n, st, pc := PollEnds(h, s.store, s.queue[0], now);
    ScanUnfolds(h, s, w, now, steps);
    EndsSending(h, s.store, s.queue[0], now, n, st, pc);
    WorksAreSteps(h, Next(h, s, Take(w)), w, now, steps, n, st, pc);
    assert Next(h, s, Take(w)).workers[w := None] == s.workers[w := None];
  }

  lemma EndsSending(h: Host, s: Storage, t: Task, now: nat, n: nat, st: Storage, pc: Pc)
    requires EndsAt(h, s, t, Start, now, n, st, pc)
    ensures pc.Send? || pc.Done?
  {
  }

  /** Every poll that passes the password check can be scanned to its end, with enough steps. */
  lemma ScanCanEnd(h: Host, s: Sys, c: nat, w: nat, now: nat) returns (steps: nat)
    requires Permutes(h) && Consistent(s) && c < |s.conns| && Enabled(s, Take(w))
    requires s.queue[0].client == c && P.Admitted(h, s.store, s.queue[0])
    ensures Orderly(h, s, c, Scan(w, now, steps))
  {
    hide Consistent, Intact, I.Batch, After, Works, Played, EndsAt, Replied, P.EndsWith, P.Admitted, ChatIdsOf, Spoken;
    ConsistentIntact(s);
    var n, st, pc := PollEnds(h, s.store, s.queue[0], now);
    steps := n + 1;
    ScanUnfolds(h, s, w, now, steps);
    EndsSending(h, s.store, s.queue[0], now, n, st, pc);
    WorksAreSteps(h, Next(h, s, Take(w)), w, now, steps, n, st, pc);
  }

  lemma BatchWithin(log: seq<Message>, ids: seq<nat>, ts: nat)
    ensures Within(log, I.Batch(log, ids, ts))
  {
  }

  lemma TickBatches(p: I.Poller, r: I.Round)
    ensures Flatten(I.Tick(p, r).batches) == Flatten(p.batches) + I.Batch(r.log, r.ids, I.Level(p))
  {
    hide I.Batch, I.StampsAt, I.Maximum;
    var at := I.Batch(r.log, r.ids, I.Level(p));
    FlattenAppend(p.batches, [at]);
    I.FlattenOne(at);
  }

  /** What the client has heard behind a scan is in words what stands at the positions of one round more. */
  lemma ScanWords(s: Storage, s': Storage, ids: seq<nat>, p: I.Poller, ping: bool, base: seq<ApiMessage>,
                  msgs: seq<ApiMessage>)
    requires MessagesRefer(s) && MessagesRefer(s') && Extends(s, s') && Within(s.messages, Flatten(p.batches))
    requires Spoken(s, msgs, I.Batch(s.messages, ids, I.Level(p)))
    ensures var all := Flatten(I.Tick(p, I.Round(s.messages, ids, ping)).batches);
            Within(s'.messages, all) && base + P.WordsAt(s, Flatten(p.batches)) + msgs == base + P.WordsAt(s', all)
  {
    var before, at := Flatten(p.batches), I.Batch(s.messages, ids, I.Level(p));
    BatchWithin(s.messages, ids, I.Level(p));
    TickBatches(p, I.Round(s.messages, ids, ping));
    var words := P.WordsAt(s, before);
    hide MessagesRefer, Extends, I.Batch, I.Tick, I.Level, Within, Flatten, P.WordsAt;
    WordsJoin(s, before, at);
    WordsStay(s, s', before + at);
    Regroup(base, words, msgs);
  }

  lemma Regroup<T>(a: seq<T>, b: seq<T>, c: seq<T>)
    ensures a + b + c == a + (b + c)
  {
  }

  lemma AskedAt(s: Sys, c: nat, from: Conn, p: I.Poller, heard: seq<ApiMessage>)
    requires c < |s.conns| && s.queue != [] && s.queue[0].client == c
    requires Stands(s.conns[c], TasksOf(s.queue, c), c, from, p, heard)
    ensures TasksOf(s.queue, c) == [s.queue[0]] && TasksOf(s.queue[1..], c) == [] && s.queue[0].ts == I.Level(p)
  {
    HeadIsMine(s.queue, c);
  }

  lemma FreeAgain(ws: seq<Option<Job>>, w: nat, c: nat)
    requires w < |ws| && ws[w].None? && Running(ws, c) == 0
    ensures ws[w := None] == ws && Running(ws[w := None], c) == 0
  {
    assert ws[w := None] == ws;
  }

  lemma ScanTakes(h: Host, s: Sys, c: nat, w: nat, now: nat, steps: nat)
    requires c < |s.conns| && Orderly(h, s, c, Scan(w, now, steps))
    ensures w < |s.workers| && s.workers[w].None? && s.queue != [] && s.queue[0].client == c
  {
  }

  lemma ScanStands(h: Host, s: Sys, c: nat, from: Conn, p: I.Poller, heard: seq<ApiMessage>,
                   w: nat, now: nat, steps: nat)
    returns (msgs: seq<ApiMessage>)
    requires Permutes(h) && Consistent(s) && c < |s.conns| && Running(s.workers, c) == 0 && MessagesRefer(s.store)
    requires Stands(s.conns[c], TasksOf(s.queue, c), c, from, p, heard)
    requires Orderly(h, s, c, Scan(w, now, steps)) && s.queue != []
    ensures var end := After(h, s, Played(Scan(w, now, steps)));
            && c < |end.conns| && Running(end.workers, c) == 0
            && Spoken(s.store, msgs, I.Batch(s.store.messages, RoundAt(s).ids, I.Level(p)))
            && Stands(end.conns[c], TasksOf(end.queue, c), c, from, I.Tick(p, RoundAt(s)), heard + msgs)
  {
    hide Consistent, Stands, Orderly, After, Played, P.WordsAt, I.Tick, I.Batch, I.Level, TasksOf, Running;
    hide MessagesRefer, P.EndsWith, Replied, Spoken, ChatIdsOf;
    ScanTakes(h, s, c, w, now, steps);
    AskedAt(s, c, from, p, heard);
    FreeAgain(s.workers, w, c);
    var t, ids := s.queue[0], RoundAt(s).ids;
    var st, pc := ScanEnds(h, s, c, w, now, steps);
    StandsScanned(s.conns[c], t, c, from, p, heard, s.store.messages, ids, pc);
    var at := I.Batch(s.store.messages, ids, t.ts);
    msgs := if at != [] then pc.reply.msgs else [];
    NothingSpoken(s.store);
  }

  lemma ScanFollows(h: Host, s: Sys, c: nat, from: Conn, p: I.Poller, w: nat, now: nat, steps: nat)
    requires Permutes(h) && Consistent(s) && Follows(s, c, from, p)
    requires Orderly(h, s, c, Scan(w, now, steps))
    ensures Follows(After(h, s, Played(Scan(w, now, steps))), c, from, I.Tick(p, RoundAt(s)))
  {
    var heard := from.received + P.WordsAt(s.store, Flatten(p.batches));
    hide Consistent, Stands, Orderly, After, Played, P.WordsAt, Flatten, I.Tick, I.Batch, I.Level, TasksOf, Running;
    hide MessagesRefer, Within, Extends, Spoken, ChatIdsOf;
    ScanTakes(h, s, c, w, now, steps);
    var end := After(h, s, Played(Scan(w, now, steps)));
    EveryRun(h, s, Played(Scan(w, now, steps)));
    ConsistentSound(end);
    SoundRefers(end);
    var msgs := ScanStands(h, s, c, from, p, heard, w, now, steps);
    ScanWords(s.store, end.store, RoundAt(s).ids, p, s.queue[0].ping, from.received, msgs);
  }

  // -------------------------------------------------------------- whole runs

  lemma SingleIs(h: Host, s: Sys, e: Event)
    ensures After(h, s, [e]) == if Enabled(s, e) then Next(h, s, e) else s
  {
    var events := [e];
    assert events[1..] == [];
  }

  lemma MoveFollows(h: Host, s: Sys, c: nat, from: Conn, start: nat, done: seq<I.Round>, m: Move)
    requires Permutes(h) && Consistent(s) && Follows(s, c, from, I.Polled(start, done))
    requires Orderly(h, s, c, m)
    ensures Follows(After(h, s, Played(m)), c, from, I.Polled(start, done + RoundOf(s, m)))
  {
    hide Consistent, Follows, I.Polled, I.Tick, After, Next;
    match m
    case Single(e) =>
      assert done + [] == done;
      SingleIs(h, s, e);
      if Enabled(s, e) {
        SingleFollows(h, s, c, from, I.Polled(start, done), e);
      }
    case Scan(w, now, steps) =>
      assert s.queue != [];
      hide Orderly, Played;
      ScanFollows(h, s, c, from, I.Polled(start, done), w, now, steps);
      PolledMore(start, done, RoundAt(s));
  }

  lemma PolledMore(start: nat, done: seq<I.Round>, r: I.Round)
    ensures I.Polled(start, done + [r]) == I.Tick(I.Polled(start, done), r)
  {
    hide I.Tick;
    assert (done + [r])[..|done|] == done;
  }

  /** Over any run that keeps the discipline the connection follows the poller of the Idle module, round by round,
      whatever chats the client is added to meanwhile. */
  lemma {:induction false} RunFollows(h: Host, s: Sys, c: nat, from: Conn, start: nat, done: seq<I.Round>,
                                      moves: seq<Move>)
    requires Permutes(h) && Consistent(s) && Follows(s, c, from, I.Polled(start, done))
    requires Plays(h, s, c, moves)
    ensures Consistent(End(h, s, moves)) && Extends(s.store, End(h, s, moves).store)
    ensures Follows(End(h, s, moves), c, from, I.Polled(start, done + Rounds(h, s, moves)))
    decreases |moves|
  {
    hide Consistent, Follows, I.Polled, Orderly, Played, After, Extends, RoundOf;
    if moves == [] {
      assert done + [] == done;
      ExtendsReflexive(s.store);
    } else {
      var s' := After(h, s, Played(moves[0]));
      var more := RoundOf(s, moves[0]);
      EveryRun(h, s, Played(moves[0]));
      MoveFollows(h, s, c, from, start, done, moves[0]);
      RunFollows(h, s', c, from, start, done + more, moves[1..]);
      Regroup(done, more, Rounds(h, s', moves[1..]));
      ExtendsTransitive(s.store, s'.store, End(h, s, moves).store);
    }
  }

  /** The logs of the rounds are the log of the run as it grows, and at none is the client in a chat twice. */
  ghost predicate GrowThrough(a: seq<Message>, rounds: seq<I.Round>, b: seq<Message>) {
    && I.Grows(a, b) && I.Saved(rounds) && I.Members(rounds)
    && forall i :: 0 <= i < |rounds| ==> I.Grows(a, rounds[i].log) && I.Grows(rounds[i].log, b)
  }

  lemma GrowThroughMore(r: I.Round, b: seq<Message>, rounds: seq<I.Round>, c: seq<Message>)
    requires I.Grows(r.log, b) && GrowThrough(b, rounds, c)
    ensures GrowThrough(r.log, rounds, c) && (I.Distinct(r.ids) ==> GrowThrough(r.log, [r] + rounds, c))
  {
    hide I.Grows, I.Distinct;
    I.GrowsReflexive(r.log);
    I.GrowsTransitive(r.log, b, c);
    forall i | 0 <= i < |rounds|
      ensures I.Grows(r.log, rounds[i].log)
    {
      I.GrowsTransitive(r.log, b, rounds[i].log);
    }
    var all := [r] + rounds;
    forall i, j | 0 <= i <= j < |all|
      ensures I.Grows(all[i].log, all[j].log)
    {
      if i > 0 {
        assert all[i] == rounds[i - 1] && all[j] == rounds[j - 1];
      } else if j > 0 {
        assert all[j] == rounds[j - 1];
      }
    }
  }

  lemma {:induction false} RoundsGrow(h: Host, s: Sys, moves: seq<Move>)
    requires Permutes(h) && Consistent(s)
    ensures GrowThrough(s.store.messages, Rounds(h, s, moves), End(h, s, moves).store.messages)
    decreases |moves|
  {
    hide Consistent, Played, After, Extends, I.Grows, Intact, ChatIdsOf, I.Distinct;
    if moves == [] {
      I.GrowsReflexive(s.store.messages);
    } else {
      var s' := After(h, s, Played(moves[0]));
      EveryRun(h, s, Played(moves[0]));
      I.ExtendsGrows(s.store, s'.store);
      RoundsGrow(h, s', moves[1..]);
      var later := Rounds(h, s', moves[1..]);
      var r := if s.queue != [] then RoundAt(s) else I.Round(s.store.messages, [], false);
      ConsistentIntact(s);
      if s.queue != [] {
        P.MembersDistinct(s.store, s.queue[0].uid);
      }
      GrowThroughMore(r, s'.store.messages, later, End(h, s, moves).store.messages);
      hide GrowThrough;
      assert [] + later == later;
    }
  }

  // ---------------------------------------------------- what the client has

  /** A connection that has begun to poll, its first answer written, and has not ticked yet. */
  ghost predicate BegunPolling(s: Sys, c: nat) {
    && c < |s.conns| && TasksOf(s.queue, c) == [] && Running(s.workers, c) == 0
    && var k := s.conns[c];
       k.idle && !k.refused && k.writing == [] && k.newest == 0
  }

  /** Its poll is answered and its batch written: nothing is under way. */
  predicate AtRest(s: Sys, c: nat) {
    c < |s.conns| && TasksOf(s.queue, c) == [] && s.conns[c].writing == []
  }

  /** The positions of the log that the run's rounds deliver, batch by batch. */
  function BatchesOf(h: Host, s: Sys, c: nat, moves: seq<Move>): seq<seq<nat>>
    requires c < |s.conns|
  {
    I.Polled(s.conns[c].request.ts, Rounds(h, s, moves)).batches
  }

  ghost predicate Run(h: Host, s: Sys, c: nat, moves: seq<Move>) {
    Permutes(h) && Consistent(s) && BegunPolling(s, c) && Plays(h, s, c, moves)
  }

  lemma BegunExists(s: Sys, c: nat)
    requires BegunPolling(s, c)
    ensures c < |s.conns|
  {
  }

  lemma BegunFollows(s: Sys, c: nat)
    requires Consistent(s) && BegunPolling(s, c)
    ensures Follows(s, c, s.conns[c], I.Polled(s.conns[c].request.ts, []))
  {
    var k := s.conns[c];
    assert Kept(s, c) && Polling(s, c);
    ConsistentSound(s);
    SoundRefers(s);
    hide Consistent, MessagesRefer;
    P.NoWords(s.store);
    assert k.received + [] == k.received;
  }

  /** Through its polls the client has received, in order and in words, exactly what the log holds at the
      positions of the rounds so far; and no write has overwritten another. */
  lemma ReceivedIs(h: Host, s: Sys, c: nat, moves: seq<Move>)
    requires Run(h, s, c, moves) && AtRest(End(h, s, moves), c)
    ensures var (end, at) := (End(h, s, moves), Flatten(BatchesOf(h, s, c, moves)));
            && MessagesRefer(end.store) && Within(end.store.messages, at)
            && end.conns[c].received == s.conns[c].received + P.WordsAt(end.store, at)
            && end.conns[c].clobbered == s.conns[c].clobbered
  {
    hide Consistent, I.Polled, Flatten, End, Rounds, Plays, P.WordsAt, MessagesRefer, TasksOf, BegunPolling, Within;
    BegunExists(s, c);
    BegunFollows(s, c);
    RunFollows(h, s, c, s.conns[c], s.conns[c].request.ts, [], moves);
    assert [] + Rounds(h, s, moves) == Rounds(h, s, moves);
  }

  lemma RunGrows(h: Host, s: Sys, c: nat, moves: seq<Move>)
    requires Run(h, s, c, moves)
    ensures c < |s.conns|
    ensures GrowThrough(s.store.messages, Rounds(h, s, moves), End(h, s, moves).store.messages)
    ensures I.Saved(Rounds(h, s, moves)) && I.Members(Rounds(h, s, moves))
  {
    hide Consistent, End, Rounds, Plays;
    RoundsGrow(h, s, moves);
  }

  /** No position of the log is delivered to the client twice, whatever chats it is added to meanwhile. */
  lemma NeverTwice(h: Host, s: Sys, c: nat, moves: seq<Move>, k: nat)
    requires Run(h, s, c, moves)
    ensures c < |s.conns| && I.Times(Flatten(BatchesOf(h, s, c, moves)), k) <= 1
  {
    hide Run, Rounds, I.Polled, I.Members, I.Saved, Flatten, GrowThrough;
    RunGrows(h, s, c, moves);
    I.DeliveredOnce(s.conns[c].request.ts, Rounds(h, s, moves), k);
  }

  /** On a log in the order of its stamps a message is delivered exactly when it is due at the first scan after
      it was saved, and then by that scan. By then the client must be in the message's chat, or stay out of it. */
  lemma DeliveredExactly(h: Host, s: Sys, c: nat, moves: seq<Move>, j: nat, k: nat)
    requires Run(h, s, c, moves) && I.FirstSeen(Rounds(h, s, moves), j, k)
    requires I.MemberOrNever(Rounds(h, s, moves), j, Rounds(h, s, moves)[j].log[k].chatTo)
    requires H.InOrder(End(h, s, moves).store.messages)
    ensures c < |s.conns|
    ensures var (rounds, batches) := (Rounds(h, s, moves), BatchesOf(h, s, c, moves));
            && |batches| == |rounds|
            && (k in Flatten(batches)
                <==> I.Due(rounds[j].log, rounds[j].ids, I.LevelAt(s.conns[c].request.ts, rounds, j), k))
            && (k in Flatten(batches) <==> k in batches[j])
  {
    RunGrows(h, s, c, moves);
    var rounds := Rounds(h, s, moves);
    forall i | 0 <= i < |rounds|
      ensures H.InOrder(rounds[i].log)
    {
      I.EarlierInOrder(rounds[i].log, End(h, s, moves).store.messages);
    }
    hide Run, Rounds, End, I.Polled, I.Members, I.Saved, Flatten, GrowThrough;
    hide I.LevelAt, I.Due, I.FirstSeen, I.MemberOrNever;
    I.DeliveredExactly(s.conns[c].request.ts, rounds, j, k);
  }

  /** With at most three news per chat and scan, and later stamps for later messages, every message above the
      client's start in a chat it is in by then is delivered exactly once, by the first scan after it was saved. */
  lemma EveryMessageOnce(h: Host, s: Sys, c: nat, moves: seq<Move>, j: nat, k: nat)
    requires Run(h, s, c, moves) && I.FirstSeen(Rounds(h, s, moves), j, k)
    requires c < |s.conns|
    requires var (rounds, start) := (Rounds(h, s, moves), s.conns[c].request.ts);
             && I.Roomy(start, rounds) && I.StampedLater(start, rounds)
             && rounds[j].log[k].chatTo in rounds[j].ids && rounds[j].log[k].ts > start
    ensures var batches := BatchesOf(h, s, c, moves);
            |batches| == |Rounds(h, s, moves)| && k in batches[j] && I.Times(Flatten(batches), k) == 1
  {
    RunGrows(h, s, c, moves);
    hide Run, Rounds, I.Polled, I.Members, I.Saved, Flatten, GrowThrough, I.Roomy, I.StampedLater;
    I.NothingMissed(s.conns[c].request.ts, Rounds(h, s, moves), j, k);
  }
}
