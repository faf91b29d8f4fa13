// The promises of the server over whole runs: any number of connections and workers, any order of events.
module Runs {
  import opened Wrappers
  import opened Tables
  import opened Integrity
  import opened Worker
  import opened Ledger
  import opened Session
  import opened Server
  import opened InFlight
  import M = Moments

  // ------------------------------------------------------- tasks are conserved

  /** FIFO: what has been taken is a prefix of what has been pushed, and the queue is the rest. */
  predicate TakenInOrder(s: Sys) {
    s.pushed == s.taken + s.queue
  }

  function Busy(ws: seq<Option<Job>>, t: Task): nat {
    if ws == [] then 0 else With(ws[0], t) + Busy(ws[1..], t)
  }

  function With(w: Option<Job>, t: Task): nat {
    if w.Some? && w.value.task == t then 1 else 0
  }

  function Ended(done: seq<(Task, Account)>, t: Task): nat {
    if done == [] then 0
    else Ended(done[..|done| - 1], t) + if done[|done| - 1].0 == t then 1 else 0
  }

  /** Every task taken is either still with one worker or finished once. */
  ghost predicate Conserved(s: Sys) {
    forall t :: multiset(s.taken)[t] == Ended(s.finished, t) + Busy(s.workers, t)
  }

  lemma {:induction false} BusyUpdate(ws: seq<Option<Job>>, w: nat, x: Option<Job>, t: Task)
    requires w < |ws|
    ensures Busy(ws[w := x], t) + With(ws[w], t) == Busy(ws, t) + With(x, t)
  {
    hide With;
    if w == 0 {
      assert ws[w := x][1..] == ws[1..];
    } else {
      assert ws[w := x][1..] == ws[1..][w - 1 := x];
      BusyUpdate(ws[1..], w - 1, x, t);
    }
  }

  lemma ConservedTake(s: Sys, w: nat)
    requires Conserved(s) && Enabled(s, Take(w))
    ensures Conserved(s.(queue := s.queue[1..], taken := s.taken + [s.queue[0]],
                         workers := s.workers[w := Some(Job(s.queue[0], Start, NOTHING))]))
  {
    hide Busy, Ended;
    var x := s.queue[0];
    forall t
      ensures multiset(s.taken + [x])[t]
           == Ended(s.finished, t) + Busy(s.workers[w := Some(Job(x, Start, NOTHING))], t)
    {
      BusyUpdate(s.workers, w, Some(Job(x, Start, NOTHING)), t);
      assert multiset(s.taken + [x])[t] == multiset(s.taken)[t] + if x == t then 1 else 0;
    }
  }

  lemma ConservedWork(h: Host, s: Sys, w: nat, now: nat)
    requires Conserved(s) && Enabled(s, Work(w, now))
    ensures Conserved(WorkOn(h, s, w, now))
  {
    hide Busy, Step, Booked, Replied;
    var s' := WorkOn(h, s, w, now);
    forall t
      ensures multiset(s'.taken)[t] == Ended(s'.finished, t) + Busy(s'.workers, t)
    {
      BusyUpdate(s.workers, w, s'.workers[w], t);
      if s'.workers[w].None? {
        assert s'.finished[..|s.finished|] == s.finished;
      }
    }
  }

  lemma TasksStep(h: Host, s: Sys, e: Event)
    requires TakenInOrder(s) && Conserved(s) && Enabled(s, e)
    ensures TakenInOrder(Next(h, s, e)) && Conserved(Next(h, s, e))
  {
    hide Conserved, Step, Booked, Replied, ReadDone, WriteDone, HandshakeDone, Ticked, TimerDropped;
    match e
    case Take(w) =>
      ConservedTake(s, w);
      assert s.pushed == s.taken + [s.queue[0]] + s.queue[1..];
    case Work(w, now) => ConservedWork(h, s, w, now);
    case _ => SameTasks(s, Next(h, s, e));
  }

  lemma SameTasks(s: Sys, s': Sys)
    requires Conserved(s) && s'.taken == s.taken && s'.finished == s.finished && s'.workers == s.workers
    ensures Conserved(s')
  {
  }

  // ------------------------------------------------------------------- runs

  ghost predicate Consistent(s: Sys) {
    Sound(s) && AllKept(s) && TakenInOrder(s) && Conserved(s)
  }

  lemma {:induction false} NobodyBusy(n: nat, t: Task)
    ensures Busy(Resting(n), t) == 0
    ensures forall i :: 0 <= i < |Resting(n)| ==> Resting(n)[i].None?
  {
    if n > 0 {
      NobodyBusy(n - 1, t);
      assert Resting(n)[1..] == Resting(n - 1);
    }
  }

  lemma {:induction false} EveryRun(h: Host, s: Sys, events: seq<Event>)
    requires Permutes(h) && Consistent(s)
    ensures Consistent(After(h, s, events)) && Extends(s.store, After(h, s, events).store)
    decreases |events|
  {
    hide Sound, AllKept, TakenInOrder, Conserved, Next, Enabled, Extends;
    if events == [] {
      ExtendsReflexive(s.store);
    } else {
      var e := events[0];
      var s' := if Enabled(s, e) then Next(h, s, e) else s;
      ExtendsReflexive(s.store);
      if Enabled(s, e) {
        SoundStep(h, s, e);
        KeptStep(h, s, e);
        TasksStep(h, s, e);
      }
      EveryRun(h, s', events[1..]);
      ExtendsTransitive(s.store, s'.store, After(h, s, events).store);
    }
  }

  lemma InitiallyConsistent(workers: nat)
    ensures Consistent(Initial(workers))
  {
    hide Intact, Carries, Balanced, Settled, Busy, Resting;
    EmptyIntact();
    NobodyBusy(workers, NO_TASK);
    forall t ensures Busy(Resting(workers), t) == 0 {
      NobodyBusy(workers, t);
    }
  }

  lemma RunConsistent(h: Host, workers: nat, events: seq<Event>)
    requires Permutes(h)
    ensures Consistent(After(h, Initial(workers), events))
  {
    hide Consistent, Extends;
    InitiallyConsistent(workers);
    EveryRun(h, Initial(workers), events);
  }

  /** mysql/init.sql's foreign keys and every other integrity rule, in every state of every run. */
  lemma ReferentialIntegrity(h: Host, workers: nat, events: seq<Event>)
    requires Permutes(h)
    ensures Intact(After(h, Initial(workers), events).store)
  {
    hide Intact, After, WorkersSound, AllKept, Conserved, TakenInOrder;
    RunConsistent(h, workers, events);
  }

  /** Nothing stored is ever lost or rewritten: a later state of a run extends an earlier one. */
  lemma StorageOnlyGrows(h: Host, workers: nat, before: seq<Event>, after: seq<Event>)
    requires Permutes(h)
    ensures var s := After(h, Initial(workers), before);
            Extends(s.store, After(h, s, after).store)
  {
    hide Consistent, Extends, After;
    RunConsistent(h, workers, before);
    EveryRun(h, After(h, Initial(workers), before), after);
  }

  /** On a connection that does not poll at most one operation is in flight, so no write is overwritten;
      exactly one until a handshake or read error or a CHAT_HISTORY request. */
  lemma OneInFlight(h: Host, workers: nat, events: seq<Event>, c: nat)
    requires Permutes(h) && c < |After(h, Initial(workers), events).conns|
    ensures var s := After(h, Initial(workers), events);
            var k := s.conns[c];
            !k.idle ==>
              && Pending(s, c) <= 1 && !k.clobbered
              && (!k.failed && !k.stalled ==> Pending(s, c) == 1)
  {
    hide Sound, After, AllTasks, Conserved, TakenInOrder, Pending, Polling;
    RunConsistent(h, workers, events);
    assert Kept(After(h, Initial(workers), events), c);
  }

  /** Each queued task is taken once and in order, is with one worker or finished once, and ends with the
      promised reply. */
  lemma EveryTaskOnce(h: Host, workers: nat, events: seq<Event>)
    requires Permutes(h)
    ensures var s := After(h, Initial(workers), events);
            && s.pushed == s.taken + s.queue
            && (forall t :: multiset(s.taken)[t] == Ended(s.finished, t) + Busy(s.workers, t))
            && forall i :: 0 <= i < |s.finished| ==> Settled(s.finished[i].0, s.finished[i].1)
  {
    hide Intact, After, WorkersSound, AllKept, Busy, Ended, Settled;
    RunConsistent(h, workers, events);
  }

  /** While polling is not disturbed by an error reply, the cursor is where it started or at a message
      whose write to this client has completed. */
  lemma CursorSafe(h: Host, workers: nat, events: seq<Event>, c: nat)
    requires Permutes(h) && c < |After(h, Initial(workers), events).conns|
    ensures var k := After(h, Initial(workers), events).conns[c];
            k.idle && !k.refused ==> k.request.ts == k.start || HasStamp(k.received, k.request.ts)
  {
    hide Sound, After, AllTasks, Conserved, TakenInOrder, Quiet;
    RunConsistent(h, workers, events);
    assert Kept(After(h, Initial(workers), events), c);
  }

  /** The cursor of k' is not behind that of k, and nothing delivered is forgotten. */
  predicate Ahead(k: Conn, k': Conn) {
    k'.idle && k'.request.ts >= k.request.ts && k'.start == k.start && k.received <= k'.received
  }

  lemma CallbacksAhead(k: Conn)
    requires k.idle
    ensures Ahead(k, k)
    ensures forall i: nat, ok :: i < |k.writing| ==> Ahead(k, WriteDone(k, i, ok))
    ensures forall c: nat, now: nat :: k.timers > 0 ==> Ahead(k, Ticked(k, c, now).0)
    ensures k.timers > 0 ==> Ahead(k, TimerDropped(k))
    ensures forall reply :: Ahead(k, Replied(k, reply))
  {
  }

  /** And no event moves it back, whatever the pings reset. */
  lemma CursorNeverMovesBack(h: Host, s: Sys, e: Event, c: nat)
    requires Consistent(s) && Enabled(s, e) && c < |s.conns|
    requires s.conns[c].idle && !s.conns[c].refused
    ensures c < |Next(h, s, e).conns| && Ahead(s.conns[c], Next(h, s, e).conns[c])
  {
    assert Kept(s, c);
    CallbacksAhead(s.conns[c]);
    assert !s.conns[c].handshake && s.conns[c].reading == 0;
    hide Consistent, Kept, Ahead, Step, Booked, ReadDone, WriteDone, HandshakeDone, Ticked, TimerDropped, Replied;
    match e
    case Work(w, now) => assert WorkOn(h, s, w, now).conns[c] == s.conns[c] || s.workers[w].value.pc.Send?;
    case _ =>
  }

  /** A worker is about to hand a batch to a polling client. */
  predicate Sending(s: Sys, w: nat) {
    w < |s.workers| && s.workers[w].Some? && s.workers[w].value.pc.Send? && s.workers[w].value.pc.reply.IdleMessages?
  }

  /** Every message of a batch is newer than the cursor its poll carried, and bears the names of its real
      sender and its real target. */
  ghost predicate BatchFits(s: Sys, w: nat)
    requires Sending(s, w)
  {
    var (t, r) := (s.workers[w].value.task, s.workers[w].value.pc.reply);
    && |r.msgs| == |r.source|
    && forall i :: 0 <= i < |r.msgs| ==>
         && r.msgs[i].ts > t.ts
         && Refers(s.store, r.source[i]) && r.msgs[i] == InWords(s.store, r.source[i])
  }

  lemma SoundBatch(s: Sys, w: nat)
    requires WorkersSound(s) && Sending(s, w)
    ensures BatchFits(s, w)
  {
    hide Balanced;
    var job := s.workers[w].value;
    assert Carries(s.store, job.task, job.pc);
    assert Worded(s.store, job.pc.reply.source, job.pc.reply.msgs);
    hide Carries, Worded;
    forall i | 0 <= i < |job.pc.reply.msgs|
      ensures job.pc.reply.msgs[i].ts > job.task.ts
    {
      assert job.pc.reply.source[i].ts > job.task.ts;
    }
  }

  lemma BatchAboveItsCursor(h: Host, workers: nat, events: seq<Event>, w: nat)
    requires Permutes(h) && Sending(After(h, Initial(workers), events), w)
    ensures BatchFits(After(h, Initial(workers), events), w)
  {
    hide After, WorkersSound, AllKept, Intact, Conserved, TakenInOrder, Settled, BatchFits;
    RunConsistent(h, workers, events);
    SoundBatch(After(h, Initial(workers), events), w);
  }

  /** The names in a history answer are those of real senders and real targets, too. */
  lemma HistoryNamesReal(h: Host, workers: nat, events: seq<Event>, w: nat)
    requires Permutes(h)
    requires var ws := After(h, Initial(workers), events).workers;
             w < |ws| && ws[w].Some? && ws[w].value.pc.Send? && ws[w].value.pc.reply.OkMessages?
    ensures var s := After(h, Initial(workers), events);
            var r := s.workers[w].value.pc.reply;
            Worded(s.store, r.source, r.msgs) && |r.msgs| == |r.source|
  {
    hide After, AllKept, Intact, Conserved, TakenInOrder, Settled, Worded, Balanced;
    RunConsistent(h, workers, events);
    var job := After(h, Initial(workers), events).workers[w].value;
    assert Carries(After(h, Initial(workers), events).store, job.task, job.pc);
  }

  /** A worker has looked up every chat it collected an id for. */
  predicate Resolved(s: Sys, w: nat) {
    && w < |s.workers| && s.workers[w].Some? && s.workers[w].value.pc.Resolving?
    && |s.workers[w].value.pc.got| == |s.workers[w].value.pc.ids|
  }

  /** lookupChatsForUserId linearizes: it returns what one atomic read would have returned at a moment of the run
      since the worker took the task, whatever happened behind that moment, and every chat in it is a real one. */
  lemma ChatListLinearizes(h: Host, workers: nat, events: seq<Event>, w: nat)
    requires Permutes(h) && Resolved(After(h, Initial(workers), events), w)
    ensures var s := After(h, Initial(workers), events);
            var (t, first, got) := (s.workers[w].value.task, s.workers[w].value.pc.first, s.workers[w].value.pc.got);
            && (exists m: nat :: M.TookAt(h, Initial(workers), events, w, m)
                                 && M.Seen(h, Initial(workers), events, m, first))
            && Extends(first, s.store)
            && got == ChatsFor(first.chats, ChatIdsOf(first.chatuser, t.uid))
            && forall i :: 0 <= i < |got| ==> got[i].id != 0 && RealChat(s.store, got[i])
  {
    hide After, AllKept, Intact, Conserved, TakenInOrder, Settled, Balanced, Extends;
    RunConsistent(h, workers, events);
    var s := After(h, Initial(workers), events);
    var job := s.workers[w].value;
    assert Carries(s.store, job.task, job.pc);
    ResolvingKeeps(h, s.store, job.task, job.pc, 0);
    hide Carries, M.TookAt, M.Seen;
    M.PastInRuns(h, workers, events, w);
  }

  /** Of two chats that share a name the older came from createChat and the younger is a self chat. */
  lemma SharedNamesArePaired(h: Host, workers: nat, events: seq<Event>, i: nat, j: nat)
    requires Permutes(h)
    requires var s := After(h, Initial(workers), events).store;
             i < j < |s.chats| && s.chats[i].name == s.chats[j].name
    ensures var s := After(h, Initial(workers), events).store;
            !IsSelfChat(s, s.chats[i].id) && IsSelfChat(s, s.chats[j].id)
  {
    hide After, IsSelfChat, SelfChats, RowsRefer, MessagesRefer, UserNamesUnique;
    ReferentialIntegrity(h, workers, events);
  }

  /** And never do three. */
  lemma ChatNameMultiplicity(h: Host, workers: nat, events: seq<Event>, i: nat, j: nat, k: nat)
    requires Permutes(h)
    requires i < j < k < |After(h, Initial(workers), events).store.chats|
    ensures var s := After(h, Initial(workers), events).store;
            !(s.chats[i].name == s.chats[j].name == s.chats[k].name)
  {
    hide After, Intact;
    ReferentialIntegrity(h, workers, events);
    AtMostTwoChats(After(h, Initial(workers), events).store, i, j, k);
  }
}
