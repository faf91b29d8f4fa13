// What a worker carries of earlier moments it has read itself: the states a run has gone through since the worker
// took its task.
module Moments {
  import opened Tables
  import opened Worker
  import opened Ledger
  import opened Session
  import opened Server

  /** The state before event i of a run. */
  function StateAt(h: Host, s: Sys, events: seq<Event>, i: nat): Sys
    requires i <= |events|
  {
    After(h, s, events[..i])
  }

  predicate HasTask(s: Sys, w: nat, t: Task) {
    w < |s.workers| && s.workers[w].Some? && s.workers[w].value.task == t
  }

  /** Worker w took its present task with event m and has had it since. */
  ghost predicate TookAt(h: Host, s: Sys, events: seq<Event>, w: nat, m: nat) {
    && m < |events| && events[m] == Take(w) && Enabled(StateAt(h, s, events, m), Take(w))
    && forall n: nat :: m < n <= |events| ==>
         HasTask(StateAt(h, s, events, n), w, StateAt(h, s, events, m).queue[0])
  }

  /** A store, a log, or one log after another, as they were at moments behind event m. */
  ghost predicate Seen(h: Host, s: Sys, events: seq<Event>, m: nat, store: Storage) {
    exists i: nat :: m < i <= |events| && StateAt(h, s, events, i).store == store
  }

  ghost predicate SeenLog(h: Host, s: Sys, events: seq<Event>, m: nat, log: seq<Message>) {
    exists i: nat :: m < i <= |events| && StateAt(h, s, events, i).store.messages == log
  }

  ghost predicate SeenLogs(h: Host, s: Sys, events: seq<Event>, m: nat, one: seq<Message>, next: seq<Message>) {
    exists i: nat, j: nat :: m < i <= j <= |events|
      && StateAt(h, s, events, i).store.messages == one && StateAt(h, s, events, j).store.messages == next
  }

  ghost predicate Remembers(h: Host, s: Sys, events: seq<Event>, m: nat, pc: Pc) {
    match pc
    case Resolving(first, _, _) => Seen(h, s, events, m, first)
    case SelectFrom(_, _, logTo, _) => SeenLog(h, s, events, m, logTo)
    case Formatting(_, _, _, ByQuery(_, _, logTo, logFrom)) => SeenLogs(h, s, events, m, logTo, logFrom)
    case Send(OkMessages(_, _, ByQuery(_, _, logTo, logFrom))) => SeenLogs(h, s, events, m, logTo, logFrom)
    case _ => true
  }

  ghost predicate Past(h: Host, s: Sys, events: seq<Event>, w: nat) {
    var end := After(h, s, events);
    w < |end.workers| && end.workers[w].Some? ==>
      exists m: nat :: TookAt(h, s, events, w, m) && Remembers(h, s, events, m, end.workers[w].value.pc)
  }

  // ------------------------------------------------------------ one event more

  lemma {:induction false} AfterMore(h: Host, s: Sys, events: seq<Event>, e: Event)
    ensures var end := After(h, s, events);
            After(h, s, events + [e]) == if Enabled(end, e) then Next(h, end, e) else end
    decreases |events|
  {
    if events == [] {
      assert events + [e] == [e] && [e][1..] == [];
    } else {
      hide Next, Enabled;
      assert (events + [e])[1..] == events[1..] + [e];
      AfterMore(h, if Enabled(s, events[0]) then Next(h, s, events[0]) else s, events[1..], e);
    }
  }

  lemma StateStays(h: Host, s: Sys, events: seq<Event>, e: Event, i: nat)
    requires i <= |events|
    ensures StateAt(h, s, events + [e], i) == StateAt(h, s, events, i)
  {
    assert (events + [e])[..i] == events[..i];
  }

  lemma StateNow(h: Host, s: Sys, events: seq<Event>)
    ensures StateAt(h, s, events, |events|) == After(h, s, events)
  {
    assert events[..|events|] == events;
  }

  lemma TookStays(h: Host, s: Sys, events: seq<Event>, e: Event, w: nat, m: nat)
    requires TookAt(h, s, events, w, m)
    requires HasTask(After(h, s, events + [e]), w, StateAt(h, s, events, m).queue[0])
    ensures TookAt(h, s, events + [e], w, m)
  {
    var t := StateAt(h, s, events, m).queue[0];
    hide StateAt, After, HasTask, Enabled;
    StateStays(h, s, events, e, m);
    forall n: nat | m < n <= |events + [e]|
      ensures HasTask(StateAt(h, s, events + [e], n), w, t)
    {
      if n <= |events| {
        StateStays(h, s, events, e, n);
      } else {
        StateNow(h, s, events + [e]);
      }
    }
  }

  lemma SeenStays(h: Host, s: Sys, events: seq<Event>, e: Event, m: nat, store: Storage)
    requires Seen(h, s, events, m, store)
    ensures Seen(h, s, events + [e], m, store)
  {
    hide StateAt;
    var i: nat :| m < i <= |events| && StateAt(h, s, events, i).store == store;
    StateStays(h, s, events, e, i);
  }

  lemma SeenLogStays(h: Host, s: Sys, events: seq<Event>, e: Event, m: nat, log: seq<Message>)
    requires SeenLog(h, s, events, m, log)
    ensures SeenLog(h, s, events + [e], m, log)
  {
    hide StateAt;
    var i: nat :| m < i <= |events| && StateAt(h, s, events, i).store.messages == log;
    StateStays(h, s, events, e, i);
  }

  lemma SeenLogsStay(h: Host, s: Sys, events: seq<Event>, e: Event, m: nat, one: seq<Message>, next: seq<Message>)
    requires SeenLogs(h, s, events, m, one, next)
    ensures SeenLogs(h, s, events + [e], m, one, next)
  {
    hide StateAt;
    var i: nat, j: nat :| m < i <= j <= |events|
      && StateAt(h, s, events, i).store.messages == one && StateAt(h, s, events, j).store.messages == next;
    StateStays(h, s, events, e, i);
    StateStays(h, s, events, e, j);
  }

  lemma RemembersStays(h: Host, s: Sys, events: seq<Event>, e: Event, m: nat, pc: Pc)
    requires Remembers(h, s, events, m, pc)
    ensures Remembers(h, s, events + [e], m, pc)
  {
    hide Seen, SeenLog, SeenLogs;
    match pc
    case Resolving(first, _, _) => SeenStays(h, s, events, e, m, first);
    case SelectFrom(_, _, logTo, _) => SeenLogStays(h, s, events, e, m, logTo);
    case Formatting(_, _, _, ByQuery(_, _, logTo, logFrom)) => SeenLogsStay(h, s, events, e, m, logTo, logFrom);
    case Send(OkMessages(_, _, ByQuery(_, _, logTo, logFrom))) => SeenLogsStay(h, s, events, e, m, logTo, logFrom);
    case _ =>
  }

  /** What is new in what a step leaves a worker with, is the store it has just read. */
  predicate FromNow(s: Storage, pc: Pc, pc': Pc) {
    match pc'
    case Resolving(first, _, _) => first == s || (pc.Resolving? && first == pc.first)
    case SelectFrom(_, _, logTo, _) => logTo == s.messages
    case Formatting(_, _, _, ByQuery(user, other, logTo, logFrom)) =>
      || (pc.SelectFrom? && logTo == pc.logTo && logFrom == s.messages)
      || (pc.Formatting? && pc.origin == ByQuery(user, other, logTo, logFrom))
    case Send(OkMessages(_, _, origin)) => pc.Formatting? && pc.origin == origin
    case _ => true
  }

  lemma StepReads(h: Host, s: Storage, t: Task, pc: Pc, now: nat)
    ensures FromNow(s, pc, Step(h, s, t, pc, now).1)
  {
    hide Newest, Pick, Marked, Mix, HistoryLimit, FromTo, WithUser, WithChat, WithHeartBit, UserById, ChatById;
    hide UsersByName, ChatsByName, ChatIdsOf;
  }

  lemma RemembersNow(h: Host, s: Sys, events: seq<Event>, e: Event, m: nat, pc: Pc, pc': Pc)
    requires m < |events| && Remembers(h, s, events, m, pc) && FromNow(After(h, s, events).store, pc, pc')
    ensures Remembers(h, s, events + [e], m, pc')
  {
    var now := After(h, s, events).store;
    StateNow(h, s, events);
    StateStays(h, s, events, e, |events|);
    RemembersStays(h, s, events, e, m, pc);
    hide StateAt, After;
    if pc'.Resolving? && pc'.first == now {
      assert Seen(h, s, events + [e], m, now);
    } else if pc'.Formatting? && pc'.origin.ByQuery? && pc.SelectFrom? {
      var i: nat :| m < i <= |events| && StateAt(h, s, events, i).store.messages == pc.logTo;
      StateStays(h, s, events, e, i);
      assert StateAt(h, s, events + [e], |events|).store.messages == now.messages;
    }
  }

  // -------------------------------------------------------------- whole runs

  /** Worker w is at the same task before and after an event that is not its taking one. */
  lemma SameTask(h: Host, s: Sys, e: Event, w: nat)
    requires Enabled(s, e) && e != Take(w)
    requires w < |Next(h, s, e).workers| && Next(h, s, e).workers[w].Some?
    ensures w < |s.workers| && s.workers[w].Some?
    ensures Next(h, s, e).workers[w].value.task == s.workers[w].value.task
    ensures var (pc, pc') := (s.workers[w].value.pc, Next(h, s, e).workers[w].value.pc);
            pc' == pc || FromNow(s.store, pc, pc')
  {
    hide Step, Booked, Replied, ReadDone, WriteDone, HandshakeDone, Ticked, TimerDropped, FromNow;
    if e.Work? && e.w == w {
      StepReads(h, s.store, s.workers[w].value.task, s.workers[w].value.pc, e.now);
    }
  }

  lemma JustTaken(h: Host, s: Sys, events: seq<Event>, w: nat)
    requires Enabled(After(h, s, events), Take(w))
    ensures TookAt(h, s, events + [Take(w)], w, |events|) && Past(h, s, events + [Take(w)], w)
  {
    var all, m := events + [Take(w)], |events|;
    StateNow(h, s, events);
    StateStays(h, s, events, Take(w), m);
    StateNow(h, s, all);
    AfterMore(h, s, events, Take(w));
    hide After;
    assert TookAt(h, s, all, w, m);
    assert Remembers(h, s, all, m, Start);
  }

  lemma PastStays(h: Host, s: Sys, events: seq<Event>, e: Event, w: nat)
    requires Past(h, s, events, w)
    requires var (end, end') := (After(h, s, events), After(h, s, events + [e]));
             && w < |end'.workers| && end'.workers[w].Some?
             && w < |end.workers| && end.workers[w].Some?
             && end'.workers[w].value.task == end.workers[w].value.task
             && (end'.workers[w].value.pc == end.workers[w].value.pc
                 || FromNow(end.store, end.workers[w].value.pc, end'.workers[w].value.pc))
    ensures Past(h, s, events + [e], w)
  {
    var end, end' := After(h, s, events), After(h, s, events + [e]);
    var pc, pc' := end.workers[w].value.pc, end'.workers[w].value.pc;
    var m: nat :| TookAt(h, s, events, w, m) && Remembers(h, s, events, m, pc);
    StateNow(h, s, events);
    assert HasTask(StateAt(h, s, events, |events|), w, StateAt(h, s, events, m).queue[0]);
    hide After, StateAt, Remembers, FromNow;
    TookStays(h, s, events, e, w, m);
    if pc' == pc {
      RemembersStays(h, s, events, e, m, pc);
    } else {
      RemembersNow(h, s, events, e, m, pc, pc');
    }
  }

  lemma PastNothing(h: Host, workers: nat, w: nat)
    ensures Past(h, Initial(workers), [], w)
  {
    NobodyAtWork(workers);
  }

  lemma {:induction false} NobodyAtWork(n: nat)
    ensures forall i :: 0 <= i < |Resting(n)| ==> Resting(n)[i].None?
  {
    if n > 0 {
      NobodyAtWork(n - 1);
    }
  }

  /** In every run, whatever a worker carries of earlier stores and logs is what they were at moments since it took
      its task. */
  lemma {:induction false} PastInRuns(h: Host, workers: nat, events: seq<Event>, w: nat)
    ensures Past(h, Initial(workers), events, w)
    decreases |events|
  {
    hide After, Past, Enabled, Next;
    if events == [] {
      PastNothing(h, workers, w);
    } else {
      var n := |events| - 1;
      assert events == events[..n] + [events[n]];
      PastInRuns(h, workers, events[..n], w);
      PastMore(h, Initial(workers), events[..n], events[n], w);
    }
  }

  lemma PastMore(h: Host, s: Sys, events: seq<Event>, e: Event, w: nat)
    requires Past(h, s, events, w)
    ensures Past(h, s, events + [e], w)
  {
    var end := After(h, s, events);
    AfterMore(h, s, events, e);
    hide After, Next;
    if Enabled(end, e) && e == Take(w) {
      JustTaken(h, s, events, w);
    } else {
      var end' := After(h, s, events + [e]);
      if w < |end'.workers| && end'.workers[w].Some? {
        if Enabled(end, e) {
          SameTask(h, end, e, w);
        }
        PastStays(h, s, events, e, w);
      }
    }
  }
}
