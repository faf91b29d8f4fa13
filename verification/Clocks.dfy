// When the log is in the order of its time stamps. A message is stamped before the lock under which it is saved,
// so a clock that never goes back is not enough: two workers can overtake each other in between.
module Clocks {
  import opened Wrappers
  import opened Tables
  import opened Worker
  import opened Ledger
  import opened Session
  import opened Server
  import H = History

  /** The clock as the workers read it, from `time` on: it never goes back. */
  predicate Forward(time: nat, events: seq<Event>)
    decreases |events|
  {
    events == [] ||
    (if events[0].Work? then time <= events[0].now && Forward(events[0].now, events[1..])
     else Forward(time, events[1..]))
  }

  predicate NoLater(log: seq<Message>, time: nat) {
    forall i :: 0 <= i < |log| ==> log[i].ts <= time
  }

  /** The log is in order and not ahead of the clock, and what the only worker is about to save belongs at its end. */
  ghost predicate Ordered(s: Sys, time: nat) {
    && H.InOrder(s.store.messages) && NoLater(s.store.messages, time) && |s.workers| == 1
    && (s.workers[0].Some? && s.workers[0].value.pc.Save? ==>
          var ts := s.workers[0].value.pc.msg.ts; ts <= time && NoLater(s.store.messages, ts))
  }

  /** A step saves what it carries, or leaves all stamps alone; and it stamps what it is going to save. */
  lemma StepStamps(h: Host, s: Storage, t: Task, pc: Pc, now: nat)
    ensures var (s', pc') := Step(h, s, t, pc, now);
            && (if pc.Save? then s'.messages == s.messages + [pc.msg]
                else |s'.messages| == |s.messages|
                     && forall k :: 0 <= k < |s.messages| ==> s'.messages[k].ts == s.messages[k].ts)
            && (pc'.Save? ==> pc'.msg.ts == now && !pc.Save?)
  {
    hide Newest, Pick, Mix, UsersByName, ChatsByName, UserById, ChatById, ChatIdsOf, HistoryLimit, InChat;
  }

  lemma OrderedEvent(h: Host, s: Sys, time: nat, e: Event)
    requires Ordered(s, time) && Enabled(s, e) && (e.Work? ==> time <= e.now)
    ensures Ordered(Next(h, s, e), if e.Work? then e.now else time)
  {
    if e.Work? {
      StepStamps(h, s.store, s.workers[0].value.task, s.workers[0].value.pc, e.now);
    }
    hide Step, Booked, Replied, ReadDone, WriteDone, HandshakeDone, Ticked, TimerDropped;
  }

  lemma {:induction false} OrderedRun(h: Host, s: Sys, time: nat, events: seq<Event>)
    requires Ordered(s, time) && Forward(time, events)
    ensures H.InOrder(After(h, s, events).store.messages)
    decreases |events|
  {
    hide Next, Enabled;
    if events != [] {
      var e := events[0];
      var time' := if e.Work? then e.now else time;
      if Enabled(s, e) {
        OrderedEvent(h, s, time, e);
        OrderedRun(h, Next(h, s, e), time', events[1..]);
      } else {
        OrderedRun(h, s, time', events[1..]);
      }
    }
  }

  /** With one worker and a clock that does not go back every run's log is in the order of its stamps. */
  lemma OneWorkerInOrder(h: Host, events: seq<Event>)
    requires Forward(0, events)
    ensures H.InOrder(After(h, Initial(1), events).store.messages)
  {
    assert Resting(1) == [None];
    OrderedRun(h, Initial(1), 0, events);
  }

  /** A worker that has been let in and will find the addressee of its message. */
  predicate AboutToSend(s: Sys, w: nat) {
    && Enabled(s, Work(w, 0)) && s.workers[w].value.pc.Authed? && s.workers[w].value.task.cmd.MessageSend?
    && |UsersByName(s.store.users, s.workers[w].value.task.toUser)| == 1
  }

  function SentBy(s: Sys, w: nat, now: nat): Message
    requires AboutToSend(s, w)
  {
    var job := s.workers[w].value;
    Message(Unread, job.pc.user.id, UsersByName(s.store.users, job.task.toUser)[0].selfChatId, now, job.task.message)
  }

  predicate Holding(s: Sys, w: nat, m: Message) {
    Enabled(s, Work(w, 0)) && s.workers[w].value.pc == Save(m)
  }

  lemma Stamps(h: Host, s: Sys, w: nat, now: nat)
    requires AboutToSend(s, w)
    ensures var s' := WorkOn(h, s, w, now);
            && Holding(s', w, SentBy(s, w, now)) && s'.store == s.store
            && |s'.workers| == |s.workers| && |s'.conns| == |s.conns|
            && forall v :: 0 <= v < |s.workers| && v != w ==> s'.workers[v] == s.workers[v]
  {
    hide UsersByName, Booked;
  }

  lemma Saves(h: Host, s: Sys, w: nat, m: Message, now: nat)
    requires Holding(s, w, m)
    ensures var s' := WorkOn(h, s, w, now);
            && s'.store.messages == s.store.messages + [m]
            && |s'.workers| == |s.workers| && |s'.conns| == |s.conns|
            && forall v :: 0 <= v < |s.workers| && v != w ==> s'.workers[v] == s.workers[v]
  {
    hide Booked;
  }

  lemma FourEvents(h: Host, s: Sys, a: Event, b: Event, c: Event, d: Event)
    requires Enabled(s, a) && Enabled(Next(h, s, a), b)
    requires var s2 := Next(h, Next(h, s, a), b); Enabled(s2, c) && Enabled(Next(h, s2, c), d)
    ensures var s2 := Next(h, Next(h, s, a), b); After(h, s, [a, b, c, d]) == Next(h, Next(h, s2, c), d)
  {
    hide Next, Enabled;
    var s1 := Next(h, s, a);
    var s2 := Next(h, s1, b);
    assert [a, b, c, d][1..] == [b, c, d] && [b, c, d][1..] == [c, d] && [c, d][1..] == [d] && [d][1..] == [];
    assert After(h, s, [a, b, c, d]) == After(h, s1, [b, c, d]);
    assert After(h, s1, [b, c, d]) == After(h, s2, [c, d]);
    assert After(h, s2, [c, d]) == After(h, Next(h, s2, c), [d]);
  }

  /** With two workers it need not be: the one that is stamped first can be saved last, under any clock. */
  lemma Overtaken(h: Host, s: Sys, now: nat)
    requires AboutToSend(s, 0) && AboutToSend(s, 1)
    ensures var events := [Work(0, now), Work(1, now + 1), Work(1, now + 1), Work(0, now + 1)];
            && Forward(now, events)
            && After(h, s, events).store.messages
               == s.store.messages + [SentBy(s, 1, now + 1)] + [SentBy(s, 0, now)]
            && !H.InOrder(After(h, s, events).store.messages)
  {
    hide WorkOn, UsersByName, After;
    var first, second := SentBy(s, 0, now), SentBy(s, 1, now + 1);
    var s1 := WorkOn(h, s, 0, now);
    Stamps(h, s, 0, now);
    var s2 := WorkOn(h, s1, 1, now + 1);
    Stamps(h, s1, 1, now + 1);
    var s3 := WorkOn(h, s2, 1, now + 1);
    Saves(h, s2, 1, second, now + 1);
    Saves(h, s3, 0, first, now + 1);
    FourEvents(h, s, Work(0, now), Work(1, now + 1), Work(1, now + 1), Work(0, now + 1));
    LaterFirst(s.store.messages, second, first);
    FourForward(now);
  }

  lemma LaterFirst(log: seq<Message>, m: Message, n: Message)
    requires m.ts > n.ts
    ensures !H.InOrder(log + [m] + [n])
  {
    var all := log + [m] + [n];
    assert all[|log|] == m && all[|log| + 1] == n;
  }

  lemma FourForward(now: nat)
    ensures Forward(now, [Work(0, now), Work(1, now + 1), Work(1, now + 1), Work(0, now + 1)])
  {
    var later := [Work(1, now + 1), Work(1, now + 1), Work(0, now + 1)];
    assert [Work(0, now), Work(1, now + 1), Work(1, now + 1), Work(0, now + 1)][1..] == later;
    assert later[1..] == [Work(1, now + 1), Work(0, now + 1)] && later[1..][1..] == [Work(0, now + 1)];
    assert later[1..][1..][1..] == [];
    assert Forward(now + 1, later[1..][1..]);
    assert Forward(now + 1, later[1..]);
  }
}
