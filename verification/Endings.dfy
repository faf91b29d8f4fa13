// How tasks and connections come to rest: every task nears its end, and a request without an answer leaves its
// connection waiting for ever.
module Endings {
  import opened Wrappers
  import opened Text
  import opened Integrity
  import opened Worker
  import opened Ledger
  import opened Session
  import opened Server
  import opened InFlight
  import opened Runs

  // ---------------------------------------------- what is never answered

  /** A connection that does not poll and has nothing pending stays as it is for the rest of the run. */
  lemma {:induction false} SilentForEver(h: Host, s: Sys, events: seq<Event>, c: nat)
    requires Permutes(h) && Consistent(s) && Silent(s, c)
    ensures Silent(After(h, s, events), c) && After(h, s, events).conns[c] == s.conns[c]
    decreases |events|
  {
    hide Sound, AllKept, TakenInOrder, Conserved, Next, Enabled, Extends, Silent;
    if events != [] {
      var e := events[0];
      if Enabled(s, e) {
        SoundStep(h, s, e);
        KeptStep(h, s, e);
        TasksStep(h, s, e);
        SilentStays(h, s, e, c);
        SilentForEver(h, Next(h, s, e), events[1..], c);
      } else {
        SilentForEver(h, s, events[1..], c);
      }
    }
  }

  /** So a CHAT_HISTORY task, once a worker has looked at it, leaves its connection waiting for ever. */
  lemma ChatHistoryNeverAnswered(h: Host, s: Sys, w: nat, now: nat, events: seq<Event>)
    requires Permutes(h) && Consistent(s) && Enabled(s, Work(w, now))
    requires s.workers[w].value.task.cmd.ChatHistory? && !s.conns[s.workers[w].value.task.client].idle
    ensures var c := s.workers[w].value.task.client;
            var end := After(h, WorkOn(h, s, w, now), events);
            Silent(end, c) && end.conns[c] == s.conns[c]
  {
    hide TakenInOrder, Conserved, Sound, AllKept, Silent, Settled, Balanced;
    UnansweredEnds(h, s, w, now);
    SoundStep(h, s, Work(w, now));
    KeptStep(h, s, Work(w, now));
    TasksStep(h, s, Work(w, now));
    SilentForEver(h, WorkOn(h, s, w, now), events, s.workers[w].value.task.client);
  }

  /** Accepted, greeted, asked for a group's history, taken and looked at. */
  function AskForGroup(parsed: Task, now: nat): seq<Event> {
    [Accept, Handshake(0, true), ReadEvent(0, Request("/v1/group/history", "text/plain", parsed, false)),
     Take(0), Work(0, now)]
  }

  lemma GroupIsRouted()
    ensures Route(Lowercased("/v1/group/history")) == Some(ChatHistory) && AllowedType("text/plain")
    ensures Lowercased("/v1/group/history") != IDLE_RESOURCE
  {
    assert Lowercased("/v1/group/history") == "/v1/group/history";
  }

  /** And any client can get there: no error occurred, nothing is pending, and so it stays. */
  lemma ClientWaitsForEver(h: Host, workers: nat, parsed: Task, now: nat, events: seq<Event>)
    requires Permutes(h) && workers > 0
    ensures var s := After(h, Initial(workers), AskForGroup(parsed, now));
            && Silent(s, 0) && !s.conns[0].failed && !s.conns[0].refused && s.conns[0].stalled
            && Silent(After(h, s, events), 0) && After(h, s, events).conns[0] == s.conns[0]
  {
    GroupRun(h, workers, parsed, now);
    hide Consistent, Silent, After;
    RunConsistent(h, workers, AskForGroup(parsed, now));
    SilentForEver(h, After(h, Initial(workers), AskForGroup(parsed, now)), events, 0);
  }

  lemma GroupRun(h: Host, workers: nat, parsed: Task, now: nat)
    requires workers > 0
    ensures var s := After(h, Initial(workers), AskForGroup(parsed, now));
            Silent(s, 0) && !s.conns[0].failed && !s.conns[0].refused && s.conns[0].stalled
  {
    GroupIsRouted();
    NobodyBusy(workers, NO_TASK);
    hide Route, Lowercased, AllowedType, IDLE_RESOURCE;
    var events := AskForGroup(parsed, now);
    var s0 := Initial(workers);
    var s1 := Next(h, s0, events[0]);
    var s2 := Next(h, s1, events[1]);
    var s3 := Next(h, s2, events[2]);
    var s4 := Next(h, s3, events[3]);
    var s5 := Next(h, s4, events[4]);
    assert s5.conns[0].reading == 0 && s5.queue == [] && s5.workers[0] == None;
    RunningNone(s5.workers, 0);
    Unfold(h, s0, events);
    Unfold(h, s1, events[1..]);
    Unfold(h, s2, events[2..]);
    Unfold(h, s3, events[3..]);
    Unfold(h, s4, events[4..]);
    assert events[1..][1..] == events[2..] && events[2..][1..] == events[3..];
    assert events[3..][1..] == events[4..] && events[4..][1..] == [];
  }

  lemma Unfold(h: Host, s: Sys, events: seq<Event>)
    requires events != [] && Enabled(s, events[0])
    ensures After(h, s, events) == After(h, Next(h, s, events[0]), events[1..])
  {
  }

  // --------------------------------------------------------- every task ends

  /** A worker's own steps bring its task nearer to its end, and no other event touches it. */
  lemma TasksEnd(h: Host, s: Sys, e: Event, w: nat)
    requires Sound(s) && Enabled(s, e) && w < |s.workers| && s.workers[w].Some?
    ensures var (job, job') := (s.workers[w].value, Next(h, s, e).workers[w]);
            if e.Work? && e.w == w then
              job' == None || (job'.value.task == job.task && Nearer(job'.value.pc, job.pc))
            else job' == Some(job)
  {
    hide Step, Booked, Replied, ReadDone, WriteDone, HandshakeDone, Ticked, TimerDropped, Nearer, Carries, Balanced;
    if e.Work? && e.w == w {
      StepNears(h, s.store, s.workers[w].value.task, s.workers[w].value.pc, e.now);
    }
  }
}
