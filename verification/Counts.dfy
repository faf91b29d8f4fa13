// Two quantities over whole runs: when chat names stay unique, and how many messages the log holds.
module Counts {
  import opened Wrappers
  import opened Tables
  import opened Integrity
  import opened Worker
  import opened Ledger
  import opened Session
  import opened Server
  import opened InFlight
  import opened Runs

  // ------------------------------------------------------- unique chat names

  predicate Takes(s: Sys, e: Event) {
    e.Work? && Enabled(s, e) && TakesChatName(s.store, s.workers[e.w].value.task, s.workers[e.w].value.pc)
  }

  predicate SometimeTaken(h: Host, s: Sys, events: seq<Event>)
    decreases |events|
  {
    events != [] &&
    (Takes(s, events[0]) || SometimeTaken(h, if Enabled(s, events[0]) then Next(h, s, events[0]) else s, events[1..]))
  }

  lemma DuplicateStays(s: Storage, t: Storage)
    requires Extends(s, t) && ChatNamesUnique(t)
    ensures ChatNamesUnique(s)
  {
  }

  lemma UniqueEvent(h: Host, s: Sys, e: Event)
    requires Enabled(s, e) && ChatNamesUnique(s.store)
    ensures ChatNamesUnique(Next(h, s, e).store) <==> !Takes(s, e)
  {
    hide Step, Booked, Replied, ReadDone, WriteDone, HandshakeDone, Ticked, TimerDropped;
    hide ChatNamesUnique, TakesChatName;
    if e.Work? {
      UniqueExactly(h, s.store, s.workers[e.w].value.task, s.workers[e.w].value.pc, e.now);
    }
  }

  /** Over a whole run chat names are unique exactly as long as no user was created under the name of a chat. */
  lemma {:induction false} NamesUniqueExactly(h: Host, s: Sys, events: seq<Event>)
    requires Permutes(h) && Consistent(s) && ChatNamesUnique(s.store)
    ensures ChatNamesUnique(After(h, s, events).store) <==> !SometimeTaken(h, s, events)
    decreases |events|
  {
    hide Sound, AllKept, TakenInOrder, Conserved, Next, Enabled, Extends, ChatNamesUnique, Takes;
    if events != [] {
      var e := events[0];
      if Enabled(s, e) {
        SoundStep(h, s, e);
        KeptStep(h, s, e);
        TasksStep(h, s, e);
        UniqueEvent(h, s, e);
        var s' := Next(h, s, e);
        if Takes(s, e) {
          EveryRun(h, s', events[1..]);
          if ChatNamesUnique(After(h, s', events[1..]).store) {
            DuplicateStays(s'.store, After(h, s', events[1..]).store);
          }
        } else {
          NamesUniqueExactly(h, s', events[1..]);
        }
      } else {
        NotTaken(s, e);
        NamesUniqueExactly(h, s, events[1..]);
      }
    }
  }

  lemma NotTaken(s: Sys, e: Event)
    requires !Enabled(s, e)
    ensures !Takes(s, e)
  {
  }

  // ------------------------------------------------------ the log is counted

  /** A finished task that was told its message is stored. */
  function Told(done: (Task, Account)): nat {
    if Sends(done.0.cmd) && done.1.replies != [] && !done.1.replies[0].Error? then 1 else 0
  }

  function AllTold(done: seq<(Task, Account)>): nat {
    if done == [] then 0 else AllTold(done[..|done| - 1]) + Told(done[|done| - 1])
  }

  /** A worker that has stored a message and is about to say so. */
  function Telling(w: Option<Job>): nat {
    if w.Some? && Sends(w.value.task.cmd) && w.value.pc.Send? && !w.value.pc.reply.Error? then 1 else 0
  }

  function AllTelling(ws: seq<Option<Job>>): nat {
    if ws == [] then 0 else Telling(ws[0]) + AllTelling(ws[1..])
  }

  /** Each entry of the log is one successful send, told to its client or about to be. */
  ghost predicate LogCounted(s: Sys) {
    |s.store.messages| == AllTold(s.finished) + AllTelling(s.workers)
  }

  lemma {:induction false} TellingUpdate(ws: seq<Option<Job>>, w: nat, x: Option<Job>)
    requires w < |ws|
    ensures AllTelling(ws[w := x]) + Telling(ws[w]) == AllTelling(ws) + Telling(x)
  {
    hide Telling;
    if w == 0 {
      assert ws[w := x][1..] == ws[1..];
    } else {
      assert ws[w := x][1..] == ws[1..][w - 1 := x];
      TellingUpdate(ws[1..], w - 1, x);
    }
  }

  lemma {:induction false} NobodyTells(n: nat)
    ensures AllTelling(Resting(n)) == 0
  {
    if n > 0 {
      NobodyTells(n - 1);
      assert Resting(n)[1..] == Resting(n - 1);
    }
  }

  /** What one step of a worker adds to the log it adds to what has been or is being told. */
  lemma JobCounts(h: Host, store: Storage, job: Job, now: nat)
    requires IdsCount(store) && Balanced(job.task, job.pc, job.account) && !job.pc.Done?
    ensures var (store', pc) := Step(h, store, job.task, job.pc, now);
            && |store.messages| <= |store'.messages|
            && |store'.messages| - |store.messages| + Telling(Some(job))
               == if pc.Done? then Told((job.task, Booked(job.account, store, store', job.pc)))
                  else Telling(Some(Job(job.task, pc, Booked(job.account, store, store', job.pc))))
  {
    StepBalances(h, store, job.task, job.pc, job.account, now);
    if job.pc.Send? {
      assert Step(h, store, job.task, job.pc, now) == (store, Done);
      assert (job.account.replies + [job.pc.reply])[0] == job.pc.reply;
    }
    hide Step, IdsCount;
  }

  lemma CountedStep(h: Host, s: Sys, e: Event)
    requires Sound(s) && LogCounted(s) && Enabled(s, e)
    ensures LogCounted(Next(h, s, e))
  {
    hide Step, Booked, Replied, ReadDone, WriteDone, HandshakeDone, Ticked, TimerDropped;
    hide Telling, Told, Balanced, Carries;
    match e
    case Take(w) =>
      TellingUpdate(s.workers, w, Some(Job(s.queue[0], Start, NOTHING)));
      NotTelling(s.queue[0]);
    case Work(w, now) => CountedWork(h, s, w, now);
    case _ =>
  }

  lemma CountedWork(h: Host, s: Sys, w: nat, now: nat)
    requires Sound(s) && LogCounted(s) && Enabled(s, Work(w, now))
    ensures LogCounted(WorkOn(h, s, w, now))
  {
    var job := s.workers[w].value;
    SoundJob(s, w);
    hide Step, Booked, Replied, Telling, Told, Balanced, Carries, Sound, AllTold, AllTelling, IdsCount;
    var s' := WorkOn(h, s, w, now);
    JobCounts(h, s.store, job, now);
    TellingUpdate(s.workers, w, s'.workers[w]);
    NoneTelling();
    ToldMore(s.finished, (job.task, Booked(job.account, s.store, s'.store, job.pc)));
  }

  lemma SoundJob(s: Sys, w: nat)
    requires Sound(s) && w < |s.workers| && s.workers[w].Some?
    ensures var job := s.workers[w].value;
            IdsCount(s.store) && Balanced(job.task, job.pc, job.account) && !job.pc.Done?
  {
  }

  lemma ToldMore(done: seq<(Task, Account)>, x: (Task, Account))
    ensures AllTold(done + [x]) == AllTold(done) + Told(x)
  {
    assert (done + [x])[..|done|] == done;
  }

  lemma NotTelling(t: Task)
    ensures Telling(None) == 0 && Telling(Some(Job(t, Start, NOTHING))) == 0
  {
  }

  lemma NoneTelling()
    ensures Telling(None) == 0
  {
  }

  lemma {:induction false} CountedRun(h: Host, s: Sys, events: seq<Event>)
    requires Permutes(h) && Consistent(s) && LogCounted(s)
    ensures LogCounted(After(h, s, events))
    decreases |events|
  {
    hide Sound, AllKept, TakenInOrder, Conserved, Next, Enabled, Extends, LogCounted;
    if events != [] {
      var e := events[0];
      if Enabled(s, e) {
        SoundStep(h, s, e);
        KeptStep(h, s, e);
        TasksStep(h, s, e);
        CountedStep(h, s, e);
        CountedRun(h, Next(h, s, e), events[1..]);
      } else {
        CountedRun(h, s, events[1..]);
      }
    }
  }

  /** In every run the log holds exactly as many messages as sends have succeeded. */
  lemma LogCountsSends(h: Host, workers: nat, events: seq<Event>)
    requires Permutes(h)
    ensures LogCounted(After(h, Initial(workers), events))
  {
    NobodyTells(workers);
    hide Consistent, After;
    InitiallyConsistent(workers);
    CountedRun(h, Initial(workers), events);
  }
}
