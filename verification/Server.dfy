// The whole server: connections, the task queue, the workers and the storage. Every callback of a
// connection and every locked section of a worker is one event, in any order.
module Server {
  import opened Wrappers
  import opened Tables
  import opened Integrity
  import opened Worker
  import opened Ledger
  import opened Session

  datatype Job = Job(task: Task, pc: Pc, account: Account)

  datatype Sys = Sys(
    store: Storage,
    conns: seq<Conn>,
    queue: seq<Task>,
    workers: seq<Option<Job>>,
    // what has happened so far
    pushed: seq<Task>,
    taken: seq<Task>,
    finished: seq<(Task, Account)>)

  datatype Event =
    | Accept
    | Handshake(c: nat, ok: bool)
    | ReadEvent(c: nat, input: Incoming)
    | WriteEvent(c: nat, i: nat, ok: bool)
    | Tick(c: nat, now: nat)
    | DropTimer(c: nat)
    | Take(w: nat)
    | Work(w: nat, now: nat)

  function Initial(workers: nat): Sys {
    Sys(EMPTY, [], [], Resting(workers), [], [], [])
  }

  function Resting(n: nat): seq<Option<Job>> {
    if n == 0 then [] else [None] + Resting(n - 1)
  }

  predicate Enabled(s: Sys, e: Event) {
    match e
    case Accept => true
    case Handshake(c, _) => c < |s.conns| && s.conns[c].handshake
    case ReadEvent(c, _) => c < |s.conns| && s.conns[c].reading > 0
    case WriteEvent(c, i, _) => c < |s.conns| && i < |s.conns[c].writing|
    case Tick(c, _) => c < |s.conns| && s.conns[c].timers > 0
    case DropTimer(c) => c < |s.conns| && s.conns[c].timers > 0
    case Take(w) => w < |s.workers| && s.workers[w].None? && s.queue != []
    case Work(w, _) => w < |s.workers| && s.workers[w].Some? && s.workers[w].value.task.client < |s.conns|
  }

  function Push(s: Sys, t: Task): Sys {
    s.(queue := s.queue + [t], pushed := s.pushed + [t])
  }

  function WorkOn(h: Host, s: Sys, w: nat, now: nat): Sys
    requires Enabled(s, Work(w, now))
  {
    var job := s.workers[w].value;
    var c := job.task.client;
    var (store, pc) := Step(h, s.store, job.task, job.pc, now);
    var account :=
      if |s.store.messages| <= |store.messages| then Booked(job.account, s.store, store, job.pc) else job.account;
    s.(store := store,
       conns := if job.pc.Send? then s.conns[c := Replied(s.conns[c], job.pc.reply)] else s.conns,
       workers := s.workers[w := if pc.Done? then None else Some(Job(job.task, pc, account))],
       finished := if pc.Done? then s.finished + [(job.task, account)] else s.finished)
  }

  function Next(h: Host, s: Sys, e: Event): Sys
    requires Enabled(s, e)
  {
    match e
    case Accept => s.(conns := s.conns + [ACCEPTED])
    case Handshake(c, ok) => s.(conns := s.conns[c := HandshakeDone(s.conns[c], ok)])
    case ReadEvent(c, input) =>
      var (conn, task) := ReadDone(s.conns[c], c, input);
      var s' := s.(conns := s.conns[c := conn]);
      if task.Some? then Push(s', task.value) else s'
    case WriteEvent(c, i, ok) => s.(conns := s.conns[c := WriteDone(s.conns[c], i, ok)])
    case Tick(c, now) =>
      var (conn, task) := Ticked(s.conns[c], c, now);
      Push(s.(conns := s.conns[c := conn]), task)
    case DropTimer(c) => s.(conns := s.conns[c := TimerDropped(s.conns[c])])
    case Take(w) =>
      s.(queue := s.queue[1..], taken := s.taken + [s.queue[0]],
         workers := s.workers[w := Some(Job(s.queue[0], Start, NOTHING))])
    case Work(w, now) => WorkOn(h, s, w, now)
  }

  /** A run: events that are not enabled do not happen. */
  function After(h: Host, s: Sys, events: seq<Event>): Sys
    decreases |events|
  {
    if events == [] then s
    else
      var e := events[0];
      After(h, if Enabled(s, e) then Next(h, s, e) else s, events[1..])
  }

  // ------------------------------------------------- storage and workers

  ghost predicate WorkersSound(s: Sys) {
    forall w :: 0 <= w < |s.workers| && s.workers[w].Some? ==>
      var job := s.workers[w].value;
      Carries(s.store, job.task, job.pc) && Balanced(job.task, job.pc, job.account) && !job.pc.Done?
  }

  ghost predicate Sound(s: Sys) {
    && Intact(s.store)
    && WorkersSound(s)
    && (forall i :: 0 <= i < |s.finished| ==> Settled(s.finished[i].0, s.finished[i].1))
  }

  lemma SoundStep(h: Host, s: Sys, e: Event)
    requires Permutes(h) && Sound(s) && Enabled(s, e)
    ensures Sound(Next(h, s, e)) && Extends(s.store, Next(h, s, e).store)
  {
    hide Intact, Carries, Balanced, Settled, ReadDone, WriteDone, Ticked, HandshakeDone, Step;
    ExtendsReflexive(s.store);
    match e
    case Work(w, now) => SoundWork(h, s, w, now);
    case Take(w) => FreshJob(s.store, s.queue[0]);
    case _ =>
  }

  lemma FreshJob(store: Storage, t: Task)
    ensures Carries(store, t, Start) && Balanced(t, Start, NOTHING)
  {
  }

  lemma JobKeeps(h: Host, store: Storage, job: Job, now: nat)
    requires Permutes(h) && Intact(store)
    requires Carries(store, job.task, job.pc) && Balanced(job.task, job.pc, job.account)
    ensures var (store', pc) := Step(h, store, job.task, job.pc, now);
            && Intact(store') && Extends(store, store') && Carries(store', job.task, pc)
            && |store.messages| <= |store'.messages|
            && Balanced(job.task, pc, Booked(job.account, store, store', job.pc))
            && (pc.Done? ==> Settled(job.task, Booked(job.account, store, store', job.pc)))
  {
    hide Step, Carries, Booked, Settled;
    StepKeeps(h, store, job.task, job.pc, now);
    StepBalances(h, store, job.task, job.pc, job.account, now);
  }

  lemma SoundWork(h: Host, s: Sys, w: nat, now: nat)
    requires Permutes(h) && Sound(s) && Enabled(s, Work(w, now))
    ensures var s' := WorkOn(h, s, w, now); Sound(s') && Extends(s.store, s'.store)
  {
    hide Intact, Extends, Carries, Balanced, Settled, Step, Replied, Booked;
    var s' := WorkOn(h, s, w, now);
    JobKeeps(h, s.store, s.workers[w].value, now);
    forall v | 0 <= v < |s'.workers| && s'.workers[v].Some?
      ensures Carries(s'.store, s'.workers[v].value.task, s'.workers[v].value.pc)
    {
      if v != w {
        CarriesStays(s.store, s'.store, s.workers[v].value.task, s.workers[v].value.pc);
      }
    }
  }
}
