// USER_HISTORY among other workers: whatever happens between its locked sections, the answer is computed from
// two earlier states of the log, and is the newest part of what they held.
module Queries {
  import opened Wrappers
  import opened Tables
  import opened Integrity
  import opened Worker
  import opened Ledger
  import opened Session
  import opened Server
  import M = Moments
  import Runs
  import I = Idle
  import H = History

  /** The messages are the answer to this query of two real users, the asking one and the one of the name asked
      for, from logs that the log has grown from. */
  ghost predicate Answers(h: Host, s: Storage, t: Task, msgs: seq<Message>, origin: Origin) {
    match origin
    case ByPoll(_) => false
    case ByQuery(user, other, logTo, logFrom) =>
      && Asked(s, t, user, other)
      && I.Grows(logTo, logFrom) && I.Grows(logFrom, s.messages)
      && msgs == H.Answer(h, logTo, logFrom, user, other, t.count)
  }

  predicate Asked(s: Storage, t: Task, user: User, other: User) {
    RealUser(s, user) && RealUser(s, other) && user.id == t.uid && other.name == t.user
  }

  ghost predicate Faithful(h: Host, s: Storage, t: Task, pc: Pc) {
    match pc
    case SelectTo(user, other) => Asked(s, t, user, other)
    case SelectFrom(user, other, logTo, to) =>
      && Asked(s, t, user, other)
      && I.Grows(logTo, s.messages) && to == H.Selected(FromTo(user, other), logTo, HistoryLimit(t.count))
    case Formatting(msgs, _, _, origin) => t.cmd.Idle? || Answers(h, s, t, msgs, origin)
    case Send(OkMessages(_, source, origin)) => Answers(h, s, t, source, origin)
    case _ => true
  }

  lemma AskedStays(s: Storage, s': Storage, t: Task, user: User, other: User)
    requires Asked(s, t, user, other) && Extends(s, s')
    ensures Asked(s', t, user, other)
  {
    RealUserStays(s, s', user);
    RealUserStays(s, s', other);
  }

  lemma AnswersStays(h: Host, s: Storage, s': Storage, t: Task, msgs: seq<Message>, origin: Origin)
    requires Answers(h, s, t, msgs, origin) && Extends(s, s')
    ensures Answers(h, s', t, msgs, origin)
  {
    hide I.Grows, H.Answer, Asked, Extends;
    I.ExtendsGrows(s, s');
    I.GrowsTransitive(origin.logFrom, s.messages, s'.messages);
    AskedStays(s, s', t, origin.user, origin.other);
  }

  lemma FaithfulStays(h: Host, s: Storage, s': Storage, t: Task, pc: Pc)
    requires Faithful(h, s, t, pc) && Extends(s, s')
    ensures Faithful(h, s', t, pc)
  {
    hide I.Grows, H.Selected, Asked, Answers, Extends;
    match pc
    case SelectTo(user, other) => AskedStays(s, s', t, user, other);
    case SelectFrom(user, other, logTo, _) =>
      AskedStays(s, s', t, user, other);
      I.ExtendsGrows(s, s');
      I.GrowsTransitive(logTo, s.messages, s'.messages);
    case Formatting(msgs, _, _, origin) => if !t.cmd.Idle? { AnswersStays(h, s, s', t, msgs, origin); }
    case Send(OkMessages(_, source, origin)) => AnswersStays(h, s, s', t, source, origin);
    case _ =>
  }

  lemma ProceedFaithful(h: Host, s: Storage, t: Task, user: User, now: nat)
    requires Intact(s) && RealUser(s, user) && user.id == t.uid
    ensures var (s', pc) := Proceed(h, s, t, user, now); Faithful(h, s', t, pc)
  {
    ByNameReal(h, s, t.user, None);
    hide Intact, ByName, UsersByName, ChatsByName, WithHeartBit, WithChat, RealUser;
  }

  lemma StepFaithful(h: Host, s: Storage, t: Task, pc: Pc, now: nat)
    requires Intact(s) && Carries(s, t, pc) && Faithful(h, s, t, pc)
    ensures var (s', pc') := Step(h, s, t, pc, now); Faithful(h, s', t, pc')
  {
    I.GrowsReflexive(s.messages);
    if pc.Authed? {
      ProceedFaithful(h, s, t, pc.user, now);
    }
    hide Intact, Proceed, I.Grows, Newest, Pick, Marked, Mix, HistoryLimit, FromTo, Asked, RealUser, RealChat;
    hide ByName, WithUser, UserById, ChatById;
  }

  ghost predicate AllFaithful(h: Host, s: Sys) {
    forall w :: 0 <= w < |s.workers| && s.workers[w].Some? ==>
      Faithful(h, s.store, s.workers[w].value.task, s.workers[w].value.pc)
  }

  lemma StartFaithful(h: Host, s: Storage, t: Task)
    ensures Faithful(h, s, t, Start)
  {
  }

  lemma FaithfulEvent(h: Host, s: Sys, e: Event)
    requires Permutes(h) && Sound(s) && AllFaithful(h, s) && Enabled(s, e)
    ensures AllFaithful(h, Next(h, s, e))
  {
    SoundStep(h, s, e);
    hide Intact, Extends, Carries, Balanced, Settled, Step, Replied, Booked, Faithful;
    hide ReadDone, WriteDone, Ticked, HandshakeDone, TimerDropped;
    match e
    case Work(w, now) =>
      var s' := WorkOn(h, s, w, now);
      StepFaithful(h, s.store, s.workers[w].value.task, s.workers[w].value.pc, now);
      forall v | 0 <= v < |s'.workers| && s'.workers[v].Some?
        ensures Faithful(h, s'.store, s'.workers[v].value.task, s'.workers[v].value.pc)
      {
        if v != w {
          FaithfulStays(h, s.store, s'.store, s.workers[v].value.task, s.workers[v].value.pc);
        }
      }
    case Take(w) => StartFaithful(h, s.store, s.queue[0]);
    case _ =>
  }

  lemma {:induction false} FaithfulRun(h: Host, s: Sys, events: seq<Event>)
    requires Permutes(h) && Sound(s) && AllFaithful(h, s)
    ensures AllFaithful(h, After(h, s, events))
    decreases |events|
  {
    hide Sound, AllFaithful, Next, Enabled;
    if events != [] {
      var e := events[0];
      if Enabled(s, e) {
        SoundStep(h, s, e);
        FaithfulEvent(h, s, e);
        FaithfulRun(h, Next(h, s, e), events[1..]);
      } else {
        FaithfulRun(h, s, events[1..]);
      }
    }
  }

  lemma InitiallyFaithful(h: Host, workers: nat)
    ensures AllFaithful(h, Initial(workers))
  {
    Runs.NobodyBusy(workers, NO_TASK);
    hide Resting, Faithful;
  }

  /** A worker is about to hand over the answer to a history query. */
  predicate Answering(s: Sys, w: nat) {
    w < |s.workers| && s.workers[w].Some? && s.workers[w].value.pc.Send? && s.workers[w].value.pc.reply.OkMessages?
  }

  /** Two logs as they were, one after the other, at moments of the run since worker w took its task. */
  ghost predicate SinceTaken(h: Host, workers: nat, events: seq<Event>, w: nat, origin: Origin) {
    origin.ByQuery? &&
    exists m: nat :: M.TookAt(h, Initial(workers), events, w, m)
                     && M.SeenLogs(h, Initial(workers), events, m, origin.logTo, origin.logFrom)
  }

  lemma AnswersSince(h: Host, workers: nat, events: seq<Event>, w: nat)
    requires Answering(After(h, Initial(workers), events), w)
    requires After(h, Initial(workers), events).workers[w].value.pc.reply.origin.ByQuery?
    ensures SinceTaken(h, workers, events, w, After(h, Initial(workers), events).workers[w].value.pc.reply.origin)
  {
    hide After, M.TookAt, M.SeenLogs;
    M.PastInRuns(h, workers, events, w);
  }

  /** In every run: each answer is the one to its own task's query, from two logs as they were since the task was
      taken. */
  lemma AnswersInRuns(h: Host, workers: nat, events: seq<Event>, w: nat)
    requires Permutes(h) && Answering(After(h, Initial(workers), events), w)
    ensures var s := After(h, Initial(workers), events);
            var job := s.workers[w].value;
            && Answers(h, s.store, job.task, job.pc.reply.source, job.pc.reply.origin)
            && SinceTaken(h, workers, events, w, job.pc.reply.origin)
  {
    hide After, Faithful, Runs.Consistent, SinceTaken;
    InitiallyFaithful(h, workers);
    Runs.InitiallyConsistent(workers);
    InitiallySound(workers);
    FaithfulRun(h, Initial(workers), events);
    var s := After(h, Initial(workers), events);
    FaithfulAnswer(h, s.store, s.workers[w].value.task, s.workers[w].value.pc);
    AnswersSince(h, workers, events, w);
  }

  lemma InitiallySound(workers: nat)
    requires Runs.Consistent(Initial(workers))
    ensures Sound(Initial(workers))
  {
    hide Sound;
  }

  lemma FaithfulAnswer(h: Host, s: Storage, t: Task, pc: Pc)
    requires Faithful(h, s, t, pc) && pc.Send? && pc.reply.OkMessages?
    ensures Answers(h, s, t, pc.reply.source, pc.reply.origin)
  {
  }

  /** And on a log in the order of its stamps, when the doubled count does not wrap around to something smaller,
      the answer is the newest part of what its two selections saw, however many messages came in between. */
  lemma AnswersAreTop(h: Host, workers: nat, events: seq<Event>, w: nat)
    requires Permutes(h) && H.Sorts(h.sort) && Answering(After(h, Initial(workers), events), w)
    requires H.InOrder(After(h, Initial(workers), events).store.messages)
    requires var count := After(h, Initial(workers), events).workers[w].value.task.count;
             HistoryLimit(count) == 0 || HistoryLimit(count) >= count
    ensures var job := After(h, Initial(workers), events).workers[w].value;
            var o := job.pc.reply.origin;
            SinceTaken(h, workers, events, w, o)
            && Asked(After(h, Initial(workers), events).store, job.task, o.user, o.other)
            && H.IsTop(job.pc.reply.source,
                       multiset(H.Matching(FromTo(o.other, o.user), o.logFrom))
                       + multiset(H.Matching(FromTo(o.user, o.other), o.logTo)), job.task.count)
  {
    hide After, SinceTaken, Asked, H.IsTop, H.Sorts, H.Matching, H.Answer, HistoryLimit, FromTo, I.Grows, H.InOrder;
    AnswersInRuns(h, workers, events, w);
    var s := After(h, Initial(workers), events);
    var job := s.workers[w].value;
    var o := job.pc.reply.origin;
    I.EarlierInOrder(o.logFrom, s.store.messages);
    I.EarlierInOrder(o.logTo, o.logFrom);
    H.AnswerIsTop(h, o.logTo, o.logFrom, o.user, o.other, job.task.count);
  }
}
