// What each task has done so far, observed from outside: replies sent, messages stored, tables changed.
module Ledger {
  import opened Tables
  import opened Integrity
  import opened Worker

  datatype Account = Account(changed: bool, saved: nat, replies: seq<Reply>)

  const NOTHING := Account(false, 0, [])

  /** The entry for one step, read off the tables before and after it. */
  function Booked(a: Account, s: Storage, s': Storage, pc: Pc): Account
    requires |s.messages| <= |s'.messages|
  {
    Account(
      a.changed || s' != s,
      a.saved + |s'.messages| - |s.messages|,
      if pc.Send? then a.replies + [pc.reply] else a.replies)
  }

  /** The commands that processQueue has no branch for. CHAT_HISTORY is the one a client can ask for. */
  predicate Unanswered(cmd: Command) {
    cmd.ChatHistory? || cmd.ChatStatus? || cmd.MessageRecent?
  }

  predicate Sends(cmd: Command) {
    cmd.MessageSend? || cmd.MessageSendChat?
  }

  /** The promise about a finished task. */
  predicate Settled(t: Task, a: Account) {
    && (if Unanswered(t.cmd) then a == NOTHING
        else if t.cmd.Idle? then |a.replies| <= 1
        else |a.replies| == 1)
    && (forall i :: 0 <= i < |a.replies| && a.replies[i].Error? ==> !a.changed)
    && a.saved == (if Sends(t.cmd) && !a.replies[0].Error? then 1 else 0)
  }

  /** Before the reply nothing irrevocable has happened, except where the reply can no longer be an error. */
  predicate Balanced(t: Task, pc: Pc, a: Account) {
    match pc
    case Done => Settled(t, a)
    case Send(reply) =>
      && a.replies == [] && !Unanswered(t.cmd)
      && (t.cmd.Idle? ==> reply.IdleMessages? || reply.Error?) && (reply.IdleMessages? ==> t.cmd.Idle?)
      && (reply.Error? ==> !a.changed)
      && a.saved == (if Sends(t.cmd) && !reply.Error? then 1 else 0)
    case Start => a == NOTHING
    case Authed(_) => a == NOTHING && !Unanswered(t.cmd) && !t.cmd.UserCreate? && !t.cmd.UserLogin?
    case AddRow(_, _) => a == NOTHING && t.cmd.ChatAdduser?
    case FindChat(_) => a == NOTHING && t.cmd.ChatAdduser?
    case Save(_) => a == NOTHING && Sends(t.cmd)
    case SelectTo(_, _) => a == NOTHING && t.cmd.UserHistory?
    case SelectFrom(_, _, _, _) => a == NOTHING && t.cmd.UserHistory?
    case _ => a.replies == [] && a.saved == 0 && (t.cmd.Idle? || t.cmd.UserHistory?) && (pc.Formatting? || t.cmd.Idle?)
  }

  lemma BeginBalances(h: Host, s: Storage, t: Task)
    requires IdsCount(s)
    ensures var (s', pc) := Begin(h, s, t);
            s'.messages == s.messages && Balanced(t, pc, Booked(NOTHING, s, s', Start))
  {
    hide UsersByName, UserById;
  }

  lemma ProceedBalances(h: Host, s: Storage, t: Task, user: User, now: nat)
    requires IdsCount(s) && Balanced(t, Authed(user), NOTHING)
    ensures var (s', pc) := Proceed(h, s, t, user, now);
            s'.messages == s.messages && Balanced(t, pc, Booked(NOTHING, s, s', Authed(user)))
  {
    hide UsersByName, ChatsByName, Tables.Touched;
  }

  /** A worker's own step keeps its account balanced; other workers' steps are not in it. */
  lemma StepBalances(h: Host, s: Storage, t: Task, pc: Pc, a: Account, now: nat)
    requires IdsCount(s) && Balanced(t, pc, a)
    ensures var (s', pc') := Step(h, s, t, pc, now);
            |s.messages| <= |s'.messages| && Balanced(t, pc', Booked(a, s, s', pc))
  {
    hide Newest, Pick, Mix, ChatsByName, UserById, ChatById, ChatIdsOf, HistoryLimit, Begin, Proceed, IdsCount;
    if pc.Start? {
      BeginBalances(h, s, t);
    } else if pc.Authed? {
      ProceedBalances(h, s, t, pc.user, now);
    } else if pc.Send? {
      assert (a.replies + [pc.reply])[0] == pc.reply;
    }
  }
}
