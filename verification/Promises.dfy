// What a client that has been answered may rely on, for the rest of any run.
module Promises {
  import opened Tables
  import opened Integrity
  import opened Worker
  import opened Ledger
  import opened Session
  import opened Server
  import Runs
  import P = Poll

  // ------------------------------------------------------------- the promises

  predicate Named(s: Storage, uid: nat, name: string) {
    HasUser(s, uid) && s.users[uid - 1].name == name
  }

  predicate ChatNamed(s: Storage, chatid: nat, name: string) {
    HasChat(s, chatid) && s.chats[chatid - 1].name == name
  }

  predicate HasPassword(h: Host, s: Storage, uid: nat, password: string) {
    HasUser(s, uid) && s.users[uid - 1].password == h.digest(password)
  }

  predicate Owns(s: Storage, uid: nat, chatid: nat) {
    HasUser(s, uid) && s.users[uid - 1].selfChatId == chatid
  }

  predicate Member(s: Storage, chatid: nat, uid: nat) {
    Chatuser(chatid, uid) in s.chatuser
  }

  /** The message is this task's: from the user who asked, with the text, to the addressee by name. */
  ghost predicate Sent(s: Storage, t: Task, m: Message) {
    && m.userFrom == t.uid && m.text == t.message
    && (t.cmd.MessageSend? ==> exists to: nat :: Named(s, to, t.toUser) && Owns(s, to, m.chatTo))
    && (t.cmd.MessageSendChat? ==> ChatNamed(s, m.chatTo, t.chatName))
  }

  ghost predicate SentAt(s: Storage, t: Task, k: nat) {
    k < |s.messages| && Sent(s, t, s.messages[k])
  }

  /** What a reply that is no error says of the tables. */
  ghost predicate Promised(h: Host, s: Storage, t: Task, r: Reply) {
    match r
    case Error(_) => true
    case OkUser(u) =>
      if t.cmd.UserCreate? then
        && Named(s, u.id, t.user) && HasPassword(h, s, u.id, t.password)
        && exists own: nat :: Owns(s, u.id, own) && ChatNamed(s, own, t.user) && Member(s, own, u.id)
      else if t.cmd.UserLogin? then Named(s, u.id, t.user) && HasPassword(h, s, u.id, t.password)
      else HasPassword(h, s, t.uid, t.password) && Named(s, u.id, t.user)
    case OkChat(c) =>
      HasPassword(h, s, t.uid, t.password) && ChatNamed(s, c.id, t.chatName) && Member(s, c.id, t.uid)
    case OkStatus =>
      && HasPassword(h, s, t.uid, t.password)
      && (Sends(t.cmd) ==> exists k: nat :: SentAt(s, t, k))
      && (t.cmd.ChatAdduser? ==>
            exists uid: nat, chatid: nat ::
              Named(s, uid, t.adduser) && ChatNamed(s, chatid, t.chatName) && Member(s, chatid, uid))
    case OkMessages(_, _, _) => HasPassword(h, s, t.uid, t.password)
    case IdleMessages(_, _, _) => HasPassword(h, s, t.uid, t.password)
  }

  /** What a worker has made sure of on its way. */
  ghost predicate OnTheWay(h: Host, s: Storage, t: Task, pc: Pc) {
    match pc
    case Start => true
    case Done => true
    case Send(r) => Promised(h, s, t, r)
    case FindChat(added) => HasPassword(h, s, t.uid, t.password) && Named(s, added.id, t.adduser)
    case AddRow(chat, added) =>
      && HasPassword(h, s, t.uid, t.password) && Named(s, added.id, t.adduser)
      && ChatNamed(s, chat.id, t.chatName)
    case Save(m) => HasPassword(h, s, t.uid, t.password) && Sent(s, t, m)
    case _ => HasPassword(h, s, t.uid, t.password)
  }

  // ------------------------------------------------------------- interference

  lemma FactsStay(s: Storage, s': Storage)
    requires Extends(s, s')
    ensures forall uid: nat, name :: Named(s, uid, name) ==> Named(s', uid, name)
    ensures forall chatid: nat, name :: ChatNamed(s, chatid, name) ==> ChatNamed(s', chatid, name)
    ensures forall h, uid: nat, password :: HasPassword(h, s, uid, password) ==> HasPassword(h, s', uid, password)
    ensures forall uid: nat, chatid: nat :: Owns(s, uid, chatid) ==> Owns(s', uid, chatid)
    ensures forall chatid: nat, uid: nat :: Member(s, chatid, uid) ==> Member(s', chatid, uid)
  {
    RowStays(s.chatuser, s'.chatuser);
    forall i | 0 <= i < |s.users|
      ensures s.users[i].name == s'.users[i].name && s.users[i].password == s'.users[i].password
      ensures s.users[i].selfChatId == s'.users[i].selfChatId
    {
      assert SameUser(s.users[i], s'.users[i]);
    }
  }

  lemma SentStays(s: Storage, s': Storage, t: Task, m: Message, m': Message)
    requires Extends(s, s') && Sent(s, t, m) && SameMessage(m, m')
    ensures Sent(s', t, m')
  {
    FactsStay(s, s');
    hide Named, ChatNamed, Owns, Extends;
    assert m'.userFrom == m.userFrom && m'.text == m.text && m'.chatTo == m.chatTo;
    if t.cmd.MessageSend? {
      var to: nat :| Named(s, to, t.toUser) && Owns(s, to, m.chatTo);
    }
  }

  lemma SomeSentStays(s: Storage, s': Storage, t: Task, k: nat)
    requires Extends(s, s') && SentAt(s, t, k)
    ensures SentAt(s', t, k)
  {
    SentStays(s, s', t, s.messages[k], s'.messages[k]);
  }

  lemma PromisedStays(h: Host, s: Storage, s': Storage, t: Task, r: Reply)
    requires Extends(s, s') && Promised(h, s, t, r)
    ensures Promised(h, s', t, r)
  {
    FactsStay(s, s');
    hide Named, ChatNamed, Owns, Extends, HasPassword, Member, SentAt;
    if r.OkStatus? && Sends(t.cmd) {
      var k: nat :| SentAt(s, t, k);
      SomeSentStays(s, s', t, k);
    }
  }

  lemma OnTheWayStays(h: Host, s: Storage, s': Storage, t: Task, pc: Pc)
    requires Extends(s, s') && OnTheWay(h, s, t, pc)
    ensures OnTheWay(h, s', t, pc)
  {
    FactsStay(s, s');
    hide Named, ChatNamed, Owns, Extends, HasPassword, Member, Promised, Sent;
    match pc
    case Send(r) => PromisedStays(h, s, s', t, r);
    case Save(m) => SentStays(s, s', t, m, m);
    case _ =>
  }

  // ---------------------------------------------------------- one's own steps

  lemma ById(s: Storage, uid: nat)
    requires Intact(s)
    ensures var u := UserById(s.users, uid); u.id != 0 ==> HasUser(s, uid) && u == s.users[uid - 1] && u.id == uid
  {
    UserFound(s, uid);
  }

  lemma ByNameNamed(s: Storage, name: string)
    requires Intact(s)
    ensures var found := UsersByName(s.users, name);
            found != [] ==>
              var u := found[0]; Named(s, u.id, name) && s.users[u.id - 1] == u && Owns(s, u.id, u.selfChatId)
  {
    ByNameAre(s.users, name);
    var found := UsersByName(s.users, name);
    if found != [] {
      assert found[0] in found;
      var i :| 0 <= i < |s.users| && s.users[i] == found[0];
      assert s.users[i].id == i + 1;
    }
  }

  lemma ByChatNamed(s: Storage, name: string)
    requires Intact(s)
    ensures var found := ChatsByName(s.chats, name); found != [] ==> ChatNamed(s, found[0].id, name)
  {
    ChatsByNameAre(s.chats, name);
    var found := ChatsByName(s.chats, name);
    if found != [] {
      assert found[0] in found;
      var i :| 0 <= i < |s.chats| && s.chats[i] == found[0];
      assert s.chats[i].id == i + 1;
    }
  }

  lemma CreatedPromised(h: Host, s: Storage, t: Task)
    requires Intact(s) && t.cmd.UserCreate?
    ensures var (s', u) := WithUser(s, t.user, h.digest(t.password), t.storage);
            u.id != 0 ==> Promised(h, s', t, OkUser(u))
  {
    var (s', u) := WithUser(s, t.user, h.digest(t.password), t.storage);
    if u.id != 0 {
      assert s'.chatuser[|s.chatuser|] == Chatuser(u.selfChatId, u.id);
      assert Owns(s', u.id, u.selfChatId) && ChatNamed(s', u.selfChatId, t.user) && Member(s', u.selfChatId, u.id);
    }
  }

  lemma LoginPromises(h: Host, s: Storage, t: Task)
    requires Intact(s) && t.cmd.UserLogin?
    ensures var (s', pc) := Begin(h, s, t); OnTheWay(h, s', t, pc)
  {
    hide Intact, UsersByName;
    ByNameNamed(s, t.user);
  }

  lemma BeginPromises(h: Host, s: Storage, t: Task)
    requires Intact(s)
    ensures var (s', pc) := Begin(h, s, t); OnTheWay(h, s', t, pc)
  {
    hide Intact, WithUser, UserById;
    if t.cmd.UserCreate? {
      hide Promised;
      CreatedPromised(h, s, t);
    } else if t.cmd.UserLogin? {
      hide Begin;
      LoginPromises(h, s, t);
    } else {
      ById(s, t.uid);
    }
  }

  lemma ChatPromised(h: Host, s: Storage, t: Task)
    requires Intact(s) && HasUser(s, t.uid)
    ensures var (s', c) := WithChat(s, t.chatName, t.uid);
            c.id != 0 ==> ChatNamed(s', c.id, t.chatName) && Member(s', c.id, t.uid)
  {
    var (s', c) := WithChat(s, t.chatName, t.uid);
    if c.id != 0 {
      assert s'.chatuser[|s.chatuser|] == Chatuser(c.id, t.uid);
    }
  }

  lemma ProceedPromises(h: Host, s: Storage, t: Task, user: User, now: nat)
    requires Intact(s) && RealUser(s, user) && user.id == t.uid && OnTheWay(h, s, t, Authed(user))
    ensures var (s', pc) := Proceed(h, s, t, user, now); Extends(s, s') ==> OnTheWay(h, s', t, pc)
  {
    hide Intact, Extends, UsersByName, ChatsByName, WithHeartBit, WithChat, HasPassword, ChatNamed, Owns, Member;
    var s' := Proceed(h, s, t, user, now).0;
    if Extends(s, s') {
      FactsStay(s, s');
      match t.cmd
      case UserStatus => ByNameNamed(s, t.user);
      case UserHistory =>
      case MessageSend => ByNameNamed(s, t.toUser);
      case ChatCreate => ChatPromised(h, s, t);
      case ChatAdduser => ByNameNamed(s, t.adduser);
      case MessageSendChat => ByChatNamed(s, t.chatName);
      case _ =>
    }
  }

  lemma RowPromised(s: Storage, chatid: nat, uid: nat)
    ensures Member(WithMember(s, chatid, uid), chatid, uid)
  {
    var s' := WithMember(s, chatid, uid);
    assert Chatuser(chatid, uid) !in s.chatuser ==> s'.chatuser[|s.chatuser|] == Chatuser(chatid, uid);
  }

  lemma SavePromised(s: Storage, t: Task, m: Message)
    requires Sent(s, t, m) && Extends(s, WithMessage(s, m))
    ensures exists k: nat :: SentAt(WithMessage(s, m), t, k)
  {
    var s' := WithMessage(s, m);
    SentStays(s, s', t, m, m);
    hide Sent, Extends;
    assert SentAt(s', t, |s.messages|);
  }

  /** The steps that only read, and the reply at their end. */
  lemma ReadingPromises(h: Host, s: Storage, t: Task, pc: Pc, a: Account, now: nat)
    requires Balanced(t, pc, a) && OnTheWay(h, s, t, pc)
    requires !pc.Start? && !pc.Authed? && !pc.FindChat? && !pc.AddRow? && !pc.Save?
    requires Extends(s, Step(h, s, t, pc, now).0)
    ensures var (s', pc') := Step(h, s, t, pc, now); OnTheWay(h, s', t, pc')
  {
    hide Newest, Pick, Marked, Mix, HistoryLimit, FromTo, InChat, Extends, HasPassword, Named;
    FactsStay(s, Step(h, s, t, pc, now).0);
  }

  lemma WritingPromises(h: Host, s: Storage, t: Task, pc: Pc, a: Account, now: nat)
    requires Intact(s) && Balanced(t, pc, a) && OnTheWay(h, s, t, pc)
    requires pc.FindChat? || pc.AddRow? || pc.Save?
    requires Extends(s, Step(h, s, t, pc, now).0)
    ensures var (s', pc') := Step(h, s, t, pc, now); OnTheWay(h, s', t, pc')
  {
    hide Intact, ChatsByName, Extends, HasPassword, Named, ChatNamed, Member, Owns, Sent, SentAt;
    hide WithMember, WithMessage;
    FactsStay(s, Step(h, s, t, pc, now).0);
    match pc
    case FindChat(_) => ByChatNamed(s, t.chatName);
    case AddRow(chat, added) => RowPromised(s, chat.id, added.id);
    case Save(m) => SavePromised(s, t, m);
  }

  lemma StepPromises(h: Host, s: Storage, t: Task, pc: Pc, a: Account, now: nat)
    requires Permutes(h) && Intact(s) && Carries(s, t, pc) && Balanced(t, pc, a) && OnTheWay(h, s, t, pc)
    ensures var (s', pc') := Step(h, s, t, pc, now); OnTheWay(h, s', t, pc')
  {
    StepKeeps(h, s, t, pc, now);
    hide Intact, Extends, Begin, Proceed, Newest, Pick, Marked, Mix, HistoryLimit, FromTo, InChat, ChatsByName;
    hide OnTheWay, Balanced, RealUser, Permutes, WithMember, WithMessage;
    match pc
    case Start => BeginPromises(h, s, t);
    case Authed(user) => ProceedPromises(h, s, t, user, now);
    case FindChat(_) => WritingPromises(h, s, t, pc, a, now);
    case AddRow(_, _) => WritingPromises(h, s, t, pc, a, now);
    case Save(_) => WritingPromises(h, s, t, pc, a, now);
    case _ => ReadingPromises(h, s, t, pc, a, now);
  }

  /** A task that nobody interrupts. */
  lemma {:induction false} UndisturbedPromises(h: Host, s: Storage, t: Task, pc: Pc, a: Account, now: nat, n: nat)
    requires Permutes(h) && Intact(s) && Carries(s, t, pc) && Balanced(t, pc, a) && OnTheWay(h, s, t, pc)
    ensures var (s', pc') := P.Steps(h, s, t, pc, now, n); OnTheWay(h, s', t, pc')
    decreases n
  {
    hide Step, Intact, Carries, Balanced, OnTheWay, Permutes, Extends, Booked;
    if n > 0 {
      var (s', pc') := Step(h, s, t, pc, now);
      StepPromises(h, s, t, pc, a, now);
      StepKeeps(h, s, t, pc, now);
      IntactCounts(s);
      StepBalances(h, s, t, pc, a, now);
      UndisturbedPromises(h, s', t, pc', Booked(a, s, s', pc), now, n - 1);
    }
  }

  lemma IntactCounts(s: Storage)
    requires Intact(s)
    ensures IdsCount(s)
  {
  }

  /** Its reply promises what every reply does. */
  lemma UndisturbedReply(h: Host, s: Storage, t: Task, now: nat, n: nat, s': Storage, reply: Reply)
    requires Permutes(h) && Intact(s) && P.Steps(h, s, t, Start, now, n) == (s', Send(reply))
    ensures Promised(h, s', t, reply)
  {
    FreshJob(s, t);
    StartsWell(h, s, t);
    hide Intact, P.Steps, Promised;
    UndisturbedPromises(h, s, t, Start, NOTHING, now, n);
  }

  // ------------------------------------------------------------------ whole runs

  ghost predicate KeptReplies(h: Host, s: Storage, t: Task, replies: seq<Reply>) {
    forall j :: 0 <= j < |replies| ==> Promised(h, s, t, replies[j])
  }

  ghost predicate AllPromised(h: Host, s: Sys) {
    && (forall w :: 0 <= w < |s.workers| && s.workers[w].Some? ==>
          OnTheWay(h, s.store, s.workers[w].value.task, s.workers[w].value.pc)
          && (!s.workers[w].value.pc.Done? ==> s.workers[w].value.account.replies == []))
    && (forall i :: 0 <= i < |s.finished| ==> KeptReplies(h, s.store, s.finished[i].0, s.finished[i].1.replies))
  }

  lemma KeptRepliesStay(h: Host, s: Storage, s': Storage, t: Task, replies: seq<Reply>)
    requires Extends(s, s') && KeptReplies(h, s, t, replies)
    ensures KeptReplies(h, s', t, replies)
  {
    hide Extends, Promised;
    forall j | 0 <= j < |replies|
      ensures Promised(h, s', t, replies[j])
    {
      PromisedStays(h, s, s', t, replies[j]);
    }
  }

  lemma OwnStep(h: Host, s: Sys, w: nat, now: nat)
    requires Permutes(h) && Sound(s) && AllPromised(h, s) && Enabled(s, Work(w, now))
    ensures var s' := WorkOn(h, s, w, now);
            var t := s.workers[w].value.task;
            && (s'.workers[w].Some? ==>
                  OnTheWay(h, s'.store, t, s'.workers[w].value.pc) && s'.workers[w].value.account.replies == [])
            && (s'.workers[w].None? ==>
                  |s'.finished| == |s.finished| + 1 && s'.finished[..|s.finished|] == s.finished
                  && s'.finished[|s.finished|].0 == t
                  && KeptReplies(h, s'.store, t, s'.finished[|s.finished|].1.replies))
            && (s'.workers[w].Some? ==> s'.finished == s.finished)
  {
    var job := s.workers[w].value;
    assert Carries(s.store, job.task, job.pc) && Balanced(job.task, job.pc, job.account) && !job.pc.Done?;
    assert OnTheWay(h, s.store, job.task, job.pc) && job.account.replies == [];
    hide Intact, Extends, Carries, Balanced, Settled, OnTheWay, AllPromised, WorkersSound, Promised, Replied;
    StepPromises(h, s.store, job.task, job.pc, job.account, now);
    SendKeeps(h, s.store, job.task, job.pc, now);
    hide Step;
  }

  lemma SendKeeps(h: Host, s: Storage, t: Task, pc: Pc, now: nat)
    requires OnTheWay(h, s, t, pc)
    ensures pc.Send? ==> Step(h, s, t, pc, now) == (s, Done) && Promised(h, s, t, pc.reply)
  {
    hide Promised;
  }

  lemma PromisedElsewhere(h: Host, s: Sys, s': Sys)
    requires AllPromised(h, s) && s'.store == s.store && s'.workers == s.workers && s'.finished == s.finished
    ensures AllPromised(h, s')
  {
    hide OnTheWay, KeptReplies;
  }

  lemma PromisedTake(h: Host, s: Sys, w: nat)
    requires AllPromised(h, s) && Enabled(s, Take(w))
    ensures AllPromised(h, Next(h, s, Take(w)))
  {
    StartsWell(h, s.store, s.queue[0]);
    hide OnTheWay, KeptReplies;
  }

  lemma PromisedEvent(h: Host, s: Sys, e: Event)
    requires Permutes(h) && Sound(s) && AllPromised(h, s) && Enabled(s, e)
    ensures AllPromised(h, Next(h, s, e))
  {
    hide Sound, Extends, AllPromised, WorkOn, ReadDone, WriteDone, Ticked, HandshakeDone, TimerDropped;
    SoundStep(h, s, e);
    match e
    case Work(w, now) => PromisedWork(h, s, w, now);
    case Take(w) => PromisedTake(h, s, w);
    case _ => PromisedElsewhere(h, s, Next(h, s, e));
  }

  lemma PromisedWork(h: Host, s: Sys, w: nat, now: nat)
    requires Permutes(h) && Sound(s) && AllPromised(h, s) && Enabled(s, Work(w, now))
    requires Extends(s.store, WorkOn(h, s, w, now).store)
    ensures AllPromised(h, WorkOn(h, s, w, now))
  {
    hide Sound, Extends, OnTheWay, KeptReplies, Step, Replied, Booked;
    var s' := WorkOn(h, s, w, now);
    OwnStep(h, s, w, now);
    forall v | 0 <= v < |s'.workers| && s'.workers[v].Some?
      ensures OnTheWay(h, s'.store, s'.workers[v].value.task, s'.workers[v].value.pc)
      ensures !s'.workers[v].value.pc.Done? ==> s'.workers[v].value.account.replies == []
    {
      if v != w {
        OnTheWayStays(h, s.store, s'.store, s.workers[v].value.task, s.workers[v].value.pc);
      }
    }
    forall i | 0 <= i < |s'.finished|
      ensures KeptReplies(h, s'.store, s'.finished[i].0, s'.finished[i].1.replies)
    {
      if i < |s.finished| {
        assert s'.finished[i] == s.finished[i];
        KeptRepliesStay(h, s.store, s'.store, s.finished[i].0, s.finished[i].1.replies);
      }
    }
  }

  lemma StartsWell(h: Host, s: Storage, t: Task)
    ensures OnTheWay(h, s, t, Start)
  {
  }

  lemma {:induction false} PromisedRun(h: Host, s: Sys, events: seq<Event>)
    requires Permutes(h) && Sound(s) && AllPromised(h, s)
    ensures AllPromised(h, After(h, s, events))
    decreases |events|
  {
    hide Sound, AllPromised, Next, Enabled, Extends;
    if events != [] {
      var e := events[0];
      if Enabled(s, e) {
        SoundStep(h, s, e);
        PromisedEvent(h, s, e);
        PromisedRun(h, Next(h, s, e), events[1..]);
      } else {
        PromisedRun(h, s, events[1..]);
      }
    }
  }

  lemma InitiallyPromised(h: Host, workers: nat)
    ensures Sound(Initial(workers)) && AllPromised(h, Initial(workers))
  {
    Runs.NobodyBusy(workers, NO_TASK);
    Runs.InitiallyConsistent(workers);
    hide Resting, OnTheWay, Sound;
  }

  /** In every state of every run, whatever has been answered without an error still holds: who was told so is
      logged in under the right password; the user, the chat or the membership asked for is there; the message
      sent is in the log, from its sender to the addressee by name. */
  lemma EveryPromiseKept(h: Host, workers: nat, events: seq<Event>, i: nat, j: nat)
    requires Permutes(h)
    requires var done := After(h, Initial(workers), events).finished; i < |done| && j < |done[i].1.replies|
    ensures var s := After(h, Initial(workers), events);
            Promised(h, s.store, s.finished[i].0, s.finished[i].1.replies[j])
  {
    InitiallyPromised(h, workers);
    hide After, Sound, OnTheWay, Promised;
    PromisedRun(h, Initial(workers), events);
    assert KeptReplies(h, After(h, Initial(workers), events).store,
                       After(h, Initial(workers), events).finished[i].0,
                       After(h, Initial(workers), events).finished[i].1.replies);
  }

  /** And so does what is about to be answered. */
  lemma AnswersAreTrue(h: Host, workers: nat, events: seq<Event>, w: nat)
    requires Permutes(h)
    requires var ws := After(h, Initial(workers), events).workers; w < |ws| && ws[w].Some? && ws[w].value.pc.Send?
    ensures var s := After(h, Initial(workers), events);
            Promised(h, s.store, s.workers[w].value.task, s.workers[w].value.pc.reply)
  {
    InitiallyPromised(h, workers);
    hide After, Sound, Promised;
    PromisedRun(h, Initial(workers), events);
    var s := After(h, Initial(workers), events);
    assert OnTheWay(h, s.store, s.workers[w].value.task, s.workers[w].value.pc);
  }
}
