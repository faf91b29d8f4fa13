// The loop body of DatabaseWorker::processQueue as it runs, on a connection to the in-memory database. While
// no other worker interferes, a task does what the steps of the Worker module do one after the other.
module DatabaseWorker {
  import opened Wrappers
  import opened Tables
  import opened Integrity
  import opened Worker
  import opened Poll
  import opened Promises
  import InMemory
  import History

  /** A reply as it is sent, without what the model remembers of a batch. */
  function Told(reply: Reply): Reply {
    if reply.IdleMessages? then reply.(at := []) else reply
  }

  class DatabaseWorker {
    const conn: InMemory.Connection
    const h: Host
    var sent: seq<Reply>  // what the clients have been told to send

    constructor (conn: InMemory.Connection, h: Host)
      ensures this.conn == conn && this.h == h && sent == []
    {
      this.conn, this.h, sent := conn, h, [];
    }

    /** The task has taken n steps, nobody interfered, and its last step was this reply or none. */
    twostate predicate Did(t: Task, now: nat, n: nat, new reply: Option<Reply>)
      reads this, conn
    {
      && Steps(h, old(conn.Contents()), t, Start, now, n)
         == (conn.Contents(), if reply.Some? then Send(reply.value) else Done)
      && sent == old(sent) + if reply.Some? then [Told(reply.value)] else []
    }

    method Answer(reply: Reply)
      modifies this
      ensures sent == old(sent) + [reply]
    {
      sent := sent + [reply];
    }

    method LookupCheckPass(t: Task) returns (user: User)
      modifies this
      ensures var u := UserById(conn.users, t.uid);
              if u.id == 0 then user == NO_USER && sent == old(sent) + [Error(409)]
              else if h.digest(t.password) != u.password then user == NO_USER && sent == old(sent) + [Error(403)]
              else user == u && sent == old(sent)
    {
      user := conn.LookupUserById(t.uid);
      if user.id == 0 {
        Answer(Error(409));
        return NO_USER;
      }
      if h.digest(t.password) != user.password {
        Answer(Error(403));
        return NO_USER;
      }
    }

    method LookupCheckPassByName(name: string, t: Task, checkPass: bool) returns (user: User)
      modifies this
      ensures var (u, refusal) := ByName(h, conn.Contents(), name, if checkPass then Some(t.password) else None);
              user == u && sent == old(sent) + if refusal.Some? then [refusal.value] else []
    {
      var users := conn.LookupUserByName(name);
      if |users| != 1 {
        if users == [] {
          Answer(Error(404));
          return NO_USER;
        }
        Answer(Error(500));
        return NO_USER;
      }
      if checkPass {
        if h.digest(t.password) != users[0].password {
          Answer(Error(403));
          return NO_USER;
        }
      }
      return users[0];
    }

    method ToApiFormat(msgs: seq<Message>) returns (ret: seq<ApiMessage>)
      ensures ret == ApiFormat(conn.Contents(), msgs)
    {
      ret := [];
      for i := 0 to |msgs|
        invariant ret == ApiFormat(conn.Contents(), msgs)[..i]
      {
        var chat := conn.LookupChatById(msgs[i].chatTo);
        var user := conn.LookupUserById(msgs[i].userFrom);
        ret := ret + [ApiMessage(msgs[i].ts, user.name, chat.name, msgs[i].text)];
      }
    }

    /** One iteration of the loop, for a task that has been taken from the queue. */
    method ProcessTask(t: Task, now: nat) returns (ghost n: nat, ghost reply: Option<Reply>)
      requires Intact(conn.Contents()) && History.Sorts(h.sort)
      modifies this, conn
      ensures Did(t, now, n, reply)
      ensures reply.Some? ==> Promised(h, conn.Contents(), t, reply.value)
    {
      hide Promised;
      ghost var s := conn.Contents();
      match t.cmd {
        case Idle => n, reply := IdlePoll(t, now);
        case UserStatus => n, reply := UserStatus(t, now);
        case UserHistory => n, reply := UserHistory(t, now);
        case MessageSend => n, reply := MessageSend(t, now);
        case UserCreate => n, reply := UserCreate(t, now);
        case UserLogin => n, reply := UserLogin(t, now);
        case ChatCreate => n, reply := ChatCreate(t, now);
        case ChatAdduser => n, reply := ChatAdduser(t, now);
        case MessageSendChat => n, reply := MessageSendChat(t, now);
        case _ =>
          n, reply := 1, None;
          OneStep(h, conn.Contents(), t, Start, now);
      }
      if reply.Some? {
        UndisturbedReply(h, s, t, now, n, conn.Contents(), reply.value);
      }
    }

    method UserCreate(t: Task, now: nat) returns (ghost n: nat, ghost reply: Option<Reply>)
      requires t.cmd.UserCreate?
      modifies this, conn
      ensures Did(t, now, n, reply)
    {
      hide WithUser;
      OneStep(h, conn.Contents(), t, Start, now);
      var user := conn.CreateUser(t.user, h.digest(t.password), t.storage);
      n, reply := 1, Some(if user.id == 0 then Error(409) else OkUser(user));
      if user.id == 0 {
        Answer(Error(409));
        return;
      }
      Answer(OkUser(user));
    }

    method UserLogin(t: Task, now: nat) returns (ghost n: nat, ghost reply: Option<Reply>)
      requires Intact(conn.Contents()) && t.cmd.UserLogin?
      modifies this, conn
      ensures Did(t, now, n, reply)
    {
      hide Intact, ByName;
      OneStep(h, conn.Contents(), t, Start, now);
      ByNameFound(h, conn.Contents(), t.user, Some(t.password));
      var user := LookupCheckPassByName(t.user, t, true);
      n, reply := 1, Some(if user.id == 0 then sent[|sent| - 1] else OkUser(user));
      if user.id == 0 {
        return;
      }
      Answer(OkUser(user));
    }

    method UserStatus(t: Task, now: nat) returns (ghost n: nat, ghost reply: Option<Reply>)
      requires Intact(conn.Contents()) && t.cmd.UserStatus?
      modifies this, conn
      ensures Did(t, now, n, reply)
    {
      hide Intact, ByName, Steps;
      ghost var s := conn.Contents();
      Authenticates(h, s, t, now);
      var user := LookupCheckPass(t);
      if user.id == 0 {
        n, reply := 1, Some(sent[|sent| - 1]);
        return;
      }
      ByNameFound(h, s, t.user, None);
      ThenOne(h, s, t, now, 1, s, Authed(user));
      var userTo := LookupCheckPassByName(t.user, t, false);
      n, reply := 2, Some(if userTo.id == 0 then sent[|sent| - 1] else OkUser(userTo));
      if userTo.id == 0 {
        return;
      }
      Answer(OkUser(userTo));
    }

    method MessageSend(t: Task, now: nat) returns (ghost n: nat, ghost reply: Option<Reply>)
      requires Intact(conn.Contents()) && t.cmd.MessageSend?
      modifies this, conn
      ensures Did(t, now, n, reply)
    {
      hide Intact, Steps;
      ghost var s := conn.Contents();
      Authenticates(h, s, t, now);
      var user := LookupCheckPass(t);
      if user.id == 0 {
        n, reply := 1, Some(sent[|sent| - 1]);
        return;
      }
      ThenOne(h, s, t, now, 1, s, Authed(user));
      var usersTo := conn.LookupUserByName(t.toUser);
      n := 2;
      if |usersTo| != 1 {
        reply := Some(Error(if usersTo == [] then 404 else 500));
        if usersTo == [] {
          Answer(Error(404));
          return;
        }
        Answer(Error(500));
        return;
      }
      var msg := Message(Unread, user.id, usersTo[0].selfChatId, now, t.message);
      ThenOne(h, s, t, now, 2, s, Save(msg));
      conn.SaveMessage(msg);
      n, reply := 3, Some(OkStatus);
      Answer(OkStatus);
    }

    method MessageSendChat(t: Task, now: nat) returns (ghost n: nat, ghost reply: Option<Reply>)
      requires Intact(conn.Contents()) && t.cmd.MessageSendChat?
      modifies this, conn
      ensures Did(t, now, n, reply)
    {
      hide Intact, Steps;
      ghost var s := conn.Contents();
      Authenticates(h, s, t, now);
      var user := LookupCheckPass(t);
      if user.id == 0 {
        n, reply := 1, Some(sent[|sent| - 1]);
        return;
      }
      ThenOne(h, s, t, now, 1, s, Authed(user));
      var chats := conn.LookupChatByName(t.chatName);
      n := 2;
      if |chats| != 1 {
        reply := Some(Error(404));
        Answer(Error(404));
        return;
      }
      var msg := Message(Unread, user.id, chats[0].id, now, t.message);
      ThenOne(h, s, t, now, 2, s, Save(msg));
      conn.SaveMessage(msg);
      n, reply := 3, Some(OkStatus);
      Answer(OkStatus);
    }

    method ChatCreate(t: Task, now: nat) returns (ghost n: nat, ghost reply: Option<Reply>)
      requires Intact(conn.Contents()) && t.cmd.ChatCreate?
      modifies this, conn
      ensures Did(t, now, n, reply)
    {
      hide Intact, Steps, WithChat;
      ghost var s := conn.Contents();
      Authenticates(h, s, t, now);
      var user := LookupCheckPass(t);
      if user.id == 0 {
        n, reply := 1, Some(sent[|sent| - 1]);
        return;
      }
      ThenOne(h, s, t, now, 1, s, Authed(user));
      var chat := conn.CreateChat(t.chatName, t.uid);
      n, reply := 2, Some(if chat.id == 0 then Error(409) else OkChat(chat));
      if chat.id == 0 {
        Answer(Error(409));
        return;
      }
      Answer(OkChat(chat));
    }

    method ChatAdduser(t: Task, now: nat) returns (ghost n: nat, ghost reply: Option<Reply>)
      requires Intact(conn.Contents()) && t.cmd.ChatAdduser?
      modifies this, conn
      ensures Did(t, now, n, reply)
    {
      hide Intact, ByName, Steps, WithMember;
      ghost var s := conn.Contents();
      Authenticates(h, s, t, now);
      var user := LookupCheckPass(t);
      if user.id == 0 {
        n, reply := 1, Some(sent[|sent| - 1]);
        return;
      }
      ByNameFound(h, s, t.adduser, None);
      ThenOne(h, s, t, now, 1, s, Authed(user));
      var toAdd := LookupCheckPassByName(t.adduser, t, false);
      if toAdd.id == 0 {
        n, reply := 2, Some(sent[|sent| - 1]);
        return;
      }
      ThenOne(h, s, t, now, 2, s, FindChat(toAdd));
      var chats := conn.LookupChatByName(t.chatName);
      if |chats| != 1 {
        n, reply := 3, Some(Error(404));
        Answer(Error(404));
        return;
      }
      ThenOne(h, s, t, now, 3, s, AddRow(chats[0], toAdd));
      conn.AddUserToChat(chats[0], toAdd);
      n, reply := 4, Some(OkStatus);
      Answer(OkStatus);
    }

    method UserHistory(t: Task, now: nat) returns (ghost n: nat, ghost reply: Option<Reply>)
      requires Intact(conn.Contents()) && History.Sorts(h.sort) && t.cmd.UserHistory?
      modifies this, conn
      ensures Did(t, now, n, reply)
    {
      hide Intact, ByName, Step, Steps, Newest, Pick, Mix, History.Sorts, History.IsTop, HistoryLimit, FromTo;
      ghost var s := conn.Contents();
      Authenticates(h, s, t, now);
      var user := LookupCheckPass(t);
      if user.id == 0 {
        n, reply := 1, Some(sent[|sent| - 1]);
        return;
      }
      ByNameFound(h, s, t.user, None);
      AsksHistory(h, s, t, now, user);
      var userTo := LookupCheckPassByName(t.user, t, false);
      if userTo.id == 0 {
        n, reply := 2, Some(sent[|sent| - 1]);
        return;
      }
      var to := conn.SelectMessages(FromTo(user, userTo), HistoryLimit(t.count));
      var from := conn.SelectMessages(FromTo(userTo, user), HistoryLimit(t.count));
      ThenSelects(h, s, t, now, user, userTo);
      var mix := History.MixFromAndToMessages(h.sort, from, to, t.count);
      var msgs := ToApiFormat(mix);
      ghost var origin := ByQuery(user, userTo, s.messages, s.messages);
      ThenFormats(h, s, t, now, 4, s, mix, origin);
      n, reply := 4 + 2 * |mix| + 1, Some(OkMessages(msgs, mix, origin));
      Answer(OkMessages(msgs, mix, ByQuery(user, userTo, conn.messages, conn.messages)));
    }

    method IdlePoll(t: Task, now: nat) returns (ghost n: nat, ghost reply: Option<Reply>)
      requires Intact(conn.Contents()) && t.cmd.Idle?
      modifies this, conn
      ensures Did(t, now, n, reply)
    {
      hide Intact, Steps, Newest, Pick, Marked, WithHeartBit, ChatIdsOf, ChatsFor, UserById, InChat;
      ghost var s := conn.Contents();
      Authenticates(h, s, t, now);
      var user := LookupCheckPass(t);
      if user.id == 0 {
        n, reply := 1, Some(sent[|sent| - 1]);
        return;
      }
      ThenOne(h, s, t, now, 1, s, Authed(user));
      conn.UpdateUserHeartBit(user.id, now);
      ghost var s1 := conn.Contents();
      ThenOne(h, s, t, now, 2, s1, Worker.Touched(user));
      var chats := conn.LookupChatsForUserId(user.id);
      ghost var ids := ChatIdsOf(s1.chatuser, user.id);
      ThenResolves(h, s, t, now, 3, s1, ids);
      n := 3 + |ids| + 1;
      var batches: seq<seq<Message>> := [];
      ghost var at: seq<nat> := [];
      var i := 0;
      while i < |chats|
        invariant i <= |chats| && sent == old(sent)
        invariant Steps(h, s, t, Start, now, n) == (conn.Contents(), Scanning(chats[i..], Flatten(batches), at))
        invariant Flatten(batches) == [] <==> batches == []
      {
        ThenOne(h, s, t, now, n, conn.Contents(), Scanning(chats[i..], Flatten(batches), at));
        at := at + Newest(InChat(chats[i].id, t.ts), conn.messages, IDLE_LIMIT);
        var msgs := conn.GetMessages(chats[i].id, t.ts, IDLE_LIMIT);
        assert chats[i..][1..] == chats[i + 1..];
        Appended(batches, msgs);
        if msgs != [] {
          batches := batches + [msgs];
        }
        n, i := n + 1, i + 1;
      }
      assert chats[i..] == [];
      ThenOne(h, s, t, now, n, conn.Contents(), Scanning([], Flatten(batches), at));
      n := n + 1;
      if batches != [] {
        var msgs := ToApiFormat(Flatten(batches));
        ThenFormats(h, s, t, now, n, conn.Contents(), Flatten(batches), ByPoll(at));
        n, reply := n + 2 * |Flatten(batches)| + 1, Some(IdleMessages(msgs, Flatten(batches), at));
        Answer(IdleMessages(msgs, Flatten(batches), []));
        return;
      }
      reply := if t.ping then Some(IdleMessages([], [], [])) else None;
      if t.ping {
        Answer(IdleMessages([], [], []));
      }
    }
  }

  // ------------------------------------------------ the steps behind the code

  lemma Authenticates(h: Host, s: Storage, t: Task, now: nat)
    requires !t.cmd.UserCreate? && !t.cmd.UserLogin?
    requires !t.cmd.ChatHistory? && !t.cmd.ChatStatus? && !t.cmd.MessageRecent?
    ensures var user := UserById(s.users, t.uid);
            var pc := if user.id == 0 then Send(Error(409))
                      else if h.digest(t.password) != user.password then Send(Error(403))
                      else Authed(user);
            Steps(h, s, t, Start, now, 1) == (s, pc)
  {
    OneStep(h, s, t, Start, now);
  }

  lemma ByNameFound(h: Host, s: Storage, name: string, password: Option<string>)
    requires Intact(s)
    ensures var (user, refusal) := ByName(h, s, name, password);
            (user.id == 0 <==> refusal.Some?) && (refusal.Some? ==> refusal.value.Error?)
  {
    ByNameReal(h, s, name, password);
    hide Intact;
  }

  lemma ThenOne(h: Host, s: Storage, t: Task, now: nat, n: nat, s1: Storage, pc1: Pc)
    requires Steps(h, s, t, Start, now, n) == (s1, pc1)
    ensures Steps(h, s, t, Start, now, n + 1) == Step(h, s1, t, pc1, now)
  {
    hide Step, Steps;
    OneStep(h, s1, t, pc1, now);
    var (s2, pc2) := Step(h, s1, t, pc1, now);
    Chain(h, s, t, Start, now, n, s1, pc1, 1, s2, pc2);
  }

  lemma AsksHistory(h: Host, s: Storage, t: Task, now: nat, user: User)
    requires t.cmd.UserHistory? && Steps(h, s, t, Start, now, 1) == (s, Authed(user))
    ensures var (other, refusal) := ByName(h, s, t.user, None);
            Steps(h, s, t, Start, now, 2) == (s, if refusal.Some? then Send(refusal.value) else SelectTo(user, other))
  {
    hide ByName, Steps;
    ThenOne(h, s, t, now, 1, s, Authed(user));
  }

  lemma ThenSelects(h: Host, s: Storage, t: Task, now: nat, user: User, other: User)
    requires Steps(h, s, t, Start, now, 2) == (s, SelectTo(user, other))
    ensures var to := Pick(s.messages, Newest(FromTo(user, other), s.messages, HistoryLimit(t.count)));
            var from := Pick(s.messages, Newest(FromTo(other, user), s.messages, HistoryLimit(t.count)));
            var origin := ByQuery(user, other, s.messages, s.messages);
            Steps(h, s, t, Start, now, 4) == (s, Formatting(Mix(h.sort, from, to, t.count), [], None, origin))
  {
    hide Steps, Newest, Pick, Mix, FromTo, HistoryLimit;
    var to := Pick(s.messages, Newest(FromTo(user, other), s.messages, HistoryLimit(t.count)));
    ThenOne(h, s, t, now, 2, s, SelectTo(user, other));
    ThenOne(h, s, t, now, 3, s, SelectFrom(user, other, s.messages, to));
  }

  lemma ThenResolves(h: Host, s: Storage, t: Task, now: nat, n: nat, s1: Storage, ids: seq<nat>)
    requires Steps(h, s, t, Start, now, n) == (s1, Resolving(s1, ids, []))
    ensures Steps(h, s, t, Start, now, n + |ids| + 1) == (s1, Scanning(ChatsFor(s1.chats, ids), [], []))
  {
    hide Step, Steps;
    assert ChatsFor(s1.chats, ids)[..0] == [];
    Resolves(h, s1, t, ids, [], now);
    Chain(h, s, t, Start, now, n, s1, Resolving(s1, ids, []), |ids| + 1, s1, Scanning(ChatsFor(s1.chats, ids), [], []));
  }

  lemma ThenFormats(h: Host, s: Storage, t: Task, now: nat, n: nat, s1: Storage, msgs: seq<Message>,
                    origin: Origin)
    requires Steps(h, s, t, Start, now, n) == (s1, Formatting(msgs, [], None, origin))
    ensures var all := ApiFormat(s1, msgs);
            var reply := AnswerOf(t, all, msgs, origin);
            Steps(h, s, t, Start, now, n + 2 * |msgs| + 1) == (s1, Send(reply))
  {
    hide Step, Steps;
    var all := ApiFormat(s1, msgs);
    assert all[..0] == [];
    hide ApiFormat;
    Formats(h, s1, t, msgs, origin, 0, now);
    var reply := AnswerOf(t, all, msgs, origin);
    Chain(h, s, t, Start, now, n, s1, Formatting(msgs, [], None, origin), 2 * |msgs| + 1, s1, Send(reply));
  }

  lemma Appended<T>(parts: seq<seq<T>>, more: seq<T>)
    ensures Flatten(parts + [more]) == Flatten(parts) + more
    ensures more == [] ==> Flatten(parts) + more == Flatten(parts)
  {
    FlattenAppend(parts, [more]);
    var one := [more];
    assert one[1..] == [];
  }
}
