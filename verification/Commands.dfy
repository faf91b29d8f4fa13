// What each command does, said of the tables: whom it admits, what it answers, which rows are new.
module Commands {
  import opened Tables
  import opened Integrity
  import opened Worker

  // ------------------------------------------------------------------ lookups

  /** On tables in order at most one user bears a name, and it is the one that is found. */
  lemma NamedUser(s: Storage, name: string, i: nat)
    requires Intact(s) && i < |s.users| && s.users[i].name == name
    ensures UsersByName(s.users, name) == [s.users[i]]
  {
    hide IdsCount, SelfChats, RowsRefer, MessagesRefer, ChatNamesPaired;
    AtMostOneUser(s.users, name);
    ByNameAre(s.users, name);
    assert UserNameTaken(s.users, name);
    hide UsersByName;
    var found := UsersByName(s.users, name);
    assert found[0] in found;
    var j :| 0 <= j < |s.users| && s.users[j] == found[0];
    assert j == i;
  }

  lemma NobodyNamed(s: Storage, name: string)
    requires forall u :: u in s.users ==> u.name != name
    ensures UsersByName(s.users, name) == []
  {
    ByNameAre(s.users, name);
  }

  /** How a lookup by name must end. */
  predicate Finds(s: Storage, name: string, u: User) {
    u in s.users && u.name == name
  }

  lemma FindsOne(s: Storage, name: string)
    requires Intact(s)
    ensures forall u, v :: Finds(s, name, u) && Finds(s, name, v) ==> u == v
    ensures var found := UsersByName(s.users, name);
            if found == [] then forall u :: u in s.users ==> u.name != name
            else |found| == 1 && Finds(s, name, found[0])
  {
    forall u, v | Finds(s, name, u) && Finds(s, name, v)
      ensures u == v
    {
      var i :| 0 <= i < |s.users| && s.users[i] == u;
      var j :| 0 <= j < |s.users| && s.users[j] == v;
    }
    hide Intact, UsersByName;
    if i :| 0 <= i < |s.users| && s.users[i].name == name {
      NamedUser(s, name, i);
    } else {
      NobodyNamed(s, name);
    }
  }

  lemma FindsById(s: Storage, uid: nat)
    requires Intact(s)
    ensures forall u, v :: u in s.users && v in s.users && u.id == v.id ==> u == v
    ensures var found := UserById(s.users, uid);
            if found.id == 0 then forall u :: u in s.users ==> u.id != uid
            else found in s.users && found.id == uid
  {
    forall u, v | u in s.users && v in s.users && u.id == v.id
      ensures u == v
    {
      var i :| 0 <= i < |s.users| && s.users[i] == u;
      var j :| 0 <= j < |s.users| && s.users[j] == v;
      assert u.id == i + 1 && v.id == j + 1;
    }
    UserFound(s, uid);
    forall u | u in s.users
      ensures 0 < u.id <= |s.users|
    {
      var i :| 0 <= i < |s.users| && s.users[i] == u;
      assert s.users[i].id == i + 1;
    }
  }

  // ------------------------------------------------------------ who is let in

  /** A login is answered with a user exactly when it is the one of that name and the password is right; a wrong
      password and an unknown name are told apart. */
  lemma LoginExactly(h: Host, s: Storage, t: Task, now: nat)
    requires Intact(s) && t.cmd.UserLogin?
    ensures var (s', pc) := Step(h, s, t, Start, now);
            && s' == s
            && (forall u :: pc == Send(OkUser(u)) <==> Finds(s, t.user, u) && u.password == h.digest(t.password))
            && (pc == Send(Error(403)) <==> exists u :: Finds(s, t.user, u) && u.password != h.digest(t.password))
            && (pc == Send(Error(404)) <==> forall u :: u in s.users ==> u.name != t.user)
  {
    hide Intact, UsersByName;
    FindsOne(s, t.user);
    var found := UsersByName(s.users, t.user);
    if found != [] {
      assert Finds(s, t.user, found[0]);
    }
  }

  /** The commands that are checked by id and password first. */
  predicate Checked(cmd: Command) {
    || cmd.Idle? || cmd.UserStatus? || cmd.UserHistory? || cmd.MessageSend? || cmd.MessageSendChat?
    || cmd.ChatCreate? || cmd.ChatAdduser?
  }

  predicate Bears(s: Storage, uid: nat, u: User) {
    u in s.users && u.id == uid
  }

  /** Every other command that is served goes on exactly for the user of the given id and the right password. */
  lemma AdmittedExactly(h: Host, s: Storage, t: Task, now: nat)
    requires Intact(s) && Checked(t.cmd)
    ensures var (s', pc) := Step(h, s, t, Start, now);
            && s' == s
            && (forall u :: pc == Authed(u) <==> Bears(s, t.uid, u) && u.password == h.digest(t.password))
            && (pc == Send(Error(403)) <==> exists u :: Bears(s, t.uid, u) && u.password != h.digest(t.password))
            && (pc == Send(Error(409)) <==> forall u :: u in s.users ==> u.id != t.uid)
  {
    hide Intact, UserById;
    FindsById(s, t.uid);
    var found := UserById(s.users, t.uid);
    if found.id != 0 {
      assert Bears(s, t.uid, found);
    }
  }

  // --------------------------------------------------------------- new rows

  /** A user is created exactly when nobody bears the name: with its password's digest, its own chat of its name,
      and as that chat's member. */
  lemma UserCreatedExactly(h: Host, s: Storage, t: Task, now: nat)
    requires Intact(s) && t.cmd.UserCreate?
    ensures var (s', pc) := Step(h, s, t, Start, now);
            if exists u :: Finds(s, t.user, u) then s' == s && pc == Send(Error(409))
            else
              var (uid, chatid) := (|s.users| + 1, |s.chats| + 1);
              var u := User(uid, chatid, 0, t.user, h.digest(t.password), t.storage);
              && pc == Send(OkUser(u)) && s'.users == s.users + [u] && s'.chats == s.chats + [Chat(chatid, t.user)]
              && s'.chatuser == s.chatuser + [Chatuser(chatid, uid)] && s'.messages == s.messages
  {
    if UserNameTaken(s.users, t.user) {
      var i :| 0 <= i < |s.users| && s.users[i].name == t.user;
      assert Finds(s, t.user, s.users[i]);
    }
  }

  lemma RowsBelow(s: Storage)
    requires RowsRefer(s)
    ensures forall row :: row in s.chatuser ==> row.chatid <= |s.chats|
  {
    forall row | row in s.chatuser
      ensures row.chatid <= |s.chats|
    {
      var i :| 0 <= i < |s.chatuser| && s.chatuser[i] == row;
    }
  }

  lemma ChatTaken(s: Storage, name: string)
    ensures ChatNameTaken(s.chats, name) <==> exists c :: c in s.chats && c.name == name
  {
    if ChatNameTaken(s.chats, name) {
      var i :| 0 <= i < |s.chats| && s.chats[i].name == name;
      assert s.chats[i] in s.chats;
    }
  }

  /** A chat is created exactly when no chat bears the name, with its creator as its only member. */
  lemma ChatCreatedExactly(h: Host, s: Storage, t: Task, user: User, now: nat)
    requires Intact(s) && t.cmd.ChatCreate? && t.uid > 0
    ensures var (s', pc) := Step(h, s, t, Authed(user), now);
            if exists c :: c in s.chats && c.name == t.chatName then s' == s && pc == Send(Error(409))
            else
              var c := Chat(|s.chats| + 1, t.chatName);
              && pc == Send(OkChat(c)) && s'.chats == s.chats + [c]
              && s'.chatuser == s.chatuser + [Chatuser(c.id, t.uid)]
              && s'.users == s.users && s'.messages == s.messages
              && forall row :: row in s.chatuser ==> row.chatid != c.id
  {
    RowsBelow(s);
    ChatTaken(s, t.chatName);
    hide UserNamesUnique, SelfChats, RowsRefer, MessagesRefer, ChatNamesPaired, ChatNameTaken;
  }

  /** The user asked for becomes a member of the chat; nobody else does, and nothing else changes. */
  lemma MemberAdded(h: Host, s: Storage, t: Task, chat: Chat, added: User, now: nat)
    ensures var (s', pc) := Step(h, s, t, AddRow(chat, added), now);
            && pc == Send(OkStatus)
            && (forall row :: row in s'.chatuser <==> row in s.chatuser || row == Chatuser(chat.id, added.id))
            && s.chatuser <= s'.chatuser && |s'.chatuser| <= |s.chatuser| + 1
            && s'.users == s.users && s'.chats == s.chats && s'.messages == s.messages
  {
  }

  /** The message becomes the last one of the log, and nothing else changes. */
  lemma MessageSaved(h: Host, s: Storage, t: Task, m: Message, now: nat)
    ensures var (s', pc) := Step(h, s, t, Save(m), now);
            && pc == Send(OkStatus)
            && |s'.messages| == |s.messages| + 1 && s.messages <= s'.messages && s'.messages[|s.messages|] == m
            && s'.users == s.users && s'.chats == s.chats && s'.chatuser == s.chatuser
  {
  }

  // ------------------------------------------------------------- whom and what

  /** The user asked about, if there is one. */
  lemma StatusExactly(h: Host, s: Storage, t: Task, user: User, now: nat)
    requires Intact(s) && t.cmd.UserStatus?
    ensures var (s', pc) := Step(h, s, t, Authed(user), now);
            && s' == s
            && (forall u :: pc == Send(OkUser(u)) <==> Finds(s, t.user, u))
            && (pc == Send(Error(404)) <==> forall u :: u in s.users ==> u.name != t.user)
  {
    hide Intact, UsersByName;
    FindsOne(s, t.user);
    var found := UsersByName(s.users, t.user);
    if found != [] {
      assert Finds(s, t.user, found[0]);
    }
  }

  /** The user whose conversation is asked for. */
  lemma HistoryAskedExactly(h: Host, s: Storage, t: Task, user: User, now: nat)
    requires Intact(s) && t.cmd.UserHistory?
    ensures var (s', pc) := Step(h, s, t, Authed(user), now);
            && s' == s
            && (forall u :: pc == SelectTo(user, u) <==> Finds(s, t.user, u))
            && (pc == Send(Error(404)) <==> forall u :: u in s.users ==> u.name != t.user)
  {
    hide Intact, UsersByName;
    FindsOne(s, t.user);
    var found := UsersByName(s.users, t.user);
    if found != [] {
      assert Finds(s, t.user, found[0]);
    }
  }

  /** A message goes from the sender to the own chat of the user of that name, unread, with this text and stamp. */
  lemma MessageAddressedExactly(h: Host, s: Storage, t: Task, user: User, now: nat)
    requires Intact(s) && t.cmd.MessageSend?
    ensures var (s', pc) := Step(h, s, t, Authed(user), now);
            && s' == s
            && (forall u :: Finds(s, t.toUser, u) ==>
                  pc == Save(Message(Unread, user.id, u.selfChatId, now, t.message)))
            && (pc == Send(Error(404)) <==> forall u :: u in s.users ==> u.name != t.toUser)
  {
    hide Intact, UsersByName;
    FindsOne(s, t.toUser);
    var found := UsersByName(s.users, t.toUser);
    if found != [] {
      assert Finds(s, t.toUser, found[0]);
    }
  }

  lemma OneOwner(s: Storage, a: User, b: User)
    requires Intact(s) && a in s.users && b in s.users && a.selfChatId == b.selfChatId
    ensures a == b
  {
    hide IdsCount, UserNamesUnique, RowsRefer, MessagesRefer, ChatNamesPaired;
    var i :| 0 <= i < |s.users| && s.users[i] == a;
    var j :| 0 <= j < |s.users| && s.users[j] == b;
  }

  /** And it then belongs to the conversation of these two users in this direction, and to no other. */
  lemma InItsConversation(h: Host, s: Storage, t: Task, user: User, now: nat, a: User, b: User)
    requires Intact(s) && t.cmd.MessageSend? && user in s.users && a in s.users && b in s.users
    requires Step(h, s, t, Authed(user), now).1.Save?
    ensures FromTo(a, b)(Step(h, s, t, Authed(user), now).1.msg) <==> a == user && b.name == t.toUser
  {
    hide Intact, UsersByName;
    FindsOne(s, t.toUser);
    FindsById(s, user.id);
    var found := UsersByName(s.users, t.toUser);
    assert Finds(s, t.toUser, found[0]);
    assert b.name == t.toUser ==> Finds(s, t.toUser, b);
    if b.selfChatId == found[0].selfChatId {
      OneOwner(s, b, found[0]);
    }
  }

  /** The user to be added, before the chat is looked for. */
  lemma AddedUserExactly(h: Host, s: Storage, t: Task, user: User, now: nat)
    requires Intact(s) && t.cmd.ChatAdduser?
    ensures var (s', pc) := Step(h, s, t, Authed(user), now);
            && s' == s
            && (forall u :: pc == FindChat(u) <==> Finds(s, t.adduser, u))
            && (pc == Send(Error(404)) <==> forall u :: u in s.users ==> u.name != t.adduser)
  {
    hide Intact, UsersByName;
    FindsOne(s, t.adduser);
    var found := UsersByName(s.users, t.adduser);
    if found != [] {
      assert Finds(s, t.adduser, found[0]);
    }
  }

  /** The position of the only chat of a name. */
  predicate OnlyChat(s: Storage, name: string, i: nat) {
    && i < |s.chats| && s.chats[i].name == name
    && forall j :: 0 <= j < |s.chats| && s.chats[j].name == name ==> j == i
  }

  lemma {:induction false} NoChatNamed(chats: seq<Chat>, name: string)
    requires forall i :: 0 <= i < |chats| ==> chats[i].name != name
    ensures ChatsByName(chats, name) == []
  {
    if chats != [] {
      NoChatNamed(chats[..|chats| - 1], name);
    }
  }

  lemma FoundExactly(s: Storage, name: string)
    ensures forall i: nat :: OnlyChat(s, name, i) ==> ChatsByName(s.chats, name) == [s.chats[i]]
    ensures |ChatsByName(s.chats, name)| == 1 <==> exists i: nat :: OnlyChat(s, name, i)
  {
    hide ChatsByName;
    forall i: nat | OnlyChat(s, name, i)
      ensures ChatsByName(s.chats, name) == [s.chats[i]]
    {
      FoundAlone(s.chats, name, i);
    }
    if forall i :: 0 <= i < |s.chats| ==> s.chats[i].name != name {
      NoChatNamed(s.chats, name);
    } else {
      var i :| 0 <= i < |s.chats| && s.chats[i].name == name;
      FoundAlone(s.chats, name, i);
      assert |ChatsByName(s.chats, name)| == 1 ==> OnlyChat(s, name, i);
    }
  }

  /** The chat to be joined: the only one of the name, or 404. */
  lemma JoinedChatExactly(h: Host, s: Storage, t: Task, added: User, now: nat)
    ensures var (s', pc) := Step(h, s, t, FindChat(added), now);
            && s' == s
            && (forall i: nat :: OnlyChat(s, t.chatName, i) ==> pc == AddRow(s.chats[i], added))
            && (pc == Send(Error(404)) <==> !exists i: nat :: OnlyChat(s, t.chatName, i))
  {
    FoundExactly(s, t.chatName);
    hide ChatsByName, OnlyChat;
  }

  /** The chat to be written to: the only one of the name, or 404. */
  lemma ChatAddressedExactly(h: Host, s: Storage, t: Task, user: User, now: nat)
    requires t.cmd.MessageSendChat?
    ensures var (s', pc) := Step(h, s, t, Authed(user), now);
            && s' == s
            && (forall i: nat :: OnlyChat(s, t.chatName, i) ==>
                  pc == Save(Message(Unread, user.id, s.chats[i].id, now, t.message)))
            && (pc == Send(Error(404)) <==> !exists i: nat :: OnlyChat(s, t.chatName, i))
  {
    FoundExactly(s, t.chatName);
    hide ChatsByName;
  }

  // ---------------------------------------------------------------- polling

  /** A poll leaves its time with the polling user, and with nobody else. */
  lemma HeartBeats(h: Host, s: Storage, t: Task, user: User, now: nat)
    requires Intact(s) && t.cmd.Idle?
    ensures var (s', pc) := Step(h, s, t, Authed(user), now);
            && pc == Touched(user) && |s'.users| == |s.users|
            && (forall i :: 0 <= i < |s.users| ==>
                  && SameUser(s'.users[i], s.users[i])
                  && s'.users[i].heartbit == if s.users[i].id == user.id then now else s.users[i].heartbit)
            && s'.chats == s.chats && s'.chatuser == s.chatuser && s'.messages == s.messages
  {
    forall i | 0 <= i < |s.users|
      ensures s.users[i].id == i + 1
    {
    }
  }

  /** Of the chats of the user each is scanned, and the messages taken are marked as read and no others. */
  lemma ScanMarks(h: Host, s: Storage, t: Task, chats: seq<Chat>, batch: seq<Message>, at: seq<nat>, now: nat)
    requires chats != []
    ensures var (s', pc) := Step(h, s, t, Scanning(chats, batch, at), now);
            && pc.Scanning? && pc.chats == chats[1..] && at <= pc.at && batch <= pc.batch
            && |s'.messages| == |s.messages|
            && (forall k :: 0 <= k < |s.messages| ==>
                  && SameMessage(s'.messages[k], s.messages[k])
                  && s'.messages[k].flags == if k in pc.at[|at|..] then Read else s.messages[k].flags)
            && s'.users == s.users && s'.chats == s.chats && s'.chatuser == s.chatuser
  {
    var more := Newest(InChat(chats[0].id, t.ts), s.messages, IDLE_LIMIT);
    assert (at + more)[|at|..] == more;
    hide Newest;
  }
}
