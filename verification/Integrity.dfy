// What every operation on the tables keeps, and what a table may become while no lock is held.
module Integrity {
  import opened Wrappers
  import opened Tables

  predicate HasUser(s: Storage, uid: nat) { 1 <= uid <= |s.users| }

  predicate HasChat(s: Storage, chatid: nat) { 1 <= chatid <= |s.chats| }

  /** Ids are exactly 1..n in table order. */
  ghost predicate IdsCount(s: Storage) {
    && s.userAutoincrement == |s.users| + 1
    && s.chatAutoincrement == |s.chats| + 1
    && (forall i :: 0 <= i < |s.users| ==> s.users[i].id == i + 1)
    && (forall i :: 0 <= i < |s.chats| ==> s.chats[i].id == i + 1)
  }

  ghost predicate UserNamesUnique(s: Storage) {
    forall i, j :: 0 <= i < j < |s.users| ==> s.users[i].name != s.users[j].name
  }

  /** Every user owns one chat of its own name and is a member of it. */
  ghost predicate SelfChats(s: Storage) {
    && (forall i :: 0 <= i < |s.users| ==>
          && HasChat(s, s.users[i].selfChatId)
          && s.chats[s.users[i].selfChatId - 1].name == s.users[i].name
          && Chatuser(s.users[i].selfChatId, i + 1) in s.chatuser)
    && (forall i, j :: 0 <= i < j < |s.users| ==> s.users[i].selfChatId != s.users[j].selfChatId)
  }

  /** The foreign keys of mysql/init.sql, and no membership twice. */
  ghost predicate RowsRefer(s: Storage) {
    && (forall i :: 0 <= i < |s.chatuser| ==> HasChat(s, s.chatuser[i].chatid) && HasUser(s, s.chatuser[i].uid))
    && (forall i, j :: 0 <= i < j < |s.chatuser| ==> s.chatuser[i] != s.chatuser[j])
  }

  ghost predicate MessagesRefer(s: Storage) {
    forall i :: 0 <= i < |s.messages| ==> HasUser(s, s.messages[i].userFrom) && HasChat(s, s.messages[i].chatTo)
  }

  /** A self chat is one that createUser made; every other chat came from createChat. */
  ghost predicate IsSelfChat(s: Storage, chatid: nat) {
    exists i :: 0 <= i < |s.users| && s.users[i].selfChatId == chatid
  }

  /** Of two chats of one name the older came from createChat and the younger is a self chat. */
  ghost predicate ChatNamesPaired(s: Storage) {
    forall i, j :: 0 <= i < j < |s.chats| && s.chats[i].name == s.chats[j].name ==>
      !IsSelfChat(s, i + 1) && IsSelfChat(s, j + 1)
  }

  ghost predicate Intact(s: Storage) {
    && IdsCount(s) && UserNamesUnique(s) && SelfChats(s) && RowsRefer(s) && MessagesRefer(s) && ChatNamesPaired(s)
  }

  // -------------------------------------------------- what may happen meanwhile

  predicate SameUser(u: User, v: User) { u.(heartbit := 0) == v.(heartbit := 0) }

  predicate SameMessage(m: Message, n: Message) { m.(flags := Unread) == n.(flags := Unread) }

  /** Tables only grow; old users change nothing but their heartbeat, old messages nothing but their flags. */
  ghost predicate Extends(s: Storage, t: Storage) {
    && s.chats <= t.chats
    && s.chatuser <= t.chatuser
    && |s.users| <= |t.users| && (forall i :: 0 <= i < |s.users| ==> SameUser(s.users[i], t.users[i]))
    && |s.messages| <= |t.messages| && (forall i :: 0 <= i < |s.messages| ==> SameMessage(s.messages[i], t.messages[i]))
  }

  lemma ExtendsTransitive(r: Storage, s: Storage, t: Storage)
    requires Extends(r, s) && Extends(s, t)
    ensures Extends(r, t)
  {
  }

  // ------------------------------------------------------- every operation

  lemma EmptyIntact()
    ensures Intact(EMPTY)
  {
  }

  lemma SelfChatsOf(s: Storage, t: Storage)
    requires |s.users| == |t.users| && forall i :: 0 <= i < |s.users| ==> SameUser(s.users[i], t.users[i])
    ensures forall chatid :: IsSelfChat(t, chatid) <==> IsSelfChat(s, chatid)
  {
    forall i | 0 <= i < |s.users|
      ensures s.users[i].selfChatId == t.users[i].selfChatId
    {
      assert SameUser(s.users[i], t.users[i]);
    }
  }

  lemma RowStays(rows: seq<Chatuser>, more: seq<Chatuser>)
    requires rows <= more
    ensures forall row :: row in rows ==> row in more
  {
    assert forall i :: 0 <= i < |rows| ==> more[i] == rows[i];
  }

  /** An operation that adds neither users nor chats has only its rows and messages to answer for. */
  lemma OtherTables(s: Storage, t: Storage)
    requires Intact(s) && Extends(s, t)
    requires |t.users| == |s.users| && t.chats == s.chats
    requires t.userAutoincrement == s.userAutoincrement && t.chatAutoincrement == s.chatAutoincrement
    requires RowsRefer(t) && MessagesRefer(t)
    ensures Intact(t)
  {
    hide IsSelfChat, RowsRefer, MessagesRefer;
    forall i | 0 <= i < |s.users|
      ensures t.users[i].id == i + 1 && t.users[i].name == s.users[i].name
      ensures t.users[i].selfChatId == s.users[i].selfChatId
    {
      assert SameUser(s.users[i], t.users[i]);
    }
    RowStays(s.chatuser, t.chatuser);
    SelfChatsOf(s, t);
  }

  lemma HeartBitKeeps(s: Storage, id: nat, ts: nat)
    requires Intact(s)
    ensures Intact(WithHeartBit(s, id, ts)) && Extends(s, WithHeartBit(s, id, ts))
  {
    hide IdsCount, UserNamesUnique, SelfChats, ChatNamesPaired;
    OtherTables(s, WithHeartBit(s, id, ts));
  }

  lemma MemberKeeps(s: Storage, chatid: nat, uid: nat)
    requires Intact(s) && HasChat(s, chatid) && HasUser(s, uid)
    ensures Intact(WithMember(s, chatid, uid)) && Extends(s, WithMember(s, chatid, uid))
  {
    hide IdsCount, UserNamesUnique, SelfChats, ChatNamesPaired;
    OtherTables(s, WithMember(s, chatid, uid));
  }

  lemma MessageKeeps(s: Storage, m: Message)
    requires Intact(s) && HasUser(s, m.userFrom) && HasChat(s, m.chatTo)
    ensures Intact(WithMessage(s, m)) && Extends(s, WithMessage(s, m))
  {
    hide IdsCount, UserNamesUnique, SelfChats, ChatNamesPaired;
    OtherTables(s, WithMessage(s, m));
  }

  lemma MarkKeeps(s: Storage, at: seq<nat>)
    requires Intact(s)
    ensures var t := s.(messages := Marked(s.messages, at)); Intact(t) && Extends(s, t)
  {
    hide IdsCount, UserNamesUnique, SelfChats, ChatNamesPaired;
    OtherTables(s, s.(messages := Marked(s.messages, at)));
  }

  // Creating a user: the new user, its self chat and its membership row come together.

  lemma UserTables(s: Storage, name: string, pass: string, stpath: string)
    requires IdsCount(s) && UserNamesUnique(s) && SelfChats(s) && RowsRefer(s) && !UserNameTaken(s.users, name)
    ensures var t := WithUser(s, name, pass, stpath).0; IdsCount(t) && UserNamesUnique(t) && SelfChats(t)
  {
    var t := WithUser(s, name, pass, stpath).0;
    RowStays(s.chatuser, t.chatuser);
    assert t.chatuser[|s.chatuser|] in t.chatuser;
  }

  lemma UserRows(s: Storage, name: string, pass: string, stpath: string)
    requires IdsCount(s) && RowsRefer(s) && MessagesRefer(s)
    ensures var t := WithUser(s, name, pass, stpath).0; RowsRefer(t) && MessagesRefer(t) && Extends(s, t)
  {
  }

  lemma UserChatNames(s: Storage, name: string, pass: string, stpath: string)
    requires IdsCount(s) && SelfChats(s) && ChatNamesPaired(s) && !UserNameTaken(s.users, name)
    ensures ChatNamesPaired(WithUser(s, name, pass, stpath).0)
  {
    hide IsSelfChat, SelfChats;
    var t := WithUser(s, name, pass, stpath).0;
    UserSelfChats(s, name, pass, stpath);
    forall i | 0 <= i < |s.chats| && s.chats[i].name == name
      ensures !IsSelfChat(t, i + 1)
    {
      NotSelfChat(s, i + 1, name);
    }
  }

  lemma UserSelfChats(s: Storage, name: string, pass: string, stpath: string)
    requires IdsCount(s) && !UserNameTaken(s.users, name)
    ensures var t := WithUser(s, name, pass, stpath).0;
            && IsSelfChat(t, |s.chats| + 1)
            && forall chatid :: 1 <= chatid <= |s.chats| ==> (IsSelfChat(t, chatid) <==> IsSelfChat(s, chatid))
  {
    var t := WithUser(s, name, pass, stpath).0;
    var n := |s.users|;
    assert t.users[n].selfChatId == |s.chats| + 1;
    forall chatid | 1 <= chatid <= |s.chats|
      ensures IsSelfChat(t, chatid) <==> IsSelfChat(s, chatid)
    {
      if IsSelfChat(s, chatid) {
        var i :| 0 <= i < n && s.users[i].selfChatId == chatid;
        assert t.users[i].selfChatId == chatid;
      }
    }
  }

  /** A chat whose name no user bears is nobody's self chat. */
  lemma NotSelfChat(s: Storage, chatid: nat, name: string)
    requires SelfChats(s) && !UserNameTaken(s.users, name)
    requires HasChat(s, chatid) && s.chats[chatid - 1].name == name
    ensures !IsSelfChat(s, chatid)
  {
  }

  lemma UserKeeps(s: Storage, name: string, pass: string, stpath: string)
    requires Intact(s)
    ensures var (t, u) := WithUser(s, name, pass, stpath); Intact(t) && Extends(s, t)
  {
    if !UserNameTaken(s.users, name) {
      UserTables(s, name, pass, stpath);
      UserRows(s, name, pass, stpath);
      UserChatNames(s, name, pass, stpath);
      hide WithUser, IdsCount, UserNamesUnique, SelfChats, RowsRefer, MessagesRefer, ChatNamesPaired, Extends;
    }
  }

  // Creating a chat: its name is free among all chats, self chats included.

  lemma ChatTables(s: Storage, name: string, uid: nat)
    requires Intact(s) && (uid > 0 ==> HasUser(s, uid))
    ensures var t := WithChat(s, name, uid).0;
            && IdsCount(t) && UserNamesUnique(t) && SelfChats(t) && MessagesRefer(t) && Extends(s, t)
  {
    hide ChatNamesPaired;
    RowStays(s.chatuser, WithChat(s, name, uid).0.chatuser);
  }

  lemma ChatRows(s: Storage, name: string, uid: nat)
    requires IdsCount(s) && RowsRefer(s) && (uid > 0 ==> HasUser(s, uid))
    ensures RowsRefer(WithChat(s, name, uid).0)
  {
  }

  lemma ChatChatNames(s: Storage, name: string, uid: nat)
    requires IdsCount(s) && ChatNamesPaired(s)
    ensures ChatNamesPaired(WithChat(s, name, uid).0)
  {
    hide IsSelfChat;
    SelfChatsOf(s, WithChat(s, name, uid).0);
  }

  lemma ChatKeeps(s: Storage, name: string, uid: nat)
    requires Intact(s) && (uid > 0 ==> HasUser(s, uid))
    ensures var (t, c) := WithChat(s, name, uid); Intact(t) && Extends(s, t)
  {
    ChatTables(s, name, uid);
    ChatRows(s, name, uid);
    ChatChatNames(s, name, uid);
    hide WithChat, IdsCount, UserNamesUnique, SelfChats, RowsRefer, MessagesRefer, ChatNamesPaired, Extends;
  }

  // ------------------------------------------------------------ consequences

  /** An id that a row may refer to is found, and an id that is found may be referred to. */
  lemma UserFound(s: Storage, uid: nat)
    requires IdsCount(s)
    ensures HasUser(s, uid) ==> UserById(s.users, uid) == s.users[uid - 1]
    ensures UserById(s.users, uid).id != 0 <==> HasUser(s, uid)
  {
    if HasUser(s, uid) {
      assert s.users[uid - 1] in s.users;
    }
  }

  lemma ChatFound(s: Storage, chatid: nat)
    requires IdsCount(s)
    ensures HasChat(s, chatid) ==> ChatById(s.chats, chatid) == s.chats[chatid - 1]
    ensures ChatById(s.chats, chatid).id != 0 <==> HasChat(s, chatid)
  {
    if HasChat(s, chatid) {
      assert s.chats[chatid - 1] in s.chats;
    }
  }

  /** lookupUsersForChatId drops its lock between collecting the ids and looking up each user: still each is the
      user of the first lock, with only the heartbeat as new as its own lookup. */
  lemma UsersLinearize(first: Storage, later: seq<Storage>, chatid: nat)
    requires Intact(first) && |later| == |UserIdsOf(first.chatuser, chatid)|
    requires forall i :: 0 <= i < |later| ==> Intact(later[i]) && Extends(first, later[i])
    ensures var ids := UserIdsOf(first.chatuser, chatid);
            forall i :: 0 <= i < |ids| ==>
              UserById(later[i].users, ids[i]).id != 0
              && SameUser(UserById(first.users, ids[i]), UserById(later[i].users, ids[i]))
  {
    var ids := UserIdsOf(first.chatuser, chatid);
    forall i | 0 <= i < |ids|
      ensures UserById(later[i].users, ids[i]).id != 0
      ensures SameUser(UserById(first.users, ids[i]), UserById(later[i].users, ids[i]))
    {
      MemberExists(first, chatid, ids[i]);
      UserSame(first, later[i], ids[i]);
    }
  }

  lemma MemberExists(s: Storage, chatid: nat, uid: nat)
    requires Intact(s) && uid in UserIdsOf(s.chatuser, chatid)
    ensures HasUser(s, uid)
  {
    assert Chatuser(chatid, uid) in s.chatuser;
  }

  lemma UserSame(s: Storage, t: Storage, uid: nat)
    requires Intact(s) && Intact(t) && Extends(s, t) && HasUser(s, uid)
    ensures UserById(t.users, uid).id != 0 && SameUser(UserById(s.users, uid), UserById(t.users, uid))
  {
    UserFound(s, uid);
    UserFound(t, uid);
  }

  lemma {:induction false} ByNameAre(users: seq<User>, name: string)
    ensures forall u :: u in UsersByName(users, name) ==> u in users && u.name == name
    ensures UserNameTaken(users, name) <==> UsersByName(users, name) != []
  {
    if users != [] {
      var n := |users| - 1;
      ByNameAre(users[..n], name);
      assert users == users[..n] + [users[n]];
      if UserNameTaken(users[..n], name) {
        var i :| 0 <= i < n && users[..n][i].name == name;
        assert users[i].name == name;
      }
    }
  }

  /** The branches for more than one user of a name are dead. */
  lemma {:induction false} AtMostOneUser(users: seq<User>, name: string)
    requires forall i, j :: 0 <= i < j < |users| ==> users[i].name != users[j].name
    ensures |UsersByName(users, name)| <= 1
  {
    if users != [] {
      var n := |users| - 1;
      AtMostOneUser(users[..n], name);
      ByNameAre(users[..n], name);
      assert forall u :: u in users[..n] ==> u.name != users[n].name;
    }
  }

  lemma {:induction false} ChatsByNameAre(chats: seq<Chat>, name: string)
    ensures forall c :: c in ChatsByName(chats, name) ==> c in chats && c.name == name
  {
    if chats != [] {
      ChatsByNameAre(chats[..|chats| - 1], name);
    }
  }

  lemma {:induction false} ChatsFoundByName(chats: seq<Chat>, name: string, i: nat, j: nat)
    requires i <= j < |chats| && chats[i].name == chats[j].name == name
    ensures |ChatsByName(chats, name)| >= if i < j then 2 else 1
  {
    var n := |chats| - 1;
    if j < n {
      ChatsFoundByName(chats[..n], name, i, j);
    } else if i < n {
      ChatsFoundByName(chats[..n], name, i, i);
    }
  }

  /** Chat names are not unique: createUser takes a name that createChat has taken before. */
  lemma ChatNameShared(first: string, name: string)
    requires first != name
    ensures var s := WithUser(EMPTY, first, "", "").0;
            var t := WithUser(WithChat(s, name, 1).0, name, "", "").0;
            Intact(t) && |t.chats| == 3 && t.chats[1].name == t.chats[2].name == name
  {
    EmptyIntact();
    UserKeeps(EMPTY, first, "", "");
    var s := WithUser(EMPTY, first, "", "").0;
    ChatKeeps(s, name, 1);
    UserKeeps(WithChat(s, name, 1).0, name, "", "");
    hide Intact, Extends;
  }

  ghost predicate ChatNamesUnique(s: Storage) {
    forall i, j :: 0 <= i < j < |s.chats| ==> s.chats[i].name != s.chats[j].name
  }

  /** A user's creation leaves chat names unique exactly when it is refused or no chat bears the name yet. */
  lemma UserKeepsUniqueExactly(s: Storage, name: string, pass: string, stpath: string)
    requires ChatNamesUnique(s)
    ensures ChatNamesUnique(WithUser(s, name, pass, stpath).0)
       <==> UserNameTaken(s.users, name) || !ChatNameTaken(s.chats, name)
  {
    var t := WithUser(s, name, pass, stpath).0;
    if !UserNameTaken(s.users, name) {
      if i :| 0 <= i < |s.chats| && s.chats[i].name == name {
        assert t.chats[i].name == t.chats[|s.chats|].name;
      }
    }
  }

  /** A chat's creation always does. */
  lemma ChatKeepsUnique(s: Storage, name: string, uid: nat)
    requires ChatNamesUnique(s)
    ensures ChatNamesUnique(WithChat(s, name, uid).0)
  {
  }

  /** Asking for a name finds just this chat exactly when no other bears it. */
  lemma {:induction false} FoundAlone(chats: seq<Chat>, name: string, i: nat)
    requires i < |chats| && chats[i].name == name
    ensures ChatsByName(chats, name) == [chats[i]]
       <==> forall j :: 0 <= j < |chats| && chats[j].name == name ==> j == i
    ensures |ChatsByName(chats, name)| == 1
       <==> forall j :: 0 <= j < |chats| && chats[j].name == name ==> j == i
  {
    if j :| 0 <= j < |chats| && chats[j].name == name && j != i {
      ChatsFoundByName(chats, name, Min(i, j), Max(i, j));
    } else {
      OnlyFound(chats, name, i);
    }
  }

  lemma {:induction false} OnlyFound(chats: seq<Chat>, name: string, i: nat)
    requires i <= |chats| && forall j :: 0 <= j < |chats| && chats[j].name == name ==> j == i
    ensures ChatsByName(chats, name) == if i < |chats| && chats[i].name == name then [chats[i]] else []
  {
    if chats != [] {
      var n := |chats| - 1;
      OnlyFound(chats[..n], name, if i <= n then i else n);
    }
  }

  /** At most two chats share a name. */
  lemma AtMostTwoChats(s: Storage, i: nat, j: nat, k: nat)
    requires Intact(s) && i < j < k < |s.chats|
    ensures !(s.chats[i].name == s.chats[j].name == s.chats[k].name)
  {
  }
}
