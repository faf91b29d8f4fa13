// The loops of server/src/inmemory_dbconn.cpp over the shared storage, proved against Tables.
// Every method is one section under the storage's mutex, except where its comment says otherwise.
module InMemory {
  import opened Tables

  class Connection {
    var userAutoincrement: nat
    var chatAutoincrement: nat
    var chats: seq<Chat>
    var users: seq<User>
    var chatuser: seq<Chatuser>
    var messages: seq<Message>

    function Contents(): Storage
      reads this
    {
      Storage(userAutoincrement, chatAutoincrement, chats, users, chatuser, messages)
    }

    constructor ()
      ensures Contents() == EMPTY
    {
      userAutoincrement, chatAutoincrement := 1, 1;
      chats, users, chatuser, messages := [], [], [], [];
    }

    method UpdateUserHeartBit(id: nat, ts: nat)
      modifies this`users
      ensures Contents() == WithHeartBit(old(Contents()), id, ts)
    {
      for i := 0 to |users|
        invariant users == old(users)
        invariant FirstRow(users, id, i) == FirstRow(users, id, 0)
      {
        if users[i].id == id {
          users := users[i := users[i].(heartbit := ts)];
          return;
        }
      }
    }

    method CreateUser(name: string, pass: string, stpath: string) returns (user: User)
      modifies this
      ensures (Contents(), user) == WithUser(old(Contents()), name, pass, stpath)
    {
      for i := 0 to |users|
        invariant Contents() == old(Contents())
        invariant forall j :: 0 <= j < i ==> users[j].name != name
      {
        if users[i].name == name {
          return NO_USER;
        }
      }
      var chatId := chatAutoincrement;
      chatAutoincrement := chatAutoincrement + 1;
      var userId := userAutoincrement;
      userAutoincrement := userAutoincrement + 1;
      chats := chats + [Chat(chatId, name)];
      user := User(userId, chatId, 0, name, pass, stpath);
      users := users + [user];
      chatuser := chatuser + [Chatuser(chatId, userId)];
    }

    method CreateChat(name: string, uid: nat) returns (chat: Chat)
      modifies this
      ensures (Contents(), chat) == WithChat(old(Contents()), name, uid)
    {
      for i := 0 to |chats|
        invariant Contents() == old(Contents())
        invariant forall j :: 0 <= j < i ==> chats[j].name != name
      {
        if chats[i].name == name {
          return NO_CHAT;
        }
      }
      var chatId := chatAutoincrement;
      chatAutoincrement := chatAutoincrement + 1;
      chat := Chat(chatId, name);
      chats := chats + [chat];
      if uid > 0 {
        chatuser := chatuser + [Chatuser(chatId, uid)];
      }
    }

    method LookupUserByName(name: string) returns (ret: seq<User>)
      ensures ret == UsersByName(users, name)
    {
      ret := [];
      for i := 0 to |users|
        invariant ret == UsersByName(users[..i], name)
      {
        assert users[..i + 1][..i] == users[..i];
        if users[i].name == name {
          ret := ret + [users[i]];
        }
      }
      assert users[..|users|] == users;
    }

    method LookupUserById(id: nat) returns (user: User)
      ensures user == UserById(users, id)
    {
      for i := 0 to |users|
        invariant UserById(users[i..], id) == UserById(users, id)
      {
        assert users[i..][1..] == users[i + 1..];
        if users[i].id == id {
          return users[i];
        }
      }
      return NO_USER;
    }

    method LookupChatById(chatid: nat) returns (chat: Chat)
      ensures chat == ChatById(chats, chatid)
    {
      for i := 0 to |chats|
        invariant ChatById(chats[i..], chatid) == ChatById(chats, chatid)
      {
        assert chats[i..][1..] == chats[i + 1..];
        if chats[i].id == chatid {
          return chats[i];
        }
      }
      return NO_CHAT;
    }

    method LookupChatByName(name: string) returns (ret: seq<Chat>)
      ensures ret == ChatsByName(chats, name)
    {
      ret := [];
      for i := 0 to |chats|
        invariant ret == ChatsByName(chats[..i], name)
      {
        assert chats[..i + 1][..i] == chats[..i];
        if chats[i].name == name {
          ret := ret + [chats[i]];
        }
      }
      assert chats[..|chats|] == chats;
    }

    method CollectChatIds(uid: nat) returns (ids: seq<nat>)
      ensures ids == ChatIdsOf(chatuser, uid)
    {
      ids := [];
      for i := 0 to |chatuser|
        invariant ids == ChatIdsOf(chatuser[..i], uid)
      {
        assert chatuser[..i + 1][..i] == chatuser[..i];
        if chatuser[i].uid == uid {
          ids := ids + [chatuser[i].chatid];
        }
      }
      assert chatuser[..|chatuser|] == chatuser;
    }

    /** Takes the lock once for the ids and once more for every chat; here without other threads. */
    method LookupChatsForUserId(uid: nat) returns (ret: seq<Chat>)
      ensures ret == ChatsFor(chats, ChatIdsOf(chatuser, uid))
    {
      var ids := CollectChatIds(uid);
      ret := [];
      for i := 0 to |ids|
        invariant ret == ChatsFor(chats, ids)[..i]
      {
        var chat := LookupChatById(ids[i]);
        ret := ret + [chat];
      }
    }

    method CollectUserIds(chatid: nat) returns (uids: seq<nat>)
      ensures uids == UserIdsOf(chatuser, chatid)
    {
      uids := [];
      for i := 0 to |chatuser|
        invariant uids == UserIdsOf(chatuser[..i], chatid)
      {
        assert chatuser[..i + 1][..i] == chatuser[..i];
        if chatuser[i].chatid == chatid {
          uids := uids + [chatuser[i].uid];
        }
      }
      assert chatuser[..|chatuser|] == chatuser;
    }

    /** Takes the lock once for the ids and once more for every user; here without other threads. */
    method LookupUsersForChatId(chatid: nat) returns (ret: seq<User>)
      ensures ret == UsersFor(users, UserIdsOf(chatuser, chatid))
    {
      var uids := CollectUserIds(chatid);
      ret := [];
      for i := 0 to |uids|
        invariant ret == UsersFor(users, uids)[..i]
      {
        var user := LookupUserById(uids[i]);
        ret := ret + [user];
      }
    }

    method AddUserToChat(chat: Chat, user: User)
      modifies this`chatuser
      ensures Contents() == WithMember(old(Contents()), chat.id, user.id)
      ensures forall row :: row in chatuser <==> row in old(chatuser) || row == Chatuser(chat.id, user.id)
    {
      for i := 0 to |chatuser|
        invariant chatuser == old(chatuser)
        invariant forall j :: 0 <= j < i ==> chatuser[j] != Chatuser(chat.id, user.id)
      {
        if chatuser[i].chatid == chat.id && chatuser[i].uid == user.id {
          assert chatuser[i] == Chatuser(chat.id, user.id);
          return;
        }
      }
      chatuser := chatuser + [Chatuser(chat.id, user.id)];
    }

    method SaveMessage(msg: Message)
      modifies this`messages
      ensures Contents() == WithMessage(old(Contents()), msg)
    {
      messages := messages + [msg];
    }

    /** From recent messages to oldest; what is returned is what the log held before it was marked. */
    method GetMessages(chatid: nat, ts: nat, maxCount: nat) returns (ret: seq<Message>)
      modifies this`messages
      ensures var at := Newest(InChat(chatid, ts), old(messages), maxCount);
              && ret == Pick(old(messages), at)
              && messages == Marked(old(messages), at)
    {
      hide Hits, Marked, Newest, Pick;
      NothingYet(InChat(chatid, ts), messages, maxCount);
      ghost var log, p := messages, InChat(chatid, ts);
      ret := [];
      if messages == [] {
        return;
      }
      ghost var at: seq<nat> := [];
      var i := |messages| - 1;
      assert log[..i + 1] == log;
      while true
        invariant 0 <= i < |log| && |messages| == |log|
        invariant forall k :: 0 <= k < |at| ==> i < at[k] < |log|
        invariant at + Hits(p, log[..i + 1]) == Hits(p, log)
        invariant ret == Pick(log, at) && |ret| == |at|
        invariant messages == Marked(log, at)
        invariant maxCount == 0 || |at| < maxCount
        decreases i
      {
        HitsStep(p, log, i);
        MarkOne(log, at, i);
        if messages[i].chatTo == chatid {
          if messages[i].ts > ts {
            PickOne(log, at, i);
            at := at + [i];
            ret := ret + [messages[i]];
            messages := messages[i := messages[i].(flags := Read)];
            assert messages == Marked(log, at);
          }
        }
        assert at + Hits(p, log[..i]) == Hits(p, log);
        if maxCount > 0 && |ret| >= maxCount {
          break;
        }
        if i == 0 {
          break;
        }
        i := i - 1;
      }
      FullOrAll(p, log, at, i, maxCount);
    }

    method SelectMessages(pred: Message -> bool, maxCount: nat) returns (ret: seq<Message>)
      ensures ret == Pick(messages, Newest(pred, messages, maxCount))
    {
      hide Hits, Newest, Pick;
      NothingYet(pred, messages, maxCount);
      ghost var log := messages;
      ret := [];
      if messages == [] {
        return;
      }
      ghost var at: seq<nat> := [];
      var i := |messages| - 1;
      assert log[..i + 1] == log;
      while true
        invariant 0 <= i < |log|
        invariant forall k :: 0 <= k < |at| ==> i < at[k] < |log|
        invariant at + Hits(pred, log[..i + 1]) == Hits(pred, log)
        invariant ret == Pick(log, at) && |ret| == |at|
        invariant maxCount == 0 || |at| < maxCount
        decreases i
      {
        HitsStep(pred, log, i);
        if pred(messages[i]) {
          PickOne(log, at, i);
          at := at + [i];
          ret := ret + [messages[i]];
        }
        assert at + Hits(pred, log[..i]) == Hits(pred, log);
        if maxCount > 0 && |ret| >= maxCount {
          break;
        }
        if i == 0 {
          break;
        }
        i := i - 1;
      }
      FullOrAll(pred, log, at, i, maxCount);
    }
  }

  /** When the backward loop stops, what it has is the limited list. */
  lemma FullOrAll(p: Message -> bool, log: seq<Message>, at: seq<nat>, i: nat, max: nat)
    requires i <= |log| && at + Hits(p, log[..i]) == Hits(p, log)
    requires max > 0 ==> |at| <= max
    requires (max > 0 && |at| == max) || i == 0
    ensures at == Newest(p, log, max)
  {
    assert i == 0 ==> Hits(p, log[..i]) == [];
    hide Hits;
    assert at <= Hits(p, log);
  }

  lemma NothingYet(p: Message -> bool, log: seq<Message>, max: nat)
    ensures Pick(log, []) == [] && Marked(log, []) == log
    ensures log == [] ==> Newest(p, log, max) == []
  {
  }

  lemma PickOne(log: seq<Message>, at: seq<nat>, i: nat)
    requires i < |log| && forall k :: 0 <= k < |at| ==> at[k] < |log|
    ensures Pick(log, at + [i]) == Pick(log, at) + [log[i]]
    ensures |Pick(log, at)| == |at|
  {
  }

  lemma MarkOne(log: seq<Message>, at: seq<nat>, i: nat)
    requires i < |log| && i !in at
    ensures Marked(log, at)[i] == log[i]
    ensures Marked(log, at + [i]) == Marked(log, at)[i := log[i].(flags := Read)]
  {
  }
}
