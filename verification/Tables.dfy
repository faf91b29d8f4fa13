// The four tables of server/src/database.hpp and what each operation of the in-memory database means.
module Tables {
  import opened Wrappers

  datatype Chat = Chat(id: nat, name: string)

  datatype User = User(id: nat, selfChatId: nat, heartbit: nat, name: string, password: string, stpath: string)

  datatype Chatuser = Chatuser(chatid: nat, uid: nat)

  datatype Flags = Unread | Read | Answered

  datatype Message = Message(flags: Flags, userFrom: nat, chatTo: nat, ts: nat, text: string)

  datatype Storage = Storage(
    userAutoincrement: nat,
    chatAutoincrement: nat,
    chats: seq<Chat>,
    users: seq<User>,
    chatuser: seq<Chatuser>,
    messages: seq<Message>)

  const EMPTY := Storage(1, 1, [], [], [], [])

  /** The default objects that stand for "not found". */
  const NO_USER := User(0, 0, 0, "", "", "")
  const NO_CHAT := Chat(0, "")

  // ------------------------------------------------------------------ lookups

  function UserById(users: seq<User>, id: nat): (u: User)
    ensures u == NO_USER || (u in users && u.id == id)
    ensures u.id != id ==> forall v :: v in users ==> v.id != id
  {
    if users == [] then NO_USER
    else if users[0].id == id then users[0]
    else UserById(users[1..], id)
  }

  function ChatById(chats: seq<Chat>, id: nat): (c: Chat)
    ensures c == NO_CHAT || (c in chats && c.id == id)
    ensures c.id != id ==> forall d :: d in chats ==> d.id != id
  {
    if chats == [] then NO_CHAT
    else if chats[0].id == id then chats[0]
    else ChatById(chats[1..], id)
  }

  function UsersByName(users: seq<User>, name: string): seq<User> {
    if users == [] then []
    else UsersByName(users[..|users| - 1], name) + if users[|users| - 1].name == name then [users[|users| - 1]] else []
  }

  function ChatsByName(chats: seq<Chat>, name: string): seq<Chat> {
    if chats == [] then []
    else ChatsByName(chats[..|chats| - 1], name) + if chats[|chats| - 1].name == name then [chats[|chats| - 1]] else []
  }

  /** The first locked half of lookupChatsForUserId. */
  function ChatIdsOf(rows: seq<Chatuser>, uid: nat): (ids: seq<nat>)
    ensures forall id :: id in ids <==> Chatuser(id, uid) in rows
  {
    if rows == [] then []
    else
      var last := rows[|rows| - 1];
      assert rows == rows[..|rows| - 1] + [last];
      ChatIdsOf(rows[..|rows| - 1], uid) + if last.uid == uid then [last.chatid] else []
  }

  /** The first locked half of lookupUsersForChatId. */
  function UserIdsOf(rows: seq<Chatuser>, chatid: nat): (ids: seq<nat>)
    ensures forall id :: id in ids <==> Chatuser(chatid, id) in rows
  {
    if rows == [] then []
    else
      var last := rows[|rows| - 1];
      assert rows == rows[..|rows| - 1] + [last];
      UserIdsOf(rows[..|rows| - 1], chatid) + if last.chatid == chatid then [last.uid] else []
  }

  function ChatsFor(chats: seq<Chat>, ids: seq<nat>): seq<Chat> {
    seq(|ids|, i requires 0 <= i < |ids| => ChatById(chats, ids[i]))
  }

  function UsersFor(users: seq<User>, ids: seq<nat>): seq<User> {
    seq(|ids|, i requires 0 <= i < |ids| => UserById(users, ids[i]))
  }

  // ------------------------------------------------------------------ updates

  function FirstRow(users: seq<User>, id: nat, from: nat): (i: nat)
    requires from <= |users|
    ensures from <= i <= |users| && (i < |users| ==> users[i].id == id)
    ensures forall j :: from <= j < i ==> users[j].id != id
    decreases |users| - from
  {
    if from < |users| && users[from].id != id then FirstRow(users, id, from + 1) else from
  }

  function Touched(users: seq<User>, id: nat, ts: nat): (r: seq<User>)
    ensures |r| == |users|
  {
    var i := FirstRow(users, id, 0);
    if i < |users| then users[i := users[i].(heartbit := ts)] else users
  }

  function WithHeartBit(s: Storage, id: nat, ts: nat): Storage {
    s.(users := Touched(s.users, id, ts))
  }

  predicate UserNameTaken(users: seq<User>, name: string) {
    exists i :: 0 <= i < |users| && users[i].name == name
  }

  predicate ChatNameTaken(chats: seq<Chat>, name: string) {
    exists i :: 0 <= i < |chats| && chats[i].name == name
  }

  function WithUser(s: Storage, name: string, pass: string, stpath: string): (Storage, User) {
    if UserNameTaken(s.users, name) then (s, NO_USER)
    else
      var user := User(s.userAutoincrement, s.chatAutoincrement, 0, name, pass, stpath);
      (Storage(
         s.userAutoincrement + 1,
         s.chatAutoincrement + 1,
         s.chats + [Chat(s.chatAutoincrement, name)],
         s.users + [user],
         s.chatuser + [Chatuser(s.chatAutoincrement, s.userAutoincrement)],
         s.messages),
       user)
  }

  function WithChat(s: Storage, name: string, uid: nat): (Storage, Chat) {
    if ChatNameTaken(s.chats, name) then (s, NO_CHAT)
    else
      var chat := Chat(s.chatAutoincrement, name);
      (s.(chatAutoincrement := s.chatAutoincrement + 1,
          chats := s.chats + [chat],
          chatuser := if uid > 0 then s.chatuser + [Chatuser(chat.id, uid)] else s.chatuser),
       chat)
  }

  function WithMember(s: Storage, chatid: nat, uid: nat): Storage {
    if Chatuser(chatid, uid) in s.chatuser then s else s.(chatuser := s.chatuser + [Chatuser(chatid, uid)])
  }

  function WithMessage(s: Storage, m: Message): Storage {
    s.(messages := s.messages + [m])
  }

  // ------------------------------------------------------- newest messages

  /** The positions in the log of the messages p accepts, newest first. */
  function Hits(p: Message -> bool, log: seq<Message>): seq<nat> {
    if log == [] then []
    else (if p(log[|log| - 1]) then [|log| - 1] else []) + Hits(p, log[..|log| - 1])
  }

  lemma {:induction false} HitsAre(p: Message -> bool, log: seq<Message>)
    ensures var r := Hits(p, log);
            && (forall k :: k in r <==> 0 <= k < |log| && p(log[k]))
            && (forall i :: 0 <= i < |r| ==> r[i] < |log|)
            && (forall i, j :: 0 <= i < j < |r| ==> r[i] > r[j])
  {
    if log != [] {
      HitsAre(p, log[..|log| - 1]);
    }
  }

  /** A limit of zero is no limit. */
  function Limited<T>(s: seq<T>, max: nat): (r: seq<T>)
    ensures r <= s && |r| == if max == 0 then |s| else Min(|s|, max)
  {
    if max == 0 || |s| <= max then s else s[..max]
  }

  function Pick(log: seq<Message>, at: seq<nat>): seq<Message>
    requires forall i :: 0 <= i < |at| ==> at[i] < |log|
  {
    seq(|at|, i requires 0 <= i < |at| => log[at[i]])
  }

  function Marked(log: seq<Message>, at: seq<nat>): (r: seq<Message>) {
    seq(|log|, k requires 0 <= k < |log| => if k in at then log[k].(flags := Read) else log[k])
  }

  function Newest(p: Message -> bool, log: seq<Message>, max: nat): (r: seq<nat>)
    ensures forall i :: 0 <= i < |r| ==> r[i] < |log| && p(log[r[i]])
    ensures forall i, j :: 0 <= i < j < |r| ==> r[i] > r[j]
  {
    HitsAre(p, log);
    var all := Hits(p, log);
    assert forall i :: 0 <= i < |all| ==> all[i] in all;
    Limited(all, max)
  }

  /** The messages of one chat above a time stamp. */
  function InChat(chatid: nat, ts: nat): Message -> bool {
    (m: Message) => m.chatTo == chatid && m.ts > ts
  }

  lemma {:induction false} HitsAppend(p: Message -> bool, a: seq<Message>, b: seq<Message>)
    ensures |Hits(p, a + b)| == |Hits(p, a)| + |Hits(p, b)|
    ensures Hits(p, a + b)[|Hits(p, b)|..] == Hits(p, a)
  {
    if b == [] {
      assert a + b == a;
    } else {
      var n := |b| - 1;
      assert (a + b)[..|a + b| - 1] == a + b[..n];
      HitsAppend(p, a, b[..n]);
    }
  }

  lemma HitsStep(p: Message -> bool, log: seq<Message>, i: nat)
    requires i < |log|
    ensures Hits(p, log[..i + 1]) == (if p(log[i]) then [i] else []) + Hits(p, log[..i])
  {
    assert log[..i + 1][..i] == log[..i];
  }

  /** A position is selected exactly when p accepts it and fewer than max later ones are accepted. */
  lemma NewestExactly(p: Message -> bool, log: seq<Message>, max: nat, k: nat)
    requires k < |log|
    ensures k in Newest(p, log, max)
       <==> p(log[k]) && (max == 0 || |Hits(p, log[k + 1..])| < max)
  {
    if p(log[k]) {
      var all, later := Hits(p, log), |Hits(p, log[k + 1..])|;
      HitsAre(p, log);
      HitAt(p, log, k);
      var got := Newest(p, log, max);
      if later < |got| {
        assert got[later] == k;
      }
    }
  }

  lemma HitAt(p: Message -> bool, log: seq<Message>, k: nat)
    requires k < |log| && p(log[k])
    ensures var later := |Hits(p, log[k + 1..])|; later < |Hits(p, log)| && Hits(p, log)[later] == k
  {
    var head, tail := log[..k + 1], log[k + 1..];
    assert log == head + tail;
    assert head[..k] == log[..k] && head[k] == log[k];
    assert Hits(p, head)[0] == k;
    hide Hits;
    HitsAppend(p, head, tail);
  }

  /** The same list, said as the database documents it: the log backwards, then what p accepts of it. */
  function Backwards<T>(s: seq<T>): seq<T> {
    seq(|s|, i requires 0 <= i < |s| => s[|s| - 1 - i])
  }

  function Accepted(p: Message -> bool, s: seq<Message>): seq<Message> {
    if s == [] then [] else (if p(s[0]) then [s[0]] else []) + Accepted(p, s[1..])
  }

  lemma BackwardsStep<T>(s: seq<T>)
    requires s != []
    ensures var b := Backwards(s); b != [] && b[0] == s[|s| - 1] && b[1..] == Backwards(s[..|s| - 1])
  {
  }

  lemma PickStep(log: seq<Message>, older: seq<nat>)
    requires log != [] && forall i :: 0 <= i < |older| ==> older[i] < |log| - 1
    ensures Pick(log, older) == Pick(log[..|log| - 1], older)
    ensures Pick(log, [|log| - 1] + older) == [log[|log| - 1]] + Pick(log, older)
  {
  }

  lemma {:induction false} HitsReadBackwards(p: Message -> bool, log: seq<Message>)
    ensures forall i :: 0 <= i < |Hits(p, log)| ==> Hits(p, log)[i] < |log|
    ensures Pick(log, Hits(p, log)) == Accepted(p, Backwards(log))
  {
    HitsAre(p, log);
    if log != [] {
      var n := |log| - 1;
      BackwardsStep(log);
      hide Pick, Backwards;
      HitsReadBackwards(p, log[..n]);
      HitsAre(p, log[..n]);
      PickStep(log, Hits(p, log[..n]));
    }
  }
}
