// One worker thread of server/src/database_worker.cpp: every locked section of the database is one step.
// Between two steps of a worker any other worker may take any number of its own.
module Worker {
  import opened Wrappers
  import opened Tables
  import opened Integrity

  datatype Command =
    | MessageSend | MessageSendChat | UserCreate | UserLogin | UserHistory | UserStatus
    | ChatCreate | ChatHistory | ChatStatus | ChatAdduser | MessageRecent | Idle

  datatype Task = Task(
    client: nat, cmd: Command, ping: bool,
    uid: nat, ts: nat, count: nat,
    message: string, toUser: string, user: string, password: string, chatName: string, adduser: string,
    storage: string)

  /** apiclient_utils::Message: names in place of ids. */
  datatype ApiMessage = ApiMessage(ts: nat, from: string, to: string, text: string)

  /** Where the messages of an answer come from: a poll, with their positions in the log, or the two selections
      of a history query, with the log that each of them saw. */
  datatype Origin = ByPoll(at: seq<nat>) | ByQuery(user: User, other: User, logTo: seq<Message>, logFrom: seq<Message>)

  /** What a worker asks the client object to send; `source` records the rows the messages were made from, `at` their
      positions in the log. */
  datatype Reply =
    | OkUser(user: User)
    | OkChat(chat: Chat)
    | OkStatus
    | OkMessages(msgs: seq<ApiMessage>, source: seq<Message>, origin: Origin)
    | IdleMessages(msgs: seq<ApiMessage>, source: seq<Message>, at: seq<nat>)
    | Error(code: int)

  /** Foreign code: the password digest, and std::sort by descending time stamp. */
  datatype Host = Host(digest: string -> string, sort: seq<Message> -> seq<Message>)

  /** Where a worker stands between two locked sections, with what it carries. */
  datatype Pc =
    | Start
    | Authed(user: User)
    | Touched(user: User)
    | Resolving(first: Storage, ids: seq<nat>, got: seq<Chat>)
    | Scanning(chats: seq<Chat>, batch: seq<Message>, at: seq<nat>)
    | Formatting(msgs: seq<Message>, made: seq<ApiMessage>, chat: Option<Chat>, origin: Origin)
    | SelectTo(user: User, other: User)
    | SelectFrom(user: User, other: User, logTo: seq<Message>, to: seq<Message>)
    | FindChat(added: User)
    | AddRow(target: Chat, added: User)
    | Save(msg: Message)
    | Send(reply: Reply)
    | Done

  const IDLE_LIMIT := 3

  /** uint64_t count * 2 stored in a uint32_t. */
  function HistoryLimit(count: nat): nat {
    count * 2 % 0x1_0000_0000
  }

  /** The filters of USER_HISTORY: from one user to another's own chat. */
  function FromTo(sender: User, target: User): Message -> bool {
    (m: Message) => m.userFrom == sender.id && m.chatTo == target.selfChatId
  }

  function Mix(sort: seq<Message> -> seq<Message>, from: seq<Message>, to: seq<Message>, max: nat): seq<Message> {
    var tmp := sort(from + to);
    if |tmp| <= max then tmp else tmp[..max]
  }

  /** lookup_check_pass_by_name, with or without the password. */
  function ByName(h: Host, s: Storage, name: string, password: Option<string>): (User, Option<Reply>) {
    var users := UsersByName(s.users, name);
    if users == [] then (NO_USER, Some(Error(404)))
    else if |users| != 1 then (NO_USER, Some(Error(500)))
    else if password.Some? && h.digest(password.value) != users[0].password then (NO_USER, Some(Error(403)))
    else (users[0], None)
  }

  function AnswerOf(t: Task, made: seq<ApiMessage>, msgs: seq<Message>, origin: Origin): Reply {
    if t.cmd.Idle? then IdleMessages(made, msgs, if origin.ByPoll? then origin.at else [])
    else OkMessages(made, msgs, origin)
  }

  /** The next locked section of a task, or the reply. `now` is the clock when the step is taken. */
  function Step(h: Host, s: Storage, t: Task, pc: Pc, now: nat): (Storage, Pc) {
    match pc
    case Start => Begin(h, s, t)
    case Authed(user) => Proceed(h, s, t, user, now)
    case Touched(user) => (s, Resolving(s, ChatIdsOf(s.chatuser, user.id), []))
    case Resolving(first, ids, got) =>
      if |got| < |ids| then (s, Resolving(first, ids, got + [ChatById(s.chats, ids[|got|])]))
      else (s, Scanning(got, [], []))
    case Scanning(chats, batch, at) =>
      if chats != [] then
        var more := Newest(InChat(chats[0].id, t.ts), s.messages, IDLE_LIMIT);
        (s.(messages := Marked(s.messages, more)),
         Scanning(chats[1..], batch + Pick(s.messages, more), at + more))
      else if batch != [] then (s, Formatting(batch, [], None, ByPoll(at)))
      else if t.ping then (s, Send(IdleMessages([], [], [])))
      else (s, Done)
    case Formatting(msgs, made, chat, origin) =>
      if |made| >= |msgs| then
        (s, Send(AnswerOf(t, made, msgs, origin)))
      else
        var m := msgs[|made|];
        if chat.None? then (s, Formatting(msgs, made, Some(ChatById(s.chats, m.chatTo)), origin))
        else
          var sender := UserById(s.users, m.userFrom);
          (s, Formatting(msgs, made + [ApiMessage(m.ts, sender.name, chat.value.name, m.text)], None, origin))
    case SelectTo(user, other) =>
      var to := Pick(s.messages, Newest(FromTo(user, other), s.messages, HistoryLimit(t.count)));
      (s, SelectFrom(user, other, s.messages, to))
    case SelectFrom(user, other, logTo, to) =>
      var from := Pick(s.messages, Newest(FromTo(other, user), s.messages, HistoryLimit(t.count)));
      (s, Formatting(Mix(h.sort, from, to, t.count), [], None, ByQuery(user, other, logTo, s.messages)))
    case FindChat(added) =>
      var chats := ChatsByName(s.chats, t.chatName);
      if |chats| != 1 then (s, Send(Error(404))) else (s, AddRow(chats[0], added))
    case AddRow(chat, added) => (WithMember(s, chat.id, added.id), Send(OkStatus))
    case Save(msg) => (WithMessage(s, msg), Send(OkStatus))
    case Send(_) => (s, Done)
    case Done => (s, Done)
  }

  /** The first section of a task. Four commands have no branch in the loop and get no reply. */
  function Begin(h: Host, s: Storage, t: Task): (Storage, Pc) {
    match t.cmd
    case UserCreate =>
      var (s', user) := WithUser(s, t.user, h.digest(t.password), t.storage);
      (s', Send(if user.id == 0 then Error(409) else OkUser(user)))
    case UserLogin =>
      var (user, refusal) := ByName(h, s, t.user, Some(t.password));
      (s, Send(if refusal.Some? then refusal.value else OkUser(user)))
    case ChatHistory => (s, Done)
    case ChatStatus => (s, Done)
    case MessageRecent => (s, Done)
    case _ =>
      var user := UserById(s.users, t.uid);
      if user.id == 0 then (s, Send(Error(409)))
      else if h.digest(t.password) != user.password then (s, Send(Error(403)))
      else (s, Authed(user))
  }

  /** The section behind a passed password check. */
  function Proceed(h: Host, s: Storage, t: Task, user: User, now: nat): (Storage, Pc) {
    match t.cmd
    case Idle => (WithHeartBit(s, user.id, now), Touched(user))
    case UserStatus =>
      var (other, refusal) := ByName(h, s, t.user, None);
      (s, Send(if refusal.Some? then refusal.value else OkUser(other)))
    case UserHistory =>
      var (other, refusal) := ByName(h, s, t.user, None);
      (s, if refusal.Some? then Send(refusal.value) else SelectTo(user, other))
    case MessageSend =>
      var users := UsersByName(s.users, t.toUser);
      if users == [] then (s, Send(Error(404)))
      else if |users| != 1 then (s, Send(Error(500)))
      else (s, Save(Message(Unread, user.id, users[0].selfChatId, now, t.message)))
    case ChatCreate =>
      var (s', chat) := WithChat(s, t.chatName, t.uid);
      (s', Send(if chat.id == 0 then Error(409) else OkChat(chat)))
    case ChatAdduser =>
      var (added, refusal) := ByName(h, s, t.adduser, None);
      (s, if refusal.Some? then Send(refusal.value) else FindChat(added))
    case MessageSendChat =>
      var chats := ChatsByName(s.chats, t.chatName);
      if |chats| != 1 then (s, Send(Error(404)))
      else (s, Save(Message(Unread, user.id, chats[0].id, now, t.message)))
    case _ => (s, Done)
  }

  // ----------------------------------------- what a worker carries is real

  predicate RealUser(s: Storage, u: User) {
    HasUser(s, u.id) && SameUser(u, s.users[u.id - 1])
  }

  predicate RealChat(s: Storage, c: Chat) {
    HasChat(s, c.id) && s.chats[c.id - 1] == c
  }

  predicate Refers(s: Storage, m: Message) {
    HasUser(s, m.userFrom) && HasChat(s, m.chatTo)
  }

  predicate AllRefer(s: Storage, ms: seq<Message>) {
    forall i :: 0 <= i < |ms| ==> Refers(s, ms[i])
  }

  /** The message as it must read to a client: the names of its real sender and its real target. */
  function InWords(s: Storage, m: Message): ApiMessage
    requires Refers(s, m)
  {
    ApiMessage(m.ts, s.users[m.userFrom - 1].name, s.chats[m.chatTo - 1].name, m.text)
  }

  predicate Worded(s: Storage, msgs: seq<Message>, made: seq<ApiMessage>) {
    && AllRefer(s, msgs)
    && |made| <= |msgs|
    && forall i :: 0 <= i < |made| ==> made[i] == InWords(s, msgs[i])
  }

  predicate AllAbove(ms: seq<Message>, ts: nat) {
    forall i :: 0 <= i < |ms| ==> ms[i].ts > ts
  }

  /** The worker's half of the linearization: what it has read so far is what one atomic read would have given. */
  ghost predicate ReadAtOnce(s: Storage, first: Storage, ids: seq<nat>, got: seq<Chat>) {
    && Intact(first) && Extends(first, s)
    && (forall i :: 0 <= i < |ids| ==> HasChat(first, ids[i]))
    && |got| <= |ids| && got == ChatsFor(first.chats, ids)[..|got|]
  }

  ghost predicate Carries(s: Storage, t: Task, pc: Pc) {
    match pc
    case Authed(user) => RealUser(s, user) && user.id == t.uid
    case Touched(user) => RealUser(s, user) && user.id == t.uid && t.cmd.Idle?
    case Resolving(first, ids, got) =>
      ReadAtOnce(s, first, ids, got) && ids == ChatIdsOf(first.chatuser, t.uid) && t.cmd.Idle?
    case Scanning(chats, batch, _) =>
      && (forall i :: 0 <= i < |chats| ==> RealChat(s, chats[i]))
      && AllRefer(s, batch) && AllAbove(batch, t.ts) && t.cmd.Idle?
    case Formatting(msgs, made, chat, _) =>
      && Worded(s, msgs, made) && (t.cmd.Idle? ==> msgs != [] && AllAbove(msgs, t.ts))
      && (chat.Some? ==> |made| < |msgs| && RealChat(s, chat.value) && chat.value.id == msgs[|made|].chatTo)
      && (t.cmd.Idle? || t.cmd.UserHistory?)
    case SelectTo(user, other) => RealUser(s, user) && RealUser(s, other) && t.cmd.UserHistory?
    case SelectFrom(user, other, _, to) =>
      RealUser(s, user) && RealUser(s, other) && AllRefer(s, to) && t.cmd.UserHistory?
    case FindChat(added) => RealUser(s, added)
    case AddRow(chat, added) => RealChat(s, chat) && RealUser(s, added)
    case Save(msg) => Refers(s, msg)
    case Send(OkUser(user)) => RealUser(s, user)
    case Send(OkChat(chat)) => RealChat(s, chat)
    case Send(OkMessages(msgs, source, _)) => Worded(s, source, msgs) && |msgs| == |source| && t.cmd.UserHistory?
    case Send(IdleMessages(msgs, source, _)) =>
      && Worded(s, source, msgs) && |msgs| == |source| && AllAbove(source, t.ts)
      && t.cmd.Idle? && (source == [] ==> t.ping)
    case _ => true
  }

  /** std::sort returns the elements it was given. */
  ghost predicate Permutes(h: Host) {
    forall ms :: multiset(h.sort(ms)) == multiset(ms)
  }

  lemma RealUserStays(s: Storage, t: Storage, u: User)
    requires Extends(s, t) && RealUser(s, u)
    ensures RealUser(t, u)
  {
    assert SameUser(s.users[u.id - 1], t.users[u.id - 1]);
  }

  lemma WordedStays(s: Storage, t: Storage, msgs: seq<Message>, made: seq<ApiMessage>)
    requires Extends(s, t) && Worded(s, msgs, made)
    ensures Worded(t, msgs, made)
  {
    forall i | 0 <= i < |made|
      ensures Refers(t, msgs[i]) && made[i] == InWords(t, msgs[i])
    {
      assert Refers(s, msgs[i]);
      assert SameUser(s.users[msgs[i].userFrom - 1], t.users[msgs[i].userFrom - 1]);
    }
    forall i | 0 <= i < |msgs|
      ensures Refers(t, msgs[i])
    {
      assert Refers(s, msgs[i]);
    }
  }

  /** Nothing another worker does can take the ground from under a worker between its steps. */
  lemma CarriesStays(s: Storage, s': Storage, t: Task, pc: Pc)
    requires Carries(s, t, pc) && Extends(s, s')
    ensures Carries(s', t, pc)
  {
    hide Intact, Worded, Extends;
    match pc
    case Authed(user) => RealUserStays(s, s', user);
    case Touched(user) => RealUserStays(s, s', user);
    case Resolving(first, ids, got) => ExtendsTransitive(first, s, s');
    case Scanning(chats, batch, _) =>
      RealChatsStay(s, s', chats);
      RefersStay(s, s', batch);
    case Formatting(msgs, made, chat, _) =>
      WordedStays(s, s', msgs, made);
      if chat.Some? { RealChatsStay(s, s', [chat.value]); assert [chat.value][0] == chat.value; }
    case SelectTo(user, other) =>
      RealUserStays(s, s', user);
      RealUserStays(s, s', other);
    case SelectFrom(user, other, _, to) =>
      RealUserStays(s, s', user);
      RealUserStays(s, s', other);
      RefersStay(s, s', to);
    case FindChat(added) => RealUserStays(s, s', added);
    case AddRow(chat, added) =>
      RealUserStays(s, s', added);
      RealChatsStay(s, s', [chat]);
      assert [chat][0] == chat;
    case Save(msg) =>
      RefersStay(s, s', [msg]);
      assert [msg][0] == msg;
    case Send(OkUser(user)) => RealUserStays(s, s', user);
    case Send(OkChat(chat)) =>
      RealChatsStay(s, s', [chat]);
      assert [chat][0] == chat;
    case Send(OkMessages(msgs, source, _)) => WordedStays(s, s', source, msgs);
    case Send(IdleMessages(msgs, source, _)) => WordedStays(s, s', source, msgs);
    case _ =>
  }

  lemma RealChatsStay(s: Storage, t: Storage, chats: seq<Chat>)
    requires Extends(s, t) && forall i :: 0 <= i < |chats| ==> RealChat(s, chats[i])
    ensures forall i :: 0 <= i < |chats| ==> RealChat(t, chats[i])
  {
    forall i | 0 <= i < |chats| ensures RealChat(t, chats[i]) {
      assert s.chats[chats[i].id - 1] == t.chats[chats[i].id - 1];
    }
  }

  lemma RefersStay(s: Storage, t: Storage, ms: seq<Message>)
    requires Extends(s, t) && AllRefer(s, ms)
    ensures AllRefer(t, ms)
  {
    forall i | 0 <= i < |ms| ensures Refers(t, ms[i]) {
      assert Refers(s, ms[i]);
    }
  }

  // ------------------------------------------------ what one step keeps

  lemma ExtendsReflexive(s: Storage)
    ensures Extends(s, s)
  {
  }

  lemma ByNameReal(h: Host, s: Storage, name: string, password: Option<string>)
    requires Intact(s)
    ensures var (user, refusal) := ByName(h, s, name, password);
            && (refusal.None? ==> RealUser(s, user) && user.name == name)
            && (refusal.Some? ==> refusal == Some(Error(404)) || refusal == Some(Error(403)))
  {
    hide UsersByName;
    AtMostOneUser(s.users, name);
    ByNameAre(s.users, name);
    var users := UsersByName(s.users, name);
    if users != [] {
      assert users[0] in users && users[0] in s.users;
    }
  }

  lemma ByIdReal(s: Storage, uid: nat)
    requires Intact(s)
    ensures var u := UserById(s.users, uid); u.id != 0 ==> RealUser(s, u) && u.id == uid
  {
    UserFound(s, uid);
  }

  lemma ChatsReal(s: Storage, name: string)
    requires Intact(s)
    ensures var chats := ChatsByName(s.chats, name); |chats| == 1 ==> RealChat(s, chats[0])
  {
    ChatsByNameAre(s.chats, name);
    var chats := ChatsByName(s.chats, name);
    if |chats| == 1 {
      assert chats[0] in chats;
      var j :| 0 <= j < |s.chats| && s.chats[j] == chats[0];
      assert s.chats[j].id == j + 1;
    }
  }

  lemma PickRefers(s: Storage, p: Message -> bool, max: nat)
    requires Intact(s)
    ensures AllRefer(s, Pick(s.messages, Newest(p, s.messages, max)))
  {
  }

  lemma PickAbove(s: Storage, chatid: nat, ts: nat, max: nat)
    ensures AllAbove(Pick(s.messages, Newest(InChat(chatid, ts), s.messages, max)), ts)
  {
  }

  lemma MixRefers(s: Storage, sort: seq<Message> -> seq<Message>, from: seq<Message>, to: seq<Message>, max: nat)
    requires AllRefer(s, from) && AllRefer(s, to)
    requires multiset(sort(from + to)) == multiset(from + to)
    ensures AllRefer(s, Mix(sort, from, to, max)) && Worded(s, Mix(sort, from, to, max), [])
  {
    var tmp := sort(from + to);
    forall i | 0 <= i < |tmp| ensures Refers(s, tmp[i]) {
      assert tmp[i] in multiset(tmp);
      assert tmp[i] in from + to;
    }
  }

  lemma BeginKeeps(h: Host, s: Storage, t: Task)
    requires Intact(s)
    ensures var (s', pc) := Begin(h, s, t); Intact(s') && Extends(s, s') && Carries(s', t, pc)
  {
    hide Intact, WithUser, ByName, UserById, RealUser;
    match t.cmd
    case UserCreate =>
      hide Extends;
      UserKeeps(s, t.user, h.digest(t.password), t.storage);
      CreatedReal(s, t.user, h.digest(t.password), t.storage);
    case UserLogin =>
      ByNameReal(h, s, t.user, Some(t.password));
      ExtendsReflexive(s);
      hide Extends;
      var (user, refusal) := ByName(h, s, t.user, Some(t.password));
      assert refusal.None? ==> RealUser(s, user);
    case _ => ByIdReal(s, t.uid);
  }

  lemma CreatedReal(s: Storage, name: string, pass: string, stpath: string)
    requires Intact(s)
    ensures var (s', u) := WithUser(s, name, pass, stpath); u.id != 0 ==> RealUser(s', u) && u.name == name
  {
  }

  lemma ChatCreatedReal(s: Storage, name: string, uid: nat)
    requires Intact(s)
    ensures var (s', c) := WithChat(s, name, uid); c.id != 0 ==> RealChat(s', c) && c.name == name
  {
  }

  lemma AddresseeReal(s: Storage, user: User, name: string)
    requires Intact(s) && RealUser(s, user)
    ensures var users := UsersByName(s.users, name);
            |users| == 1 ==> HasUser(s, user.id) && HasChat(s, users[0].selfChatId)
  {
    ByNameAre(s.users, name);
    var users := UsersByName(s.users, name);
    if |users| == 1 {
      assert users[0] in users;
    }
  }

  lemma ProceedKeeps(h: Host, s: Storage, t: Task, user: User, now: nat)
    requires Intact(s) && RealUser(s, user) && user.id == t.uid
    ensures var (s', pc) := Proceed(h, s, t, user, now); Intact(s') && Extends(s, s') && Carries(s', t, pc)
  {
    hide Intact, WithHeartBit, ByName, WithChat;
    match t.cmd
    case Idle =>
      hide Extends;
      HeartBitKeeps(s, user.id, now);
      RealUserStays(s, WithHeartBit(s, user.id, now), user);
    case UserStatus =>
      ByNameReal(h, s, t.user, None);
      ExtendsReflexive(s);
      hide Extends, RealUser;
      var (other, refusal) := ByName(h, s, t.user, None);
      assert refusal.None? ==> RealUser(s, other);
    case UserHistory =>
      ByNameReal(h, s, t.user, None);
      ExtendsReflexive(s);
      hide Extends, RealUser;
      var (other, refusal) := ByName(h, s, t.user, None);
      assert refusal.None? ==> RealUser(s, other);
    case MessageSend => AddresseeReal(s, user, t.toUser);
    case ChatCreate =>
      hide Extends;
      ChatKeeps(s, t.chatName, t.uid);
      ChatCreatedReal(s, t.chatName, t.uid);
    case ChatAdduser =>
      ByNameReal(h, s, t.adduser, None);
      ExtendsReflexive(s);
      hide Extends, RealUser;
      var (added, refusal) := ByName(h, s, t.adduser, None);
      assert refusal.None? ==> RealUser(s, added);
    case MessageSendChat => ChatsReal(s, t.chatName);
    case _ =>
  }

  /** to_api_format: two lookups per message, each under its own lock. */
  lemma FormattingKeeps(h: Host, s: Storage, t: Task, pc: Pc, now: nat)
    requires Intact(s) && pc.Formatting? && Carries(s, t, pc)
    ensures var (s', pc') := Step(h, s, t, pc, now); s' == s && Carries(s, t, pc')
  {
    hide Begin, Proceed, Newest, Marked, Pick, ChatById, UserById;
    hide UserNamesUnique, SelfChats, RowsRefer, MessagesRefer, ChatNamesPaired;
    if |pc.made| < |pc.msgs| {
      var m := pc.msgs[|pc.made|];
      assert Refers(s, m);
      ChatFound(s, m.chatTo);
      UserFound(s, m.userFrom);
    }
  }

  /** lookupChatsForUserId: the ids under one lock, each chat under another. */
  lemma ResolvingKeeps(h: Host, s: Storage, t: Task, pc: Pc, now: nat)
    requires Intact(s) && pc.Resolving? && Carries(s, t, pc)
    ensures var (s', pc') := Step(h, s, t, pc, now);
            s' == s && Carries(s, t, pc')
            && (pc'.Scanning? ==> pc'.chats == ChatsFor(pc.first.chats, pc.ids))
  {
    hide Begin, Proceed, Newest, Marked, Pick, ChatIdsOf, ChatById;
    hide UserNamesUnique, SelfChats, RowsRefer, MessagesRefer, ChatNamesPaired;
    var i := |pc.got|;
    if i < |pc.ids| {
      ChatFound(pc.first, pc.ids[i]);
      ChatFound(s, pc.ids[i]);
    } else {
      forall k | 0 <= k < |pc.got| ensures RealChat(s, pc.got[k]) {
        ChatFound(pc.first, pc.ids[k]);
      }
    }
  }

  lemma TouchedKeeps(h: Host, s: Storage, t: Task, pc: Pc, now: nat)
    requires Intact(s) && pc.Touched? && Carries(s, t, pc)
    ensures var (s', pc') := Step(h, s, t, pc, now); s' == s && Carries(s, t, pc')
  {
    var ids := ChatIdsOf(s.chatuser, pc.user.id);
    forall i | 0 <= i < |ids| ensures HasChat(s, ids[i]) {
      assert ids[i] in ids;
      assert Chatuser(ids[i], pc.user.id) in s.chatuser;
    }
  }

  lemma JoinRefers(s: Storage, a: seq<Message>, b: seq<Message>, ts: nat)
    requires AllRefer(s, a) && AllRefer(s, b) && AllAbove(a, ts) && AllAbove(b, ts)
    ensures AllRefer(s, a + b) && AllAbove(a + b, ts)
  {
  }

  lemma ScanningKeeps(h: Host, s: Storage, t: Task, pc: Pc, now: nat)
    requires Intact(s) && pc.Scanning? && Carries(s, t, pc)
    ensures var (s', pc') := Step(h, s, t, pc, now); Intact(s') && Extends(s, s') && Carries(s', t, pc')
  {
    hide Intact, Newest, Marked, Pick, InChat, AllRefer, AllAbove, RealChat, ChatIdsOf, Begin, Proceed;
    if pc.chats != [] {
      hide Extends;
      var at := Newest(InChat(pc.chats[0].id, t.ts), s.messages, IDLE_LIMIT);
      var s' := s.(messages := Marked(s.messages, at));
      MarkKeeps(s, at);
      PickRefers(s, InChat(pc.chats[0].id, t.ts), IDLE_LIMIT);
      PickAbove(s, pc.chats[0].id, t.ts, IDLE_LIMIT);
      RefersStay(s, s', pc.batch);
      RefersStay(s, s', Pick(s.messages, at));
      JoinRefers(s', pc.batch, Pick(s.messages, at), t.ts);
      RealChatsStay(s, s', pc.chats);
    } else {
      NothingWorded(s, t.ts);
    }
  }

  lemma AddRowKeeps(s: Storage, chat: Chat, added: User)
    requires Intact(s) && RealChat(s, chat) && RealUser(s, added)
    ensures var s' := WithMember(s, chat.id, added.id); Intact(s') && Extends(s, s')
  {
    hide Intact, Extends, WithMember;
    MemberKeeps(s, chat.id, added.id);
  }

  lemma SaveKeeps(s: Storage, msg: Message)
    requires Intact(s) && Refers(s, msg)
    ensures var s' := WithMessage(s, msg); Intact(s') && Extends(s, s')
  {
    hide Intact, Extends, WithMessage;
    MessageKeeps(s, msg);
  }

  lemma NothingWorded(s: Storage, ts: nat)
    ensures AllRefer(s, []) && AllAbove([], ts)
  {
  }

  /** One step of one worker keeps the tables intact, only extends them, and leaves it carrying what is real. */
  lemma StepKeeps(h: Host, s: Storage, t: Task, pc: Pc, now: nat)
    requires Permutes(h) && Intact(s) && Carries(s, t, pc)
    ensures var (s', pc') := Step(h, s, t, pc, now); Intact(s') && Extends(s, s') && Carries(s', t, pc')
  {
    hide Begin, Proceed, Intact, Extends, Newest, Pick, Marked, HistoryLimit, FromTo;
    hide RealUser, RealChat, AllRefer, Worded, ReadAtOnce, WithMember, WithMessage, ChatsByName, Refers;
    ExtendsReflexive(s);
    match pc
    case Start => BeginKeeps(h, s, t);
    case Authed(user) => ProceedKeeps(h, s, t, user, now);
    case Touched(_) => TouchedKeeps(h, s, t, pc, now);
    case Resolving(_, _, _) => ResolvingKeeps(h, s, t, pc, now);
    case Scanning(_, _, _) => ScanningKeeps(h, s, t, pc, now);
    case Formatting(_, _, _, _) => FormattingKeeps(h, s, t, pc, now);
    case SelectTo(user, other) => PickRefers(s, FromTo(user, other), HistoryLimit(t.count));
    case SelectFrom(user, other, _, to) =>
      PickRefers(s, FromTo(other, user), HistoryLimit(t.count));
      var from := Pick(s.messages, Newest(FromTo(other, user), s.messages, HistoryLimit(t.count)));
      MixRefers(s, h.sort, from, to, t.count);
    case FindChat(added) => ChatsReal(s, t.chatName);
    case AddRow(chat, added) => AddRowKeeps(s, chat, added);
    case Save(msg) => SaveKeeps(s, msg);
    case Send(_) =>
    case Done =>
  }

  // -------------------------------------------------------- every task ends

  /** How far a task is from its end: the stage it has reached, and the rounds left in that stage. */
  function Stage(pc: Pc): nat {
    match pc
    case Start => 7
    case Authed(_) => 6
    case Touched(_) => 5
    case Resolving(_, _, _) => 4
    case Scanning(_, _, _) => 3
    case SelectTo(_, _) => 4
    case SelectFrom(_, _, _, _) => 3
    case FindChat(_) => 4
    case AddRow(_, _) => 3
    case Save(_) => 3
    case Formatting(_, _, _, _) => 2
    case Send(_) => 1
    case Done => 0
  }

  function RoundsLeft(pc: Pc): nat {
    match pc
    case Resolving(_, ids, got) => if |got| < |ids| then |ids| - |got| else 0
    case Scanning(chats, _, _) => |chats|
    case Formatting(msgs, made, chat, _) =>
      if |made| < |msgs| then 2 * (|msgs| - |made|) - (if chat.Some? then 1 else 0) else 0
    case _ => 0
  }

  predicate Nearer(pc': Pc, pc: Pc) {
    Stage(pc') < Stage(pc) || (Stage(pc') == Stage(pc) && RoundsLeft(pc') < RoundsLeft(pc))
  }

  /** Every step of a worker brings its task nearer to its end, whatever the tables have become meanwhile. */
  lemma StepNears(h: Host, s: Storage, t: Task, pc: Pc, now: nat)
    requires !pc.Done?
    ensures Nearer(Step(h, s, t, pc, now).1, pc)
  {
    hide Newest, Pick, Marked, Mix, HistoryLimit, ChatsByName, UsersByName, UserById, ChatById, ChatIdsOf;
    hide WithMember, WithMessage, WithUser, WithChat, WithHeartBit;
  }

  // ------------------------------------------------------------- chat names

  /** The step of a worker after which chat names are no longer unique: a user takes the name of a chat. */
  predicate TakesChatName(s: Storage, t: Task, pc: Pc) {
    pc.Start? && t.cmd.UserCreate? && !UserNameTaken(s.users, t.user) && ChatNameTaken(s.chats, t.user)
  }

  /** Every other step keeps them unique, whatever the command, and this one never does. */
  lemma UniqueExactly(h: Host, s: Storage, t: Task, pc: Pc, now: nat)
    requires ChatNamesUnique(s)
    ensures ChatNamesUnique(Step(h, s, t, pc, now).0) <==> !TakesChatName(s, t, pc)
  {
    hide Newest, Pick, Marked, Mix, HistoryLimit, ChatsByName, UsersByName, WithMember, Tables.Touched;
    if pc.Start? && t.cmd.UserCreate? {
      hide WithUser, ChatNamesUnique;
      UserKeepsUniqueExactly(s, t.user, h.digest(t.password), t.storage);
    } else if pc.Authed? && t.cmd.ChatCreate? {
      hide WithChat, ChatNamesUnique;
      ChatKeepsUnique(s, t.chatName, t.uid);
    } else {
      SameChats(h, s, t, pc, now);
    }
  }

  lemma SameChats(h: Host, s: Storage, t: Task, pc: Pc, now: nat)
    requires !(pc.Start? && t.cmd.UserCreate?) && !(pc.Authed? && t.cmd.ChatCreate?)
    ensures Step(h, s, t, pc, now).0.chats == s.chats
  {
    hide Newest, Pick, Marked, Mix, HistoryLimit, ChatsByName, UsersByName, Tables.Touched;
  }

  /** A chat can be addressed by its name exactly when no other chat bears it. */
  lemma AddressedExactly(h: Host, s: Storage, t: Task, user: User, added: User, i: nat, now: nat)
    requires i < |s.chats| && s.chats[i].name == t.chatName
    ensures Step(h, s, t, FindChat(added), now) == (s, AddRow(s.chats[i], added))
       <==> forall j :: 0 <= j < |s.chats| && s.chats[j].name == t.chatName ==> j == i
    ensures t.cmd.MessageSendChat? ==>
              (Step(h, s, t, Authed(user), now)
               == (s, Save(Message(Unread, user.id, s.chats[i].id, now, t.message)))
               <==> forall j :: 0 <= j < |s.chats| && s.chats[j].name == t.chatName ==> j == i)
  {
    FoundAlone(s.chats, t.chatName, i);
    hide ChatsByName;
  }

  /** Once a chat and a user share a name, neither adding to that chat nor sending to it works any more. */
  lemma SharedNameUnreachable(h: Host, s: Storage, t: Task, user: User, added: User, i: nat, j: nat, now: nat)
    requires i < j < |s.chats| && s.chats[i].name == s.chats[j].name == t.chatName
    ensures Step(h, s, t, FindChat(added), now) == (s, Send(Error(404)))
    ensures t.cmd.MessageSendChat? ==> Step(h, s, t, Authed(user), now) == (s, Send(Error(404)))
  {
    ChatsFoundByName(s.chats, t.chatName, i, j);
    hide ChatsByName;
  }
}
