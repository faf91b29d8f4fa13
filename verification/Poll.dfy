// The rounds of the Idle module are what a tick, an undisturbed worker and a completed write make of one
// connection.
module Poll {
  import opened Wrappers
  import opened Tables
  import opened Integrity
  import opened Worker
  import S = Session
  import I = Idle

  /** n steps of one worker that nobody interrupts. */
  function Steps(h: Host, s: Storage, t: Task, pc: Pc, now: nat, n: nat): (Storage, Pc)
    decreases n
  {
    if n == 0 then (s, pc)
    else
      var (s', pc') := Step(h, s, t, pc, now);
      Steps(h, s', t, pc', now, n - 1)
  }

  lemma {:induction false} StepsJoin(h: Host, s: Storage, t: Task, pc: Pc, now: nat, n: nat, m: nat)
    ensures var (s', pc') := Steps(h, s, t, pc, now, n);
            Steps(h, s, t, pc, now, n + m) == Steps(h, s', t, pc', now, m)
    decreases n
  {
    hide Step;
    if n > 0 {
      var (s', pc') := Step(h, s, t, pc, now);
      StepsJoin(h, s', t, pc', now, n - 1, m);
    }
  }

  lemma Chain(h: Host, s: Storage, t: Task, pc: Pc, now: nat, n: nat, s1: Storage, pc1: Pc,
              m: nat, s2: Storage, pc2: Pc)
    requires Steps(h, s, t, pc, now, n) == (s1, pc1) && Steps(h, s1, t, pc1, now, m) == (s2, pc2)
    ensures Steps(h, s, t, pc, now, n + m) == (s2, pc2)
  {
    hide Steps;
    StepsJoin(h, s, t, pc, now, n, m);
  }

  lemma OneStep(h: Host, s: Storage, t: Task, pc: Pc, now: nat)
    ensures Steps(h, s, t, pc, now, 1) == Step(h, s, t, pc, now)
  {
    hide Step;
    var (s', pc') := Step(h, s, t, pc, now);
    assert Steps(h, s', t, pc', now, 0) == (s', pc');
  }

  // ------------------------------------------------------- phase by phase

  /** lookupChatsForUserId without interruption. */
  lemma {:induction false} Resolves(h: Host, s: Storage, t: Task, ids: seq<nat>, got: seq<Chat>, now: nat)
    requires |got| <= |ids| && got == ChatsFor(s.chats, ids)[..|got|]
    ensures Steps(h, s, t, Resolving(s, ids, got), now, |ids| - |got| + 1)
         == (s, Scanning(ChatsFor(s.chats, ids), [], []))
    decreases |ids| - |got|
  {
    var pc := Resolving(s, ids, got);
    if |got| == |ids| {
      assert got == ChatsFor(s.chats, ids);
      OneStep(h, s, t, pc, now);
    } else {
      Resolves(h, s, t, ids, got + [ChatById(s.chats, ids[|got|])], now);
    }
  }

  /** What a scan has gathered: the messages at these positions, apart from their flags. */
  ghost predicate Gathered(log: seq<Message>, at: seq<nat>, batch: seq<Message>) {
    |batch| == |at| && forall i :: 0 <= i < |at| ==> at[i] < |log| && SameMessage(batch[i], log[at[i]])
  }

  lemma GatherMore(log: seq<Message>, log': seq<Message>, at: seq<nat>, batch: seq<Message>, more: seq<nat>)
    requires Gathered(log, at, batch) && I.Grows(log, log') && |log'| == |log|
    requires forall i :: 0 <= i < |more| ==> more[i] < |log'|
    ensures Gathered(log, at + more, batch + Pick(log', more))
  {
  }

  lemma {:induction false} SameHits(p: Message -> bool, a: seq<Message>, b: seq<Message>)
    requires |a| == |b| && forall k :: 0 <= k < |a| ==> p(a[k]) == p(b[k])
    ensures Hits(p, a) == Hits(p, b)
  {
    if a != [] {
      SameHits(p, a[..|a| - 1], b[..|b| - 1]);
    }
  }

  /** Marking messages as read hides none of them from the next chat's selection. */
  lemma SameNewest(chatid: nat, ts: nat, a: seq<Message>, b: seq<Message>, max: nat)
    requires I.Grows(a, b) && |a| == |b|
    ensures Newest(InChat(chatid, ts), a, max) == Newest(InChat(chatid, ts), b, max)
  {
    forall k | 0 <= k < |a| ensures InChat(chatid, ts)(a[k]) == InChat(chatid, ts)(b[k]) {
      assert SameMessage(a[k], b[k]);
    }
    SameHits(InChat(chatid, ts), a, b);
  }

  lemma MarkGrows(log: seq<Message>, log': seq<Message>, at: seq<nat>)
    requires I.Grows(log, log') && |log'| == |log|
    ensures I.Grows(log, Marked(log', at)) && |Marked(log', at)| == |log|
  {
    forall k | 0 <= k < |log| ensures SameMessage(log[k], Marked(log', at)[k]) {
      assert SameMessage(log[k], log'[k]);
    }
  }

  /** The scan over the chats. */
  lemma {:induction false} Scans(h: Host, log: seq<Message>, s: Storage, t: Task, chats: seq<Chat>, ids: seq<nat>,
                                 at: seq<nat>, batch: seq<Message>, now: nat)
    returns (s': Storage, batch': seq<Message>)
    requires |chats| == |ids| && forall i :: 0 <= i < |ids| ==> chats[i].id == ids[i]
    requires I.Grows(log, s.messages) && |s.messages| == |log| && Gathered(log, at, batch)
    ensures Steps(h, s, t, Scanning(chats, batch, at), now, |chats|)
         == (s', Scanning([], batch', at + I.Batch(log, ids, t.ts)))
    ensures s' == s.(messages := s'.messages) && I.Grows(log, s'.messages) && |s'.messages| == |log|
    ensures Gathered(log, at + I.Batch(log, ids, t.ts), batch')
    decreases |chats|
  {
    hide Newest, Pick, Marked, InChat, Gathered, I.Grows;
    if chats == [] {
      s', batch' := s, batch;
      assert at + [] == at;
    } else {
      var more := Newest(InChat(ids[0], t.ts), s.messages, IDLE_LIMIT);
      SameNewest(ids[0], t.ts, log, s.messages, IDLE_LIMIT);
      MarkGrows(log, s.messages, more);
      GatherMore(log, s.messages, at, batch, more);
      var s1 := s.(messages := Marked(s.messages, more));
      s', batch' := Scans(h, log, s1, t, chats[1..], ids[1..], at + more, batch + Pick(s.messages, more), now);
      assert at + more + I.Batch(log, ids[1..], t.ts) == at + I.Batch(log, ids, t.ts);
    }
  }

  /** to_api_format without interruption: names looked up for every message. */
  function ApiFormat(s: Storage, msgs: seq<Message>): seq<ApiMessage> {
    seq(|msgs|, i requires 0 <= i < |msgs| =>
          var m := msgs[i];
          ApiMessage(m.ts, UserById(s.users, m.userFrom).name, ChatById(s.chats, m.chatTo).name, m.text))
  }

  lemma {:induction false} Formats(h: Host, s: Storage, t: Task, msgs: seq<Message>, origin: Origin, k: nat, now: nat)
    requires k <= |msgs|
    ensures var all := ApiFormat(s, msgs);
            var reply := AnswerOf(t, all, msgs, origin);
            Steps(h, s, t, Formatting(msgs, all[..k], None, origin), now, 2 * (|msgs| - k) + 1) == (s, Send(reply))
    decreases |msgs| - k
  {
    hide ChatById, UserById;
    var all := ApiFormat(s, msgs);
    var pc := Formatting(msgs, all[..k], None, origin);
    if k == |msgs| {
      assert all[..k] == all;
      OneStep(h, s, t, pc, now);
    } else {
      var named := Formatting(msgs, all[..k], Some(ChatById(s.chats, msgs[k].chatTo)), origin);
      var next := Formatting(msgs, all[..k + 1], None, origin);
      assert Step(h, s, t, pc, now) == (s, named);
      assert all[..k] + [all[k]] == all[..k + 1];
      assert Step(h, s, t, named, now) == (s, next);
      hide Step, ApiFormat;
      Formats(h, s, t, msgs, origin, k + 1, now);
      OneStep(h, s, t, pc, now);
      OneStep(h, s, t, named, now);
      Chain(h, s, t, pc, now, 1, s, named, 1, s, next);
      var n := 2 * (|msgs| - k - 1) + 1;
      Chain(h, s, t, pc, now, 2, s, next, n, s, Steps(h, s, t, next, now, n).1);
    }
  }

  /** How a poll that nobody interrupts must end: silence, a ping, or one message for each position. */
  ghost predicate EndsWith(log: seq<Message>, at: seq<nat>, ping: bool, pc: Pc) {
    if at != [] then
      && pc.Send? && pc.reply.IdleMessages? && pc.reply.at == at && Gathered(log, at, pc.reply.source)
      && |pc.reply.msgs| == |at| && (forall i :: 0 <= i < |at| ==> pc.reply.msgs[i].ts == log[at[i]].ts)
    else pc == if ping then Send(IdleMessages([], [], [])) else Done
  }

  predicate Admitted(h: Host, s: Storage, t: Task) {
    var user := UserById(s.users, t.uid);
    t.cmd.Idle? && user.id != 0 && h.digest(t.password) == user.password
  }

  /** A poll that will pass the password check, on tables in order. */
  ghost predicate Welcome(h: Host, s: Storage, t: Task) {
    Intact(s) && Admitted(h, s, t)
  }

  lemma WelcomeIsIdle(h: Host, s: Storage, t: Task)
    requires Welcome(h, s, t)
    ensures t.cmd.Idle?
  {
  }

  lemma ChatsFound(s: Storage, ids: seq<nat>)
    requires Intact(s) && forall i :: 0 <= i < |ids| ==> HasChat(s, ids[i])
    ensures forall i :: 0 <= i < |ids| ==> ChatsFor(s.chats, ids)[i].id == ids[i]
  {
    forall i | 0 <= i < |ids| ensures ChatById(s.chats, ids[i]).id == ids[i] {
      ChatFound(s, ids[i]);
    }
  }

  lemma Admits(h: Host, s: Storage, t: Task, now: nat)
    requires Welcome(h, s, t)
    ensures var s1 := WithHeartBit(s, t.uid, now);
            var ids := ChatIdsOf(s.chatuser, t.uid);
            && Intact(s1) && s1.messages == s.messages && s1.chatuser == s.chatuser
            && Steps(h, s, t, Start, now, 3) == (s1, Resolving(s1, ids, []))
            && forall i :: 0 <= i < |ids| ==> HasChat(s1, ids[i])
  {
    var user := UserById(s.users, t.uid);
    var s1 := WithHeartBit(s, t.uid, now);
    HeartBitKeeps(s, t.uid, now);
    MembersOfReal(s1, t.uid);
    assert Step(h, s, t, Start, now) == (s, Authed(user));
    assert Step(h, s, t, Authed(user), now) == (s1, Worker.Touched(user));
    assert Step(h, s1, t, Worker.Touched(user), now) == (s1, Resolving(s1, ChatIdsOf(s1.chatuser, t.uid), []));
    hide Step, Intact, WithHeartBit, ChatIdsOf;
    assert Steps(h, s1, t, Worker.Touched(user), now, 1) == (s1, Resolving(s1, ChatIdsOf(s1.chatuser, t.uid), [])) by {
      OneStep(h, s1, t, Worker.Touched(user), now);
    }
    assert Steps(h, s, t, Authed(user), now, 2) == Steps(h, s1, t, Worker.Touched(user), now, 1);
    assert Steps(h, s, t, Start, now, 3) == Steps(h, s, t, Authed(user), now, 2);
  }

  lemma MembersOfReal(s: Storage, uid: nat)
    requires Intact(s)
    ensures forall i :: 0 <= i < |ChatIdsOf(s.chatuser, uid)| ==> HasChat(s, ChatIdsOf(s.chatuser, uid)[i])
  {
    var ids := ChatIdsOf(s.chatuser, uid);
    forall i | 0 <= i < |ids| ensures HasChat(s, ids[i]) {
      assert ids[i] in ids;
      assert Chatuser(ids[i], uid) in s.chatuser;
    }
  }

  /** A client is in no chat twice. */
  lemma {:induction false} ChatsDistinct(rows: seq<Chatuser>, uid: nat)
    requires forall i, j :: 0 <= i < j < |rows| ==> rows[i] != rows[j]
    ensures I.Distinct(ChatIdsOf(rows, uid))
  {
    if rows != [] {
      var n := |rows| - 1;
      ChatsDistinct(rows[..n], uid);
      var ids := ChatIdsOf(rows[..n], uid);
      forall i | 0 <= i < |ids| && rows[n].uid == uid ensures ids[i] != rows[n].chatid {
        assert ids[i] in ids;
        assert Chatuser(ids[i], uid) in rows[..n];
      }
    }
  }

  /** Behind the scan: format and send, ping, or nothing. */
  lemma Concludes(h: Host, log: seq<Message>, s: Storage, t: Task, at: seq<nat>, batch: seq<Message>, now: nat)
    returns (n: nat, pc: Pc)
    requires t.cmd.Idle? && Gathered(log, at, batch)
    ensures Steps(h, s, t, Scanning([], batch, at), now, n) == (s, pc)
    ensures EndsWith(log, at, t.ping, pc) && (pc.Done? ==> n == 1)
  {
    var scanned := Scanning([], batch, at);
    if batch == [] {
      n := 1;
      pc := if t.ping then Send(IdleMessages([], [], [])) else Done;
      OneStep(h, s, t, scanned, now);
    } else {
      var all := ApiFormat(s, batch);
      n := 2 * |batch| + 2;
      pc := Send(IdleMessages(all, batch, at));
      OneStep(h, s, t, scanned, now);
      assert Step(h, s, t, scanned, now) == (s, Formatting(batch, [], None, ByPoll(at)));
      Formats(h, s, t, batch, ByPoll(at), 0, now);
      assert all[..0] == [];
      forall i | 0 <= i < |at| ensures all[i].ts == log[at[i]].ts {
        assert SameMessage(batch[i], log[at[i]]);
      }
      hide Step, Steps, ApiFormat;
      Chain(h, s, t, scanned, now, 1, s, Formatting(batch, [], None, ByPoll(at)), 2 * |batch| + 1, s, pc);
    }
  }

  /** Up to the scan. */
  lemma ComesToScan(h: Host, s: Storage, t: Task, now: nat) returns (s1: Storage, chats: seq<Chat>)
    requires Welcome(h, s, t)
    ensures var ids := ChatIdsOf(s.chatuser, t.uid);
            && s1.messages == s.messages
            && |chats| == |ids| && (forall i :: 0 <= i < |ids| ==> chats[i].id == ids[i])
            && Steps(h, s, t, Start, now, |ids| + 4) == (s1, Scanning(chats, [], []))
  {
    var ids := ChatIdsOf(s.chatuser, t.uid);
    s1 := WithHeartBit(s, t.uid, now);
    chats := ChatsFor(s1.chats, ids);
    hide Step, Steps, WithHeartBit, ChatIdsOf, Welcome, Intact;
    Admits(h, s, t, now);
    ChatsFound(s1, ids);
    assert ChatsFor(s1.chats, ids)[..0] == [];
    Resolves(h, s1, t, ids, [], now);
    Chain(h, s, t, Start, now, 3, s1, Resolving(s1, ids, []), |ids| + 1, s1, Scanning(chats, [], []));
  }

  lemma NothingGathered(log: seq<Message>)
    ensures I.Grows(log, log) && Gathered(log, [], [])
  {
  }

  /** Through the scan. */
  lemma ComesThroughScan(h: Host, s: Storage, t: Task, now: nat) returns (s2: Storage, batch: seq<Message>)
    requires Welcome(h, s, t)
    ensures var ids := ChatIdsOf(s.chatuser, t.uid);
            && Steps(h, s, t, Start, now, 2 * |ids| + 4)
               == (s2, Scanning([], batch, I.Batch(s.messages, ids, t.ts)))
            && I.Grows(s.messages, s2.messages) && |s2.messages| == |s.messages|
            && Gathered(s.messages, I.Batch(s.messages, ids, t.ts), batch)
  {
    hide Step, Steps, Welcome, ChatIdsOf, I.Batch, Gathered, I.Grows;
    var ids := ChatIdsOf(s.chatuser, t.uid);
    var s1, chats := ComesToScan(h, s, t, now);
    NothingGathered(s.messages);
    s2, batch := Scans(h, s.messages, s1, t, chats, ids, [], [], now);
    var at := I.Batch(s.messages, ids, t.ts);
    assert [] + at == at;
    Chain(h, s, t, Start, now, |ids| + 4, s1, Scanning(chats, [], []), |ids|, s2, Scanning([], batch, at));
  }

  lemma ScansThenConcludes(h: Host, s: Storage, t: Task, now: nat, at: seq<nat>, k: nat, s2: Storage,
                           batch: seq<Message>)
    returns (n: nat, pc: Pc)
    requires t.cmd.Idle? && Gathered(s.messages, at, batch)
    requires Steps(h, s, t, Start, now, k) == (s2, Scanning([], batch, at))
    ensures Steps(h, s, t, Start, now, n) == (s2, pc) && EndsWith(s.messages, at, t.ping, pc)
    ensures pc.Done? ==> n == k + 1
  {
    hide Step, Steps, EndsWith, Gathered;
    var m;
    m, pc := Concludes(h, s.messages, s2, t, at, batch, now);
    n := k + m;
    Chain(h, s, t, Start, now, k, s2, Scanning([], batch, at), m, s2, pc);
  }

  /** A poll that nobody interrupts answers with exactly one tick's batch and changes no message but its flags. */
  lemma PollAlone(h: Host, s: Storage, t: Task, now: nat) returns (n: nat, s': Storage, pc: Pc)
    requires Welcome(h, s, t)
    ensures Steps(h, s, t, Start, now, n) == (s', pc)
    ensures EndsWith(s.messages, I.Batch(s.messages, ChatIdsOf(s.chatuser, t.uid), t.ts), t.ping, pc)
    ensures I.Grows(s.messages, s'.messages) && |s'.messages| == |s.messages|
    ensures pc.Done? ==> n > 0 && Steps(h, s, t, Start, now, n - 1).1.Scanning?
  {
    hide Step, Steps, Welcome, ChatIdsOf, EndsWith, I.Batch, Gathered, I.Grows;
    WelcomeIsIdle(h, s, t);
    var ids := ChatIdsOf(s.chatuser, t.uid);
    var s2, batch := ComesThroughScan(h, s, t, now);
    s' := s2;
    n, pc := ScansThenConcludes(h, s, t, now, I.Batch(s.messages, ids, t.ts), 2 * |ids| + 4, s2, batch);
  }

  // ------------------------------------------------- the connection's half

  /** What the connection makes of a finished poll whose write completes. */
  function Completed(k: S.Conn, pc: Pc): S.Conn {
    if !pc.Send? then k
    else
      var k' := S.Replied(k, pc.reply);
      if |k'.writing| == 1 then S.WriteDone(k', 0, true) else k'
  }

  lemma MaximumOfStamps(msgs: seq<ApiMessage>, stamps: seq<nat>)
    requires |msgs| == |stamps| && forall i :: 0 <= i < |msgs| ==> msgs[i].ts == stamps[i]
    ensures S.MaxTimestamp(msgs) == I.Maximum(stamps)
  {
    var a, b := S.MaxTimestamp(msgs), I.Maximum(stamps);
    if stamps != [] {
      var j :| 0 <= j < |stamps| && stamps[j] == b;
      assert msgs[j].ts == b;
    }
  }

  lemma CompletedIs(k: S.Conn, pc: Pc)
    requires k.writing == []
    ensures !pc.Send? ==> Completed(k, pc) == k
    ensures pc.Send? && pc.reply.IdleMessages? ==>
              Completed(k, pc)
              == k.(newest := S.MaxTimestamp(pc.reply.msgs), received := k.received + pc.reply.msgs,
                    positions := k.positions + pc.reply.at)
  {
    hide S.MaxTimestamp;
  }

  lemma CompletedIsRound(k: S.Conn, log: seq<Message>, at: seq<nat>, ping: bool, pc: Pc)
    requires k.writing == [] && EndsWith(log, at, ping, pc)
    requires forall i :: 0 <= i < |at| ==> at[i] < |log|
    ensures var k2 := Completed(k, pc);
            && k2.request == k.request && k2.writing == []
            && k2.newest == (if at != [] || ping then I.Maximum(I.StampsAt(log, at)) else k.newest)
            && k2.received == (k.received + if at != [] then pc.reply.msgs else [])
            && k2.positions == k.positions + at
  {
    hide I.Maximum, S.MaxTimestamp, S.HasStamp, Gathered, I.StampsAt, Completed;
    CompletedIs(k, pc);
    if pc.Send? {
      MaximumOfStamps(pc.reply.msgs, I.StampsAt(log, at));
    }
  }

  /** The messages at these positions in words: the names of their real senders and targets. */
  ghost function WordsAt(s: Storage, at: seq<nat>): seq<ApiMessage>
    requires MessagesRefer(s) && forall i :: 0 <= i < |at| ==> at[i] < |s.messages|
  {
    seq(|at|, i requires 0 <= i < |at| => InWords(s, s.messages[at[i]]))
  }

  lemma {:induction false} StepsKeep(h: Host, s: Storage, t: Task, pc: Pc, now: nat, n: nat)
    requires Permutes(h) && Intact(s) && Carries(s, t, pc)
    ensures var (s', pc') := Steps(h, s, t, pc, now, n); Intact(s') && Extends(s, s') && Carries(s', t, pc')
    decreases n
  {
    hide Step, Intact, Extends, Carries;
    ExtendsReflexive(s);
    if n > 0 {
      var (s1, pc1) := Step(h, s, t, pc, now);
      StepKeeps(h, s, t, pc, now);
      StepsKeep(h, s1, t, pc1, now, n - 1);
      ExtendsTransitive(s, s1, Steps(h, s1, t, pc1, now, n - 1).0);
    }
  }

  lemma SameWords(s: Storage, s': Storage, m: Message, m': Message)
    requires Extends(s, s') && SameMessage(m, m') && Refers(s, m)
    ensures Refers(s', m') && InWords(s', m') == InWords(s, m)
  {
    assert SameUser(s.users[m.userFrom - 1], s'.users[m.userFrom - 1]);
    assert m.userFrom == m'.userFrom && m.chatTo == m'.chatTo && m.ts == m'.ts && m.text == m'.text;
  }

  /** The batch that a poll sends is the batch of the tick in words. */
  lemma BatchInWords(h: Host, s: Storage, t: Task, now: nat, n: nat, s': Storage, pc: Pc, at: seq<nat>)
    requires Permutes(h) && Intact(s) && Steps(h, s, t, Start, now, n) == (s', pc)
    requires at != [] && EndsWith(s.messages, at, t.ping, pc)
    ensures (forall i :: 0 <= i < |at| ==> at[i] < |s.messages|) && pc.reply.msgs == WordsAt(s, at)
  {
    hide Step, Steps, Intact, Extends, InWords, SameMessage, Carries;
    IntactRefers(s);
    StartCarries(s, t);
    StepsKeep(h, s, t, Start, now, n);
    CarriesWords(s', t, pc);
    forall i | 0 <= i < |at|
      ensures pc.reply.msgs[i] == InWords(s, s.messages[at[i]])
    {
      SymmetricSame(pc.reply.source[i], s.messages[at[i]]);
      assert Refers(s, s.messages[at[i]]);
      SameWords(s, s', s.messages[at[i]], pc.reply.source[i]);
    }
  }

  lemma IntactRefers(s: Storage)
    requires Intact(s)
    ensures MessagesRefer(s)
  {
  }

  lemma StartCarries(s: Storage, t: Task)
    ensures Carries(s, t, Start)
  {
  }

  lemma CarriesWords(s: Storage, t: Task, pc: Pc)
    requires Carries(s, t, pc) && pc.Send? && pc.reply.IdleMessages?
    ensures Worded(s, pc.reply.source, pc.reply.msgs)
  {
  }

  lemma WelcomeIsIntact(h: Host, s: Storage, t: Task)
    requires Welcome(h, s, t)
    ensures Intact(s)
  {
  }

  lemma MembersDistinct(s: Storage, uid: nat)
    requires Intact(s)
    ensures I.Distinct(ChatIdsOf(s.chatuser, uid))
  {
    ChatsDistinct(s.chatuser, uid);
  }

  lemma NoWords(s: Storage)
    requires MessagesRefer(s)
    ensures WordsAt(s, []) == []
  {
  }

  lemma SymmetricSame(m: Message, n: Message)
    requires SameMessage(m, n)
    ensures SameMessage(n, m)
  {
  }

  /** One tick of a connection, its poll undisturbed and its write completed, is one round of the Idle module:
      same cursor, same newest stamp, and the client has just the messages at the batch's positions, in words. */
  lemma TickIsRound(h: Host, s: Storage, k: S.Conn, client: nat, now: nat) returns (n: nat)
    requires Permutes(h) && k.timers > 0 && k.writing == []
    requires Welcome(h, s, S.Ticked(k, client, now).1)
    ensures var (k1, t) := S.Ticked(k, client, now);
            var k2 := Completed(k1, Steps(h, s, t, Start, now, n).1);
            var ids := ChatIdsOf(s.chatuser, k.request.uid);
            var round := I.Tick(I.Poller(k.request.ts, k.newest, []), I.Round(s.messages, ids, S.PingDue(k, now)));
            && I.Distinct(ids) && MessagesRefer(s)
            && k2.request.ts == round.cursor && k2.newest == round.newest && k2.writing == []
            && k2.received == k.received + WordsAt(s, round.batches[0])
            && k2.positions == k.positions + round.batches[0]
  {
    var (k1, t) := S.Ticked(k, client, now);
    var ids := ChatIdsOf(s.chatuser, k.request.uid);
    var at := I.Batch(s.messages, ids, t.ts);
    hide Welcome, Intact, Steps, ChatIdsOf, I.Batch, I.StampsAt, I.Maximum, S.PingDue, I.Distinct, Completed, EndsWith;
    hide MessagesRefer, WordsAt;
    WelcomeIsIntact(h, s, t);
    IntactRefers(s);
    MembersDistinct(s, k.request.uid);
    NoWords(s);
    var s', pc;
    n, s', pc := PollAlone(h, s, t, now);
    CompletedIsRound(k1, s.messages, at, t.ping, pc);
    if at != [] {
      BatchInWords(h, s, t, now, n, s', pc, at);
    }
  }
}
