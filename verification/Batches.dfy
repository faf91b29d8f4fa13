// The batch of a poll among other workers: where in the log its messages stand, whatever happens between the
// locked sections in which it is gathered.
module Batches {
  import opened Tables
  import opened Integrity
  import opened Worker
  import opened Ledger
  import opened Session
  import opened Server
  import Runs
  import P = Poll
  import I = Idle

  /** The message stands at this position, is newer than the poll's cursor, and went to a chat of the polling user. */
  predicate Place(s: Storage, t: Task, m: Message, k: nat) {
    && k < |s.messages| && SameMessage(m, s.messages[k]) && s.messages[k].ts > t.ts
    && Chatuser(s.messages[k].chatTo, t.uid) in s.chatuser
  }

  predicate Placed(s: Storage, t: Task, batch: seq<Message>, at: seq<nat>) {
    |batch| == |at| && I.Distinct(at) && forall i :: 0 <= i < |at| ==> Place(s, t, batch[i], at[i])
  }

  /** The chats still to be scanned are the user's, each once, and none has been scanned. */
  predicate Unscanned(s: Storage, t: Task, chats: seq<Chat>, at: seq<nat>) {
    && (forall i, j :: 0 <= i < j < |chats| ==> chats[i].id != chats[j].id)
    && (forall i :: 0 <= i < |chats| ==> Chatuser(chats[i].id, t.uid) in s.chatuser)
    && forall i, a :: 0 <= i < |chats| && 0 <= a < |at| && at[a] < |s.messages| ==>
         s.messages[at[a]].chatTo != chats[i].id
  }

  predicate Located(s: Storage, t: Task, pc: Pc) {
    match pc
    case Scanning(chats, batch, at) => Placed(s, t, batch, at) && Unscanned(s, t, chats, at)
    case Formatting(msgs, _, _, ByPoll(at)) => t.cmd.Idle? ==> Placed(s, t, msgs, at)
    case Formatting(_, _, _, ByQuery(_, _, _, _)) => !t.cmd.Idle?
    case Send(IdleMessages(_, source, at)) => Placed(s, t, source, at)
    case _ => true
  }

  // ----------------------------------------------------------- interference

  lemma SameThrough(a: Message, b: Message, c: Message)
    requires SameMessage(a, b) && SameMessage(b, c)
    ensures SameMessage(a, c)
  {
  }

  lemma PlacedStays(s: Storage, s': Storage, t: Task, batch: seq<Message>, at: seq<nat>)
    requires Extends(s, s') && Placed(s, t, batch, at)
    ensures Placed(s', t, batch, at)
  {
    RowStays(s.chatuser, s'.chatuser);
    forall i | 0 <= i < |at|
      ensures Place(s', t, batch[i], at[i])
    {
      assert Place(s, t, batch[i], at[i]);
      assert SameMessage(s.messages[at[i]], s'.messages[at[i]]);
      SameThrough(batch[i], s.messages[at[i]], s'.messages[at[i]]);
    }
  }

  lemma UnscannedStays(s: Storage, s': Storage, t: Task, chats: seq<Chat>, batch: seq<Message>, at: seq<nat>)
    requires Extends(s, s') && Placed(s, t, batch, at) && Unscanned(s, t, chats, at)
    ensures Unscanned(s', t, chats, at)
  {
    RowStays(s.chatuser, s'.chatuser);
    forall i, a | 0 <= i < |chats| && 0 <= a < |at| && at[a] < |s'.messages|
      ensures s'.messages[at[a]].chatTo != chats[i].id
    {
      assert Place(s, t, batch[a], at[a]);
      assert SameMessage(s.messages[at[a]], s'.messages[at[a]]);
    }
  }

  lemma LocatedStays(s: Storage, s': Storage, t: Task, pc: Pc)
    requires Extends(s, s') && Located(s, t, pc)
    ensures Located(s', t, pc)
  {
    hide Extends, Placed, Unscanned;
    match pc
    case Scanning(chats, batch, at) =>
      PlacedStays(s, s', t, batch, at);
      UnscannedStays(s, s', t, chats, batch, at);
    case Formatting(msgs, _, _, ByPoll(at)) => if t.cmd.Idle? { PlacedStays(s, s', t, msgs, at); }
    case Send(IdleMessages(_, source, at)) => PlacedStays(s, s', t, source, at);
    case _ =>
  }

  // -------------------------------------------------------------- one's own steps

  /** The chats resolved are those of the user at the first lock, each once, and still the user's. */
  lemma ResolvedUnscanned(s: Storage, t: Task, first: Storage, ids: seq<nat>, got: seq<Chat>)
    requires ReadAtOnce(s, first, ids, got) && ids == ChatIdsOf(first.chatuser, t.uid) && |got| == |ids|
    ensures Unscanned(s, t, got, []) && Placed(s, t, [], [])
  {
    P.MembersDistinct(first, t.uid);
    P.ChatsFound(first, ids);
    RowStays(first.chatuser, s.chatuser);
    forall i | 0 <= i < |got|
      ensures got[i].id == ids[i] && Chatuser(got[i].id, t.uid) in s.chatuser
    {
      assert ids[i] in ids;
    }
    hide Intact, Extends, ChatIdsOf, ChatsFor;
    forall i, j | 0 <= i < j < |got|
      ensures got[i].id != got[j].id
    {
      assert ids[i] != ids[j];
    }
  }

  lemma MorePlaced(s: Storage, t: Task, chats: seq<Chat>, batch: seq<Message>, at: seq<nat>)
    requires chats != [] && Placed(s, t, batch, at) && Unscanned(s, t, chats, at)
    ensures var more := Newest(InChat(chats[0].id, t.ts), s.messages, IDLE_LIMIT);
            Placed(s, t, batch + Pick(s.messages, more), at + more) && Unscanned(s, t, chats[1..], at + more)
  {
    var more := Newest(InChat(chats[0].id, t.ts), s.messages, IDLE_LIMIT);
    forall i | 0 <= i < |more|
      ensures s.messages[more[i]].chatTo == chats[0].id && Place(s, t, s.messages[more[i]], more[i])
    {
    }
    hide Newest;
    forall i, j | 0 <= i < j < |at + more|
      ensures (at + more)[i] != (at + more)[j]
    {
      if i < |at| <= j {
        assert Place(s, t, batch[i], at[i]);
        assert s.messages[at[i]].chatTo != chats[0].id;
      }
    }
  }

  lemma ScanLocated(h: Host, s: Storage, t: Task, pc: Pc, now: nat)
    requires Intact(s) && pc.Scanning? && Located(s, t, pc)
    ensures var (s', pc') := Step(h, s, t, pc, now); Located(s', t, pc')
  {
    if pc.chats != [] {
      var more := Newest(InChat(pc.chats[0].id, t.ts), s.messages, IDLE_LIMIT);
      var s' := s.(messages := Marked(s.messages, more));
      MarkKeeps(s, more);
      MorePlaced(s, t, pc.chats, pc.batch, pc.at);
      hide Intact, Extends, Placed, Unscanned, Newest, Pick, Marked;
      PlacedStays(s, s', t, pc.batch + Pick(s.messages, more), pc.at + more);
      UnscannedStays(s, s', t, pc.chats[1..], pc.batch + Pick(s.messages, more), pc.at + more);
    }
  }

  lemma StepLocated(h: Host, s: Storage, t: Task, pc: Pc, now: nat)
    requires Intact(s) && Carries(s, t, pc) && Located(s, t, pc)
    ensures var (s', pc') := Step(h, s, t, pc, now); Located(s', t, pc')
  {
    hide Intact, Placed, Unscanned, Newest, Pick, Marked, Mix, HistoryLimit, FromTo, InChat;
    if pc.Scanning? {
      ScanLocated(h, s, t, pc, now);
    } else if pc.Resolving? {
      if |pc.got| == |pc.ids| {
        ResolvedUnscanned(s, t, pc.first, pc.ids, pc.got);
      }
    } else if pc.Start? || pc.Authed? {
      hide WithUser, WithChat, WithHeartBit, ByName, UserById, UsersByName, ChatsByName;
    }
  }

  // ----------------------------------------------------------------- whole runs

  ghost predicate AllLocated(s: Sys) {
    forall w :: 0 <= w < |s.workers| && s.workers[w].Some? ==>
      Located(s.store, s.workers[w].value.task, s.workers[w].value.pc)
  }

  lemma StartLocated(s: Storage, t: Task)
    ensures Located(s, t, Start)
  {
  }

  lemma LocatedEvent(h: Host, s: Sys, e: Event)
    requires Permutes(h) && Sound(s) && AllLocated(s) && Enabled(s, e)
    ensures AllLocated(Next(h, s, e))
  {
    SoundStep(h, s, e);
    hide Intact, Extends, Carries, Balanced, Settled, Step, Replied, Booked, Located;
    hide ReadDone, WriteDone, Ticked, HandshakeDone, TimerDropped;
    match e
    case Work(w, now) =>
      var s' := WorkOn(h, s, w, now);
      StepLocated(h, s.store, s.workers[w].value.task, s.workers[w].value.pc, now);
      forall v | 0 <= v < |s'.workers| && s'.workers[v].Some?
        ensures Located(s'.store, s'.workers[v].value.task, s'.workers[v].value.pc)
      {
        if v != w {
          LocatedStays(s.store, s'.store, s.workers[v].value.task, s.workers[v].value.pc);
        }
      }
    case Take(w) => StartLocated(s.store, s.queue[0]);
    case _ =>
  }

  lemma {:induction false} LocatedRun(h: Host, s: Sys, events: seq<Event>)
    requires Permutes(h) && Sound(s) && AllLocated(s)
    ensures Sound(After(h, s, events)) && AllLocated(After(h, s, events))
    decreases |events|
  {
    hide Sound, AllLocated, Next, Enabled;
    if events != [] {
      var e := events[0];
      if Enabled(s, e) {
        SoundStep(h, s, e);
        LocatedEvent(h, s, e);
        LocatedRun(h, Next(h, s, e), events[1..]);
      } else {
        LocatedRun(h, s, events[1..]);
      }
    }
  }

  lemma InitiallyLocated(workers: nat)
    ensures Sound(Initial(workers)) && AllLocated(Initial(workers))
  {
    Runs.NobodyBusy(workers, NO_TASK);
    Runs.InitiallyConsistent(workers);
    hide Resting, Located, Sound;
  }

  /** These messages are, in words, what stands at the positions. */
  ghost predicate InWordsAt(s: Storage, msgs: seq<ApiMessage>, at: seq<nat>) {
    && |msgs| == |at|
    && forall i :: 0 <= i < |at| ==>
         && at[i] < |s.messages| && Refers(s, s.messages[at[i]]) && msgs[i] == InWords(s, s.messages[at[i]])
  }

  lemma WordedAt(s: Storage, t: Task, msgs: seq<ApiMessage>, source: seq<Message>, at: seq<nat>)
    requires Worded(s, source, msgs) && |msgs| == |source| && Placed(s, t, source, at)
    ensures InWordsAt(s, msgs, at)
  {
    forall i | 0 <= i < |at|
      ensures at[i] < |s.messages| && Refers(s, s.messages[at[i]]) && msgs[i] == InWords(s, s.messages[at[i]])
    {
      assert Place(s, t, source[i], at[i]) && Refers(s, source[i]);
      assert msgs[i] == InWords(s, source[i]);
    }
  }

  /** In every run each batch about to be sent holds, in words, messages at distinct positions of the log, newer
      than its own poll's cursor, and all from chats that the polling user is in. */
  lemma BatchesInRuns(h: Host, workers: nat, events: seq<Event>, w: nat)
    requires Permutes(h) && Runs.Sending(After(h, Initial(workers), events), w)
    ensures var s := After(h, Initial(workers), events);
            var (t, r) := (s.workers[w].value.task, s.workers[w].value.pc.reply);
            Placed(s.store, t, r.source, r.at) && InWordsAt(s.store, r.msgs, r.at)
  {
    InitiallyLocated(workers);
    hide After, Sound;
    LocatedRun(h, Initial(workers), events);
    SendingLocated(After(h, Initial(workers), events), w);
  }

  lemma SendingLocated(s: Sys, w: nat)
    requires Sound(s) && AllLocated(s) && Runs.Sending(s, w)
    ensures var (t, r) := (s.workers[w].value.task, s.workers[w].value.pc.reply);
            Placed(s.store, t, r.source, r.at) && InWordsAt(s.store, r.msgs, r.at)
  {
    var job := s.workers[w].value;
    assert Carries(s.store, job.task, job.pc);
    hide Intact, Balanced, Settled, Placed, Worded;
    assert Located(s.store, job.task, job.pc);
    WordedAt(s.store, job.task, job.pc.reply.msgs, job.pc.reply.source, job.pc.reply.at);
  }
}
