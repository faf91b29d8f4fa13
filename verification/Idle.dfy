// Polling over whole runs of one idle client: ticks whose scan is undisturbed and whose write completes
// before the next tick. Which messages reach the client, and how often.
module Idle {
  import opened Wrappers
  import opened Tables
  import opened Integrity
  import opened Worker
  import H = History

  /** One tick: the log and the client's chats that its scan sees, and whether a ping was due. */
  datatype Round = Round(log: seq<Message>, ids: seq<nat>, ping: bool)

  /** The cursor, m_NewestMsgTimestamp, and the log positions delivered at each tick. */
  datatype Poller = Poller(cursor: nat, newest: nat, batches: seq<seq<nat>>)

  /** The time stamp a tick starts from. */
  function Level(p: Poller): nat {
    if p.newest > p.cursor then p.newest else p.cursor
  }

  function Batch(log: seq<Message>, ids: seq<nat>, ts: nat): (r: seq<nat>)
    ensures forall i :: 0 <= i < |r| ==> r[i] < |log| && log[r[i]].chatTo in ids && log[r[i]].ts > ts
  {
    if ids == [] then []
    else Newest(InChat(ids[0], ts), log, IDLE_LIMIT) + Batch(log, ids[1..], ts)
  }

  function StampsAt(log: seq<Message>, at: seq<nat>): (r: seq<nat>)
    requires forall i :: 0 <= i < |at| ==> at[i] < |log|
    ensures |r| == |at| && forall i :: 0 <= i < |at| ==> r[i] == log[at[i]].ts
  {
    seq(|at|, i requires 0 <= i < |at| => log[at[i]].ts)
  }

  function Maximum(stamps: seq<nat>): (m: nat)
    ensures forall i :: 0 <= i < |stamps| ==> stamps[i] <= m
    ensures if stamps == [] then m == 0 else m in stamps
  {
    if stamps == [] then 0
    else Max(Maximum(stamps[1..]), stamps[0])
  }

  function Tick(p: Poller, r: Round): Poller {
    var ts := Level(p);
    var at := Batch(r.log, r.ids, ts);
    Poller(ts, if at != [] || r.ping then Maximum(StampsAt(r.log, at)) else p.newest, p.batches + [at])
  }

  /** All ticks of a run of a client that started polling at `start`; it may join chats on the way. */
  function Polled(start: nat, rounds: seq<Round>): (p: Poller)
    ensures |p.batches| == |rounds|
  {
    if rounds == [] then Poller(start, 0, [])
    else
      var n := |rounds| - 1;
      Tick(Polled(start, rounds[..n]), rounds[n])
  }

  function LevelAt(start: nat, rounds: seq<Round>, i: nat): nat
    requires i <= |rounds|
  {
    Level(Polled(start, rounds[..i]))
  }

  ghost predicate Grows(a: seq<Message>, b: seq<Message>) {
    |a| <= |b| && forall k :: 0 <= k < |a| ==> SameMessage(a[k], b[k])
  }

  lemma GrowsReflexive(a: seq<Message>)
    ensures Grows(a, a)
  {
  }

  lemma GrowsTransitive(a: seq<Message>, b: seq<Message>, c: seq<Message>)
    requires Grows(a, b) && Grows(b, c)
    ensures Grows(a, c)
  {
  }

  lemma ExtendsGrows(s: Storage, t: Storage)
    requires Extends(s, t)
    ensures Grows(s.messages, t.messages)
  {
  }

  lemma EarlierInOrder(log: seq<Message>, log': seq<Message>)
    requires Grows(log, log') && H.InOrder(log')
    ensures H.InOrder(log)
  {
    forall i, j | 0 <= i < j < |log|
      ensures log[i].ts <= log[j].ts
    {
      assert SameMessage(log[i], log'[i]) && SameMessage(log[j], log'[j]);
    }
  }

  /** Between ticks messages are saved and flags may change, as every step of every worker allows. */
  ghost predicate Saved(rounds: seq<Round>) {
    forall i, j :: 0 <= i <= j < |rounds| ==> Grows(rounds[i].log, rounds[j].log)
  }

  predicate Distinct<T(==)>(s: seq<T>) {
    forall i, j :: 0 <= i < j < |s| ==> s[i] != s[j]
  }

  /** At no tick is the client in a chat twice. */
  predicate Members(rounds: seq<Round>) {
    forall i :: 0 <= i < |rounds| ==> Distinct(rounds[i].ids)
  }

  // ------------------------------------------------------------- one tick

  /** How many later messages of the same chat compete with message k. */
  function Rivals(log: seq<Message>, ts: nat, k: nat): nat
    requires k < |log|
  {
    |Hits(InChat(log[k].chatTo, ts), log[k + 1..])|
  }

  predicate Due(log: seq<Message>, ids: seq<nat>, ts: nat, k: nat) {
    k < |log| && log[k].chatTo in ids && log[k].ts > ts && Rivals(log, ts, k) < IDLE_LIMIT
  }

  /** A tick delivers exactly the messages of its chats above its cursor with fewer than three rivals. */
  lemma {:induction false} TickDelivers(log: seq<Message>, ids: seq<nat>, ts: nat, k: nat)
    ensures k in Batch(log, ids, ts) <==> Due(log, ids, ts, k)
  {
    hide Newest;
    if ids != [] && k < |log| {
      TickDelivers(log, ids[1..], ts, k);
      NewestExactly(InChat(ids[0], ts), log, IDLE_LIMIT, k);
      var got := Newest(InChat(ids[0], ts), log, IDLE_LIMIT);
      assert k in got ==> log[k].chatTo == ids[0];
    }
  }

  lemma NewestOnce(p: Message -> bool, log: seq<Message>, max: nat, k: nat)
    ensures Times(Newest(p, log, max), k) <= 1
  {
    var r := Newest(p, log, max);
    hide Newest;
    if i :| 0 <= i < |r| && r[i] == k {
      assert r == r[..i] + [k] + r[i + 1..];
      assert k !in r[..i] && k !in r[i + 1..];
    }
  }

  /** How often x occurs. */
  ghost function Times<T>(s: seq<T>, x: T): nat {
    multiset(s)[x]
  }

  lemma CountJoined<T>(a: seq<T>, b: seq<T>, x: T)
    ensures Times(a + b, x) == Times(a, x) + Times(b, x)
  {
  }

  lemma {:induction false} TickOnce(log: seq<Message>, ids: seq<nat>, ts: nat, k: nat)
    requires Distinct(ids)
    ensures Times(Batch(log, ids, ts), k) <= 1
  {
    hide Newest;
    if ids != [] {
      var got, rest := Newest(InChat(ids[0], ts), log, IDLE_LIMIT), Batch(log, ids[1..], ts);
      TickOnce(log, ids[1..], ts, k);
      NewestOnce(InChat(ids[0], ts), log, IDLE_LIMIT, k);
      assert k in got ==> log[k].chatTo == ids[0];
      assert k in rest ==> log[k].chatTo in ids[1..];
      CountJoined(got, rest, k);
    }
  }

  // ------------------------------------------------------------ whole runs

  /** Pings reset the newest time stamp to 0, yet where a tick starts only ever depends on what was delivered. */
  lemma LevelMoves(p: Poller, r: Round)
    ensures var at := Batch(r.log, r.ids, Level(p));
            Level(Tick(p, r)) == if at != [] then Maximum(StampsAt(r.log, at)) else Level(p)
    ensures Level(Tick(p, r)) >= Level(p)
  {
    var at := Batch(r.log, r.ids, Level(p));
    if at != [] {
      assert StampsAt(r.log, at)[0] == r.log[at[0]].ts > Level(p);
    }
  }

  lemma PolledStep(start: nat, rounds: seq<Round>, n: nat)
    requires n < |rounds|
    ensures Polled(start, rounds[..n + 1]) == Tick(Polled(start, rounds[..n]), rounds[n])
  {
    hide Tick;
    assert rounds[..n + 1][..n] == rounds[..n];
  }

  lemma LevelStep(start: nat, rounds: seq<Round>, n: nat)
    requires n < |rounds|
    ensures var at := Batch(rounds[n].log, rounds[n].ids, LevelAt(start, rounds, n));
            LevelAt(start, rounds, n + 1) == if at == [] then LevelAt(start, rounds, n)
                                                  else Maximum(StampsAt(rounds[n].log, at))
    ensures LevelAt(start, rounds, n + 1) >= LevelAt(start, rounds, n)
  {
    hide Tick, Polled, Batch, Level;
    PolledStep(start, rounds, n);
    LevelMoves(Polled(start, rounds[..n]), rounds[n]);
  }

  lemma {:induction false} BatchUpto(start: nat, rounds: seq<Round>, i: nat, m: nat)
    requires i < m <= |rounds|
    ensures Polled(start, rounds[..m]).batches[i] == Batch(rounds[i].log, rounds[i].ids, LevelAt(start, rounds, i))
    decreases m
  {
    hide Polled, Batch;
    PolledStep(start, rounds, m - 1);
    if i < m - 1 {
      BatchUpto(start, rounds, i, m - 1);
    }
  }

  lemma BatchAt(start: nat, rounds: seq<Round>, i: nat)
    requires i < |rounds|
    ensures Polled(start, rounds).batches[i] == Batch(rounds[i].log, rounds[i].ids, LevelAt(start, rounds, i))
  {
    hide Polled, Batch, LevelAt;
    BatchUpto(start, rounds, i, |rounds|);
    assert rounds[..|rounds|] == rounds;
  }

  lemma {:induction false} LevelGrows(start: nat, rounds: seq<Round>, i: nat, j: nat)
    requires i <= j <= |rounds|
    ensures LevelAt(start, rounds, i) <= LevelAt(start, rounds, j)
    decreases j
  {
    hide LevelAt, Batch;
    if i < j {
      LevelGrows(start, rounds, i, j - 1);
      LevelStep(start, rounds, j - 1);
    }
  }

  /** What has been delivered is not above where a later tick starts. */
  lemma DeliveredBelow(start: nat, rounds: seq<Round>, i: nat, j: nat, k: nat)
    requires i < j <= |rounds| && k in Polled(start, rounds).batches[i]
    ensures k < |rounds[i].log| && rounds[i].log[k].ts <= LevelAt(start, rounds, j)
  {
    BatchAt(start, rounds, i);
    LevelGrows(start, rounds, i + 1, j);
    LevelStep(start, rounds, i);
    var at := Batch(rounds[i].log, rounds[i].ids, LevelAt(start, rounds, i));
    hide Batch, Polled, LevelAt;
    var x :| 0 <= x < |at| && at[x] == k;
    assert StampsAt(rounds[i].log, at)[x] == rounds[i].log[k].ts;
  }

  lemma DeliveredAbove(start: nat, rounds: seq<Round>, i: nat, k: nat)
    requires i < |rounds| && k in Polled(start, rounds).batches[i]
    ensures Due(rounds[i].log, rounds[i].ids, LevelAt(start, rounds, i), k)
  {
    hide Polled, Batch;
    BatchAt(start, rounds, i);
    TickDelivers(rounds[i].log, rounds[i].ids, LevelAt(start, rounds, i), k);
  }

  lemma SameStamp(rounds: seq<Round>, i: nat, j: nat, k: nat)
    requires Saved(rounds) && i <= j < |rounds| && k < |rounds[i].log|
    ensures k < |rounds[j].log| && rounds[j].log[k].ts == rounds[i].log[k].ts
    ensures rounds[j].log[k].chatTo == rounds[i].log[k].chatTo
  {
    assert Grows(rounds[i].log, rounds[j].log);
    assert SameMessage(rounds[i].log[k], rounds[j].log[k]);
  }

  /** No message is delivered by two ticks. */
  lemma NotTwice(start: nat, rounds: seq<Round>, i: nat, j: nat, k: nat)
    requires Saved(rounds) && i < j < |rounds| && k in Polled(start, rounds).batches[i]
    ensures k !in Polled(start, rounds).batches[j]
  {
    hide Polled, LevelAt, Due;
    DeliveredBelow(start, rounds, i, j, k);
    SameStamp(rounds, i, j, k);
    if k in Polled(start, rounds).batches[j] {
      DeliveredAbove(start, rounds, j, k);
      DueAbove(rounds[j].log, rounds[j].ids, LevelAt(start, rounds, j), k);
      assert false;
    }
  }

  lemma DueAbove(log: seq<Message>, ids: seq<nat>, ts: nat, k: nat)
    requires Due(log, ids, ts, k)
    ensures k < |log| && log[k].ts > ts && log[k].chatTo in ids
  {
  }

  lemma FlattenOne<T>(s: seq<T>)
    ensures Flatten([s]) == s
  {
    var one := [s];
    assert one[1..] == [];
  }

  lemma {:induction false} InFlatten<T>(parts: seq<seq<T>>, x: T)
    ensures x in Flatten(parts) <==> exists i :: 0 <= i < |parts| && x in parts[i]
  {
    if parts != [] {
      InFlatten(parts[1..], x);
      if i :| 0 <= i < |parts| && x in parts[i] {
        assert i > 0 ==> parts[1..][i - 1] == parts[i];
      }
      if j :| 0 <= j < |parts| - 1 && x in parts[1..][j] {
        assert parts[j + 1] == parts[1..][j];
      }
    }
  }

  lemma {:induction false} DeliveredUpto(start: nat, rounds: seq<Round>, m: nat, k: nat)
    requires Members(rounds) && Saved(rounds) && m <= |rounds|
    ensures Times(Flatten(Polled(start, rounds[..m]).batches), k) <= 1
    decreases m
  {
    hide Distinct, Saved, Batch, LevelAt;
    if m == 0 {
      assert rounds[..0] == [];
    } else {
      hide Polled, Flatten;
      var n := m - 1;
      var before := Polled(start, rounds[..n]).batches;
      var at := Batch(rounds[n].log, rounds[n].ids, LevelAt(start, rounds, n));
      DeliveredUpto(start, rounds, n, k);
      BatchesStep(start, rounds, n);
      TickOnce(rounds[n].log, rounds[n].ids, LevelAt(start, rounds, n), k);
      forall i | 0 <= i < n && k in before[i]
        ensures k !in at
      {
        BatchUpto(start, rounds, i, n);
        BatchAt(start, rounds, i);
        BatchAt(start, rounds, n);
        NotTwice(start, rounds, i, n, k);
      }
      OneMore(before, at, k);
    }
  }

  lemma BatchesStep(start: nat, rounds: seq<Round>, n: nat)
    requires n < |rounds|
    ensures Polled(start, rounds[..n + 1]).batches
         == Polled(start, rounds[..n]).batches + [Batch(rounds[n].log, rounds[n].ids, LevelAt(start, rounds, n))]
  {
    hide Polled, Batch;
    PolledStep(start, rounds, n);
  }

  /** Over a whole run no message is delivered twice. */
  lemma DeliveredOnce(start: nat, rounds: seq<Round>, k: nat)
    requires Members(rounds) && Saved(rounds)
    ensures Times(Flatten(Polled(start, rounds).batches), k) <= 1
  {
    hide Polled, Flatten, Saved, Members;
    DeliveredUpto(start, rounds, |rounds|, k);
    assert rounds[..|rounds|] == rounds;
  }

  lemma OneMore<T>(before: seq<seq<T>>, at: seq<T>, x: T)
    requires Times(Flatten(before), x) <= 1 && Times(at, x) <= 1
    requires forall i :: 0 <= i < |before| && x in before[i] ==> x !in at
    ensures Times(Flatten(before + [at]), x) <= 1
  {
    FlattenAppend(before, [at]);
    FlattenOne(at);
    hide Flatten;
    CountJoined(Flatten(before), at, x);
    InFlatten(before, x);
  }

  /** Round j is the first tick after message k was saved. */
  predicate FirstSeen(rounds: seq<Round>, j: nat, k: nat) {
    j < |rounds| && k < |rounds[j].log| && (j > 0 ==> k >= |rounds[j - 1].log|)
  }

  lemma NotSeenBefore(start: nat, rounds: seq<Round>, i: nat, j: nat, k: nat)
    requires Saved(rounds) && FirstSeen(rounds, j, k) && i < j
    ensures |rounds[i].log| <= k && k !in Polled(start, rounds).batches[i]
  {
    assert Grows(rounds[i].log, rounds[j - 1].log);
    BatchAt(start, rounds, i);
    hide Batch, Polled, LevelAt;
  }

  /** Where some message of a chat is due or crowded out, the chat's last one is delivered. */
  lemma LatestDelivered(log: seq<Message>, ids: seq<nat>, ts: nat, k: nat)
    requires k < |log| && log[k].chatTo in ids && log[k].ts > ts
    ensures exists x :: x in Batch(log, ids, ts) && k <= x < |log|
  {
    var p := InChat(log[k].chatTo, ts);
    HitsAre(p, log);
    var all := Hits(p, log);
    assert k in all;
    var x := all[0];
    assert x in Newest(p, log, IDLE_LIMIT) by {
      assert Newest(p, log, IDLE_LIMIT)[0] == x;
    }
    NewestExactly(p, log, IDLE_LIMIT, x);
    TickDelivers(log, ids, ts, x);
    hide Hits, Newest;
  }

  /** From round j on the client does not join this chat: it is a member by then or never. */
  predicate MemberOrNever(rounds: seq<Round>, j: nat, chatid: nat) {
    j < |rounds| && (chatid in rounds[j].ids || forall i :: j <= i < |rounds| ==> chatid !in rounds[i].ids)
  }

  /** On a log in the order of its stamps the first tick decides: a message is delivered in the run exactly
      when it is due at the first tick after it was saved, and then by that tick. The client must be in the
      message's chat by then, or stay out of it. */
  lemma DeliveredExactly(start: nat, rounds: seq<Round>, j: nat, k: nat)
    requires Members(rounds) && Saved(rounds) && FirstSeen(rounds, j, k)
    requires forall i :: 0 <= i < |rounds| ==> H.InOrder(rounds[i].log)
    requires MemberOrNever(rounds, j, rounds[j].log[k].chatTo)
    ensures k in Flatten(Polled(start, rounds).batches)
       <==> Due(rounds[j].log, rounds[j].ids, LevelAt(start, rounds, j), k)
    ensures k in Flatten(Polled(start, rounds).batches) <==> k in Polled(start, rounds).batches[j]
  {
    var batches := Polled(start, rounds).batches;
    BatchAt(start, rounds, j);
    TickDelivers(rounds[j].log, rounds[j].ids, LevelAt(start, rounds, j), k);
    hide Batch, Polled, LevelAt, Due;
    InFlatten(batches, k);
    if i :| 0 <= i < |batches| && k in batches[i] {
      if i < j {
        NotSeenBefore(start, rounds, i, j, k);
      } else if i > j {
        NoSecondChance(start, rounds, i, j, k);
      }
    }
  }

  /** A message saved after a tick, and stamped no later than something that tick or an earlier one delivered,
      never reaches the client. */
  lemma LateStampIsLost(start: nat, rounds: seq<Round>, i: nat, x: nat, j: nat, k: nat)
    requires Saved(rounds) && i < j && FirstSeen(rounds, j, k)
    requires x in Polled(start, rounds).batches[i]
    requires x < |rounds[i].log| && rounds[j].log[k].ts <= rounds[i].log[x].ts
    ensures k !in Flatten(Polled(start, rounds).batches)
  {
    var batches := Polled(start, rounds).batches;
    hide Polled, LevelAt, Due, Batch, Flatten;
    InFlatten(batches, k);
    if n :| 0 <= n < |batches| && k in batches[n] {
      if n < j {
        NotSeenBefore(start, rounds, n, j, k);
      } else {
        DeliveredAbove(start, rounds, n, k);
        DueAbove(rounds[n].log, rounds[n].ids, LevelAt(start, rounds, n), k);
        SameStamp(rounds, j, n, k);
        DeliveredBelow(start, rounds, i, n, x);
        assert false;
      }
    }
  }

  lemma NoSecondChance(start: nat, rounds: seq<Round>, i: nat, j: nat, k: nat)
    requires Saved(rounds) && j < i < |rounds| && k < |rounds[j].log|
    requires H.InOrder(rounds[j].log) && MemberOrNever(rounds, j, rounds[j].log[k].chatTo)
    ensures k !in Polled(start, rounds).batches[i]
  {
    hide Polled, LevelAt, Due, Batch;
    if k in Polled(start, rounds).batches[i] {
      DeliveredAbove(start, rounds, i, k);
      DueAbove(rounds[i].log, rounds[i].ids, LevelAt(start, rounds, i), k);
      SameStamp(rounds, j, i, k);
      LevelGrows(start, rounds, j, i);
      assert rounds[j].log[k].chatTo in rounds[j].ids;
      LatestDelivered(rounds[j].log, rounds[j].ids, LevelAt(start, rounds, j), k);
      BatchAt(start, rounds, j);
      var x :| x in Polled(start, rounds).batches[j] && k <= x < |rounds[j].log|;
      DeliveredBelow(start, rounds, j, i, x);
      assert false;
    }
  }

  /** No chat has more news than one poll returns. */
  ghost predicate Roomy(start: nat, rounds: seq<Round>) {
    forall j, c :: 0 <= j < |rounds| && 0 <= c < |rounds[j].ids| ==>
      |Hits(InChat(rounds[j].ids[c], LevelAt(start, rounds, j)), rounds[j].log)| <= IDLE_LIMIT
  }

  /** Message k of round j is stamped later than all that was delivered before it was saved. */
  ghost predicate StampedLaterAt(start: nat, rounds: seq<Round>, j: nat, k: nat)
    requires j < |rounds| && k < |rounds[j].log|
  {
    forall i, x :: 0 <= i < j && x in Polled(start, rounds).batches[i] && x < |rounds[i].log| <= k ==>
      rounds[i].log[x].ts < rounds[j].log[k].ts
  }

  ghost predicate StampedLater(start: nat, rounds: seq<Round>) {
    forall j: nat, k: nat :: j < |rounds| && k < |rounds[j].log| ==> StampedLaterAt(start, rounds, j, k)
  }

  /** Message x reached the client at tick i, and `ts` is its stamp. */
  ghost predicate DeliveredStamp(start: nat, rounds: seq<Round>, i: nat, x: nat, ts: nat) {
    i < |rounds| && x in Polled(start, rounds).batches[i] && x < |rounds[i].log| && rounds[i].log[x].ts == ts
  }

  lemma LevelFromTick(start: nat, rounds: seq<Round>, n: nat)
    requires n < |rounds|
    ensures var level := LevelAt(start, rounds, n + 1);
            || level == LevelAt(start, rounds, n)
            || exists x: nat :: DeliveredStamp(start, rounds, n, x, level)
  {
    hide Polled, LevelAt, Batch, Maximum;
    LevelStep(start, rounds, n);
    BatchAt(start, rounds, n);
    var log, at := rounds[n].log, Batch(rounds[n].log, rounds[n].ids, LevelAt(start, rounds, n));
    if at != [] {
      var y :| 0 <= y < |at| && StampsAt(log, at)[y] == Maximum(StampsAt(log, at));
      assert at[y] in Polled(start, rounds).batches[n];
      assert DeliveredStamp(start, rounds, n, at[y], LevelAt(start, rounds, n + 1));
    }
  }

  lemma LevelAtStart(start: nat, rounds: seq<Round>)
    ensures LevelAt(start, rounds, 0) == start
  {
    assert rounds[..0] == [];
  }

  lemma {:induction false} LevelIsDelivered(start: nat, rounds: seq<Round>, j: nat)
    requires j <= |rounds|
    ensures LevelAt(start, rounds, j) == start
         || exists i: nat, x: nat :: i < j && DeliveredStamp(start, rounds, i, x, LevelAt(start, rounds, j))
  {
    hide LevelAt, DeliveredStamp;
    if j == 0 {
      LevelAtStart(start, rounds);
    } else {
      LevelIsDelivered(start, rounds, j - 1);
      LevelFromTick(start, rounds, j - 1);
    }
  }

  lemma LaterIsAbove(start: nat, rounds: seq<Round>, j: nat, k: nat)
    requires Saved(rounds) && FirstSeen(rounds, j, k) && StampedLater(start, rounds) && rounds[j].log[k].ts > start
    ensures rounds[j].log[k].ts > LevelAt(start, rounds, j)
  {
    hide Polled, LevelAt;
    LevelIsDelivered(start, rounds, j);
    assert StampedLaterAt(start, rounds, j, k);
    var level := LevelAt(start, rounds, j);
    if level != start {
      var i: nat, x: nat :| i < j && DeliveredStamp(start, rounds, i, x, level);
      NotSeenBefore(start, rounds, i, j, k);
    }
  }

  /** With room and fresh stamps nothing is missed: every message of the client's chats above the start is
      delivered exactly once, by the first tick after it was saved. */
  lemma NothingMissed(start: nat, rounds: seq<Round>, j: nat, k: nat)
    requires Members(rounds) && Saved(rounds) && FirstSeen(rounds, j, k)
    requires Roomy(start, rounds) && StampedLater(start, rounds)
    requires rounds[j].log[k].chatTo in rounds[j].ids && rounds[j].log[k].ts > start
    ensures k in Polled(start, rounds).batches[j]
    ensures Times(Flatten(Polled(start, rounds).batches), k) == 1
  {
    LaterIsAbove(start, rounds, j, k);
    hide Batch, Polled, LevelAt, Saved, Flatten, StampedLater, Due, Members;
    RoomForIt(start, rounds, j, k);
    BatchAt(start, rounds, j);
    DeliveredOnce(start, rounds, k);
    TickDelivers(rounds[j].log, rounds[j].ids, LevelAt(start, rounds, j), k);
    InFlatten(Polled(start, rounds).batches, k);
  }

  lemma RoomForIt(start: nat, rounds: seq<Round>, j: nat, k: nat)
    requires j < |rounds| && k < |rounds[j].log| && Roomy(start, rounds)
    requires rounds[j].log[k].chatTo in rounds[j].ids && rounds[j].log[k].ts > LevelAt(start, rounds, j)
    ensures Due(rounds[j].log, rounds[j].ids, LevelAt(start, rounds, j), k)
  {
    hide LevelAt;
    var log, ids, level := rounds[j].log, rounds[j].ids, LevelAt(start, rounds, j);
    var c :| 0 <= c < |ids| && ids[c] == log[k].chatTo;
    assert |Hits(InChat(ids[c], level), log)| <= IDLE_LIMIT;
    hide Roomy, Hits;
    HitAt(InChat(ids[c], level), log, k);
  }

  // ------------------------------------------------------- two ways to be lost

  function Note(chatid: nat, ts: nat): Message {
    Message(Unread, 1, chatid, ts, "")
  }

  function FourNotes(chatid: nat): seq<Message> {
    [Note(chatid, 1), Note(chatid, 2), Note(chatid, 3), Note(chatid, 4)]
  }

  /** A tick on an empty log, and two on the four messages. */
  function FourRounds(chatid: nat): seq<Round> {
    [Round([], [chatid], false), Round(FourNotes(chatid), [chatid], false), Round(FourNotes(chatid), [chatid], false)]
  }

  lemma FourInOrder(chatid: nat)
    ensures Saved(FourRounds(chatid)) && Members(FourRounds(chatid))
    ensures forall i :: 0 <= i < 3 ==> H.InOrder(FourRounds(chatid)[i].log)
  {
  }

  /** Four messages in one chat between two ticks: three arrive and the oldest never does. */
  lemma FourthIsLost(chatid: nat, k: nat)
    requires k < 4
    ensures k in Flatten(Polled(0, FourRounds(chatid)).batches) <==> k > 0
  {
    var rounds := FourRounds(chatid);
    FourInOrder(chatid);
    NothingYet(0, rounds);
    RivalsOf(chatid, FourNotes(chatid));
    hide Polled, Flatten, Rivals, LevelAt, Batch, Saved, Members;
    DeliveredExactly(0, rounds, 1, k);
  }

  /** A tick on an empty log leaves the level where it was. */
  lemma NothingYet(start: nat, rounds: seq<Round>)
    requires rounds != [] && rounds[0].log == []
    ensures LevelAt(start, rounds, 1) == start
  {
    LevelAtStart(start, rounds);
    LevelStep(start, rounds, 0);
    assert |Batch(rounds[0].log, rounds[0].ids, LevelAt(start, rounds, 0))| == 0;
  }

  lemma RivalsOf(chatid: nat, log: seq<Message>)
    requires log == [Note(chatid, 1), Note(chatid, 2), Note(chatid, 3), Note(chatid, 4)]
    ensures Rivals(log, 0, 0) == 3 && Rivals(log, 0, 1) == 2 && Rivals(log, 0, 2) == 1 && Rivals(log, 0, 3) == 0
  {
    var p := InChat(chatid, 0);
    assert log[4..] == [];
    HitsOne(p, log, 3);
    HitsOne(p, log, 2);
    HitsOne(p, log, 1);
  }

  lemma HitsOne(p: Message -> bool, log: seq<Message>, i: nat)
    requires i < |log| && p(log[i])
    ensures |Hits(p, log[i..])| == 1 + |Hits(p, log[i + 1..])|
  {
    assert log[i..] == [log[i]] + log[i + 1..];
    HitsAppend(p, [log[i]], log[i + 1..]);
    assert [log[i]][..0] == [];
  }

  /** A message in the second of one that has been delivered arrives too late. */
  lemma SameSecondIsLost(chatid: nat, ts: nat)
    requires ts > 0
    ensures var log := [Note(chatid, ts), Note(chatid, ts)];
            var rounds := [Round(log[..1], [chatid], false), Round(log, [chatid], false)];
            && Saved(rounds) && Members(rounds) && H.InOrder(log)
            && 0 in Flatten(Polled(0, rounds).batches) && 1 !in Flatten(Polled(0, rounds).batches)
  {
    var log := [Note(chatid, ts), Note(chatid, ts)];
    var rounds := [Round(log[..1], [chatid], false), Round(log, [chatid], false)];
    assert log[..1][1..] == [] && Rivals(log[..1], 0, 0) == 0;
    LevelAtStart(0, rounds);
    hide Polled, Flatten, Rivals, LevelAt, Batch;
    DeliveredExactly(0, rounds, 0, 0);
    LateStampIsLost(0, rounds, 0, 0, 1, 1);
  }
}
