// USER_HISTORY of server/src/database_worker.cpp: two limited selections, merged, sorted and cut, against
// the plain question "the newest `count` messages of this conversation".
module History {
  import opened Wrappers
  import opened Tables
  import opened Worker

  ghost predicate Descending(ms: seq<Message>) {
    forall i, j :: 0 <= i < j < |ms| ==> ms[i].ts >= ms[j].ts
  }

  /** Messages in the log in the order of their stamps. */
  ghost predicate InOrder(log: seq<Message>) {
    forall i, j :: 0 <= i < j < |log| ==> log[i].ts <= log[j].ts
  }

  /** std::sort: the same elements, newest first, in any order among equals. */
  ghost predicate Sorts(sort: seq<Message> -> seq<Message>) {
    forall ms :: multiset(sort(ms)) == multiset(ms) && Descending(sort(ms))
  }

  /** r is the newest `count` of all: that many, newest first, none of them twice, none left out that is newer. */
  ghost predicate IsTop(r: seq<Message>, all: multiset<Message>, count: nat) {
    && Descending(r)
    && |r| == Min(count, |all|)
    && multiset(r) <= all
    && forall m, x :: m in all - multiset(r) && x in r ==> m.ts <= x.ts
  }

  // ------------------------------------------------------- cutting and merging

  lemma SubSize(a: multiset<Message>, b: multiset<Message>)
    requires a <= b
    ensures |a| <= |b| && (|a| == |b| ==> a == b)
  {
    assert b == a + (b - a);
    if |a| == |b| {
      assert b - a == multiset{};
    }
  }

  lemma Split(ms: seq<Message>, n: nat)
    requires n <= |ms|
    ensures multiset(ms) == multiset(ms[..n]) + multiset(ms[n..])
  {
    assert ms == ms[..n] + ms[n..];
  }

  lemma Rest(a: multiset<Message>, b: multiset<Message>)
    ensures (a + b) - a == b && a <= a + b
  {
  }

  lemma FrontAboveBack(sorted: seq<Message>, n: nat, m: Message, x: Message)
    requires Descending(sorted) && n <= |sorted| && m in multiset(sorted[n..]) && x in sorted[..n]
    ensures m.ts <= x.ts
  {
    assert m in sorted[n..];
  }

  /** Sorting all and cutting is the top, when nothing was cut before. */
  lemma CutIsTop(sorted: seq<Message>, count: nat)
    requires Descending(sorted)
    ensures IsTop(if |sorted| <= count then sorted else sorted[..count], multiset(sorted), count)
  {
    var n := Min(|sorted|, count);
    Split(sorted, n);
    Rest(multiset(sorted[..n]), multiset(sorted[n..]));
    assert |multiset(sorted)| == |sorted|;
    assert |sorted| <= count ==> sorted[..n] == sorted;
    assert Descending(sorted[..n]);
    forall m, x | m in multiset(sorted) - multiset(sorted[..n]) && x in sorted[..n]
      ensures m.ts <= x.ts
    {
      FrontAboveBack(sorted, n, m, x);
    }
  }

  /** In a sorted list, what is older than all of a part stands behind the whole part. */
  lemma BehindAll(sorted: seq<Message>, part: seq<Message>, i: nat, ts: nat)
    requires Descending(sorted) && i < |sorted| && sorted[i].ts < ts
    requires multiset(part) <= multiset(sorted)
    requires forall k :: 0 <= k < |part| ==> part[k].ts >= ts
    ensures |part| <= i
  {
    Split(sorted, i);
    forall e | e in multiset(part)
      ensures multiset(sorted[i..])[e] == 0
    {
      assert e in part;
      assert forall k :: i <= k < |sorted| ==> sorted[k].ts < ts;
      assert e !in sorted[i..];
    }
    assert multiset(part) <= multiset(sorted[..i]);
    SubSize(multiset(part), multiset(sorted[..i]));
  }

  /** Whatever a limit of at least `count` drops from a direction, the cut would have dropped too. */
  lemma LimitedMergeIsTop(sort: seq<Message> -> seq<Message>, from: seq<Message>, to: seq<Message>, limit: nat,
                          count: nat)
    requires Sorts(sort) && Descending(from) && Descending(to)
    requires limit == 0 || limit >= count
    ensures IsTop(Mix(sort, Limited(from, limit), Limited(to, limit), count), multiset(from) + multiset(to), count)
  {
    var f, t := Limited(from, limit), Limited(to, limit);
    var sorted := sort(f + t);
    assert multiset(sorted) == multiset(f + t) && Descending(sorted);
    SameSize(sorted, f, t);
    Split(from, |f|);
    Split(to, |t|);
    CutIsTop(sorted, count);
    hide Sorts, Limited;
    MergedIsTop(sorted, f, from, t, to, count, Mix(sort, f, t, count));
  }

  lemma MergedIsTop(sorted: seq<Message>, f: seq<Message>, from: seq<Message>, t: seq<Message>, to: seq<Message>,
                    count: nat, r: seq<Message>)
    requires Descending(sorted) && Descending(from) && Descending(to)
    requires f <= from && (f == from || |f| >= count) && multiset(from) == multiset(f) + multiset(from[|f|..])
    requires t <= to && (t == to || |t| >= count) && multiset(to) == multiset(t) + multiset(to[|t|..])
    requires multiset(sorted) == multiset(f) + multiset(t) && |sorted| == |f| + |t|
    requires IsTop(r, multiset(sorted), count) && r == if |sorted| <= count then sorted else sorted[..count]
    ensures IsTop(r, multiset(from) + multiset(to), count)
  {
    hide Descending;
    var all := multiset(from) + multiset(to);
    assert |all| == |from| + |to|;
    assert multiset(sorted) <= all;
    forall m, x | m in all - multiset(r) && x in r
      ensures m.ts <= x.ts
    {
      if m !in multiset(sorted) - multiset(r) {
        assert m in multiset(from[|f|..]) + multiset(to[|t|..]);
        var i :| 0 <= i < |r| && r[i] == x;
        assert sorted[i] == x;
        DroppedIsOlder(sorted, f, from, t, to, count, m, x);
      }
    }
  }

  lemma SameSize(sorted: seq<Message>, f: seq<Message>, t: seq<Message>)
    requires multiset(sorted) == multiset(f + t)
    ensures |sorted| == |f| + |t| && multiset(sorted) == multiset(f) + multiset(t)
  {
    assert |multiset(sorted)| == |sorted| && |multiset(f + t)| == |f + t|;
  }

  lemma DroppedIsOlder(sorted: seq<Message>, f: seq<Message>, from: seq<Message>, t: seq<Message>, to: seq<Message>,
                       count: nat, m: Message, x: Message)
    requires Descending(sorted) && Descending(from) && Descending(to)
    requires multiset(sorted) == multiset(f) + multiset(t)
    requires f <= from && (f == from || |f| >= count)
    requires t <= to && (t == to || |t| >= count)
    requires m in from[|f|..] || m in to[|t|..]
    requires exists i :: 0 <= i < |sorted| && i < count && sorted[i] == x
    ensures m.ts <= x.ts
  {
    var i :| 0 <= i < |sorted| && i < count && sorted[i] == x;
    if x.ts < m.ts {
      if m in from[|f|..] {
        assert forall k :: 0 <= k < |f| ==> f[k] == from[k] && f[k].ts >= m.ts;
        BehindAll(sorted, f, i, m.ts);
      } else {
        assert forall k :: 0 <= k < |t| ==> t[k] == to[k] && t[k].ts >= m.ts;
        BehindAll(sorted, t, i, m.ts);
      }
    }
  }

  /** mix_from_and_to_messages: one vector, sorted in place, and its front. */
  method MixFromAndToMessages(sort: seq<Message> -> seq<Message>, from: seq<Message>, to: seq<Message>, max: nat)
    returns (ret: seq<Message>)
    requires Sorts(sort)
    ensures IsTop(ret, multiset(from) + multiset(to), max)
    ensures ret == Mix(sort, from, to, max)
  {
    var tmp: seq<Message> := [];
    tmp := tmp + from;
    tmp := tmp + to;
    assert tmp == from + to;
    tmp := sort(tmp);
    SameSize(tmp, from, to);
    CutIsTop(tmp, max);
    if |tmp| <= max {
      return tmp;
    }
    ret := tmp[..max];
  }

  // ---------------------------------------------------------- the two queries

  /** The plain query: every message between the two users. */
  function Between(user: User, other: User): Message -> bool {
    (m: Message) => FromTo(user, other)(m) || FromTo(other, user)(m)
  }

  function Matching(p: Message -> bool, log: seq<Message>): seq<Message> {
    HitsAre(p, log);
    Pick(log, Hits(p, log))
  }

  function Selected(p: Message -> bool, log: seq<Message>, limit: nat): seq<Message> {
    Pick(log, Newest(p, log, limit))
  }

  /** What USER_HISTORY computes from the two states of the log its two selections see. */
  function Answer(h: Host, logTo: seq<Message>, logFrom: seq<Message>, user: User, other: User, count: nat)
    : seq<Message>
  {
    Mix(h.sort,
        Selected(FromTo(other, user), logFrom, HistoryLimit(count)),
        Selected(FromTo(user, other), logTo, HistoryLimit(count)),
        count)
  }

  /** The two selecting steps of the worker are this function of what each of them reads. */
  lemma AnswerIsTwoSteps(h: Host, s: Storage, s': Storage, t: Task, user: User, other: User, now: nat)
    ensures Step(h, s', t, Step(h, s, t, SelectTo(user, other), now).1, now).1
         == Formatting(Answer(h, s.messages, s'.messages, user, other, t.count), [], None,
                       ByQuery(user, other, s.messages, s'.messages))
  {
    hide Mix, Newest, Pick, HistoryLimit;
  }

  lemma SelectedIsLimited(p: Message -> bool, log: seq<Message>, limit: nat)
    ensures Selected(p, log, limit) == Limited(Matching(p, log), limit)
  {
    HitsAre(p, log);
  }

  lemma MatchingDescends(p: Message -> bool, log: seq<Message>)
    requires InOrder(log)
    ensures Descending(Matching(p, log))
  {
    HitsAre(p, log);
    hide Hits;
  }

  lemma {:induction false} MatchingGrows(p: Message -> bool, log: seq<Message>)
    requires log != []
    ensures var n := |log| - 1;
            Matching(p, log) == (if p(log[n]) then [log[n]] else []) + Matching(p, log[..n])
  {
    HitsAre(p, log[..|log| - 1]);
    PickStep(log, Hits(p, log[..|log| - 1]));
    hide Pick;
  }

  lemma {:induction false} ConversationIsBoth(log: seq<Message>, user: User, other: User)
    requires user.id != other.id
    ensures multiset(Matching(Between(user, other), log))
         == multiset(Matching(FromTo(user, other), log)) + multiset(Matching(FromTo(other, user), log))
  {
    if log != [] {
      hide Matching;
      ConversationIsBoth(log[..|log| - 1], user, other);
      MatchingGrows(Between(user, other), log);
      MatchingGrows(FromTo(user, other), log);
      MatchingGrows(FromTo(other, user), log);
    } else {
      assert Matching(Between(user, other), []) == [];
    }
  }

  /** Two users, a count the doubling does not overflow: the answer is the top of what its selections saw. */
  lemma AnswerIsTop(h: Host, logTo: seq<Message>, logFrom: seq<Message>, user: User, other: User, count: nat)
    requires Sorts(h.sort) && InOrder(logTo) && InOrder(logFrom)
    requires HistoryLimit(count) == 0 || HistoryLimit(count) >= count
    ensures IsTop(Answer(h, logTo, logFrom, user, other, count),
                  multiset(Matching(FromTo(other, user), logFrom)) + multiset(Matching(FromTo(user, other), logTo)),
                  count)
  {
    hide Matching, IsTop, Selected, Sorts, HistoryLimit, FromTo;
    MatchingDescends(FromTo(other, user), logFrom);
    MatchingDescends(FromTo(user, other), logTo);
    SelectedIsLimited(FromTo(other, user), logFrom, HistoryLimit(count));
    SelectedIsLimited(FromTo(user, other), logTo, HistoryLimit(count));
    LimitedMergeIsTop(h.sort, Matching(FromTo(other, user), logFrom), Matching(FromTo(user, other), logTo),
                      HistoryLimit(count), count);
  }

  /** The law of the history query: on every log in order the answer is the top of the conversation. */
  ghost predicate Lawful(h: Host, user: User, other: User, count: nat) {
    forall log :: InOrder(log) ==>
      IsTop(Answer(h, log, log, user, other, count), multiset(Matching(Between(user, other), log)), count)
  }

  /** Exactly when the law holds: counts come as 32-bit numbers, and a query of oneself doubles every message. */
  lemma LawfulExactly(h: Host, user: User, other: User, count: nat)
    requires Sorts(h.sort) && count < 0x1_0000_0000
    requires user.id == other.id ==> user.selfChatId == other.selfChatId
    ensures Lawful(h, user, other, count) <==> count <= 1 || (user.id != other.id && count <= 0x8000_0000)
  {
    hide IsTop, Answer, Matching, Between, Sorts;
    if count <= 1 || (user.id != other.id && count <= 0x8000_0000) {
      forall log | InOrder(log)
        ensures IsTop(Answer(h, log, log, user, other, count), multiset(Matching(Between(user, other), log)), count)
      {
        LawHolds(h, log, user, other, count);
      }
    } else if user.id == other.id {
      SelfQueryDoubles(h, user, other, count);
    } else {
      OverflowFallsShort(h, user, other, count);
    }
  }

  lemma LawHolds(h: Host, log: seq<Message>, user: User, other: User, count: nat)
    requires Sorts(h.sort) && InOrder(log)
    requires user.id == other.id ==> user.selfChatId == other.selfChatId
    requires count <= 1 || (user.id != other.id && count <= 0x8000_0000)
    ensures IsTop(Answer(h, log, log, user, other, count), multiset(Matching(Between(user, other), log)), count)
  {
    var a, b := multiset(Matching(FromTo(user, other), log)), multiset(Matching(FromTo(other, user), log));
    hide IsTop, Answer, Matching, Between, Sorts, FromTo;
    AnswerIsTop(h, log, log, user, other, count);
    if user.id != other.id {
      ConversationIsBoth(log, user, other);
      assert a + b == b + a;
    } else {
      OwnConversation(log, user, other);
      DoubledTop(Answer(h, log, log, user, other, count), a, count);
    }
  }

  /** A user looked up twice is the same sender and the same target, whatever its heartbeat has become. */
  lemma {:induction false} OwnConversation(log: seq<Message>, user: User, other: User)
    requires user.id == other.id && user.selfChatId == other.selfChatId
    ensures Matching(Between(user, other), log) == Matching(FromTo(user, other), log)
    ensures Matching(FromTo(other, user), log) == Matching(FromTo(user, other), log)
  {
    if log != [] {
      hide Matching;
      OwnConversation(log[..|log| - 1], user, other);
      MatchingGrows(Between(user, other), log);
      MatchingGrows(FromTo(user, other), log);
      MatchingGrows(FromTo(other, user), log);
    }
  }

  lemma DoubledTop(r: seq<Message>, all: multiset<Message>, count: nat)
    requires count <= 1 && IsTop(r, all + all, count)
    ensures IsTop(r, all, count)
  {
    if r != [] {
      assert r == [r[0]];
      assert r[0] in all;
    }
  }

  lemma {:induction false} Repeated(p: Message -> bool, m: Message, n: nat)
    requires p(m)
    ensures Matching(p, seq(n, _ => m)) == seq(n, _ => m)
  {
    if n > 0 {
      var log := seq(n, _ => m);
      assert log[..n - 1] == seq(n - 1, _ => m);
      Repeated(p, m, n - 1);
      hide Matching;
      MatchingGrows(p, log);
    }
  }

  /** One message to oneself is returned twice. */
  lemma SelfQueryDoubles(h: Host, user: User, other: User, count: nat)
    requires Sorts(h.sort) && 2 <= count < 0x1_0000_0000
    requires user.id == other.id && user.selfChatId == other.selfChatId
    ensures !Lawful(h, user, other, count)
  {
    var m := Message(Unread, user.id, user.selfChatId, 0, "");
    var log := seq(1, _ => m);
    Repeated(FromTo(user, other), m, 1);
    Repeated(FromTo(other, user), m, 1);
    Repeated(Between(user, other), m, 1);
    hide Matching, Sorts;
    SelectedIsLimited(FromTo(user, other), log, HistoryLimit(count));
    SelectedIsLimited(FromTo(other, user), log, HistoryLimit(count));
    hide Selected;
    var both := Limited([m], HistoryLimit(count)) + Limited([m], HistoryLimit(count));
    SortedSize(h.sort, both);
    assert InOrder(log);
    assert log == [m];
  }

  lemma SortedSize(sort: seq<Message> -> seq<Message>, ms: seq<Message>)
    requires Sorts(sort)
    ensures |sort(ms)| == |ms|
  {
    assert |multiset(sort(ms))| == |sort(ms)| && |multiset(ms)| == |ms|;
  }

  /** Beyond 2^31 the doubled count wraps around and fewer messages come back than were asked for. */
  lemma OverflowFallsShort(h: Host, user: User, other: User, count: nat)
    requires Sorts(h.sort) && user.id != other.id && 0x8000_0000 < count < 0x1_0000_0000
    ensures !Lawful(h, user, other, count)
  {
    var limit := HistoryLimit(count);
    assert 0 < limit < count;
    var m := Message(Unread, user.id, other.selfChatId, 0, "");
    var log := seq(limit + 1, _ => m);
    Repeated(FromTo(user, other), m, limit + 1);
    Repeated(Between(user, other), m, limit + 1);
    Unmatched(FromTo(other, user), m, limit + 1);
    hide Matching, Sorts, HistoryLimit, Between;
    SelectedIsLimited(FromTo(user, other), log, limit);
    SelectedIsLimited(FromTo(other, user), log, limit);
    hide Selected;
    SortedSize(h.sort, [] + Limited(log, limit));
    assert InOrder(log);
  }

  lemma {:induction false} Unmatched(p: Message -> bool, m: Message, n: nat)
    requires !p(m)
    ensures Matching(p, seq(n, _ => m)) == []
  {
    if n > 0 {
      var log := seq(n, _ => m);
      assert log[..n - 1] == seq(n - 1, _ => m);
      Unmatched(p, m, n - 1);
      hide Matching;
      MatchingGrows(p, log);
    }
  }
}
