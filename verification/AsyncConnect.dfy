// RangeConnectOp of net/async_connect.hpp: try the endpoints one after the other, report once.
module AsyncConnect {
  import opened Wrappers
  import opened ErrorCodes

  /** What the system answers for each endpoint: to opening a socket for it, and to connecting. */
  datatype Net = Net(opening: nat -> ErrorCode, connecting: nat -> ErrorCode)

  datatype Report = Report(ec: ErrorCode, endpoint: Option<nat>)

  /** The one operation the io_service holds: a connect, or a posted call of the handler. */
  datatype Pending = Idle | Connect | Post(report: Report)

  datatype Op = Op(index: nat, pending: Pending, tried: seq<nat>, reports: seq<Report>)

  /** start_connect. A socket that does not open ends the search at once. */
  function Attempt(net: Net, op: Op): Op {
    var ec := net.opening(op.index);
    if !ec.Success? then op.(pending := Post(Report(ec, None)))
    else op.(pending := Connect, tried := op.tried + [op.index])
  }

  /** The next callback: operator(), or the posted handler. */
  function Callback(n: nat, net: Net, op: Op): Op
    requires !op.pending.Idle?
  {
    if op.pending.Post? then op.(pending := Idle, reports := op.reports + [op.pending.report])
    else
      var ec := net.connecting(op.index);
      if ec.Success? || ec.OperationAborted? then
        op.(pending := Idle, reports := op.reports + [Report(ec, if ec.Success? then Some(op.index) else None)])
      else if op.index + 1 < n then Attempt(net, op.(index := op.index + 1))
      else op.(index := op.index + 1, pending := Idle, reports := op.reports + [Report(ec, None)])
  }

  /** What is left of a run: the endpoints, then the pending call. */
  function Measure(n: nat, op: Op): nat {
    (if op.index < n then 2 * (n - op.index) else 0) + (if op.pending.Connect? then 1 else 0)
  }

  predicate Valid(n: nat, op: Op) {
    op.pending.Idle? || op.index < n
  }

  /** Callbacks until nothing is pending. */
  function Completed(n: nat, net: Net, op: Op): Op
    requires Valid(n, op)
    decreases Measure(n, op), if op.pending.Idle? then 0 else 1
  {
    if op.pending.Idle? then op else Completed(n, net, Callback(n, net, op))
  }

  const FRESH := Op(0, Idle, [], [])

  // --------------------------------------------------- what is promised of it

  /** The search goes on behind an endpoint only after a connect that failed, and was not aborted. */
  predicate PassedOver(net: Net, i: nat) {
    net.opening(i).Success? && !net.connecting(i).Success? && !net.connecting(i).OperationAborted?
  }

  /** The endpoint at which a run over n endpoints ends. */
  ghost predicate EndsAt(n: nat, net: Net, k: nat) {
    k < n && (forall i :: 0 <= i < k ==> PassedOver(net, i)) && (k + 1 == n || !PassedOver(net, k))
  }

  function Upto(k: nat): seq<nat> {
    seq(k, i requires 0 <= i < k => i)
  }

  function ReportAt(net: Net, k: nat): Report {
    if !net.opening(k).Success? then Report(net.opening(k), None)
    else Report(net.connecting(k), if net.connecting(k).Success? then Some(k) else None)
  }

  lemma {:induction false} CompletesAt(n: nat, net: Net, op: Op)
    requires op.pending.Connect? && op.index < n && net.opening(op.index).Success?
    requires op.tried == Upto(op.index + 1) && op.reports == []
    requires forall i :: 0 <= i < op.index ==> PassedOver(net, i)
    ensures exists k: nat :: EndsAt(n, net, k)
                        && Completed(n, net, op).reports == [ReportAt(net, k)]
                        && Completed(n, net, op).tried == Upto(if net.opening(k).Success? then k + 1 else k)
    decreases n - op.index
  {
    var k := op.index;
    var next := Callback(n, net, op);
    if PassedOver(net, k) && k + 1 < n {
      if net.opening(k + 1).Success? {
        CompletesAt(n, net, next);
      } else {
        assert EndsAt(n, net, k + 1);
        assert Completed(n, net, next) == Callback(n, net, next);
      }
    } else {
      assert EndsAt(n, net, k);
      assert next.reports == [ReportAt(net, k)];
      assert Completed(n, net, op) == next;
    }
  }

  /** For every non-empty list and whatever the system answers: the endpoints are tried in order and at most
      once each, the handler is called exactly once, and with what the endpoint reports where the search ended. */
  lemma HandlerOnce(n: nat, net: Net)
    requires n > 0
    ensures var end := Completed(n, net, Attempt(net, FRESH));
            exists k: nat :: EndsAt(n, net, k)
                        && end.reports == [ReportAt(net, k)]
                        && end.tried == Upto(if net.opening(k).Success? then k + 1 else k)
  {
    var op := Attempt(net, FRESH);
    if net.opening(0).Success? {
      CompletesAt(n, net, op);
    } else {
      assert EndsAt(n, net, 0);
      assert Completed(n, net, op) == Callback(n, net, op);
    }
  }

  /** The search ends at one endpoint only, so a success is the first endpoint that connects, reported exactly
      when every one before it was passed over. */
  lemma SuccessIsFirst(n: nat, net: Net, k: nat)
    requires n > 0
    ensures Completed(n, net, Attempt(net, FRESH)).reports == [Report(Success, Some(k))]
       <==> (k < n && net.opening(k).Success? && net.connecting(k).Success?
             && forall i :: 0 <= i < k ==> PassedOver(net, i))
  {
    HandlerOnce(n, net);
    hide Completed;
    var j: nat :| EndsAt(n, net, j) && Completed(n, net, Attempt(net, FRESH)).reports == [ReportAt(net, j)];
    if k < n && net.connecting(k).Success? && forall i :: 0 <= i < k ==> PassedOver(net, i) {
      assert EndsAt(n, net, k);
      assert j == k by {
        assert j < k ==> PassedOver(net, j);
        assert k < j ==> PassedOver(net, k);
      }
    }
  }

  // --------------------------------------------------------------- the class

  class RangeConnectOp<Endpoint> {
    const endpoints: seq<Endpoint>
    var index: nat
    ghost var pending: Pending
    ghost var tried: seq<nat>
    ghost var reports: seq<Report>

    ghost function State(): Op
      reads this
    {
      Op(index, pending, tried, reports)
    }

    constructor (endpoints: seq<Endpoint>)
      ensures State() == FRESH && this.endpoints == endpoints
    {
      this.endpoints := endpoints;
      index, pending, tried, reports := 0, Idle, [], [];
    }

    method Start(net: Net)
      requires endpoints != [] && State() == FRESH
      modifies this
      ensures State() == Attempt(net, FRESH)
    {
      StartConnect(net);
    }

    method StartConnect(net: Net)
      modifies this
      ensures State() == Attempt(net, old(State()))
    {
      var ec := net.opening(index);
      if !ec.Success? {
        pending := Post(Report(ec, None));
        return;
      }
      tried := tried + [index];
      pending := Connect;
    }

    /** operator() */
    method Call(net: Net)
      requires pending.Connect? && index < |endpoints|
      modifies this
      ensures State() == Callback(|endpoints|, net, old(State()))
    {
      var ec := net.connecting(index);
      if ec.Success? || ec.OperationAborted? {
        Handler(ec, if ec.Success? then Some(index) else None);
        return;
      }
      index := index + 1;
      if index != |endpoints| {
        StartConnect(net);
      } else {
        Handler(ec, None);
      }
    }

    /** The caller's handler. */
    method Handler(ec: ErrorCode, endpoint: Option<nat>)
      modifies this`pending, this`reports
      ensures pending == Idle && reports == old(reports) + [Report(ec, endpoint)]
    {
      pending := Idle;
      reports := reports + [Report(ec, endpoint)];
    }
  }
}
