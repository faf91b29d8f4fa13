// The task queue of common/lock_queue.hpp. Each method holds the lock from its first line to its last.
module LockQueue {
  import opened Wrappers

  /** What n single getTask calls in a row would take, and what they would leave. */
  function Singles<T>(q: seq<T>, n: nat): (seq<T>, seq<T>) {
    if n == 0 || q == [] then ([], q)
    else
      var (got, left) := Singles(q[1..], n - 1);
      ([q[0]] + got, left)
  }

  /** They take a prefix, in order, and as much of it as there is. */
  lemma {:induction false} SinglesTakePrefix<T>(q: seq<T>, n: nat)
    ensures var (got, left) := Singles(q, n);
            q == got + left && |got| == Min(n, |q|)
  {
    if n != 0 && q != [] {
      SinglesTakePrefix(q[1..], n - 1);
    }
  }

  lemma SinglesAre<T>(q: seq<T>, n: nat, got: seq<T>, left: seq<T>)
    requires q == got + left && |got| == Min(n, |q|)
    ensures Singles(q, n) == (got, left)
  {
    SinglesTakePrefix(q, n);
    hide Singles;
    var (got', left') := Singles(q, n);
    assert got' == q[..|got|] == got && left' == q[|got|..] == left;
  }

  class Queue<T> {
    var items: seq<T>

    constructor ()
      ensures items == []
    {
      items := [];
    }

    method Push(t: T)
      modifies this
      ensures items == old(items) + [t]
    {
      items := items + [t];
    }

    /** std::queue demands an element. */
    method Pop()
      requires items != []
      modifies this
      ensures old(items) == [old(items)[0]] + items
    {
      items := items[1..];
    }

    function Front(): T
      requires items != []
      reads this
    {
      items[0]
    }

    function Size(): nat
      reads this
    {
      |items|
    }

    /** On an empty queue the caller's variable keeps its value. */
    method GetTask(t: T) returns (ok: bool, task: T)
      modifies this
      ensures ok == (old(items) != [])
      ensures ok ==> old(items) == [task] + items
      ensures !ok ==> task == t && items == old(items)
    {
      if Size() == 0 {
        return false, t;
      }
      task := Front();
      Pop();
      ok := true;
    }

    /** A batch takes what as many single calls would, appended to the caller's vector. */
    method GetTasks(t: seq<T>, n: nat) returns (ok: bool, tasks: seq<T>)
      modifies this
      ensures ok == (old(items) != [])
      ensures (tasks, items) == (t + Singles(old(items), n).0, Singles(old(items), n).1)
    {
      hide Singles;
      tasks := t;
      if Size() == 0 {
        SinglesAre(items, n, [], []);
        assert t + [] == t;
        return false, tasks;
      }
      ok := true;
      var left := n;
      ghost var got: seq<T> := [];
      while left != 0
        invariant 0 <= left <= n && (left != 0 ==> items != [])
        invariant tasks == t + got && |got| == n - left
        invariant old(items) == got + items
        decreases left
      {
        left := left - 1;
        got := got + [Front()];
        tasks := tasks + [Front()];
        assert tasks == t + got;
        Pop();
        if Size() == 0 {
          SinglesAre(old(items), n, got, items);
          return;
        }
      }
      SinglesAre(old(items), n, got, items);
    }
  }
}
