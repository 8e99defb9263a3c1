/**
 * The wait queue of kernel/wait.cpp: a list of entries, the ones that want to be woken alone
 * marked exclusive. Waking walks the list from its head.
 */
module WaitQueue {
  datatype Entry = Entry(thread: nat, exclusive: bool)

  /** How many entries a walk wakes: it stops after the `nr`-th exclusive one. */
  function Cut(q: seq<Entry>, nr: int): (c: nat)
    ensures c <= |q|
  {
    if q == [] then 0
    else if q[0].exclusive && nr == 1 then 1
    else 1 + Cut(q[1..], if q[0].exclusive then nr - 1 else nr)
  }

  function Exclusives(q: seq<Entry>): (n: nat)
    ensures n <= |q|
  {
    if q == [] then 0 else (if q[0].exclusive then 1 else 0) + Exclusives(q[1..])
  }

  function Threads(q: seq<Entry>): (r: set<nat>)
    ensures forall i :: 0 <= i < |q| ==> q[i].thread in r
  {
    set e | e in q :: e.thread
  }

  /** A positive count lets at most that many exclusive entries through, and the walk only
      stops early on the last of them; zero or less wakes everyone. */
  lemma {:induction false} CutExact(q: seq<Entry>, nr: int)
    ensures nr <= 0 ==> Cut(q, nr) == |q|
    ensures nr >= 1 ==> Exclusives(q[..Cut(q, nr)]) <= nr
    ensures Cut(q, nr) < |q| ==> Exclusives(q[..Cut(q, nr)]) == nr && Cut(q, nr) > 0 && q[Cut(q, nr) - 1].exclusive
  {
    if q != [] && !(q[0].exclusive && nr == 1) {
      var nr' := if q[0].exclusive then nr - 1 else nr;
      CutExact(q[1..], nr');
      assert q[..Cut(q, nr)][1..] == q[1..][..Cut(q[1..], nr')];
    } else if q != [] {
      assert q[..1][1..] == [];
    }
  }

  /** No exclusive entry stands before one that is not. */
  predicate Ordered(q: seq<Entry>) {
    forall i, j :: 0 <= i < j < |q| && q[i].exclusive ==> q[j].exclusive
  }

  predicate Plain(q: seq<Entry>) { forall e :: e in q ==> !e.exclusive }

  /** Exactly when the queue is ordered does every positive count wake all the entries that
      are not exclusive. */
  lemma OrderedWakesPlain(q: seq<Entry>)
    ensures Ordered(q) <==> forall nr: int :: nr >= 1 ==> forall e :: e in q[Cut(q, nr)..] ==> e.exclusive
  {
    if Ordered(q) {
      forall nr: int, e | nr >= 1 && e in q[Cut(q, nr)..] ensures e.exclusive {
        CutExact(q, nr);
        var j :| Cut(q, nr) <= j < |q| && q[j] == e;
        assert q[Cut(q, nr) - 1].exclusive;
      }
    } else {
      var i, j :| 0 <= i < j < |q| && q[i].exclusive && !q[j].exclusive;
      FirstStops(q, i);
      assert q[Cut(q, 1)..][j - Cut(q, 1)] == q[j];
    }
  }

  lemma {:induction false} FirstStops(q: seq<Entry>, i: nat)
    requires i < |q| && q[i].exclusive
    ensures 0 < Cut(q, 1) <= i + 1
  {
    if !q[0].exclusive { FirstStops(q[1..], i - 1); }
  }

  /** Without exclusive entries everyone is woken. */
  lemma {:induction false} PlainCut(q: seq<Entry>, nr: int)
    requires Plain(q)
    ensures Cut(q, nr) == |q|
  {
    if q != [] { PlainCut(q[1..], nr); }
  }

  class Queue {
    var tasks: seq<Entry>
    var running: set<nat>

    constructor ()
      ensures tasks == [] && running == {}
    {
      tasks, running := [], {};
    }

    method WakeUpCommon(nr: int)
      modifies this
      ensures tasks == old(tasks)[Cut(old(tasks), nr)..]
      ensures running == old(running) + Threads(old(tasks)[..Cut(old(tasks), nr)])
      ensures Ordered(old(tasks)) ==> Ordered(tasks) && (nr >= 1 ==> forall e :: e in tasks ==> e.exclusive)
    {
      var left, done := nr, false;
      ghost var k := 0;
      while tasks != [] && !done
        invariant k <= |old(tasks)| && tasks == old(tasks)[k..]
        invariant !done ==> Cut(old(tasks), nr) == k + Cut(tasks, left)
        invariant done ==> Cut(old(tasks), nr) == k
        invariant running == old(running) + Threads(old(tasks)[..k])
        decreases |tasks|, !done
      {
        var curr := tasks[0];
        assert old(tasks)[..k + 1] == old(tasks)[..k] + [curr];
        tasks, running, k := tasks[1..], running + {curr.thread}, k + 1;
        if curr.exclusive {
          left := left - 1;
          done := left == 0;
        }
      }
      OrderedWakesPlain(old(tasks));
    }

    /** Joins at the head, not exclusive. */
    method PrepareToWait(t: nat)
      modifies this
      ensures tasks == [Entry(t, false)] + old(tasks) && running == old(running) - {t}
      ensures Ordered(old(tasks)) ==> Ordered(tasks)
    {
      tasks, running := [Entry(t, false)] + tasks, running - {t};
    }

    /** Joins at the tail, exclusive. */
    method PrepareToWaitExclusive(t: nat)
      modifies this
      ensures tasks == old(tasks) + [Entry(t, true)] && running == old(running) - {t}
      ensures Ordered(old(tasks)) ==> Ordered(tasks)
    {
      tasks, running := tasks + [Entry(t, true)], running - {t};
    }

    /** A poller joins at the head although it is exclusive: the order survives only if every
        other waiter is exclusive too. */
    method MultiWait(t: nat)
      modifies this
      ensures tasks == [Entry(t, true)] + old(tasks) && running == old(running) - {t}
      ensures Ordered(tasks) <==> forall e :: e in old(tasks) ==> e.exclusive
    {
      tasks, running := [Entry(t, true)] + tasks, running - {t};
      AheadOfAll(old(tasks), t);
    }

    /** The entry leaves the list if it is still on it; the others keep their places. */
    method Finish(e: Entry)
      modifies this
      ensures multiset(tasks) == multiset(old(tasks)) - multiset{e}
      ensures Ordered(old(tasks)) ==> Ordered(tasks)
      ensures running == old(running) + {e.thread}
    {
      running := running + {e.thread};
      if e in tasks {
        var i :| 0 <= i < |tasks| && tasks[i] == e;
        Unlinked(tasks, i);
        tasks := tasks[..i] + tasks[i + 1..];
      }
    }
  }

  lemma AheadOfAll(q: seq<Entry>, t: nat)
    ensures Ordered([Entry(t, true)] + q) <==> forall e :: e in q ==> e.exclusive
  {
    var q' := [Entry(t, true)] + q;
    if Ordered(q') {
      forall e | e in q ensures e.exclusive {
        var j :| 0 <= j < |q| && q[j] == e;
        assert q'[0].exclusive && q'[j + 1] == e;
      }
    }
  }

  lemma Unlinked(q: seq<Entry>, i: nat)
    requires i < |q|
    ensures var q' := q[..i] + q[i + 1..];
            multiset(q') == multiset(q) - multiset{q[i]} && (Ordered(q) ==> Ordered(q'))
  {
    var q' := q[..i] + q[i + 1..];
    assert q == q[..i] + [q[i]] + q[i + 1..];
    assert forall j :: 0 <= j < |q'| ==> q'[j] == q[if j < i then j else j + 1];
  }
}
