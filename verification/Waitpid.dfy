/** The exit/waitpid handshake: a list of zombies and a list of waiters under one lock.

    Each action is what a thread does between two points where the lock is free.  Waits
    are not interrupted, so a process exits only when none of its threads is waiting. */
module Waitpid {
  import opened Counts
  import opened Options

  type Pid = nat

  const INIT: Pid := 1

  datatype Stage = Alive | Exiting | Left

  /** `seeking` is waitpid's argument; the entry is on the waiter list until caught. */
  datatype Waiter = Waiter(thread: nat, seeking: int)

  datatype Pc =
    | Running
    | Waiting(seeking: int, caught: Option<Pid>, asleep: bool)
    | Reaping(zombie: Pid)

  /** `wakes` are the threads an exiting process still has to wake up; `reaped` records each
      reaped process with the process that reaped it and its parent at that moment. */
  datatype State = State(
    parent: map<Pid, Pid>,
    group: map<Pid, int>,
    stage: map<Pid, Stage>,
    proc: map<nat, Pid>,
    pc: map<nat, Pc>,
    zombies: seq<Pid>,
    waiters: seq<Waiter>,
    wakes: set<nat>,
    reaped: seq<(Pid, Pid, Pid)>)

  datatype Action =
    | Wait(thread: nat, seeking: int, nohang: bool)
    | Exit(pid: Pid)
    | Zombify(pid: Pid)
    | Wake(thread: nat)
    | Resume(thread: nat)
    | Reap(thread: nat)
    | SetGroup(pid: Pid, group: int)

  predicate Known(s: State, p: Pid) { p in s.parent && p in s.group && p in s.stage }

  /** Only a parent may reap; -1 seeks any child, less than -1 a process group. */
  predicate CanReap(s: State, reaper: Pid, z: Pid, seeking: int)
    requires Known(s, z)
  {
    s.parent[z] == reaper && (z == seeking || seeking == -1 || (seeking < -1 && s.group[z] == -seeking))
  }

  function FindZombie(s: State, reaper: Pid, seeking: int, i: nat): (k: nat)
    requires i <= |s.zombies| && forall z :: z in s.zombies ==> Known(s, z)
    ensures i <= k <= |s.zombies|
    ensures k < |s.zombies| ==> CanReap(s, reaper, s.zombies[k], seeking)
    ensures forall j :: i <= j < k ==> !CanReap(s, reaper, s.zombies[j], seeking)
    decreases |s.zombies| - i
  {
    if i == |s.zombies| || CanReap(s, reaper, s.zombies[i], seeking) then i else FindZombie(s, reaper, seeking, i + 1)
  }

  function FindWaiter(s: State, z: Pid, i: nat): (k: nat)
    requires i <= |s.waiters| && Known(s, z) && forall w :: w in s.waiters ==> w.thread in s.proc
    ensures i <= k <= |s.waiters|
    ensures k < |s.waiters| ==> CanReap(s, s.proc[s.waiters[k].thread], z, s.waiters[k].seeking)
    ensures forall j :: i <= j < k ==> !CanReap(s, s.proc[s.waiters[j].thread], z, s.waiters[j].seeking)
    decreases |s.waiters| - i
  {
    if i == |s.waiters| || CanReap(s, s.proc[s.waiters[i].thread], z, s.waiters[i].seeking) then i
    else FindWaiter(s, z, i + 1)
  }

  function Drop<T>(xs: seq<T>, i: nat): seq<T>
    requires i < |xs|
  {
    xs[..i] + xs[i + 1..]
  }

  function Goto(s: State, t: nat, pc: Pc): State { s.(pc := s.pc[t := pc]) }

  predicate WellFormed(s: State) {
    && (forall t :: t in s.pc ==> t in s.proc && Known(s, s.proc[t]))
    && (forall z :: z in s.zombies ==> Known(s, z))
    && (forall w :: w in s.waiters ==> w.thread in s.pc)
    && s.parent.Keys == s.group.Keys == s.stage.Keys
  }

  predicate RunningThread(s: State, t: nat)
    requires WellFormed(s)
  {
    t in s.pc && s.pc[t].Running? && s.stage[s.proc[t]] == Alive
  }

  /** One action; None when it is not enabled. */
  function Next(s: State, a: Action): Option<State>
    requires WellFormed(s)
  {
    match a
    case Wait(t, seeking, nohang) => if RunningThread(s, t) then Some(DoWait(s, t, seeking, nohang)) else None
    case Exit(p) =>
      if && p in s.stage && p != INIT && s.stage[p] == Alive
         && (forall t :: t in s.pc && s.proc[t] == p ==> s.pc[t].Running?)
      then Some(s.(stage := s.stage[p := Exiting])) else None
    case Zombify(p) => if p in s.stage && s.stage[p] == Exiting then Some(DoZombify(s, p)) else None
    case Wake(t) =>
      if t in s.wakes && t in s.pc && s.pc[t].Waiting?
      then Some(Goto(s, t, s.pc[t].(asleep := false)).(wakes := s.wakes - {t})) else None
    case Resume(t) =>
      if t in s.pc && s.pc[t].Waiting? && !s.pc[t].asleep && s.pc[t].caught.Some?
      then Some(Goto(s, t, Reaping(s.pc[t].caught.value))) else None
    case Reap(t) => if t in s.pc && s.pc[t].Reaping? then Some(DoReap(s, t)) else None
    case SetGroup(p, g) => if p in s.group then Some(s.(group := s.group[p := g])) else None
  }

  /** Unknown pids and process groups are turned down; otherwise take a matching zombie,
      or give up, or join the waiters. */
  function DoWait(s: State, t: nat, seeking: int, nohang: bool): State
    requires WellFormed(s) && RunningThread(s, t)
  {
    if seeking > 0 && !(seeking in s.stage && Present(s, seeking)) then s
    else if seeking < -1 then s
    else
      var k := FindZombie(s, s.proc[t], seeking, 0);
      if k < |s.zombies| then Goto(s, t, Reaping(s.zombies[k])).(zombies := Drop(s.zombies, k))
      else if nohang then s
      else Goto(s, t, Waiting(seeking, None, true)).(waiters := [Waiter(t, seeking)] + s.waiters)
  }

  /** A process is in the process table until it is reaped. */
  predicate Present(s: State, p: Pid) { forall r :: r in s.reaped ==> r.0 != p }

  /** Hand the process to the first waiter that may reap it, or leave it on the list. */
  function DoZombify(s: State, p: Pid): State
    requires WellFormed(s) && p in s.stage
  {
    var s' := s.(stage := s.stage[p := Left]);
    var k := FindWaiter(s, p, 0);
    if k < |s.waiters| then
      var w := s.waiters[k];
      Goto(s', w.thread, Waiting(w.seeking, Some(p), true))
        .(waiters := Drop(s.waiters, k), wakes := s.wakes + {w.thread})
    else s'.(zombies := s.zombies + [p])
  }

  /** The children of a reaped process go to init. */
  function Reparented(parent: map<Pid, Pid>, z: Pid): map<Pid, Pid> {
    map c | c in parent :: if parent[c] == z then INIT else parent[c]
  }

  function DoReap(s: State, t: nat): State
    requires WellFormed(s) && t in s.pc && s.pc[t].Reaping?
  {
    var z := s.pc[t].zombie;
    Goto(s, t, Running).(
      parent := Reparented(s.parent, z),
      reaped := s.reaped + [(z, s.proc[t], if z in s.parent then s.parent[z] else 0)])
  }

  // -------------------------------------------------------------------------
  // What the steps do, case by case

  /** waitpid(`seeking`) by process `me` asks for `z`: any child, or the one child it names. */
  ghost predicate Wants(s: State, me: Pid, seeking: int, z: Pid) {
    z in s.parent && s.parent[z] == me && (seeking == -1 || seeking == z)
  }

  ghost predicate FirstZombie(s: State, me: Pid, seeking: int, k: nat) {
    && k < |s.zombies| && Wants(s, me, seeking, s.zombies[k])
    && forall j :: 0 <= j < k ==> !Wants(s, me, seeking, s.zombies[j])
  }

  ghost predicate FirstWaiter(s: State, p: Pid, k: nat)
    requires WellFormed(s)
  {
    && k < |s.waiters| && s.waiters[k] in s.waiters
    && Wants(s, s.proc[s.waiters[k].thread], s.waiters[k].seeking, p)
    && forall j :: 0 <= j < k ==>
         s.waiters[j] in s.waiters && !Wants(s, s.proc[s.waiters[j].thread], s.waiters[j].seeking, p)
  }

  /** A pid that is not in the process table, and a process group, are turned down at once. */
  lemma WaitRefuses(s: State, t: nat, seeking: int, nohang: bool)
    requires WellFormed(s) && RunningThread(s, t)
    requires seeking < -1 || (seeking > 0 && (seeking !in s.stage || exists r :: r in s.reaped && r.0 == seeking))
    ensures Next(s, Wait(t, seeking, nohang)) == Some(s)
  {
  }

  /** Otherwise the zombie it asks for that left first is taken off the list; without one the
      call returns at once if told not to hang, and else sleeps on the waiter list. */
  lemma WaitFinds(s: State, t: nat, seeking: int, nohang: bool)
    requires WellFormed(s) && RunningThread(s, t) && seeking >= -1
    requires seeking > 0 ==> seeking in s.stage && Present(s, seeking)
    ensures var r, me := Next(s, Wait(t, seeking, nohang)), s.proc[t];
            && (forall k: nat :: FirstZombie(s, me, seeking, k) ==>
                  r == Some(s.(zombies := s.zombies[..k] + s.zombies[k + 1..], pc := s.pc[t := Reaping(s.zombies[k])])))
            && ((forall z :: z in s.zombies ==> !Wants(s, me, seeking, z)) ==>
                  r == Some(if nohang then s
                            else s.(pc := s.pc[t := Waiting(seeking, None, true)],
                                    waiters := [Waiter(t, seeking)] + s.waiters)))
  {
    forall z | z in s.zombies ensures CanReap(s, s.proc[t], z, seeking) <==> Wants(s, s.proc[t], seeking, z) {
      assert Known(s, z);
    }
    var n := FindZombie(s, s.proc[t], seeking, 0);
    if n < |s.zombies| { assert s.zombies[n] in s.zombies; }
  }

  /** A process that leaves goes to the waiter nearest the head of the list that asks for it and
      is going to be woken, or behind all other zombies. */
  lemma LeaveFinds(s: State, p: Pid)
    requires WellFormed(s) && p in s.stage && s.stage[p] == Exiting
    requires forall w :: w in s.waiters ==> w.seeking >= -1
    ensures var r, left := Next(s, Zombify(p)), s.(stage := s.stage[p := Left]);
            && (forall k: nat :: FirstWaiter(s, p, k) ==>
                  var w := s.waiters[k];
                  r == Some(left.(pc := s.pc[w.thread := Waiting(w.seeking, Some(p), true)],
                                  waiters := s.waiters[..k] + s.waiters[k + 1..], wakes := s.wakes + {w.thread})))
            && ((forall w :: w in s.waiters ==> !Wants(s, s.proc[w.thread], w.seeking, p)) ==>
                  r == Some(left.(zombies := s.zombies + [p])))
  {
    forall w | w in s.waiters
      ensures CanReap(s, s.proc[w.thread], p, w.seeking) <==> Wants(s, s.proc[w.thread], w.seeking, p)
    {
      assert w.seeking >= -1;
    }
    var n := FindWaiter(s, p, 0);
    if n < |s.waiters| { assert s.waiters[n] in s.waiters; }
  }

  /** A reaped process is recorded with its reaper, and its children go to process 1. */
  lemma ReapDoes(s: State, t: nat)
    requires WellFormed(s) && t in s.pc && s.pc[t].Reaping? && s.pc[t].zombie in s.parent
    ensures var r, z := Next(s, Reap(t)), s.pc[t].zombie;
            && r.Some? && r.value.pc == s.pc[t := Running] && r.value.parent.Keys == s.parent.Keys
            && r.value.reaped == s.reaped + [(z, s.proc[t], s.parent[z])]
            && (forall c :: c in s.parent ==> r.value.parent[c] == if s.parent[c] == z then 1 else s.parent[c])
            && r.value.zombies == s.zombies && r.value.waiters == s.waiters && r.value.wakes == s.wakes
  {
  }

  // -------------------------------------------------------------------------
  // The invariant

  /** The process a thread has caught or is reaping. */
  function Held(pc: Pc): Option<Pid> {
    match pc
    case Running => None
    case Waiting(_, caught, _) => caught
    case Reaping(z) => Some(z)
  }

  ghost predicate Holder(s: State, t: nat, p: Pid) { t in s.pc && Held(s.pc[t]) == Some(p) }

  ghost function Holders(s: State, p: Pid): set<nat> { set t | t in s.pc && Held(s.pc[t]) == Some(p) }

  function Pids(reaped: seq<(Pid, Pid, Pid)>): seq<Pid> { seq(|reaped|, i requires 0 <= i < |reaped| => reaped[i].0) }

  /** How often a process is on the zombie list, caught or being reaped, or reaped. */
  ghost function Places(s: State, p: Pid): nat {
    multiset(s.zombies)[p] + |Holders(s, p)| + multiset(Pids(s.reaped))[p]
  }

  predicate HasLeft(s: State, p: Pid) { p in s.stage && s.stage[p] == Left }

  /** Every process that has left is in exactly one place, and no other process in any. */
  ghost predicate OnePlace(s: State) { forall p :: Places(s, p) == One(HasLeft(s, p)) }

  /** Only parents catch and reap, and a thread in waitpid belongs to a living process. */
  ghost predicate ByParent(s: State)
    requires WellFormed(s)
  {
    && (forall t, p :: Holder(s, t, p) ==> p in s.parent && s.parent[p] == s.proc[t])
    && (forall i :: 0 <= i < |s.reaped| ==> s.reaped[i].1 == s.reaped[i].2)
    && (forall t :: t in s.pc && !s.pc[t].Running? ==> s.stage[s.proc[t]] == Alive)
  }

  /** The waiter list holds exactly the threads that sleep without having caught anything;
      a thread that has caught something is awake or about to be woken. */
  ghost predicate NoLostWake(s: State) {
    && (forall i :: 0 <= i < |s.waiters| ==>
          var w := s.waiters[i];
          w.thread in s.pc && s.pc[w.thread] == Waiting(w.seeking, None, true) && w.seeking >= -1)
    && (forall i, j :: 0 <= i < j < |s.waiters| ==> s.waiters[i].thread != s.waiters[j].thread)
    && (forall t :: t in s.pc && s.pc[t].Waiting? && s.pc[t].caught.None? ==> Waiter(t, s.pc[t].seeking) in s.waiters)
    && (forall t :: t in s.pc && s.pc[t].Waiting? && s.pc[t].asleep && s.pc[t].caught.Some? ==> t in s.wakes)
    && (forall t :: t in s.wakes ==> t in s.pc && s.pc[t].Waiting? && s.pc[t].asleep && s.pc[t].caught.Some?)
  }

  ghost predicate Invariant(s: State) { WellFormed(s) && OnePlace(s) && ByParent(s) && NoLostWake(s) }

  /** No listed waiter could reap a listed zombie. */
  ghost predicate NoPair(s: State)
    requires WellFormed(s)
  {
    forall w, z :: w in s.waiters && z in s.zombies ==> !CanReap(s, s.proc[w.thread], z, w.seeking)
  }

  // -------------------------------------------------------------------------
  // Every action keeps it

  lemma Moved(s: State, s': State, t: nat, p: Pid)
    requires t in s.pc && t in s'.pc && s'.pc == s.pc[t := s'.pc[t]]
    ensures |Holders(s', p)| == |Holders(s, p)| - One(Held(s.pc[t]) == Some(p)) + One(Held(s'.pc[t]) == Some(p))
  {
    var before, after := Holders(s, p), Holders(s', p);
    assert after == before - {t} + if Held(s'.pc[t]) == Some(p) then {t} else {};
    assert t in before <==> Held(s.pc[t]) == Some(p);
  }

  lemma Dropped(xs: seq<Pid>, k: nat, p: Pid)
    requires k < |xs|
    ensures multiset(Drop(xs, k))[p] == multiset(xs)[p] - One(xs[k] == p)
    ensures forall x :: x in Drop(xs, k) ==> x in xs
  {
    assert xs == xs[..k] + [xs[k]] + xs[k + 1..];
  }

  lemma Pushed(xs: seq<Pid>, x: Pid, p: Pid)
    ensures multiset(xs + [x])[p] == multiset(xs)[p] + One(x == p)
  {
  }

  lemma Logged(log: seq<(Pid, Pid, Pid)>, r: (Pid, Pid, Pid), p: Pid)
    ensures multiset(Pids(log + [r]))[p] == multiset(Pids(log))[p] + One(r.0 == p)
  {
    assert Pids(log + [r]) == Pids(log) + [r.0];
  }

  /** A held process has left. */
  lemma HeldHasLeft(s: State, t: nat, p: Pid)
    requires OnePlace(s) && Holder(s, t, p)
    ensures HasLeft(s, p)
  {
    assert t in Holders(s, p);
    assert Places(s, p) == One(HasLeft(s, p));
  }

  // ---- where processes are

  lemma TakePlaces(s: State, s': State, t: nat, k: nat)
    requires OnePlace(s) && t in s.pc && s.pc[t].Running? && k < |s.zombies|
    requires s' == Goto(s, t, Reaping(s.zombies[k])).(zombies := Drop(s.zombies, k))
    ensures OnePlace(s')
  {
    hide Holders;
    forall p ensures Places(s', p) == One(HasLeft(s', p)) {
      assert Places(s, p) == One(HasLeft(s, p));
      Moved(s, s', t, p);
      Dropped(s.zombies, k, p);
    }
  }

  /** A thread moves on without its catch changing, and so do other parts of the state. */
  lemma SamePlaces(s: State, s': State, t: nat)
    requires OnePlace(s) && t in s.pc && t in s'.pc && s'.pc == s.pc[t := s'.pc[t]] && Held(s'.pc[t]) == Held(s.pc[t])
    requires s'.zombies == s.zombies && s'.reaped == s.reaped
    requires forall p :: HasLeft(s', p) == HasLeft(s, p)
    ensures OnePlace(s')
  {
    hide Holders;
    forall p ensures Places(s', p) == One(HasLeft(s', p)) {
      assert Places(s, p) == One(HasLeft(s, p));
      Moved(s, s', t, p);
    }
  }

  lemma StagePlaces(s: State, s': State)
    requires OnePlace(s) && s'.pc == s.pc && s'.zombies == s.zombies && s'.reaped == s.reaped
    requires forall p :: HasLeft(s', p) == HasLeft(s, p)
    ensures OnePlace(s')
  {
    forall p ensures Places(s', p) == One(HasLeft(s', p)) {
      assert Places(s, p) == One(HasLeft(s, p));
      assert Holders(s', p) == Holders(s, p);
    }
  }

  lemma CatchPlaces(s: State, s': State, z: Pid, t: nat)
    requires OnePlace(s) && z in s.stage && s.stage[z] == Exiting && t in s.pc && t in s'.pc
    requires Held(s.pc[t]) == None && Held(s'.pc[t]) == Some(z) && s'.pc == s.pc[t := s'.pc[t]]
    requires s'.zombies == s.zombies && s'.reaped == s.reaped && s'.stage == s.stage[z := Left]
    ensures OnePlace(s')
  {
    hide Holders;
    forall p ensures Places(s', p) == One(HasLeft(s', p)) {
      assert Places(s, p) == One(HasLeft(s, p));
      Moved(s, s', t, p);
    }
  }

  lemma ListPlaces(s: State, s': State, z: Pid)
    requires OnePlace(s) && z in s.stage && s.stage[z] == Exiting
    requires s'.pc == s.pc && s'.zombies == s.zombies + [z] && s'.reaped == s.reaped && s'.stage == s.stage[z := Left]
    ensures OnePlace(s')
  {
    forall p ensures Places(s', p) == One(HasLeft(s', p)) {
      assert Places(s, p) == One(HasLeft(s, p));
      assert Holders(s', p) == Holders(s, p);
      Pushed(s.zombies, z, p);
    }
  }

  lemma ReapPlaces(s: State, s': State, t: nat, r: (Pid, Pid, Pid))
    requires OnePlace(s) && t in s.pc && Held(s.pc[t]) == Some(r.0) && s'.pc == s.pc[t := Running]
    requires s'.zombies == s.zombies && s'.stage == s.stage && s'.reaped == s.reaped + [r]
    ensures OnePlace(s')
  {
    hide Holders;
    forall p ensures Places(s', p) == One(HasLeft(s', p)) {
      assert Places(s, p) == One(HasLeft(s, p));
      Moved(s, s', t, p);
      Logged(s.reaped, r, p);
    }
  }

  // ---- the actions

  lemma TakeKeeps(s: State, s': State, t: nat, k: nat)
    requires Invariant(s) && RunningThread(s, t) && k < |s.zombies| && Known(s, s.zombies[k])
    requires s.parent[s.zombies[k]] == s.proc[t]
    requires s' == Goto(s, t, Reaping(s.zombies[k])).(zombies := Drop(s.zombies, k))
    ensures Invariant(s')
  {
    hide OnePlace, Drop;
    TakePlaces(s, s', t, k);
    assert forall x :: x in s'.zombies ==> x in s.zombies by { Dropped(s.zombies, k, 0); }
    assert ByParent(s') by { hide NoLostWake; }
    assert NoLostWake(s') by { hide ByParent; }
  }

  lemma JoinKeeps(s: State, s': State, t: nat, seeking: int)
    requires Invariant(s) && RunningThread(s, t) && seeking >= -1
    requires s' == Goto(s, t, Waiting(seeking, None, true)).(waiters := [Waiter(t, seeking)] + s.waiters)
    ensures Invariant(s')
  {
    hide OnePlace;
    SamePlaces(s, s', t);
    assert ByParent(s') by { hide NoLostWake; }
    assert NoLostWake(s') by {
      hide ByParent;
      assert forall i :: 0 < i < |s'.waiters| ==> s'.waiters[i] == s.waiters[i - 1];
    }
  }

  lemma WaitKeeps(s: State, t: nat, seeking: int, nohang: bool)
    requires Invariant(s) && RunningThread(s, t)
    ensures Invariant(DoWait(s, t, seeking, nohang))
  {
    hide OnePlace, ByParent, NoLostWake;
    var s' := DoWait(s, t, seeking, nohang);
    if s' != s {
      var k := FindZombie(s, s.proc[t], seeking, 0);
      if k < |s.zombies| {
        TakeKeeps(s, s', t, k);
      } else {
        JoinKeeps(s, s', t, seeking);
      }
    }
  }

  lemma ExitKeeps(s: State, p: Pid)
    requires Invariant(s) && Next(s, Exit(p)).Some?
    ensures Invariant(Next(s, Exit(p)).value)
  {
    hide OnePlace;
    StagePlaces(s, Next(s, Exit(p)).value);
  }

  lemma CatchKeeps(s: State, s': State, z: Pid, k: nat)
    requires Invariant(s) && Known(s, z) && s.stage[z] == Exiting && k < |s.waiters|
    requires s.parent[z] == s.proc[s.waiters[k].thread]
    requires s' == Goto(s, s.waiters[k].thread, Waiting(s.waiters[k].seeking, Some(z), true))
                     .(stage := s.stage[z := Left], waiters := Drop(s.waiters, k),
                       wakes := s.wakes + {s.waiters[k].thread})
    ensures Invariant(s')
  {
    hide OnePlace, Drop;
    assert s.waiters[k].thread in s.pc && s.pc[s.waiters[k].thread] == Waiting(s.waiters[k].seeking, None, true);
    CatchPlaces(s, s', z, s.waiters[k].thread);
    CatchWakes(s, s', z, k);
    assert ByParent(s') by { hide NoLostWake; }
  }

  lemma ListFormed(s: State, s': State, z: Pid)
    requires WellFormed(s) && Known(s, z) && s' == s.(stage := s.stage[z := Left], zombies := s.zombies + [z])
    ensures WellFormed(s')
  {
  }

  lemma ListParent(s: State, s': State, z: Pid)
    requires WellFormed(s) && WellFormed(s') && ByParent(s) && z in s.stage && s.stage[z] == Exiting
    requires s' == s.(stage := s.stage[z := Left], zombies := s.zombies + [z])
    ensures ByParent(s')
  {
    hide WellFormed;
    assert forall t, p :: Holder(s', t, p) ==> Holder(s, t, p);
  }

  lemma ListKeeps(s: State, s': State, z: Pid)
    requires Invariant(s) && Known(s, z) && s.stage[z] == Exiting
    requires s' == s.(stage := s.stage[z := Left], zombies := s.zombies + [z])
    ensures Invariant(s')
  {
    hide OnePlace, NoLostWake, WellFormed, ByParent;
    ListPlaces(s, s', z);
    SameWakes(s, s');
    ListFormed(s, s', z);
    ListParent(s, s', z);
  }

  lemma SameWakes(s: State, s': State)
    requires NoLostWake(s) && s'.pc == s.pc && s'.waiters == s.waiters && s'.wakes == s.wakes
    ensures NoLostWake(s')
  {
  }

  lemma ZombifyKeeps(s: State, z: Pid)
    requires Invariant(s) && z in s.stage && s.stage[z] == Exiting
    ensures Invariant(DoZombify(s, z))
  {
    hide OnePlace, ByParent, NoLostWake;
    var s', k := DoZombify(s, z), FindWaiter(s, z, 0);
    if k < |s.waiters| {
      CatchKeeps(s, s', z, k);
    } else {
      ListKeeps(s, s', z);
    }
  }

  lemma DropWaiter(xs: seq<Waiter>, k: nat)
    requires k < |xs|
    ensures |Drop(xs, k)| == |xs| - 1
    ensures forall i :: 0 <= i < |xs| - 1 ==> Drop(xs, k)[i] == xs[if i < k then i else i + 1]
    ensures forall w :: w in Drop(xs, k) ==> w in xs
    ensures forall w :: w in xs && w != xs[k] ==> w in Drop(xs, k)
  {
    var ys := Drop(xs, k);
    forall w | w in xs && w != xs[k] ensures w in ys {
      var i :| 0 <= i < |xs| && xs[i] == w;
      assert ys[if i < k then i else i - 1] == w;
    }
  }

  /** The listed waiters, one thread each, asleep and empty-handed. */
  lemma CatchListed(s: State, s': State, z: Pid, k: nat)
    requires NoLostWake(s) && k < |s.waiters|
    requires s'.pc == s.pc[s.waiters[k].thread := Waiting(s.waiters[k].seeking, Some(z), true)]
    requires |s'.waiters| == |s.waiters| - 1
    requires forall i :: 0 <= i < |s'.waiters| ==> s'.waiters[i] == s.waiters[if i < k then i else i + 1]
    ensures forall i :: 0 <= i < |s'.waiters| ==>
              var w := s'.waiters[i];
              w.thread in s'.pc && s'.pc[w.thread] == Waiting(w.seeking, None, true) && w.seeking >= -1
    ensures forall i, j :: 0 <= i < j < |s'.waiters| ==> s'.waiters[i].thread != s'.waiters[j].thread
  {
    forall i | 0 <= i < |s'.waiters|
      ensures var w := s'.waiters[i];
              w.thread in s'.pc && s'.pc[w.thread] == Waiting(w.seeking, None, true) && w.seeking >= -1
    {
      var i' := if i < k then i else i + 1;
      assert s.waiters[i'].thread != s.waiters[k].thread;
    }
    forall i, j | 0 <= i < j < |s'.waiters| ensures s'.waiters[i].thread != s'.waiters[j].thread {
      var i', j' := if i < k then i else i + 1, if j < k then j else j + 1;
      assert s.waiters[i'].thread != s.waiters[j'].thread;
    }
  }

  lemma CatchWakes(s: State, s': State, z: Pid, k: nat)
    requires WellFormed(s) && NoLostWake(s) && k < |s.waiters|
    requires s'.pc == s.pc[s.waiters[k].thread := Waiting(s.waiters[k].seeking, Some(z), true)]
    requires s'.waiters == Drop(s.waiters, k) && s'.wakes == s.wakes + {s.waiters[k].thread}
    ensures NoLostWake(s') && forall w :: w in s'.waiters ==> w in s.waiters
  {
    hide WellFormed;
    DropWaiter(s.waiters, k);
    CatchListed(s, s', z, k);
    forall t | t in s'.pc && s'.pc[t].Waiting? && s'.pc[t].caught.None?
      ensures Waiter(t, s'.pc[t].seeking) in s'.waiters
    {
      assert Waiter(t, s.pc[t].seeking) in s.waiters;
    }
  }

  lemma WakeKeeps(s: State, t: nat)
    requires Invariant(s) && Next(s, Wake(t)).Some?
    ensures Invariant(Next(s, Wake(t)).value)
  {
    hide OnePlace;
    SamePlaces(s, Next(s, Wake(t)).value, t);
  }

  lemma ResumeKeeps(s: State, t: nat)
    requires Invariant(s) && Next(s, Resume(t)).Some?
    ensures Invariant(Next(s, Resume(t)).value)
  {
    hide OnePlace;
    SamePlaces(s, Next(s, Resume(t)).value, t);
  }

  lemma ReapKeeps(s: State, t: nat)
    requires Invariant(s) && t in s.pc && s.pc[t].Reaping?
    ensures Invariant(DoReap(s, t))
  {
    hide OnePlace;
    var s', z := DoReap(s, t), s.pc[t].zombie;
    assert Holder(s, t, z);
    HeldHasLeft(s, t, z);
    ReapPlaces(s, s', t, (z, s.proc[t], s.parent[z]));
    forall u, p | Holder(s', u, p) ensures p in s'.parent && s'.parent[p] == s'.proc[u] {
      assert Holder(s, u, p);
    }
  }

  lemma GroupKeeps(s: State, p: Pid, g: int)
    requires Invariant(s) && p in s.group
    ensures Invariant(s.(group := s.group[p := g]))
  {
    hide OnePlace;
    StagePlaces(s, s.(group := s.group[p := g]));
  }

  lemma StepInvariant(s: State, a: Action)
    requires Invariant(s) && Next(s, a).Some?
    ensures Invariant(Next(s, a).value)
  {
    hide OnePlace, ByParent, NoLostWake, DoWait, DoZombify, DoReap;
    match a
    case Wait(t, seeking, nohang) => WaitKeeps(s, t, seeking, nohang);
    case Exit(p) => ExitKeeps(s, p);
    case Zombify(p) => ZombifyKeeps(s, p);
    case Wake(t) => WakeKeeps(s, t);
    case Resume(t) => ResumeKeeps(s, t);
    case Reap(t) => ReapKeeps(s, t);
    case SetGroup(p, g) => GroupKeeps(s, p, g);
  }

  // -------------------------------------------------------------------------
  // No matching pair

  lemma PairFrame(s: State, s': State)
    requires WellFormed(s) && WellFormed(s') && NoPair(s)
    requires s'.parent == s.parent && s'.proc == s.proc
    requires forall w :: w in s'.waiters ==> w in s.waiters && w.seeking >= -1
    requires forall z :: z in s'.zombies ==> z in s.zombies
    ensures NoPair(s')
  {
    forall w, z | w in s'.waiters && z in s'.zombies ensures !CanReap(s', s'.proc[w.thread], z, w.seeking) {
      assert !CanReap(s, s.proc[w.thread], z, w.seeking);
    }
  }

  lemma WaitPair(s: State, t: nat, seeking: int, nohang: bool)
    requires Invariant(s) && NoPair(s) && RunningThread(s, t)
    ensures WellFormed(DoWait(s, t, seeking, nohang)) && NoPair(DoWait(s, t, seeking, nohang))
  {
    hide OnePlace, ByParent;
    var s' := DoWait(s, t, seeking, nohang);
    WaitKeeps(s, t, seeking, nohang);
    if s' != s {
      var k := FindZombie(s, s.proc[t], seeking, 0);
      if k < |s.zombies| {
        Dropped(s.zombies, k, 0);
        PairFrame(s, s');
      } else {
        forall w, z | w in s'.waiters && z in s'.zombies ensures !CanReap(s', s'.proc[w.thread], z, w.seeking) {
          if w == Waiter(t, seeking) {
            var i :| 0 <= i < |s.zombies| && s.zombies[i] == z;
            assert !CanReap(s, s.proc[t], s.zombies[i], seeking);
          } else {
            assert !CanReap(s, s.proc[w.thread], z, w.seeking);
          }
        }
      }
    }
  }

  lemma ZombifyPair(s: State, p: Pid)
    requires Invariant(s) && NoPair(s) && p in s.stage && s.stage[p] == Exiting
    ensures WellFormed(DoZombify(s, p)) && NoPair(DoZombify(s, p))
  {
    hide OnePlace, ByParent;
    var s', k := DoZombify(s, p), FindWaiter(s, p, 0);
    ZombifyKeeps(s, p);
    if k < |s.waiters| {
      CatchWakes(s, s', p, k);
      PairFrame(s, s');
    } else {
      forall w, z | w in s'.waiters && z in s'.zombies ensures !CanReap(s', s'.proc[w.thread], z, w.seeking) {
        if z == p {
          var i :| 0 <= i < |s.waiters| && s.waiters[i] == w;
          assert !CanReap(s, s.proc[s.waiters[i].thread], p, s.waiters[i].seeking);
        } else {
          assert !CanReap(s, s.proc[w.thread], z, w.seeking);
        }
      }
    }
  }

  /** Reaping moves the children of the reaped process to init, and does not look at the
      lists again.  Exactly then a pair can appear. */
  ghost predicate Orphans(s: State, t: nat)
    requires WellFormed(s) && t in s.pc && s.pc[t].Reaping?
  {
    exists w, c :: w in s.waiters && c in s.zombies && s.parent[c] == s.pc[t].zombie
                   && s.proc[w.thread] == INIT && (c == w.seeking || w.seeking == -1)
  }

  lemma ReapPair(s: State, t: nat)
    requires Invariant(s) && NoPair(s) && t in s.pc && s.pc[t].Reaping?
    ensures WellFormed(DoReap(s, t)) && (NoPair(DoReap(s, t)) <==> !Orphans(s, t))
  {
    hide OnePlace, ByParent;
    var s', z := DoReap(s, t), s.pc[t].zombie;
    ReapKeeps(s, t);
    forall w, c | w in s.waiters && c in s.zombies
      ensures CanReap(s', s'.proc[w.thread], c, w.seeking) <==>
                s.parent[c] == z && s.proc[w.thread] == INIT && (c == w.seeking || w.seeking == -1)
    {
      assert !CanReap(s, s.proc[w.thread], c, w.seeking);
    }
  }

  /** Group changes do no harm, because group waits are never listed. */
  lemma StepPair(s: State, a: Action)
    requires Invariant(s) && NoPair(s) && Next(s, a).Some?
    requires a.Reap? ==> !Orphans(s, a.thread)
    ensures WellFormed(Next(s, a).value) && NoPair(Next(s, a).value)
  {
    hide OnePlace, ByParent, DoWait, DoZombify, DoReap, CanReap, NoPair;
    StepInvariant(s, a);
    match a
    case Wait(t, seeking, nohang) => WaitPair(s, t, seeking, nohang);
    case Zombify(p) => ZombifyPair(s, p);
    case Reap(t) => ReapPair(s, t);
    case _ => PairFrame(s, Next(s, a).value);
  }

  // -------------------------------------------------------------------------
  // Whole runs

  function Run(s: State, acts: seq<Action>): (r: Option<State>)
    requires Invariant(s)
    ensures r.Some? ==> Invariant(r.value)
    decreases |acts|
  {
    if acts == [] then Some(s) else
    if Next(s, acts[0]).None? then None else
    StepInvariant(s, acts[0]);
    Run(Next(s, acts[0]).value, acts[1..])
  }

  /** Before anyone waits or exits. */
  ghost predicate Fresh(s: State) {
    && WellFormed(s)
    && (forall p :: p in s.stage ==> s.stage[p] == Alive) && (forall t :: t in s.pc ==> s.pc[t].Running?)
    && s.zombies == [] && s.waiters == [] && s.wakes == {} && s.reaped == []
  }

  lemma FreshInvariant(s: State)
    requires Fresh(s)
    ensures Invariant(s) && NoPair(s)
  {
    forall p ensures Places(s, p) == 0 {
      assert Holders(s, p) == {};
      assert Pids(s.reaped) == [];
    }
  }

  /** In every reachable state each process was reaped at most once, and by its parent. */
  lemma ReapedOnce(s: State, acts: seq<Action>)
    requires Fresh(s) && Invariant(s) && Run(s, acts).Some?
    ensures var log := Run(s, acts).value.reaped;
            && (forall i, j :: 0 <= i < j < |log| ==> log[i].0 != log[j].0)
            && (forall i :: 0 <= i < |log| ==> log[i].1 == log[i].2)
  {
    hide Run;
    var s' := Run(s, acts).value;
    var log := s'.reaped;
    forall i, j | 0 <= i < j < |log| ensures log[i].0 != log[j].0 {
      assert Places(s', log[i].0) <= 1;
      if log[i].0 == log[j].0 { TwiceIn(Pids(log), i, j); }
    }
  }

  lemma TwiceIn(xs: seq<Pid>, i: nat, j: nat)
    requires i < j < |xs| && xs[i] == xs[j]
    ensures multiset(xs)[xs[i]] >= 2
  {
    assert xs == xs[..j] + [xs[j]] + xs[j + 1..];
    assert xs[..j][i] == xs[i];
  }

  /** A woken waiter always finds a process, so it never goes round again. */
  lemma WokenHasCaught(s: State, t: nat)
    requires Invariant(s) && t in s.pc && s.pc[t].Waiting? && !s.pc[t].asleep
    ensures s.pc[t].caught.Some?
  {
  }

  ghost predicate NoOrphans(s: State, acts: seq<Action>)
    requires Invariant(s)
    decreases |acts|
  {
    acts != [] && Next(s, acts[0]).Some? ==>
      && (acts[0].Reap? ==> !Orphans(s, acts[0].thread))
      && (StepInvariant(s, acts[0]); NoOrphans(Next(s, acts[0]).value, acts[1..]))
  }

  /** Unless a reaped process leaves a zombie to a waiting init, a waiter and a zombie it
      may reap are never both listed. */
  lemma {:induction false} RunPair(s: State, acts: seq<Action>)
    requires Invariant(s) && NoPair(s) && NoOrphans(s, acts) && Run(s, acts).Some?
    ensures NoPair(Run(s, acts).value)
    decreases |acts|
  {
    hide NoPair, Next, OnePlace, ByParent, NoLostWake, Orphans;
    if acts != [] {
      StepInvariant(s, acts[0]);
      StepPair(s, acts[0]);
      RunPair(Next(s, acts[0]).value, acts[1..]);
    }
  }

  // -------------------------------------------------------------------------
  // A waiter left behind

  /** Processes 1 to 3, each the parent of the next; threads 10 and 11 belong to init. */
  function Family(p3: Pid, s2: Stage, s3: Stage, a: Pc, b: Pc, zombies: seq<Pid>, waiters: seq<Waiter>,
                  reaped: seq<(Pid, Pid, Pid)>): State {
    State(map[1 := 0, 2 := 1, 3 := p3], map[1 := 1, 2 := 1, 3 := 1], map[1 := Alive, 2 := s2, 3 := s3],
          map[10 := 1, 11 := 1], map[10 := a, 11 := b], zombies, waiters, {}, reaped)
  }

  /** 3 exits; init waits for 3 in vain, since 2 is the parent; 2 exits and init reaps it. */
  const STRAND := [Exit(3), Zombify(3), Wait(10, 3, false), Exit(2), Zombify(2), Wait(11, -1, false), Reap(11)]

  function Strand(n: nat): State {
    var w, p := Waiter(10, 3), Waiting(3, None, true);
    if n == 0 then Family(2, Alive, Alive, Running, Running, [], [], [])
    else if n == 1 then Family(2, Alive, Exiting, Running, Running, [], [], [])
    else if n == 2 then Family(2, Alive, Left, Running, Running, [3], [], [])
    else if n == 3 then Family(2, Alive, Left, p, Running, [3], [w], [])
    else if n == 4 then Family(2, Exiting, Left, p, Running, [3], [w], [])
    else if n == 5 then Family(2, Left, Left, p, Running, [3, 2], [w], [])
    else if n == 6 then Family(2, Left, Left, p, Reaping(2), [3], [w], [])
    else Family(1, Left, Left, p, Running, [3], [w], [(2, 1, 1)])
  }

  lemma StrandFormed(n: nat)
    ensures WellFormed(Strand(n))
  {
  }

  lemma Strand0()
    ensures WellFormed(Strand(0)) && Next(Strand(0), STRAND[0]) == Some(Strand(1))
  {
    hide WellFormed, DoWait, DoZombify, DoReap, RunningThread;
    StrandFormed(0);
    var s, t := Strand(0), Strand(1);
    assert s.(stage := s.stage[3 := Exiting]) == t;
  }

  lemma Strand1()
    ensures WellFormed(Strand(1)) && Next(Strand(1), STRAND[1]) == Some(Strand(2))
  {
    hide WellFormed, DoWait, DoReap, RunningThread;
    StrandFormed(1);
    var s, t := Strand(1), Strand(2);
    assert FindWaiter(s, 3, 0) == 0;
    assert DoZombify(s, 3) == t;
  }

  lemma Strand2()
    ensures WellFormed(Strand(2)) && Next(Strand(2), STRAND[2]) == Some(Strand(3))
  {
    hide WellFormed, DoZombify, DoReap;
    StrandFormed(2);
    var s, t := Strand(2), Strand(3);
    assert FindZombie(s, 1, 3, 0) == 1;
    assert DoWait(s, 10, 3, false) == t;
  }

  lemma Strand3()
    ensures WellFormed(Strand(3)) && Next(Strand(3), STRAND[3]) == Some(Strand(4))
  {
    hide WellFormed, DoWait, DoZombify, DoReap, RunningThread;
    StrandFormed(3);
    var s, t := Strand(3), Strand(4);
    assert s.(stage := s.stage[2 := Exiting]) == t;
  }

  lemma Strand4()
    ensures WellFormed(Strand(4)) && Next(Strand(4), STRAND[4]) == Some(Strand(5))
  {
    hide WellFormed, DoWait, DoReap, RunningThread;
    StrandFormed(4);
    var s, t := Strand(4), Strand(5);
    assert FindWaiter(s, 2, 0) == 1;
    assert DoZombify(s, 2) == t;
  }

  lemma Strand5()
    ensures WellFormed(Strand(5)) && Next(Strand(5), STRAND[5]) == Some(Strand(6))
  {
    hide WellFormed, DoZombify, DoReap;
    StrandFormed(5);
    var s, t := Strand(5), Strand(6);
    assert FindZombie(s, 1, -1, 0) == 1;
    assert Drop([3, 2], 1) == [3];
    assert DoWait(s, 11, -1, false) == t;
  }

  lemma Strand6()
    ensures WellFormed(Strand(6)) && Next(Strand(6), STRAND[6]) == Some(Strand(7))
  {
    hide WellFormed, DoWait, DoZombify, RunningThread;
    StrandFormed(6);
    var s, t := Strand(6), Strand(7);
    assert Reparented(s.parent, 2) == t.parent;
    assert DoReap(s, 11) == t;
  }

  lemma StrandBegins()
    ensures Fresh(Strand(0))
  {
    hide WellFormed;
    StrandFormed(0);
  }

  lemma StrandEnds()
    ensures WellFormed(Strand(7)) && !NoPair(Strand(7))
    ensures 10 in Strand(7).pc && Strand(7).pc[10] == Waiting(3, None, true) && Strand(7).wakes == {}
  {
    hide WellFormed;
    StrandFormed(7);
    assert Waiter(10, 3) in Strand(7).waiters && 3 in Strand(7).zombies;
    assert CanReap(Strand(7), 1, 3, 3);
  }

  /** Seven steps from a fresh state, thread 10 sleeps on the waiter list, nobody is going to
      wake it, and the zombie it waits for sits on the other list. */
  lemma Stranded()
    ensures Fresh(Strand(0))
    ensures forall n :: 0 <= n < 7 ==>
              WellFormed(Strand(n)) && Next(Strand(n), STRAND[n]) == Some(Strand(n + 1))
    ensures WellFormed(Strand(7)) && !NoPair(Strand(7))
    ensures 10 in Strand(7).pc && Strand(7).pc[10] == Waiting(3, None, true) && Strand(7).wakes == {}
  {
    hide Strand, Next, WellFormed, NoPair, Fresh;
    StrandBegins();
    StrandEnds();
    forall n | 0 <= n < 7 ensures WellFormed(Strand(n)) && Next(Strand(n), STRAND[n]) == Some(Strand(n + 1)) {
      if n == 0 { Strand0(); }
      else if n == 1 { Strand1(); }
      else if n == 2 { Strand2(); }
      else if n == 3 { Strand3(); }
      else if n == 4 { Strand4(); }
      else if n == 5 { Strand5(); }
      else { Strand6(); }
    }
  }

  lemma TakenOut(xs: seq<Pid>, k: nat)
    requires k < |xs|
    ensures multiset(Drop(xs, k)) == multiset(xs) - multiset{xs[k]}
  {
    assert xs == xs[..k] + [xs[k]] + xs[k + 1..];
  }

  // -------------------------------------------------------------------------
  // The two critical sections on the lists

  class Lists {
    var st: State

    constructor (st: State)
      requires Fresh(st)
      ensures this.st == st && Invariant(this.st) && NoPair(this.st)
    {
      this.st := st;
      FreshInvariant(st);
    }

    /** The first turn of waitpid under the lock: caught, refused, or on the waiter list. */
    method WaitPid(t: nat, seeking: int, nohang: bool) returns (caught: Option<Pid>)
      requires Invariant(st) && RunningThread(st, t)
      modifies this
      ensures st == DoWait(old(st), t, seeking, nohang) && Invariant(st)
      ensures caught.Some? ==>
                && st.pc[t] == Reaping(caught.value) && CanReap(old(st), old(st.proc)[t], caught.value, seeking)
                && multiset(st.zombies) == multiset(old(st.zombies)) - multiset{caught.value}
      ensures old(NoPair(st)) ==> NoPair(st)
    {
      hide OnePlace, ByParent, NoLostWake, NoPair;
      WaitKeeps(st, t, seeking, nohang);
      if NoPair(st) { WaitPair(st, t, seeking, nohang); }
      caught := None;
      if seeking > 0 && !(seeking in st.stage && Present(st, seeking)) { return; }
      if seeking < -1 { return; }
      var me, i := st.proc[t], 0;
      while i < |st.zombies| && !CanReap(st, me, st.zombies[i], seeking)
        invariant 0 <= i <= |st.zombies| && FindZombie(st, me, seeking, 0) == FindZombie(st, me, seeking, i)
        modifies {}
      {
        i := i + 1;
      }
      if i < |st.zombies| {
        caught := Some(st.zombies[i]);
        TakenOut(st.zombies, i);
        st := Goto(st, t, Reaping(st.zombies[i])).(zombies := Drop(st.zombies, i));
      } else if !nohang {
        st := Goto(st, t, Waiting(seeking, None, true)).(waiters := [Waiter(t, seeking)] + st.waiters);
      }
    }

    /** The first waiter that may reap the process catches it, or it joins the zombies. */
    method HandOver(p: Pid)
      requires Invariant(st) && p in st.stage && st.stage[p] == Exiting
      modifies this
      ensures st == DoZombify(old(st), p) && Invariant(st)
      ensures old(NoPair(st)) ==> NoPair(st)
    {
      hide OnePlace, ByParent, NoLostWake, NoPair;
      ZombifyKeeps(st, p);
      if NoPair(st) { ZombifyPair(st, p); }
      var i := 0;
      while i < |st.waiters| && !CanReap(st, st.proc[st.waiters[i].thread], p, st.waiters[i].seeking)
        invariant 0 <= i <= |st.waiters| && FindWaiter(st, p, 0) == FindWaiter(st, p, i)
        modifies {}
      {
        i := i + 1;
      }
      if i < |st.waiters| {
        var w := st.waiters[i];
        st := Goto(st.(stage := st.stage[p := Left]), w.thread, Waiting(w.seeking, Some(p), true))
          .(waiters := Drop(st.waiters, i), wakes := st.wakes + {w.thread});
      } else {
        st := st.(stage := st.stage[p := Left], zombies := st.zombies + [p]);
      }
    }
  }
}
