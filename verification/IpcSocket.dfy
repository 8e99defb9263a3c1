/**
 * The message sockets of net/ipcsock.cpp on top of the wait queue. Each direction of a socket
 * is a list of messages, a closed flag and a wait queue. A send appends under the lock and
 * wakes after releasing it; a receive takes the first message, or goes to sleep and tries
 * again; a disconnect closes and wakes everyone. Pollers join the same wait queue, exclusive
 * and at its head. Threads interleave between critical sections.
 */
module IpcSocket {
  import opened ByteStrings
  import opened Counts
  import opened Options
  import opened WaitQueue

  type Msg = seq<Byte>

  // -------------------------------------------------------------------------
  // A closable queue, one operation at a time

  datatype Fifo = Fifo(msgs: seq<Msg>, closed: bool)

  /** What callers see: sends accepted or refused, the close, and what receives return. */
  datatype Event = Put(msg: Msg) | Refused | Shut | Took(msg: Msg) | Peeked(size: nat) | Short(len: nat) | Ended | Empty

  function Accept(f: Fifo, e: Event): Option<Fifo> {
    match e
    case Put(m) => if f.closed then None else Some(f.(msgs := f.msgs + [m]))
    case Refused => if f.closed then Some(f) else None
    case Shut => Some(f.(closed := true))
    case Took(m) => if f.msgs != [] && f.msgs[0] == m then Some(f.(msgs := f.msgs[1..])) else None
    case Peeked(n) => if f.msgs != [] && |f.msgs[0]| == n then Some(f) else None
    case Short(n) => if f.msgs != [] && |f.msgs[0]| > n then Some(f) else None
    case Ended => if f.msgs == [] && f.closed then Some(f) else None
    case Empty => if f.msgs == [] && !f.closed then Some(f) else None
  }

  function Play(log: seq<Event>): Option<Fifo> {
    if log == [] then Some(Fifo([], false)) else
    var f :- Play(log[..|log| - 1]);
    Accept(f, log[|log| - 1])
  }

  function Puts(log: seq<Event>): seq<Msg> {
    if log == [] then [] else
    Puts(log[..|log| - 1]) + if log[|log| - 1].Put? then [log[|log| - 1].msg] else []
  }

  function Takes(log: seq<Event>): seq<Msg> {
    if log == [] then [] else
    Takes(log[..|log| - 1]) + if log[|log| - 1].Took? then [log[|log| - 1].msg] else []
  }

  /** Received messages, then queued ones, are the accepted ones, in order. */
  lemma {:induction false} Conserved(log: seq<Event>)
    requires Play(log).Some?
    ensures Puts(log) == Takes(log) + Play(log).value.msgs
  {
    if log != [] { Conserved(log[..|log| - 1]); }
  }

  /** An end of stream comes after the last message, and for good. */
  lemma {:induction false} EndedForGood(log: seq<Event>, i: nat)
    requires Play(log).Some? && i < |log| && log[i].Ended?
    ensures Play(log).value == Fifo([], true)
    ensures Puts(log) == Puts(log[..i]) == Takes(log[..i]) == Takes(log)
  {
    var init := log[..|log| - 1];
    if i == |log| - 1 {
      Conserved(init);
    } else {
      EndedForGood(init, i);
      assert init[..i] == log[..i];
    }
  }

  // -------------------------------------------------------------------------
  // One direction

  datatype Args = Args(len: nat, query: bool, nowait: bool)

  datatype Result = Message(data: Msg) | Size(n: nat) | TooBig | End | Again | Interrupted

  /** Where a receiving thread stands: about to take the lock, on the wait queue or past it,
      or back with a result. */
  datatype Pc = Trying(args: Args) | Waiting(args: Args, asleep: bool) | Done(result: Result)

  datatype Channel = Channel(
    msgs: seq<Msg>, closed: bool, queue: seq<Entry>, pc: map<nat, Pc>, wakes: set<nat>, log: seq<Event>)

  const FRESH := Channel([], false, [], map[], {}, [])

  datatype Action =
    | Send(thread: nat, msg: Msg) | Notify(thread: nat) | Close
    | Recv(thread: nat, args: Args) | Try(thread: nat) | Resume(thread: nat) | Interrupt(thread: nat)
    | Poll(thread: nat) | Unpoll(thread: nat)

  /** What a receive finds under the lock; None when it has to wait. */
  function Answer(f: Fifo, a: Args): Option<Result> {
    if f.msgs != [] then
      if a.query then Some(Size(|f.msgs[0]|))
      else if |f.msgs[0]| > a.len then Some(TooBig)
      else Some(Message(f.msgs[0]))
    else if f.closed then Some(End)
    else if a.nowait then Some(Again)
    else None
  }

  function Seen(r: Result, a: Args): Event {
    match r
    case Message(m) => Took(m)
    case Size(n) => Peeked(n)
    case TooBig => Short(a.len)
    case End => Ended
    case _ => Empty
  }

  function Rouse(pc: Pc): Pc { if pc.Waiting? then pc.(asleep := false) else pc }

  /** Wakes the head of the queue up to the `nr`-th exclusive entry. */
  function Wake(c: Channel, nr: int): Channel {
    var k := Cut(c.queue, nr);
    c.(queue := c.queue[k..],
       pc := map t | t in c.pc :: if Entry(t, false) in c.queue[..k] then Rouse(c.pc[t]) else c.pc[t])
  }

  function Without(q: seq<Entry>, e: Entry): (r: seq<Entry>)
    ensures multiset(r) == multiset(q) - multiset{e}
  {
    if q == [] then []
    else
      assert q == [q[0]] + q[1..];
      if q[0] == e then q[1..] else [q[0]] + Without(q[1..], e)
  }

  /** One critical section; None when the thread is not there. */
  function Next(c: Channel, a: Action): Option<Channel> {
    match a
    case Send(t, m) =>
      if t in c.wakes then None
      else if c.closed then Some(c.(log := c.log + [Refused]))
      else Some(c.(msgs := c.msgs + [m], wakes := c.wakes + {t}, log := c.log + [Put(m)]))
    case Notify(t) => if t in c.wakes then Some(Wake(c, 1).(wakes := c.wakes - {t})) else None
    case Close => Some(Wake(c, 0).(closed := true, log := c.log + [Shut]))
    case Recv(t, args) => if t in c.pc && !c.pc[t].Done? then None else Some(c.(pc := c.pc[t := Trying(args)]))
    case Try(t) => if t in c.pc && c.pc[t].Trying? then Some(DoTry(c, t)) else None
    case Resume(t) =>
      if t in c.pc && c.pc[t].Waiting? && !c.pc[t].asleep then Some(c.(pc := c.pc[t := Trying(c.pc[t].args)])) else None
    case Interrupt(t) =>
      if t in c.pc && c.pc[t].Waiting?
      then Some(c.(pc := c.pc[t := Done(Interrupted)], queue := Without(c.queue, Entry(t, false)))) else None
    case Poll(t) => Some(c.(queue := [Entry(t, true)] + c.queue))
    case Unpoll(t) => Some(c.(queue := Without(c.queue, Entry(t, true))))
  }

  function DoTry(c: Channel, t: nat): Channel
    requires t in c.pc && c.pc[t].Trying?
  {
    var a := c.pc[t].args;
    match Answer(Fifo(c.msgs, c.closed), a)
    case None => c.(pc := c.pc[t := Waiting(a, true)], queue := [Entry(t, false)] + c.queue)
    case Some(r) =>
      c.(pc := c.pc[t := Done(r)], msgs := if r.Message? then c.msgs[1..] else c.msgs, log := c.log + [Seen(r, a)])
  }

  /** One attempt on messages: a query tells the size of the first and leaves it, whatever room
      there is; a receive takes the first if it fits and leaves it if it does not. */
  lemma TryFindsMessage(c: Channel, t: nat)
    requires t in c.pc && c.pc[t].Trying? && c.msgs != []
    ensures var a, c', first := c.pc[t].args, DoTry(c, t), c.msgs[0];
            && t in c'.pc && c'.pc[t].Done? && c'.closed == c.closed && c'.queue == c.queue
            && (a.query ==> c'.pc[t].result == Size(|first|) && c'.msgs == c.msgs)
            && (!a.query && |first| <= a.len ==> c'.pc[t].result == Message(first) && [first] + c'.msgs == c.msgs)
            && (!a.query && |first| > a.len ==> c'.pc[t].result == TooBig && c'.msgs == c.msgs)
  {
    assert c.msgs == [c.msgs[0]] + c.msgs[1..];
  }

  /** One attempt without messages: the end of a closed direction, no waiting when told so, and
      otherwise sleep. */
  lemma TryFindsNone(c: Channel, t: nat)
    requires t in c.pc && c.pc[t].Trying? && c.msgs == []
    ensures var a, c' := c.pc[t].args, DoTry(c, t);
            && t in c'.pc && c'.msgs == [] && c'.closed == c.closed
            && (c.closed ==> c'.pc[t] == Done(End) && c'.queue == c.queue)
            && (!c.closed && a.nowait ==> c'.pc[t] == Done(Again) && c'.queue == c.queue)
            && (!c.closed && !a.nowait ==> c'.pc[t] == Waiting(a, true) && c'.queue == [Entry(t, false)] + c.queue)
  {
  }

  /** A send arrives behind all other messages and owes a wake-up, unless the direction is closed. */
  lemma SendArrives(c: Channel, t: nat, m: Msg)
    requires t !in c.wakes
    ensures var r := Next(c, Send(t, m));
            && r.Some? && r.value.closed == c.closed && r.value.queue == c.queue && r.value.pc == c.pc
            && (c.closed ==> r.value.msgs == c.msgs && r.value.wakes == c.wakes)
            && (!c.closed ==> r.value.msgs == c.msgs + [m] && r.value.wakes == c.wakes + {t})
  {
  }

  // -------------------------------------------------------------------------
  // The invariant

  predicate Asleep(c: Channel, t: nat) { t in c.pc && c.pc[t].Waiting? && c.pc[t].asleep }

  /** A receiver is on the wait queue, once, exactly while it sleeps. */
  ghost predicate Listed(c: Channel) { forall t: nat :: multiset(c.queue)[Entry(t, false)] == One(Asleep(c, t)) }

  /** What callers saw is what a queue used by one caller at a time would have shown them. */
  ghost predicate Linear(c: Channel) { Play(c.log) == Some(Fifo(c.msgs, c.closed)) }

  /** Nobody sleeps on a closed direction. */
  ghost predicate AwakeIfClosed(c: Channel) { c.closed ==> forall t: nat :: !Asleep(c, t) }

  ghost predicate Invariant(c: Channel) { Listed(c) && Linear(c) && AwakeIfClosed(c) }

  /** A receiver that sleeps although there is a message is about to be woken. */
  ghost predicate NoLostWake(c: Channel) { c.msgs != [] && c.wakes == {} ==> forall t: nat :: !Asleep(c, t) }

  /** The last pending wake would stop at a poller that stands before a sleeping receiver. */
  predicate Shadowed(c: Channel, a: Action) {
    a.Notify? && c.wakes == {a.thread} && c.msgs != [] && exists e :: e in c.queue[Cut(c.queue, 1)..] && !e.exclusive
  }

  // -------------------------------------------------------------------------
  // Every step keeps it

  lemma Split(q: seq<Entry>, k: nat, e: Entry)
    requires k <= |q|
    ensures multiset(q)[e] == multiset(q[..k])[e] + multiset(q[k..])[e]
    ensures e in q[..k] <==> multiset(q[..k])[e] > 0
  {
    assert q == q[..k] + q[k..];
  }

  lemma WakeListed(c: Channel, nr: int)
    requires Listed(c)
    ensures Listed(Wake(c, nr))
    ensures forall t: nat :: Asleep(Wake(c, nr), t) <==> Entry(t, false) in c.queue[Cut(c.queue, nr)..]
  {
    var k, c' := Cut(c.queue, nr), Wake(c, nr);
    forall t: nat
      ensures multiset(c'.queue)[Entry(t, false)] == One(Asleep(c', t))
      ensures Asleep(c', t) <==> Entry(t, false) in c'.queue
    {
      Split(c.queue, k, Entry(t, false));
      assert multiset(c.queue)[Entry(t, false)] == One(Asleep(c, t));
    }
  }

  lemma CloseWakesAll(c: Channel)
    requires Listed(c)
    ensures forall t: nat :: !Asleep(Wake(c, 0), t)
  {
    WakeListed(c, 0);
    CutExact(c.queue, 0);
  }

  /** The threads other than `t` and the entries other than `t`'s stay put. */
  lemma MovedListed(c: Channel, c': Channel, t: nat)
    requires Listed(c) && t in c'.pc && c'.pc == c.pc[t := c'.pc[t]]
    requires multiset(c'.queue)[Entry(t, false)] == One(Asleep(c', t))
    requires forall u: nat :: u != t ==> multiset(c'.queue)[Entry(u, false)] == multiset(c.queue)[Entry(u, false)]
    ensures Listed(c')
  {
    forall u: nat ensures multiset(c'.queue)[Entry(u, false)] == One(Asleep(c', u)) {
      assert multiset(c.queue)[Entry(u, false)] == One(Asleep(c, u));
      if u != t { assert Asleep(c', u) == Asleep(c, u); }
    }
  }

  lemma Logged(log: seq<Event>, e: Event)
    ensures Play(log + [e]) == if Play(log).None? then None else Accept(Play(log).value, e)
  {
    assert (log + [e])[..|log|] == log;
  }

  lemma TryKeeps(c: Channel, t: nat)
    requires Invariant(c) && t in c.pc && c.pc[t].Trying?
    ensures Invariant(DoTry(c, t))
  {
    var a, c' := c.pc[t].args, DoTry(c, t);
    assert multiset(c.queue)[Entry(t, false)] == One(Asleep(c, t)) == 0;
    match Answer(Fifo(c.msgs, c.closed), a) {
      case None =>
      case Some(r) => Logged(c.log, Seen(r, a));
    }
    MovedListed(c, c', t);
  }

  lemma SendKeeps(c: Channel, a: Action)
    requires Invariant(c) && a.Send? && Next(c, a).Some?
    ensures Invariant(Next(c, a).value)
  {
    var c' := Next(c, a).value;
    Logged(c.log, if c.closed then Refused else Put(a.msg));
    SamePlaces(c, c');
  }

  lemma WakeKeeps(c: Channel, a: Action)
    requires Invariant(c) && (a.Notify? || a.Close?) && Next(c, a).Some?
    ensures Invariant(Next(c, a).value)
  {
    var c', nr := Next(c, a).value, if a.Notify? then 1 else 0;
    WakeListed(c, nr);
    SamePlaces(Wake(c, nr), c');
    if a.Close? {
      Logged(c.log, Shut);
      CloseWakesAll(c);
    } else if c.closed {
      forall t: nat ensures !Asleep(c', t) { assert !Asleep(c, t); }
    }
  }

  lemma MoveKeeps(c: Channel, a: Action)
    requires Invariant(c) && (a.Recv? || a.Resume? || a.Interrupt?) && Next(c, a).Some?
    ensures Invariant(Next(c, a).value)
  {
    var c' := Next(c, a).value;
    SleepOnce(c, a.thread);
    MovedListed(c, c', a.thread);
    if c.closed {
      forall t: nat ensures !Asleep(c', t) { assert !Asleep(c, t); }
    }
  }

  lemma PollKeeps(c: Channel, a: Action)
    requires Invariant(c) && (a.Poll? || a.Unpoll?)
    ensures Invariant(Next(c, a).value)
  {
    SamePlaces(c, Next(c, a).value);
  }

  lemma StepInvariant(c: Channel, a: Action)
    requires Invariant(c) && Next(c, a).Some?
    ensures Invariant(Next(c, a).value)
  {
    hide Invariant;
    match a
    case Send(_, _) => SendKeeps(c, a);
    case Notify(_) => WakeKeeps(c, a);
    case Close => WakeKeeps(c, a);
    case Recv(_, _) => MoveKeeps(c, a);
    case Try(t) => TryKeeps(c, t);
    case Resume(_) => MoveKeeps(c, a);
    case Interrupt(_) => MoveKeeps(c, a);
    case Poll(_) => PollKeeps(c, a);
    case Unpoll(_) => PollKeeps(c, a);
  }

  lemma SleepOnce(c: Channel, t: nat)
    requires Listed(c)
    ensures multiset(c.queue)[Entry(t, false)] == One(Asleep(c, t))
  {
  }

  lemma SamePlaces(c: Channel, c': Channel)
    requires Listed(c) && c'.pc == c.pc
    requires forall u: nat :: multiset(c'.queue)[Entry(u, false)] == multiset(c.queue)[Entry(u, false)]
    ensures Listed(c') && forall t: nat :: Asleep(c', t) == Asleep(c, t)
  {
    forall u: nat ensures multiset(c'.queue)[Entry(u, false)] == One(Asleep(c', u)) {
      assert multiset(c.queue)[Entry(u, false)] == One(Asleep(c, u));
    }
  }

  /** A step loses a wake-up exactly if it is the last pending one and a poller stops it. */
  lemma StepWake(c: Channel, a: Action)
    requires Invariant(c) && NoLostWake(c) && Next(c, a).Some?
    ensures NoLostWake(Next(c, a).value) <==> !Shadowed(c, a)
  {
    var c' := Next(c, a).value;
    if a.Notify? {
      NotifyWakes(c, a.thread);
    } else if a.Close? {
      CloseWakesAll(c);
    } else {
      OtherWakes(c, a);
    }
  }

  /** Receivers fall asleep only where there is no message. */
  lemma TryWakes(c: Channel, t: nat)
    requires NoLostWake(c) && t in c.pc && c.pc[t].Trying?
    ensures NoLostWake(DoTry(c, t))
  {
    var c' := DoTry(c, t);
    if c'.msgs != [] && c'.wakes == {} {
      forall u: nat ensures !Asleep(c', u) { assert !Asleep(c, u); }
    }
  }

  lemma OtherWakes(c: Channel, a: Action)
    requires NoLostWake(c) && !a.Notify? && !a.Close? && Next(c, a).Some?
    ensures NoLostWake(Next(c, a).value)
  {
    hide Wake, Without, DoTry, Cut;
    if a.Try? {
      TryWakes(c, a.thread);
    } else {
      var c' := Next(c, a).value;
      if c'.msgs != [] && c'.wakes == {} {
        forall u: nat ensures !Asleep(c', u) { assert !Asleep(c, u); }
      }
    }
  }

  lemma NotifyWakes(c: Channel, u: nat)
    requires Invariant(c) && u in c.wakes
    ensures NoLostWake(Next(c, Notify(u)).value) <==> !Shadowed(c, Notify(u))
  {
    var c', w := Next(c, Notify(u)).value, Wake(c, 1);
    WakeListed(c, 1);
    assert c'.wakes == {} <==> c.wakes == {u};
    assert forall t: nat :: Asleep(c', t) <==> Asleep(w, t);
    if e :| e in w.queue && !e.exclusive {
      assert e == Entry(e.thread, false);
      assert Asleep(c', e.thread);
    }
  }

  // -------------------------------------------------------------------------
  // Whole runs

  function Run(c: Channel, acts: seq<Action>): (r: Option<Channel>)
    requires Invariant(c)
    ensures r.Some? ==> Invariant(r.value)
    decreases |acts|
  {
    if acts == [] then Some(c) else
    if Next(c, acts[0]).None? then None else
    StepInvariant(c, acts[0]);
    Run(Next(c, acts[0]).value, acts[1..])
  }

  ghost predicate NeverShadowed(c: Channel, acts: seq<Action>)
    requires Invariant(c)
    decreases |acts|
  {
    acts != [] && Next(c, acts[0]).Some? ==>
      && !Shadowed(c, acts[0])
      && (StepInvariant(c, acts[0]); NeverShadowed(Next(c, acts[0]).value, acts[1..]))
  }

  lemma {:induction false} RunWake(c: Channel, acts: seq<Action>)
    requires Invariant(c) && NoLostWake(c) && NeverShadowed(c, acts) && Run(c, acts).Some?
    ensures NoLostWake(Run(c, acts).value)
    decreases |acts|
  {
    hide NoLostWake, Next, Shadowed, Listed, Linear, AwakeIfClosed;
    if acts != [] {
      StepInvariant(c, acts[0]);
      StepWake(c, acts[0]);
      RunWake(Next(c, acts[0]).value, acts[1..]);
    }
  }

  /** While nobody polls, no wake-up is ever lost. */
  lemma {:induction false} NoPollers(c: Channel, acts: seq<Action>)
    requires Invariant(c) && Plain(c.queue) && forall a :: a in acts ==> !a.Poll?
    ensures NeverShadowed(c, acts)
    decreases |acts|
  {
    if acts != [] && Next(c, acts[0]).Some? {
      PlainCut(c.queue, 1);
      StepInvariant(c, acts[0]);
      StepPlain(c, acts[0]);
      NoPollers(Next(c, acts[0]).value, acts[1..]);
    }
  }

  lemma StepPlain(c: Channel, a: Action)
    requires Plain(c.queue) && !a.Poll? && Next(c, a).Some?
    ensures Plain(Next(c, a).value.queue)
  {
    if a.Interrupt? || a.Unpoll? {
      var q' := Next(c, a).value.queue;
      forall e | e in q' ensures !e.exclusive { assert e in multiset(q'); assert e in multiset(c.queue); }
    }
  }

  /** In every run from an empty socket, received then queued messages are the accepted ones. */
  lemma Delivered(acts: seq<Action>)
    requires Invariant(FRESH) && Run(FRESH, acts).Some?
    ensures var c := Run(FRESH, acts).value;
            Play(c.log).Some? && Puts(c.log) == Takes(c.log) + c.msgs
  {
    Conserved(Run(FRESH, acts).value.log);
  }

  lemma FreshInvariant()
    ensures Invariant(FRESH) && NoLostWake(FRESH)
  {
  }

  lemma NotifyRouses(c: Channel, t: nat, u: nat)
    requires Invariant(c) && Asleep(c, t) && u in c.wakes
    requires forall e :: e in c.queue[Cut(c.queue, 1)..] ==> e.exclusive
    ensures var c' := Wake(c, 1).(wakes := c.wakes - {u});
            t in c'.pc && c'.pc[t] == Waiting(c.pc[t].args, false) && c'.msgs == c.msgs && c'.closed == c.closed
  {
    WakeListed(c, 1);
    assert Entry(t, false) !in c.queue[Cut(c.queue, 1)..];
    assert !Asleep(Wake(c, 1), t);
  }

  /** A pending wake brings a sleeping receiver back to the first message. */
  lemma WakeDelivers(c: Channel, t: nat, u: nat)
    requires Invariant(c) && Asleep(c, t) && u in c.wakes
    requires forall e :: e in c.queue[Cut(c.queue, 1)..] ==> e.exclusive
    ensures var r := Run(c, [Notify(u), Resume(t), Try(t)]);
            && r.Some? && t in r.value.pc
            && (c.msgs != [] ==>
                  r.value.pc[t].Done? && Answer(Fifo(c.msgs, c.closed), c.pc[t].args) == Some(r.value.pc[t].result))
  {
    hide Wake, Invariant, Cut, Without;
    NotifyRouses(c, t, u);
    var c1 := Wake(c, 1).(wakes := c.wakes - {u});
    var c2 := c1.(pc := c1.pc[t := Trying(c.pc[t].args)]);
    StepInvariant(c, Notify(u));
    StepInvariant(c1, Resume(t));
    StepInvariant(c2, Try(t));
    RunStep(c, Notify(u), [Resume(t), Try(t)]);
    RunStep(c1, Resume(t), [Try(t)]);
    RunStep(c2, Try(t), []);
  }

  lemma RunStep(c: Channel, a: Action, acts: seq<Action>)
    requires Invariant(c) && Next(c, a).Some? && Invariant(Next(c, a).value)
    ensures Run(c, [a] + acts) == Run(Next(c, a).value, acts)
    ensures acts == [] ==> Run(c, [a]) == Next(c, a)
  {
    assert ([a] + acts)[1..] == acts;
    assert acts == [] ==> [a] + acts == [a];
  }

  // -------------------------------------------------------------------------
  // The critical sections on the objects

  class Direction {
    var msgs: seq<Msg>
    var closed: bool
    const wq: Queue

    constructor ()
      ensures View() == Fifo([], false) && fresh(wq) && wq.tasks == []
    {
      msgs, closed := [], false;
      wq := new Queue();
    }

    ghost function View(): Fifo
      reads this
    {
      Fifo(msgs, closed)
    }

    /** This direction while thread `t` stands at `pc`. */
    ghost function With(t: nat, pc: Pc): Channel
      reads this, wq
    {
      Channel(msgs, closed, wq.tasks, map[t := pc], {}, [])
    }

    ghost predicate Is(c: Channel)
      reads this, wq
    {
      msgs == c.msgs && closed == c.closed && wq.tasks == c.queue
    }

    /** The append; the caller wakes one waiter afterwards if it was accepted. */
    method Append(m: Msg) returns (accepted: bool)
      modifies this
      ensures Accept(old(View()), if accepted then Put(m) else Refused) == Some(View())
      ensures accepted <==> !old(closed)
      ensures closed == old(closed) && msgs == if accepted then old(msgs) + [m] else old(msgs)
    {
      accepted := !closed;
      if accepted { msgs := msgs + [m]; }
    }

    /** The whole send, when nobody gets in between: a queue without pollers is emptied. */
    method Sendto(m: Msg) returns (n: nat)
      modifies this, wq
      ensures old(closed) ==> n == 0 && View() == old(View()) && wq.tasks == old(wq.tasks)
      ensures !old(closed) ==> n == |m| && Accept(old(View()), Put(m)) == Some(View())
      ensures !old(closed) && Ordered(old(wq.tasks)) ==> forall e :: e in wq.tasks ==> e.exclusive
    {
      var accepted := Append(m);
      if !accepted { return 0; }
      wq.WakeUpCommon(1);
      n := |m|;
    }

    method Disconnect()
      modifies this, wq
      ensures Accept(old(View()), Shut) == Some(View()) && closed && msgs == old(msgs)
      ensures wq.tasks == [] && wq.running == old(wq.running) + Threads(old(wq.tasks))
    {
      closed := true;
      CutExact(wq.tasks, 0);
      assert wq.tasks[..|wq.tasks|] == wq.tasks;
      wq.WakeUpCommon(0);
    }

    /** One turn of the receive loop under the lock, which is one attempt of the protocol: a query
        tells the size of the first message and leaves it, a receive takes it if there is room. */
    method Receive(t: nat, a: Args) returns (r: Option<Result>)
      modifies this, wq
      ensures r.Some? ==> Accept(old(View()), Seen(r.value, a)) == Some(View())
      ensures r.Some? ==> wq.tasks == old(wq.tasks) && wq.running == old(wq.running)
      ensures closed == old(closed)
      ensures old(msgs) != [] && a.query ==> r == Some(Size(|old(msgs)[0]|)) && msgs == old(msgs)
      ensures old(msgs) != [] && !a.query && |old(msgs)[0]| <= a.len ==>
                r == Some(Message(old(msgs)[0])) && msgs == old(msgs)[1..]
      ensures old(msgs) != [] && !a.query && |old(msgs)[0]| > a.len ==> r == Some(TooBig) && msgs == old(msgs)
      ensures old(msgs) == [] ==>
                msgs == [] && r == if closed then Some(End) else if a.nowait then Some(Again) else None
      ensures var c := DoTry(old(With(t, Trying(a))), t);
              Is(c) && c.pc[t] == if r.Some? then Done(r.value) else Waiting(a, true)
      ensures r.None? ==> View() == old(View()) && wq.tasks == [Entry(t, false)] + old(wq.tasks)
      ensures r.None? && Ordered(old(wq.tasks)) ==> Ordered(wq.tasks)
    {
      if msgs != [] {
        var front := msgs[0];
        if a.query { return Some(Size(|front|)); }
        if |front| > a.len { return Some(TooBig); }
        msgs := msgs[1..];
        return Some(Message(front));
      }
      if closed { return Some(End); }
      if a.nowait { return Some(Again); }
      wq.PrepareToWait(t);
      r := None;
    }
  }

  // -------------------------------------------------------------------------
  // A receiver left asleep

  const WAIT := Args(64, false, false)
  const LOSE := [Recv(1, WAIT), Try(1), Poll(2), Send(3, [7]), Notify(3)]

  function Lost(n: nat): Channel {
    if n == 0 then FRESH
    else if n == 1 then FRESH.(pc := map[1 := Trying(WAIT)])
    else
      var c := FRESH.(pc := map[1 := Waiting(WAIT, true)]);
      if n == 2 then c.(queue := [Entry(1, false)])
      else if n == 3 then c.(queue := [Entry(2, true), Entry(1, false)])
      else if n == 4 then c.(queue := [Entry(2, true), Entry(1, false)], msgs := [[7]], wakes := {3}, log := [Put([7])])
      else c.(queue := [Entry(1, false)], msgs := [[7]], log := [Put([7])])
  }

  /** The receiver sleeps, a poller joins ahead of it, and the one wake of the send stops at
      the poller: the message is there, the receiver sleeps, and no wake is pending. */
  lemma LostWake()
    ensures forall n :: 0 <= n < 5 ==> Next(Lost(n), LOSE[n]) == Some(Lost(n + 1))
    ensures Lost(0) == FRESH && !NoLostWake(Lost(5))
  {
    forall n | 0 <= n < 5 ensures Next(Lost(n), LOSE[n]) == Some(Lost(n + 1)) { LostStep(n); }
    assert Asleep(Lost(5), 1);
  }

  lemma LostStep(n: nat)
    requires n < 5
    ensures Next(Lost(n), LOSE[n]) == Some(Lost(n + 1))
  {
    var c := Lost(n);
    if n == 0 {
      assert c.pc[1 := Trying(WAIT)] == map[1 := Trying(WAIT)];
    } else if n == 1 {
      assert c.pc[1 := Waiting(WAIT, true)] == map[1 := Waiting(WAIT, true)];
      assert DoTry(c, 1) == Lost(2);
    } else if n == 2 {
      assert [Entry(2, true)] + c.queue == [Entry(2, true), Entry(1, false)];
    } else if n == 3 {
      assert c.msgs + [[7]] == [[7]] && c.wakes + {3} == {3} && c.log + [Put([7])] == [Put([7])];
    } else {
      assert Cut(c.queue, 1) == 1;
      assert c.queue[..1] == [Entry(2, true)] && c.queue[1..] == [Entry(1, false)];
      assert Wake(c, 1).pc == c.pc;
      assert c.wakes - {3} == {};
    }
  }

  // -------------------------------------------------------------------------
  // The two ends

  datatype Side = Server | Client
  datatype Socket = Socket(forServer: Channel, forClient: Channel)

  /** An end sends and disconnects on the other end's direction and receives on its own. */
  function SocketNext(s: Socket, side: Side, a: Action): Option<Socket> {
    if (a.Send? || a.Notify? || a.Close?) == side.Client? then
      var c :- Next(s.forServer, a); Some(s.(forServer := c))
    else
      var c :- Next(s.forClient, a); Some(s.(forClient := c))
  }

  function SocketRun(s: Socket, acts: seq<(Side, Action)>): (r: Option<Socket>)
    requires Invariant(s.forServer) && Invariant(s.forClient)
    ensures r.Some? ==> Invariant(r.value.forServer) && Invariant(r.value.forClient)
    decreases |acts|
  {
    if acts == [] then Some(s) else
    var s' := SocketNext(s, acts[0].0, acts[0].1);
    if s'.None? then None else
    SocketStep(s, acts[0].0, acts[0].1);
    SocketRun(s'.value, acts[1..])
  }

  lemma SocketStep(s: Socket, side: Side, a: Action)
    requires Invariant(s.forServer) && Invariant(s.forClient) && SocketNext(s, side, a).Some?
    ensures var s' := SocketNext(s, side, a).value; Invariant(s'.forServer) && Invariant(s'.forClient)
  {
    hide Invariant, Next;
    if (a.Send? || a.Notify? || a.Close?) == side.Client? {
      StepInvariant(s.forServer, a);
    } else {
      StepInvariant(s.forClient, a);
    }
  }

  /** The messages an end tries to send. */
  function Sends(acts: seq<(Side, Action)>, side: Side): seq<Msg> {
    if acts == [] then [] else
    (if acts[0].0 == side && acts[0].1.Send? then [acts[0].1.msg] else []) + Sends(acts[1..], side)
  }

  /** The direction an end sends on. */
  function Outgoing(s: Socket, side: Side): Channel { if side.Client? then s.forServer else s.forClient }

  lemma PutsAppend(log: seq<Event>, e: Event)
    ensures Puts(log + [e]) == Puts(log) + if e.Put? then [e.msg] else []
  {
    assert (log + [e])[..|log|] == log;
  }

  /** One step accepts its own message, if it is a send, and nothing after the close. */
  lemma StepPuts(c: Channel, a: Action)
    requires Next(c, a).Some?
    ensures var c' := Next(c, a).value;
            && (c.closed ==> c'.closed)
            && Puts(c'.log) == Puts(c.log) + if a.Send? && !c.closed then [a.msg] else []
  {
    hide Puts, Cut, Without, Answer;
    var c' := Next(c, a).value;
    if c'.log != c.log {
      var e := c'.log[|c.log|];
      assert c'.log == c.log + [e];
      PutsAppend(c.log, e);
    }
  }

  lemma StepSends(s: Socket, side: Side, act: (Side, Action))
    requires SocketNext(s, act.0, act.1).Some?
    ensures var c, c' := Outgoing(s, side), Outgoing(SocketNext(s, act.0, act.1).value, side);
            && (c.closed ==> c'.closed)
            && Puts(c'.log) == Puts(c.log) + if c.closed then [] else Sends([act], side)
  {
    hide Next, Puts;
    assert Sends([act][1..], side) == [];
    if ((act.1.Send? || act.1.Notify? || act.1.Close?) == act.0.Client?) == side.Client? {
      StepPuts(Outgoing(s, side), act.1);
    }
  }

  /** What an end has sent is a beginning of what it tried to send. */
  lemma {:induction false} RunSends(s: Socket, side: Side, acts: seq<(Side, Action)>)
    requires Invariant(s.forServer) && Invariant(s.forClient) && SocketRun(s, acts).Some?
    ensures var c, c' := Outgoing(s, side), Outgoing(SocketRun(s, acts).value, side);
            && (c.closed ==> Puts(c'.log) == Puts(c.log))
            && Puts(c'.log) <= Puts(c.log) + Sends(acts, side)
    decreases |acts|
  {
    hide SocketNext, Puts, Invariant;
    if acts != [] {
      var s' := SocketNext(s, acts[0].0, acts[0].1).value;
      SocketStep(s, acts[0].0, acts[0].1);
      StepSends(s, side, acts[0]);
      RunSends(s', side, acts[1..]);
      assert [acts[0]][1..] == [];
      assert Sends(acts, side) == Sends([acts[0]], side) + Sends(acts[1..], side);
    }
  }

  /** The other end receives on the direction this end sends on. */
  lemma OtherEnd(s: Socket, t: nat, m: Msg)
    requires t !in s.forServer.wakes && t !in s.forClient.wakes && !s.forServer.closed && !s.forClient.closed
    ensures SocketNext(s, Client, Send(t, m)).Some? && SocketNext(s, Server, Send(t, m)).Some?
    ensures SocketNext(s, Client, Send(t, m)).value.forServer.msgs == s.forServer.msgs + [m]
    ensures SocketNext(s, Server, Send(t, m)).value.forClient.msgs == s.forClient.msgs + [m]
    ensures SocketNext(s, Server, Try(t)).Some? <==> t in s.forServer.pc && s.forServer.pc[t].Trying?
    ensures SocketNext(s, Client, Try(t)).Some? <==> t in s.forClient.pc && s.forClient.pc[t].Trying?
  {
  }

  /** What the server has received is the beginning of what the client tried to send, and the
      other way round; what was accepted and not yet received is queued. */
  lemma BothWays(acts: seq<(Side, Action)>)
    requires Invariant(FRESH) && SocketRun(Socket(FRESH, FRESH), acts).Some?
    ensures var s := SocketRun(Socket(FRESH, FRESH), acts).value;
            && Takes(s.forServer.log) + s.forServer.msgs <= Sends(acts, Client)
            && Takes(s.forClient.log) + s.forClient.msgs <= Sends(acts, Server)
  {
    var s := SocketRun(Socket(FRESH, FRESH), acts).value;
    Conserved(s.forServer.log);
    Conserved(s.forClient.log);
    RunSends(Socket(FRESH, FRESH), Client, acts);
    RunSends(Socket(FRESH, FRESH), Server, acts);
  }
}
