/** The block buffer cache as an interleaving of threads.

    A state is the cache (per page: reference count, dirty flag, cached page), the disk,
    the channel of dirty buffers and the program counter of every thread.  `flat` is the
    reference disk: what was last written where.  Steps are at lock granularity; flushing
    is two steps, because neither the copy into a page nor `register_write` takes the
    buffer's lock, so both can fall between writing the blocks and clearing the flag. */
module BlockCache {
  import opened ByteStrings
  import opened Counts
  import opened Options

  const PGSIZE: nat := 4096

  type Page = p: seq<Byte> | |p| == PGSIZE witness seq(PGSIZE, _ => 0)

  /** A page of one device. */
  datatype Key = Key(device: nat, page: nat)

  datatype Buffer = Buffer(count: int, dirty: bool, page: Option<Page>)

  /** Where a thread is.  `Taken` to `Flushed` is the flush task between receiving a
      buffer and putting it; `SyncFlush` is sync_all inside flush. */
  datatype Pc =
    | Idle
    | Got(key: Key) | Ready(key: Key) | Copied(key: Key) | Sending(key: Key)
    | Taken(key: Key) | TaskFlush(key: Key) | Flushed(key: Key)
    | SyncFlush(key: Key)

  datatype State = State(
    bufs: map<Key, Buffer>,
    disk: map<Key, Page>,
    chan: seq<Key>,
    threads: map<nat, Pc>,
    flat: map<Key, Page>)

  datatype Action =
    | Get(key: Key) | Data | Read | Write(offset: nat, bytes: seq<Byte>) | Register | Release | Send
    | Recv | FlushBegin | FlushEnd | SyncBegin(key: Key) | Reclaim(key: Key)

  function Zero(): Page { seq(PGSIZE, _ => 0) }

  function OnDisk(disk: map<Key, Page>, k: Key): Page { if k in disk then disk[k] else Zero() }

  function Fresh(): Buffer { Buffer(0, false, None) }

  function BufOf(s: State, k: Key): Buffer { if k in s.bufs then s.bufs[k] else Fresh() }

  /** What a reader of page `k` would see. */
  function Logical(s: State, k: Key): Page {
    match BufOf(s, k).page
    case Some(p) => p
    case None => OnDisk(s.disk, k)
  }

  function PcOf(s: State, t: nat): Pc { if t in s.threads then s.threads[t] else Idle }

  /** The buffer a thread holds a reference to. */
  function Holding(pc: Pc): Option<Key> {
    if pc.Idle? || pc.SyncFlush? then None else Some(pc.key)
  }

  predicate MayRelease(pc: Pc) { pc.Got? || pc.Ready? || pc.Flushed? }

  predicate FlushingPc(pc: Pc, k: Key) { pc == TaskFlush(k) || pc == SyncFlush(k) }

  /** The buffer's lock is held across a flush. */
  predicate Locked(s: State, k: Key) { exists t :: t in s.threads && FlushingPc(s.threads[t], k) }

  function Splice(p: Page, offset: nat, bytes: seq<Byte>): Page
    requires offset + |bytes| <= PGSIZE
  {
    p[..offset] + bytes + p[offset + |bytes|..]
  }

  function SetBuf(s: State, k: Key, b: Buffer): State { s.(bufs := s.bufs[k := b]) }

  function Goto(s: State, t: nat, pc: Pc): State { s.(threads := s.threads[t := pc]) }

  /** One step of thread `t`; None when the step is not enabled. */
  function Next(s: State, t: nat, a: Action, lowMemory: bool): Option<State> {
    match a
    case Get(k) => DoGet(s, t, k)
    case Data => DoData(s, t)
    case Read => if PcOf(s, t).Ready? then Some(s) else None
    case Write(offset, bytes) => DoWrite(s, t, offset, bytes)
    case Register => DoRegister(s, t)
    case Release => DoRelease(s, t, lowMemory)
    case Send => DoSend(s, t)
    case Recv => DoRecv(s, t)
    case FlushBegin => DoFlushBegin(s, t)
    case FlushEnd => DoFlushEnd(s, t)
    case SyncBegin(k) => DoSyncBegin(s, t, k)
    case Reclaim(k) => DoReclaim(s, t, k)
  }

  function DoGet(s: State, t: nat, k: Key): Option<State> {
    if PcOf(s, t).Idle? && !Locked(s, k) then
      var b := BufOf(s, k);
      Some(Goto(SetBuf(s, k, b.(count := b.count + 1)), t, Got(k)))
    else None
  }

  /** The page is read in unless it is there. */
  function DoData(s: State, t: nat): Option<State> {
    var pc := PcOf(s, t);
    if pc.Got? && !Locked(s, pc.key) then
      var b := BufOf(s, pc.key);
      Some(Goto(SetBuf(s, pc.key, b.(page := Some(Logical(s, pc.key)))), t, Ready(pc.key)))
    else None
  }

  /** The copy into the page takes no lock; it also updates the reference disk. */
  function DoWrite(s: State, t: nat, offset: nat, bytes: seq<Byte>): Option<State> {
    var pc := PcOf(s, t);
    if pc.Ready? && BufOf(s, pc.key).page.Some? && offset + |bytes| <= PGSIZE then
      var k, b := pc.key, BufOf(s, pc.key);
      var s' := SetBuf(s, k, b.(page := Some(Splice(b.page.value, offset, bytes))));
      Some(Goto(s'.(flat := s.flat[k := Splice(OnDisk(s.flat, k), offset, bytes)]), t, Copied(k)))
    else None
  }

  function DoRegister(s: State, t: nat): Option<State> {
    var pc := PcOf(s, t);
    if pc.Copied? then
      Some(Goto(SetBuf(s, pc.key, BufOf(s, pc.key).(dirty := true)), t, Ready(pc.key)))
    else None
  }

  /** One reference fewer; short of memory, the last one takes the page along. */
  function OneFewer(b: Buffer, lowMemory: bool): Buffer {
    b.(count := b.count - 1, page := if lowMemory && b.count == 1 then None else b.page)
  }

  /** A dirty buffer goes to the flush task together with the reference. */
  function DoRelease(s: State, t: nat, lowMemory: bool): Option<State> {
    var pc := PcOf(s, t);
    if MayRelease(pc) && !Locked(s, pc.key) then
      var b := BufOf(s, pc.key);
      if b.dirty then Some(Goto(s, t, Sending(pc.key)))
      else
        Some(Goto(SetBuf(s, pc.key, OneFewer(b, lowMemory)), t, Idle))
    else None
  }

  function DoSend(s: State, t: nat): Option<State> {
    var pc := PcOf(s, t);
    if pc.Sending? then Some(Goto(s.(chan := s.chan + [pc.key]), t, Idle)) else None
  }

  function DoRecv(s: State, t: nat): Option<State> {
    if PcOf(s, t).Idle? && s.chan != [] then Some(Goto(s.(chan := s.chan[1..]), t, Taken(s.chan[0]))) else None
  }

  function DoFlushBegin(s: State, t: nat): Option<State> {
    var pc := PcOf(s, t);
    if pc.Taken? && !Locked(s, pc.key) then Some(Goto(WriteBlocks(s, pc.key), t, TaskFlush(pc.key))) else None
  }

  /** sync_all looks at the dirty flag before it takes the lock, so by then the buffer may be
      clean again. */
  function DoSyncBegin(s: State, t: nat, k: Key): Option<State> {
    if PcOf(s, t).Idle? && k in s.bufs && !Locked(s, k) then
      Some(Goto(WriteBlocks(s, k), t, SyncFlush(k)))
    else None
  }

  function DoFlushEnd(s: State, t: nat): Option<State> {
    var pc := PcOf(s, t);
    if pc.TaskFlush? || pc.SyncFlush? then
      var s' := SetBuf(s, pc.key, BufOf(s, pc.key).(dirty := false));
      Some(Goto(s', t, if pc.TaskFlush? then Flushed(pc.key) else Idle))
    else None
  }

  function DoReclaim(s: State, t: nat, k: Key): Option<State> {
    if PcOf(s, t).Idle? && !Locked(s, k) then
      var b := BufOf(s, k);
      if b.count == 0 && b.page.Some? && !b.dirty then Some(SetBuf(s, k, b.(page := None))) else Some(s)
    else None
  }

  /** Writes the cached page, if any, to the disk. */
  function WriteBlocks(s: State, k: Key): State {
    match BufOf(s, k).page
    case Some(p) => s.(disk := s.disk[k := p])
    case None => s
  }

  // -------------------------------------------------------------------------
  // Reference counts

  ghost function Holders(s: State, k: Key): set<nat> {
    set t | t in s.threads && Holding(s.threads[t]) == Some(k)
  }

  /** Holders, plus the buffer's entries in the channel. */
  ghost function Refs(s: State, k: Key): nat { |Holders(s, k)| + multiset(s.chan)[k] }

  ghost predicate Counted(s: State) { forall k :: BufOf(s, k).count == Refs(s, k) }

  /** A thread that will mark the buffer dirty, or that carries it to the flush task. */
  predicate Due(pc: Pc, k: Key) { pc == Copied(k) || pc == Sending(k) || pc == Taken(k) }

  /** The blocks will be written again whatever the dirty flag says. */
  ghost predicate Coming(s: State, k: Key) { k in s.chan || exists t :: t in s.threads && Due(s.threads[t], k) }

  ghost predicate Pending(s: State, k: Key) { BufOf(s, k).dirty || Coming(s, k) }

  ghost predicate DirtyHeld(s: State) { forall k :: BufOf(s, k).dirty ==> Refs(s, k) > 0 }

  /** A buffer differs from the disk only while it is dirty or its blocks will be written again. */
  ghost predicate Backed(s: State) {
    forall k :: BufOf(s, k).page.Some? && BufOf(s, k).page.value != OnDisk(s.disk, k) ==> Pending(s, k)
  }

  /** Whoever holds a data pointer has a page behind it. */
  ghost predicate Resident(s: State) {
    forall t :: t in s.threads && (s.threads[t].Ready? || s.threads[t].Copied?) ==>
      BufOf(s, s.threads[t].key).page.Some?
  }

  ghost predicate Refines(s: State) { forall k :: Logical(s, k) == OnDisk(s.flat, k) }

  /** The lock lets one flush at a time into a buffer. */
  ghost predicate OneFlusher(s: State) {
    forall t, u, k :: t in s.threads && u in s.threads && FlushingPc(s.threads[t], k) && FlushingPc(s.threads[u], k) ==>
      t == u
  }

  ghost predicate Invariant(s: State) {
    Counted(s) && DirtyHeld(s) && OneFlusher(s) && Backed(s) && Resident(s) && Refines(s)
  }

  /** What a step must not do: clear the dirty flag of a page that was changed since its
      blocks were written, when nobody is going to write them again. */
  ghost predicate Clean(s: State, t: nat, a: Action) {
    a.FlushEnd? && (PcOf(s, t).TaskFlush? || PcOf(s, t).SyncFlush?) ==>
      var k := PcOf(s, t).key;
      || BufOf(s, k).page.None?
      || BufOf(s, k).page.value == OnDisk(s.disk, k)
      || Coming(s, k)
  }

  lemma GotoHolders(s: State, t: nat, pc: Pc, k: Key)
    ensures |Holders(Goto(s, t, pc), k)| ==
              |Holders(s, k)| - One(Holding(PcOf(s, t)) == Some(k)) + One(Holding(pc) == Some(k))
  {
    var before, after := Holders(s, k), Holders(Goto(s, t, pc), k);
    assert after == before - {t} + if Holding(pc) == Some(k) then {t} else {};
    assert t in before <==> Holding(PcOf(s, t)) == Some(k);
  }

  /** A thread that moves from `pc` to `pc'` takes its reference along or changes the count. */
  lemma RefsAfter(s: State, s': State, t: nat, k: Key)
    requires s'.threads == s.threads[t := PcOf(s', t)] || (s'.threads == s.threads)
    ensures Refs(s', k) == Refs(s, k) - One(Holding(PcOf(s, t)) == Some(k)) + One(Holding(PcOf(s', t)) == Some(k))
                           + multiset(s'.chan)[k] - multiset(s.chan)[k]
  {
    GotoHolders(s, t, PcOf(s', t), k);
    SameHolders(s', Goto(s, t, PcOf(s', t)), k);
  }

  lemma ChanPush(c: seq<Key>, x: Key, k: Key)
    ensures multiset(c + [x])[k] == multiset(c)[k] + One(x == k)
  {
  }

  lemma ChanPop(c: seq<Key>, k: Key)
    requires c != []
    ensures multiset(c[1..])[k] == multiset(c)[k] - One(c[0] == k)
  {
    assert c == [c[0]] + c[1..];
  }

  lemma UserCounted(s: State, s': State, t: nat, k: Key)
    requires Counted(s)
    requires (exists k' :: DoGet(s, t, k') == Some(s')) || DoData(s, t) == Some(s') || DoRegister(s, t) == Some(s')
    ensures BufOf(s', k).count == Refs(s', k)
  {
    hide Locked, Logical, Refs;
    RefsAfter(s, s', t, k);
  }

  lemma WriteCounted(s: State, s': State, t: nat, offset: nat, bytes: seq<Byte>, k: Key)
    requires Counted(s) && DoWrite(s, t, offset, bytes) == Some(s')
    ensures BufOf(s', k).count == Refs(s', k)
  {
    hide OnDisk, Splice, Refs;
    RefsAfter(s, s', t, k);
  }

  lemma ReleaseCounted(s: State, s': State, t: nat, low: bool, k: Key)
    requires Counted(s) && DoRelease(s, t, low) == Some(s')
    ensures BufOf(s', k).count == Refs(s', k)
  {
    hide Locked, Refs;
    RefsAfter(s, s', t, k);
  }

  lemma SendCounted(s: State, s': State, t: nat, k: Key)
    requires Counted(s) && DoSend(s, t) == Some(s')
    ensures BufOf(s', k).count == Refs(s', k)
  {
    hide Refs;
    RefsAfter(s, s', t, k);
    ChanPush(s.chan, PcOf(s, t).key, k);
  }

  lemma RecvCounted(s: State, s': State, t: nat, k: Key)
    requires Counted(s) && DoRecv(s, t) == Some(s')
    ensures BufOf(s', k).count == Refs(s', k)
  {
    hide Refs;
    RefsAfter(s, s', t, k);
    ChanPop(s.chan, k);
  }

  lemma FlushCounted(s: State, s': State, t: nat, k': Key, k: Key)
    requires Counted(s)
    requires || DoFlushBegin(s, t) == Some(s') || DoSyncBegin(s, t, k') == Some(s')
             || DoFlushEnd(s, t) == Some(s') || DoReclaim(s, t, k') == Some(s')
    ensures BufOf(s', k).count == Refs(s', k)
  {
    hide Locked, Refs, WriteBlocks;
    WriteBlocksFrame(s);
    RefsAfter(s, s', t, k);
  }

  lemma WriteBlocksFrame(s: State)
    ensures forall k :: WriteBlocks(s, k) == s.(disk := WriteBlocks(s, k).disk)
  {
  }

  /** The count of every buffer follows its references through every step. */
  lemma StepCounted(s: State, t: nat, a: Action, low: bool)
    requires Counted(s) && Next(s, t, a, low).Some?
    ensures Counted(Next(s, t, a, low).value)
  {
    hide BufOf, Refs, DoGet, DoData, DoWrite, DoRegister, DoRelease, DoSend, DoRecv, DoFlushBegin, DoFlushEnd,
      DoSyncBegin, DoReclaim;
    var s' := Next(s, t, a, low).value;
    forall k ensures BufOf(s', k).count == Refs(s', k) {
      match a
      case Read =>
      case Get(k') => UserCounted(s, s', t, k);
      case Data => UserCounted(s, s', t, k);
      case Register => UserCounted(s, s', t, k);
      case Write(offset, bytes) => WriteCounted(s, s', t, offset, bytes, k);
      case Release => ReleaseCounted(s, s', t, low, k);
      case Send => SendCounted(s, s', t, k);
      case Recv => RecvCounted(s, s', t, k);
      case SyncBegin(k') => FlushCounted(s, s', t, k', k);
      case Reclaim(k') => FlushCounted(s, s', t, k', k);
      case _ => FlushCounted(s, s', t, k, k);
    }
  }

  lemma SameHolders(s: State, u: State, k: Key)
    requires forall t :: (t in s.threads || t in u.threads) && PcOf(s, t) != Idle ==> PcOf(u, t) == PcOf(s, t)
    requires forall t :: (t in s.threads || t in u.threads) && PcOf(u, t) != Idle ==> PcOf(u, t) == PcOf(s, t)
    ensures Holders(s, k) == Holders(u, k)
  {
  }

  lemma Unheld(s: State, k: Key, t: nat)
    requires Counted(s) && t in s.threads
    ensures BufOf(s, k).count == 0 ==> Holding(s.threads[t]) != Some(k)
    ensures BufOf(s, k).count == 1 && Holding(s.threads[t]) == Some(k) ==>
              forall u :: u in s.threads && Holding(s.threads[u]) == Some(k) ==> u == t
  {
    var h := Holders(s, k);
    if Holding(s.threads[t]) == Some(k) {
      assert t in h;
      if BufOf(s, k).count == 1 {
        assert |h - {t}| == 0;
        forall u | u in s.threads && Holding(s.threads[u]) == Some(k) ensures u == t {
          assert u in h && u !in h - {t};
        }
      }
    }
  }

  /** Only a clean buffer loses references, and only a holder makes a buffer dirty. */
  lemma StepDirty(s: State, t: nat, a: Action, low: bool)
    requires Counted(s) && DirtyHeld(s) && Next(s, t, a, low).Some?
    ensures DirtyHeld(Next(s, t, a, low).value)
  {
    hide Locked, Refs, Logical, Splice, OnDisk;
    StepCounted(s, t, a, low);
    var s' := Next(s, t, a, low).value;
    forall k | BufOf(s', k).dirty ensures Refs(s', k) > 0 {
      if a.Register? && k == PcOf(s, t).key {
        Unheld(s, k, t);
      } else {
        assert BufOf(s, k).dirty && BufOf(s', k).count >= BufOf(s, k).count;
      }
    }
  }

  /** A step of `t` leaves the other threads where they are and takes nothing off the channel. */
  lemma StillComing(s: State, s': State, t: nat)
    requires forall u :: u in s.threads && u != t ==> u in s'.threads && s'.threads[u] == s.threads[u]
    requires forall k :: k in s.chan ==> k in s'.chan
    ensures forall k :: Coming(s, k) && !Due(PcOf(s, t), k) ==> Coming(s', k)
  {
    forall k | Coming(s, k) && !Due(PcOf(s, t), k) ensures Coming(s', k) {
      if k !in s.chan {
        var u :| u in s.threads && Due(s.threads[u], k);
        assert Due(s'.threads[u], k);
      }
    }
  }

  /** A buffer whose only reference is held elsewhere, if there is one at all, is not on its way
      to the flush task. */
  lemma NotComing(s: State, k: Key, t: nat)
    requires Counted(s)
    requires BufOf(s, k).count == 0 || (BufOf(s, k).count == 1 && Holding(PcOf(s, t)) == Some(k) && !Due(PcOf(s, t), k))
    ensures !Coming(s, k)
  {
    assert BufOf(s, k).count == Refs(s, k);
    if BufOf(s, k).count == 1 { assert t in Holders(s, k); }
    assert multiset(s.chan)[k] == 0;
    forall u | u in s.threads ensures !Due(s.threads[u], k) {
      Unheld(s, k, u);
      if BufOf(s, k).count == 1 { Unheld(s, k, t); }
    }
  }

  lemma GetSafe(s: State, s': State, t: nat, k: Key)
    requires Invariant(s) && (DoGet(s, t, k) == Some(s') || DoData(s, t) == Some(s'))
    ensures Backed(s') && Resident(s') && Refines(s')
  {
    hide Locked, Refs, Coming;
    StillComing(s, s', t);
  }

  lemma WriteSafe(s: State, s': State, t: nat, offset: nat, bytes: seq<Byte>)
    requires Invariant(s) && DoWrite(s, t, offset, bytes) == Some(s')
    ensures Backed(s') && Resident(s') && Refines(s')
  {
    hide Refs, Splice;
    var k := PcOf(s, t).key;
    assert Due(s'.threads[t], k);
    assert BufOf(s, k).page.value == Logical(s, k) == OnDisk(s.flat, k);
    assert forall k' :: k' != k ==> Logical(s', k') == Logical(s, k') && OnDisk(s'.flat, k') == OnDisk(s.flat, k');
    StillComing(s, s', t);
  }

  lemma RegisterSafe(s: State, s': State, t: nat)
    requires Invariant(s) && DoRegister(s, t) == Some(s')
    ensures Backed(s') && Resident(s') && Refines(s')
  {
    hide Refs, Coming;
    StillComing(s, s', t);
  }

  /** The last holder of a clean buffer may drop the page: it is on the disk. */
  lemma LastHolder(s: State, t: nat)
    requires Invariant(s) && MayRelease(PcOf(s, t))
    ensures var b := BufOf(s, PcOf(s, t).key);
            !b.dirty && b.count == 1 && b.page.Some? ==> b.page.value == OnDisk(s.disk, PcOf(s, t).key)
  {
    hide Refs, Coming, OnDisk;
    if BufOf(s, PcOf(s, t).key).count == 1 { NotComing(s, PcOf(s, t).key, t); }
  }

  lemma ReleaseSafe(s: State, s': State, t: nat, low: bool)
    requires Invariant(s) && DoRelease(s, t, low) == Some(s')
    ensures Backed(s') && Resident(s') && Refines(s')
  {
    hide Locked, Refs, Coming, OnDisk;
    StillComing(s, s', t);
    Unheld(s, PcOf(s, t).key, t);
    LastHolder(s, t);
  }

  lemma ChannelSafe(s: State, s': State, t: nat)
    requires Invariant(s) && (DoSend(s, t) == Some(s') || DoRecv(s, t) == Some(s'))
    ensures Backed(s') && Resident(s') && Refines(s')
  {
    hide Refs;
    forall k | Coming(s, k) ensures Coming(s', k) {
      if DoRecv(s, t) == Some(s') && k == s.chan[0] {
        assert Due(s'.threads[t], k);
      } else if k in s.chan {
        assert k in s'.chan;
      } else {
        var u :| u in s.threads && Due(s.threads[u], k);
        assert u != t ==> Due(s'.threads[u], k);
      }
    }
  }

  /** Writing the blocks of any buffer, before anything else changes. */
  lemma WriteBlocksSafe(s: State, k: Key)
    requires Backed(s) && Refines(s)
    ensures Backed(WriteBlocks(s, k)) && Refines(WriteBlocks(s, k))
  {
    hide Zero;
    var s' := WriteBlocks(s, k);
    forall k' | BufOf(s', k').page.Some? && BufOf(s', k').page.value != OnDisk(s'.disk, k') ensures Pending(s', k') {
      assert OnDisk(s'.disk, k') == OnDisk(s.disk, k') && BufOf(s', k') == BufOf(s, k');
      assert Pending(s, k');
    }
  }

  lemma FlushBeginSafe(s: State, s': State, t: nat, k: Key)
    requires Invariant(s) && (DoFlushBegin(s, t) == Some(s') || DoSyncBegin(s, t, k) == Some(s'))
    ensures Backed(s') && Resident(s') && Refines(s')
  {
    hide Locked, Refs, Coming, Zero;
    var key := PcOf(s', t).key;
    WriteBlocksSafe(s, key);
    StillComing(WriteBlocks(s, key), s', t);
  }

  lemma FlushEndSafe(s: State, s': State, t: nat)
    requires Invariant(s) && DoFlushEnd(s, t) == Some(s') && Clean(s, t, FlushEnd)
    ensures Backed(s') && Resident(s') && Refines(s')
  {
    hide Refs, Coming;
    StillComing(s, s', t);
    forall k | BufOf(s', k).page.Some? && BufOf(s', k).page.value != OnDisk(s'.disk, k) ensures Pending(s', k) {
      assert Pending(s, k);
    }
  }

  lemma ReclaimSafe(s: State, s': State, t: nat, k: Key)
    requires Invariant(s) && DoReclaim(s, t, k) == Some(s')
    ensures Backed(s') && Resident(s') && Refines(s')
  {
    hide Locked, Refs, Coming;
    forall u | u in s.threads { Unheld(s, k, u); }
    StillComing(s, s', t);
    if BufOf(s, k).count == 0 { NotComing(s, k, t); }
  }

  lemma FlusherFrame(s: State, s': State, t: nat)
    requires OneFlusher(s) && s'.threads == s.threads[t := PcOf(s', t)]
    requires forall k :: FlushingPc(PcOf(s', t), k) ==> !Locked(s, k)
    ensures OneFlusher(s')
  {
    forall u, v, k | u in s'.threads && v in s'.threads && FlushingPc(s'.threads[u], k) && FlushingPc(s'.threads[v], k)
      ensures u == v
    {
      if u != t && v != t {
        assert FlushingPc(s.threads[u], k) && FlushingPc(s.threads[v], k);
      } else {
        assert forall w :: w in s.threads && FlushingPc(s.threads[w], k) ==> Locked(s, k);
      }
    }
  }

  /** A flush starts only on a buffer that is not locked. */
  lemma StepFlusher(s: State, t: nat, a: Action, low: bool)
    requires OneFlusher(s) && Next(s, t, a, low).Some?
    ensures OneFlusher(Next(s, t, a, low).value)
  {
    hide OneFlusher, Locked, Logical, Splice, OnDisk, BufOf;
    var s' := Next(s, t, a, low).value;
    if s'.threads != s.threads {
      FlusherFrame(s, s', t);
    } else {
      SameFlushers(s, s');
    }
  }

  lemma SameFlushers(s: State, s': State)
    requires OneFlusher(s) && s'.threads == s.threads
    ensures OneFlusher(s')
  {
  }

  /** Every clean step of every thread keeps the cache a faithful view of the flat disk. */
  lemma StepInvariant(s: State, t: nat, a: Action, low: bool)
    requires Invariant(s) && Next(s, t, a, low).Some? && Clean(s, t, a)
    ensures Invariant(Next(s, t, a, low).value)
  {
    hide Counted, DirtyHeld, OneFlusher, Backed, Resident, Refines, Clean, DoGet, DoData, DoWrite, DoRegister,
      DoRelease, DoSend, DoRecv, DoFlushBegin, DoFlushEnd, DoSyncBegin, DoReclaim;
    StepCounted(s, t, a, low);
    StepDirty(s, t, a, low);
    StepFlusher(s, t, a, low);
    var s' := Next(s, t, a, low).value;
    match a
    case Read =>
    case Get(k) => GetSafe(s, s', t, k);
    case Data => GetSafe(s, s', t, Key(0, 0));
    case Register => RegisterSafe(s, s', t);
    case Write(offset, bytes) => WriteSafe(s, s', t, offset, bytes);
    case Release => ReleaseSafe(s, s', t, low);
    case Send => ChannelSafe(s, s', t);
    case Recv => ChannelSafe(s, s', t);
    case FlushBegin => FlushBeginSafe(s, s', t, Key(0, 0));
    case SyncBegin(k) => FlushBeginSafe(s, s', t, k);
    case FlushEnd => FlushEndSafe(s, s', t);
    case Reclaim(k) => ReclaimSafe(s, s', t, k);
  }

  // -------------------------------------------------------------------------
  // Whole runs

  datatype Move = Move(thread: nat, action: Action)

  function Run(s: State, moves: seq<Move>, low: bool): Option<State>
    decreases |moves|
  {
    if moves == [] then Some(s) else
    match Next(s, moves[0].thread, moves[0].action, low)
    case None => None
    case Some(s') => Run(s', moves[1..], low)
  }

  ghost predicate RunClean(s: State, moves: seq<Move>, low: bool)
    decreases |moves|
  {
    moves != [] ==>
      var m := moves[0];
      && Clean(s, m.thread, m.action)
      && (Next(s, m.thread, m.action, low).Some? ==> RunClean(Next(s, m.thread, m.action, low).value, moves[1..], low))
  }

  function Start(disk: map<Key, Page>): State { State(map[], disk, [], map[], disk) }

  lemma StartInvariant(disk: map<Key, Page>)
    ensures Invariant(Start(disk))
  {
    assert forall k :: Holders(Start(disk), k) == {};
  }

  /** In every run whatsoever, counts equal references and dirty buffers are referenced,
      so a dirty buffer is never reclaimed. */
  lemma {:induction false} RunCounted(s: State, moves: seq<Move>, low: bool)
    requires Counted(s) && DirtyHeld(s) && Run(s, moves, low).Some?
    ensures Counted(Run(s, moves, low).value) && DirtyHeld(Run(s, moves, low).value)
    ensures forall k :: BufOf(Run(s, moves, low).value, k).dirty ==> BufOf(Run(s, moves, low).value, k).count > 0
    decreases |moves|
  {
    hide Next;
    if moves != [] {
      StepCounted(s, moves[0].thread, moves[0].action, low);
      StepDirty(s, moves[0].thread, moves[0].action, low);
      RunCounted(Next(s, moves[0].thread, moves[0].action, low).value, moves[1..], low);
    }
  }

  lemma {:induction false} RunInvariant(s: State, moves: seq<Move>, low: bool)
    requires Invariant(s) && RunClean(s, moves, low) && Run(s, moves, low).Some?
    ensures Invariant(Run(s, moves, low).value)
    decreases |moves|
  {
    hide Invariant, Next, Clean;
    if moves != [] {
      StepInvariant(s, moves[0].thread, moves[0].action, low);
      RunInvariant(Next(s, moves[0].thread, moves[0].action, low).value, moves[1..], low);
    }
  }

  /** A reader finds in the page exactly what was last written to it, by whichever thread,
      through any number of flushes, syncs and reclaims. */
  lemma ReadsLastWritten(disk: map<Key, Page>, moves: seq<Move>, low: bool, t: nat)
    requires RunClean(Start(disk), moves, low) && Run(Start(disk), moves, low).Some?
    requires PcOf(Run(Start(disk), moves, low).value, t).Ready?
    ensures var s := Run(Start(disk), moves, low).value;
            BufOf(s, PcOf(s, t).key).page == Some(OnDisk(s.flat, PcOf(s, t).key))
  {
    hide Run, RunClean;
    StartInvariant(disk);
    RunInvariant(Start(disk), moves, low);
    var s := Run(Start(disk), moves, low).value;
    assert Logical(s, PcOf(s, t).key) == OnDisk(s.flat, PcOf(s, t).key);
  }

  lemma FlatSteps(s: State, t: nat, a: Action, low: bool)
    requires Next(s, t, a, low).Some? && !a.Write?
    ensures Next(s, t, a, low).value.flat == s.flat
  {
  }

  /** Nothing but a write changes the contents: not flushing, syncing, releasing or reclaiming. */
  lemma OnlyWritesChange(s: State, t: nat, a: Action, low: bool, k: Key)
    requires Invariant(s) && Next(s, t, a, low).Some? && !a.Write?
    ensures Logical(Next(s, t, a, low).value, k) == Logical(s, k)
  {
    hide Clean, Logical, Next, Invariant, Counted, DirtyHeld, OneFlusher, Backed, Resident;
    if a.FlushEnd? {
      FlushEndLogical(s, t, low, k);
    } else {
      NotFlushEnd(s, t, a);
      StepInvariant(s, t, a, low);
      FlatSteps(s, t, a, low);
      InvariantRefines(s);
      InvariantRefines(Next(s, t, a, low).value);
    }
  }

  lemma NotFlushEnd(s: State, t: nat, a: Action)
    requires !a.FlushEnd?
    ensures Clean(s, t, a)
  {
  }

  lemma FlushEndLogical(s: State, t: nat, low: bool, k: Key)
    requires Next(s, t, FlushEnd, low).Some?
    ensures Logical(Next(s, t, FlushEnd, low).value, k) == Logical(s, k)
  {
    hide OnDisk;
  }

  // -------------------------------------------------------------------------
  // The condition on the end of a flush is exact

  /** Nothing is lost later, as long as later flushes end cleanly. */
  ghost predicate Harmless(s: State, low: bool) {
    forall moves :: RunClean(s, moves, low) && Run(s, moves, low).Some? ==> Refines(Run(s, moves, low).value)
  }

  lemma RunCons(s: State, m: Move, rest: seq<Move>, low: bool, s': State)
    requires Next(s, m.thread, m.action, low) == Some(s')
    ensures Run(s, [m] + rest, low) == Run(s', rest, low)
  {
    hide Next;
    assert ([m] + rest)[1..] == rest;
  }

  /** A clean buffer that nobody flushes, sends or marks: one holder lets go. */
  lemma LetGo(s: State, k: Key, u: nat, low: bool) returns (s': State)
    requires Counted(s) && !BufOf(s, k).dirty && !Locked(s, k) && u in s.threads
    requires Holding(s.threads[u]) == Some(k) && MayRelease(s.threads[u])
    ensures Next(s, u, Release, low) == Some(s') && Counted(s')
    ensures !BufOf(s', k).dirty && !Locked(s', k) && s'.chan == s.chan && s'.disk == s.disk && s'.flat == s.flat
    ensures BufOf(s', k).page == BufOf(s, k).page || BufOf(s', k).page.None?
    ensures s'.threads == s.threads[u := Idle] && Holders(s', k) == Holders(s, k) - {u}
  {
    s' := Next(s, u, Release, low).value;
    StepCounted(s, u, Release, low);
    forall v | v in s'.threads ensures !FlushingPc(s'.threads[v], k) {
      if v != u { assert !FlushingPc(s.threads[v], k); }
    }
  }

  /** All of them let go. */
  lemma {:induction false} Drain(s: State, k: Key, low: bool) returns (moves: seq<Move>, s': State)
    requires Counted(s) && !BufOf(s, k).dirty && !Locked(s, k) && k !in s.chan
    requires forall u :: u in Holders(s, k) ==> MayRelease(s.threads[u])
    ensures Run(s, moves, low) == Some(s') && Counted(s') && Holders(s', k) == {}
    ensures !BufOf(s', k).dirty && !Locked(s', k) && k !in s'.chan && s'.disk == s.disk && s'.flat == s.flat
    ensures BufOf(s', k).page == BufOf(s, k).page || BufOf(s', k).page.None?
    ensures forall u :: PcOf(s, u).Idle? || u in Holders(s, k) ==> PcOf(s', u).Idle?
    ensures forall m :: m in moves ==> m.action.Release?
    decreases |Holders(s, k)|
  {
    hide Next, Counted, Locked, BufOf;
    if Holders(s, k) == {} {
      moves, s' := [], s;
    } else {
      var u :| u in Holders(s, k);
      var s1 := LetGo(s, k, u, low);
      var rest;
      rest, s' := Drain(s1, k, low);
      RunCons(s, Move(u, Release), rest, low, s1);
      moves := [Move(u, Release)] + rest;
    }
  }

  lemma {:induction false} NoFlushClean(s: State, moves: seq<Move>, low: bool)
    requires forall m :: m in moves ==> !m.action.FlushEnd?
    ensures RunClean(s, moves, low)
    decreases |moves|
  {
    hide Next;
    if moves != [] && Next(s, moves[0].thread, moves[0].action, low).Some? {
      NoFlushClean(Next(s, moves[0].thread, moves[0].action, low).value, moves[1..], low);
    }
  }

  lemma {:induction false} RunAdd(s: State, a: seq<Move>, b: seq<Move>, low: bool)
    requires Run(s, a, low).Some?
    ensures Run(s, a + b, low) == Run(Run(s, a, low).value, b, low)
    decreases |a|
  {
    hide Next;
    if a == [] {
      assert a + b == b;
    } else {
      assert (a + b)[1..] == a[1..] + b;
      RunAdd(Next(s, a[0].thread, a[0].action, low).value, a[1..], b, low);
    }
  }

  /** What an unclean end of a flush leaves: a clean-looking buffer whose page is not on the disk. */
  ghost predicate Exposed(s: State, k: Key) {
    && Counted(s) && !BufOf(s, k).dirty && !Locked(s, k) && k !in s.chan
    && (forall u :: u in Holders(s, k) ==> MayRelease(s.threads[u]))
    && BufOf(s, k).page.Some? && BufOf(s, k).page.value == OnDisk(s.flat, k) != OnDisk(s.disk, k)
  }

  lemma UncleanExposes(s: State, t: nat)
    requires Invariant(s) && DoFlushEnd(s, t).Some? && !Clean(s, t, FlushEnd)
    ensures Exposed(DoFlushEnd(s, t).value, PcOf(s, t).key)
  {
    hide Zero;
    var s', k := DoFlushEnd(s, t).value, PcOf(s, t).key;
    StepCounted(s, t, FlushEnd, false);
    assert Logical(s, k) == OnDisk(s.flat, k);
    assert FlushingPc(s.threads[t], k);
    forall u | u in s'.threads
      ensures !FlushingPc(s'.threads[u], k) && (Holding(s'.threads[u]) == Some(k) ==> MayRelease(s'.threads[u]))
    {
      if u != t {
        assert s'.threads[u] == s.threads[u] && !Due(s.threads[u], k) && !FlushingPc(s.threads[u], k);
      }
    }
  }

  /** From there the page is lost by letting go of it: its holders release it and it is reclaimed. */
  lemma ExposedLoses(s: State, k: Key, t: nat, low: bool) returns (moves: seq<Move>)
    requires Exposed(s, k) && (PcOf(s, t).Idle? || t in Holders(s, k))
    ensures Run(s, moves, low).Some? && !Refines(Run(s, moves, low).value)
    ensures forall m :: m in moves ==> m.action.Release? || m.action.Reclaim?
  {
    hide Run;
    var rest, s1 := Drain(s, k, low);
    var last := Move(t, Reclaim(k));
    var s2 := Next(s1, t, Reclaim(k), low).value;
    assert BufOf(s1, k).count == Refs(s1, k) == 0;
    assert Logical(s2, k) == OnDisk(s.disk, k);
    RunAdd(s, rest, [last], low);
    RunCons(s1, last, [], low, s2);
    RunNone(s2, low);
    assert [last] + [] == [last];
    moves := rest + [last];
  }

  lemma RunNone(s: State, low: bool)
    ensures Run(s, [], low) == Some(s)
  {
  }

  /** The end of a flush loses nothing, in no continuation, if and only if it is clean. */
  lemma FlushEndExact(s: State, t: nat, low: bool)
    requires Invariant(s) && DoFlushEnd(s, t).Some?
    ensures Harmless(DoFlushEnd(s, t).value, low) <==> Clean(s, t, FlushEnd)
  {
    hide Run, RunClean, Clean, Invariant;
    var s' := DoFlushEnd(s, t).value;
    if Clean(s, t, FlushEnd) {
      StepInvariant(s, t, FlushEnd, low);
      forall moves | RunClean(s', moves, low) && Run(s', moves, low).Some? ensures Refines(Run(s', moves, low).value) {
        RunInvariant(s', moves, low);
        InvariantRefines(Run(s', moves, low).value);
      }
    } else {
      UncleanExposes(s, t);
      var moves := ExposedLoses(s', PcOf(s, t).key, t, low);
      NoFlushClean(s', moves, low);
    }
  }

  lemma InvariantRefines(s: State)
    requires Invariant(s)
    ensures Refines(s)
  {
  }

  // -------------------------------------------------------------------------
  // A discipline that makes every run clean

  /** No thread copies into a page while that page is being flushed. */
  ghost predicate Guarded(s: State, moves: seq<Move>, low: bool)
    decreases |moves|
  {
    moves != [] ==>
      var m := moves[0];
      && (m.action.Write? && PcOf(s, m.thread).Ready? ==> !Locked(s, PcOf(s, m.thread).key))
      && (Next(s, m.thread, m.action, low).Some? ==> Guarded(Next(s, m.thread, m.action, low).value, moves[1..], low))
  }

  ghost predicate Synced(s: State) {
    forall t :: t in s.threads && (s.threads[t].TaskFlush? || s.threads[t].SyncFlush?) ==>
      var k := s.threads[t].key;
      BufOf(s, k).page.Some? ==> BufOf(s, k).page.value == OnDisk(s.disk, k)
  }

  lemma FlushingIsLocked(s: State, t: nat)
    requires t in s.threads && (s.threads[t].TaskFlush? || s.threads[t].SyncFlush?)
    ensures Locked(s, s.threads[t].key)
  {
    assert FlushingPc(s.threads[t], s.threads[t].key);
  }

  /** A step that touches only a buffer whose lock it could take, or changes no page. */
  lemma LockedSynced(s: State, s': State, t: nat, a: Action, low: bool)
    requires Synced(s) && Next(s, t, a, low) == Some(s') && !a.Write? && !a.FlushBegin? && !a.SyncBegin?
    ensures Synced(s')
  {
    hide Locked, OnDisk, Logical;
    forall u | u in s.threads && (s.threads[u].TaskFlush? || s.threads[u].SyncFlush?) { FlushingIsLocked(s, u); }
  }

  lemma FlushSynced(s: State, s': State, t: nat, k: Key)
    requires Synced(s) && (DoFlushBegin(s, t) == Some(s') || DoSyncBegin(s, t, k) == Some(s'))
    ensures Synced(s')
  {
    hide Locked, Zero;
  }

  lemma WriteSynced(s: State, s': State, t: nat, offset: nat, bytes: seq<Byte>)
    requires Synced(s) && DoWrite(s, t, offset, bytes) == Some(s') && !Locked(s, PcOf(s, t).key)
    ensures Synced(s')
  {
    hide Locked, Splice, Zero;
    forall u | u in s.threads && (s.threads[u].TaskFlush? || s.threads[u].SyncFlush?) { FlushingIsLocked(s, u); }
  }

  lemma {:induction false} GuardedIsClean(s: State, moves: seq<Move>, low: bool)
    requires Synced(s) && Guarded(s, moves, low)
    ensures RunClean(s, moves, low)
    decreases |moves|
  {
    hide Locked, Splice, DoGet, DoData, DoWrite, DoRegister, DoRelease, DoSend, DoRecv, DoFlushBegin, DoFlushEnd,
      DoSyncBegin, DoReclaim;
    if moves != [] {
      var m := moves[0];
      if Next(s, m.thread, m.action, low).Some? {
        var s' := Next(s, m.thread, m.action, low).value;
        if m.action.Write? {
          WriteNeedsReady(s, m.thread, m.action.offset, m.action.bytes);
          WriteSynced(s, s', m.thread, m.action.offset, m.action.bytes);
        } else if m.action.FlushBegin? || m.action.SyncBegin? {
          FlushSynced(s, s', m.thread, if m.action.SyncBegin? then m.action.key else K);
        } else {
          LockedSynced(s, s', m.thread, m.action, low);
        }
        GuardedIsClean(s', moves[1..], low);
      }
    }
  }

  lemma WriteNeedsReady(s: State, t: nat, offset: nat, bytes: seq<Byte>)
    requires DoWrite(s, t, offset, bytes).Some?
    ensures PcOf(s, t).Ready?
  {
  }

  // -------------------------------------------------------------------------
  // Without it, a write can be lost

  const K := Key(0, 0)

  /** Threads 1 and 3 hold the page. Thread 3 writes, marks and releases it; the flush task, on
      thread 2, takes it and writes its blocks; thread 1 writes and marks it; the task clears the
      flag; both let go and the page is reclaimed. */
  const LOST := [
    Move(3, Get(K)), Move(3, Data), Move(1, Get(K)), Move(1, Data),
    Move(3, Write(0, [1])), Move(3, Register), Move(3, Release), Move(3, Send), Move(2, Recv), Move(2, FlushBegin),
    Move(1, Write(0, [2])), Move(1, Register), Move(2, FlushEnd),
    Move(1, Release), Move(2, Release), Move(2, Reclaim(K))]

  function First(): Page { Splice(Zero(), 0, [1]) }

  function Second(): Page { Splice(First(), 0, [2]) }

  ghost predicate View(s: State, b: Buffer, pc1: Pc, pc2: Pc, pc3: Pc, chan: seq<Key>, disk: Page, flat: Page) {
    && s.threads.Keys <= {1, 2, 3} && s.chan == chan
    && PcOf(s, 1) == pc1 && PcOf(s, 2) == pc2 && PcOf(s, 3) == pc3
    && BufOf(s, K) == b
    && OnDisk(s.disk, K) == disk && OnDisk(s.flat, K) == flat
  }

  lemma RunAt(s: State, moves: seq<Move>, i: nat, low: bool, s': State)
    requires i < |moves| && Next(s, moves[i].thread, moves[i].action, low) == Some(s')
    ensures Run(s, moves[i..], low) == Run(s', moves[i + 1..], low)
  {
    hide Next;
    assert moves[i..][1..] == moves[i + 1..];
  }

  lemma LostLoad(s: State) returns (s2: State)
    requires View(s, Fresh(), Idle, Idle, Idle, [], Zero(), Zero())
    ensures View(s2, Buffer(1, false, Some(Zero())), Idle, Idle, Ready(K), [], Zero(), Zero())
    ensures Run(s, LOST[0..], false) == Run(s2, LOST[2..], false)
  {
    hide Run, Splice, Zero;
    var s1 := Next(s, 3, Get(K), false).value;
    s2 := Next(s1, 3, Data, false).value;
    assert View(s1, Buffer(1, false, None), Idle, Idle, Got(K), [], Zero(), Zero());
    RunAt(s, LOST, 0, false, s1);
    RunAt(s1, LOST, 1, false, s2);
  }

  lemma LostJoin(s: State) returns (s2: State)
    requires View(s, Buffer(1, false, Some(Zero())), Idle, Idle, Ready(K), [], Zero(), Zero())
    ensures View(s2, Buffer(2, false, Some(Zero())), Ready(K), Idle, Ready(K), [], Zero(), Zero())
    ensures Run(s, LOST[2..], false) == Run(s2, LOST[4..], false)
  {
    hide Run, Splice, Zero;
    var s1 := Next(s, 1, Get(K), false).value;
    s2 := Next(s1, 1, Data, false).value;
    assert View(s1, Buffer(2, false, Some(Zero())), Got(K), Idle, Ready(K), [], Zero(), Zero());
    RunAt(s, LOST, 2, false, s1);
    RunAt(s1, LOST, 3, false, s2);
  }

  lemma LostFirst(s: State) returns (s2: State)
    requires View(s, Buffer(2, false, Some(Zero())), Ready(K), Idle, Ready(K), [], Zero(), Zero())
    ensures View(s2, Buffer(2, true, Some(First())), Ready(K), Idle, Ready(K), [], Zero(), First())
    ensures Run(s, LOST[4..], false) == Run(s2, LOST[6..], false)
  {
    hide Run, Splice, Zero;
    var s1 := Next(s, 3, Write(0, [1]), false).value;
    s2 := Next(s1, 3, Register, false).value;
    assert View(s1, Buffer(2, false, Some(First())), Ready(K), Idle, Copied(K), [], Zero(), First());
    RunAt(s, LOST, 4, false, s1);
    RunAt(s1, LOST, 5, false, s2);
  }

  lemma LostSend(s: State) returns (s2: State)
    requires View(s, Buffer(2, true, Some(First())), Ready(K), Idle, Ready(K), [], Zero(), First())
    ensures View(s2, Buffer(2, true, Some(First())), Ready(K), Idle, Idle, [K], Zero(), First())
    ensures Run(s, LOST[6..], false) == Run(s2, LOST[8..], false)
  {
    hide Run, Splice, Zero;
    var s1 := Next(s, 3, Release, false).value;
    s2 := Next(s1, 3, Send, false).value;
    assert View(s1, Buffer(2, true, Some(First())), Ready(K), Idle, Sending(K), [], Zero(), First());
    RunAt(s, LOST, 6, false, s1);
    RunAt(s1, LOST, 7, false, s2);
  }

  lemma LostFlush(s: State) returns (s2: State)
    requires View(s, Buffer(2, true, Some(First())), Ready(K), Idle, Idle, [K], Zero(), First())
    ensures View(s2, Buffer(2, true, Some(First())), Ready(K), TaskFlush(K), Idle, [], First(), First())
    ensures Run(s, LOST[8..], false) == Run(s2, LOST[10..], false)
  {
    hide Run, Splice, Zero;
    var s1 := Next(s, 2, Recv, false).value;
    s2 := Next(s1, 2, FlushBegin, false).value;
    assert View(s1, Buffer(2, true, Some(First())), Ready(K), Taken(K), Idle, [], Zero(), First());
    RunAt(s, LOST, 8, false, s1);
    RunAt(s1, LOST, 9, false, s2);
  }

  lemma LostSecond(s: State) returns (s2: State)
    requires View(s, Buffer(2, true, Some(First())), Ready(K), TaskFlush(K), Idle, [], First(), First())
    ensures View(s2, Buffer(2, true, Some(Second())), Ready(K), TaskFlush(K), Idle, [], First(), Second())
    ensures Run(s, LOST[10..], false) == Run(s2, LOST[12..], false)
  {
    hide Run, Splice, Zero;
    var s1 := Next(s, 1, Write(0, [2]), false).value;
    s2 := Next(s1, 1, Register, false).value;
    assert View(s1, Buffer(2, true, Some(Second())), Copied(K), TaskFlush(K), Idle, [], First(), Second());
    RunAt(s, LOST, 10, false, s1);
    RunAt(s1, LOST, 11, false, s2);
  }

  lemma LostEnd(s: State) returns (s2: State)
    requires View(s, Buffer(2, true, Some(Second())), Ready(K), TaskFlush(K), Idle, [], First(), Second())
    ensures View(s2, Buffer(1, false, Some(Second())), Idle, Flushed(K), Idle, [], First(), Second())
    ensures Run(s, LOST[12..], false) == Run(s2, LOST[14..], false)
  {
    hide Run, Splice, Zero;
    var s1 := Next(s, 2, FlushEnd, false).value;
    s2 := Next(s1, 1, Release, false).value;
    assert View(s1, Buffer(2, false, Some(Second())), Ready(K), Flushed(K), Idle, [], First(), Second());
    RunAt(s, LOST, 12, false, s1);
    RunAt(s1, LOST, 13, false, s2);
  }

  lemma LostDrop(s: State) returns (s2: State)
    requires View(s, Buffer(1, false, Some(Second())), Idle, Flushed(K), Idle, [], First(), Second())
    ensures View(s2, Buffer(0, false, None), Idle, Idle, Idle, [], First(), Second())
    ensures Run(s, LOST[14..], false) == Run(s2, LOST[16..], false)
  {
    hide Run, Splice, Zero;
    var s1 := Next(s, 2, Release, false).value;
    s2 := Next(s1, 2, Reclaim(K), false).value;
    assert View(s1, Buffer(0, false, Some(Second())), Idle, Idle, Idle, [], First(), Second());
    RunAt(s, LOST, 14, false, s1);
    RunAt(s1, LOST, 15, false, s2);
  }

  /** The second write is gone: the page now reads as the first one. */
  lemma LostWrite()
    ensures var r := Run(Start(map[]), LOST, false);
            && r.Some?
            && Logical(r.value, K)[0] == 1 && OnDisk(r.value.flat, K)[0] == 2
            && !RunClean(Start(map[]), LOST, false)
  {
    hide RunClean, Next, Run;
    var s2 := LostLoad(Start(map[]));
    var s4 := LostJoin(s2);
    var s6 := LostFirst(s4);
    var s8 := LostSend(s6);
    var s10 := LostFlush(s8);
    var s12 := LostSecond(s10);
    var s14 := LostEnd(s12);
    var s16 := LostDrop(s14);
    assert LOST[0..] == LOST && LOST[16..] == [];
    RunNone(s16, false);
    if RunClean(Start(map[]), LOST, false) {
      StartInvariant(map[]);
      RunInvariant(Start(map[]), LOST, false);
    }
  }
}
