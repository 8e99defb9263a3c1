/** The frame allocator with its clients: what is handed out and not yet given back. */
module FrameClients {
  import opened PhysFrames

  /** A client wants `n` frames in a row, or gives back part of what it got. */
  datatype Request = Want(n: nat) | Give(v: nat, len: nat)

  predicate Inside(r: Run, v: nat, len: nat) { r.start <= v && v + len <= r.End() }

  ghost predicate Serviceable(runs: seq<Run>, out: seq<Run>, q: Request) {
    match q
    case Want(n) => n > 0 && exists i :: FirstFit(runs, n, i)
    case Give(v, len) => len > 0 && exists i :: 0 <= i < |out| && Inside(out[i], v, len)
  }

  function Piece(rest: seq<Run>, i: nat, r: Run): (t: seq<Run>)
    requires i <= |rest|
    ensures i <= |t|
  {
    if r.len > 0 then Insert(rest, i, r) else rest
  }

  /** What is left of the outstanding runs when part of one goes back: up to two pieces of it. */
  function Carve(out: seq<Run>, i: nat, v: nat, len: nat): seq<Run>
    requires i < |out| && Inside(out[i], v, len)
  {
    var r := out[i];
    var left := Piece(Take(out, i, r.len), i, Run(r.start, v - r.start));
    Piece(left, i, Run(v + len, r.End() - (v + len)))
  }

  lemma PieceExact(rest: seq<Run>, i: nat, r: Run)
    requires Sound(rest) && i <= |rest| && r.start > 0 && Range(r.start, r.len) !! PagesOf(rest)
    ensures var t := Piece(rest, i, r);
            Sound(t) && Sum(t) == Sum(rest) + r.len && PagesOf(t) == PagesOf(rest) + Range(r.start, r.len)
  {
    hide Sound, Sum, PagesOf, Insert;
    if r.len > 0 {
      InsertSound(rest, i, r);
      InsertExact(rest, i, r);
    }
  }

  lemma ThreeParts(r: Run, v: nat, len: nat)
    requires Inside(r, v, len)
    ensures var a, b, c := Range(r.start, v - r.start), Range(v, len), Range(v + len, r.End() - (v + len));
            Range(r.start, r.len) == a + b + c && a !! b && a !! c && b !! c
  {
  }

  lemma CarveExact(out: seq<Run>, i: nat, v: nat, len: nat)
    requires Sound(out) && i < |out| && Inside(out[i], v, len) && len > 0
    ensures var out' := Carve(out, i, v, len);
            && Sound(out') && Sum(out') == Sum(out) - len
            && Range(v, len) <= PagesOf(out) && PagesOf(out') == PagesOf(out) - Range(v, len)
  {
    hide Sound, Sum, PagesOf, Range, Piece;
    var r := out[i];
    TakeSound(out, i, r.len);
    TakeExact(out, i, r.len);
    ThreeParts(r, v, len);
    Positive(out, i);
    var rest := Take(out, i, r.len);
    var a, c := Run(r.start, v - r.start), Run(v + len, r.End() - (v + len));
    PieceExact(rest, i, a);
    PieceExact(Piece(rest, i, a), i, c);
  }

  lemma Positive(runs: seq<Run>, i: nat)
    requires Sound(runs) && i < |runs|
    ensures runs[i].start > 0
  {
  }

  /** Free and outstanding runs do not overlap; together they are `pool`, `total` frames in all;
      and no frame that is out has been touched. */
  ghost predicate Balanced(k: Kmem, out: seq<Run>, pool: set<nat>, total: nat)
    reads k
  {
    && k.Valid() && Sound(out) && PagesOf(out) !! k.Free()
    && k.Free() + PagesOf(out) == pool && k.nfree + Sum(out) == total
    && forall p :: p in PagesOf(out) ==> p in k.mem && k.mem[p] == ZeroPage()
  }

  method Grant(k: Kmem, out: seq<Run>, n: nat, ghost pool: set<nat>, ghost total: nat)
    returns (out': seq<Run>, ok: bool, at: nat)
    requires Balanced(k, out, pool, total) && n > 0
    modifies k
    ensures Balanced(k, out', pool, total)
    ensures ok <==> Serviceable(old(k.runs), out, Want(n))
    ensures ok ==> out' == [Run(at, n)] + out && Range(at, n) <= old(k.Free())
    ensures !ok ==> out' == out && k.runs == old(k.runs)
    ensures old(TailAscending(k.runs)) ==> TailAscending(k.runs)
  {
    hide Sound, Sum, PagesOf, Range, Linked, TailAscending, KeptOutside, Insert;
    ghost var free := k.Free();
    var r := k.Alloc(n);
    if !r.Allocated? { return out, false, 0; }
    var got := Run(r.page, n);
    InRange(r.page, n, r.page);
    NullNotFree(old(k.runs));
    InsertSound(out, 0, got);
    InsertExact(out, 0, got);
    InsertFront(out, got);
    Untouched(old(k.mem), k.mem, PagesOf(out), free);
    return [got] + out, true, r.page;
  }

  lemma NullNotFree(runs: seq<Run>)
    requires Sound(runs)
    ensures 0 !in PagesOf(runs)
  {
    PageIn(runs, 0);
  }

  lemma InsertFront(out: seq<Run>, r: Run)
    ensures Insert(out, 0, r) == [r] + out
  {
  }

  lemma Untouched(mem: map<nat, Page>, mem': map<nat, Page>, pages: set<nat>, changed: set<nat>)
    requires KeptOutside(mem, mem', changed) && pages !! changed
    requires forall p :: p in pages ==> p in mem && mem[p] == ZeroPage()
    ensures forall p :: p in pages ==> p in mem' && mem'[p] == ZeroPage()
  {
  }

  method TakeBack(k: Kmem, out: seq<Run>, v: nat, len: nat, i: nat, ghost pool: set<nat>, ghost total: nat)
    returns (out': seq<Run>)
    requires Balanced(k, out, pool, total) && len > 0 && i < |out| && Inside(out[i], v, len)
    modifies k
    ensures Balanced(k, out', pool, total) && out' == Carve(out, i, v, len)
    ensures k.Free() == old(k.Free()) + Range(v, len)
    ensures old(TailAscending(k.runs)) ==> TailAscending(k.runs)
  {
    hide Sound, Sum, PagesOf, Range, Linked, TailAscending, KeptOutside, Carve;
    CarveExact(out, i, v, len);
    Positive(out, i);
    out' := Carve(out, i, v, len);
    ghost var changed := k.Free() + Range(v, len);
    k.Release(v, len);
    Untouched(old(k.mem), k.mem, PagesOf(out'), changed);
  }

  /** Serves requests until one cannot be met: no run is long enough, or what is given back is
      not out. Whatever was served, nothing overlaps, nothing is lost and nothing is counted
      wrong. */
  method Serve(k: Kmem, requests: seq<Request>) returns (out: seq<Run>, done: nat)
    requires k.Valid()
    modifies k
    ensures Balanced(k, out, old(k.Free()), old(k.nfree))
    ensures done <= |requests| && (done < |requests| ==> !Serviceable(k.runs, out, requests[done]))
    ensures old(TailAscending(k.runs)) ==> TailAscending(k.runs)
  {
    hide Balanced, TailAscending, Serviceable;
    out, done := [], 0;
    ghost var pool, total := k.Free(), k.nfree;
    NothingOut(k);
    while done < |requests|
      invariant Balanced(k, out, pool, total) && done <= |requests|
      invariant old(TailAscending(k.runs)) ==> TailAscending(k.runs)
    {
      var q := requests[done];
      match q {
        case Want(n) =>
          if n == 0 {
            WantsNone(k.runs, out);
            return;
          }
          var ok, at;
          out, ok, at := Grant(k, out, n, pool, total);
          if !ok { return; }
        case Give(v, len) =>
          var i := FindOwner(out, v, len);
          NoOwner(k.runs, out, v, len, i);
          if len == 0 || i == |out| { return; }
          out := TakeBack(k, out, v, len, i, pool, total);
      }
      done := done + 1;
    }
  }

  lemma NothingOut(k: Kmem)
    requires k.Valid()
    ensures Balanced(k, [], k.Free(), k.nfree)
  {
  }

  lemma WantsNone(runs: seq<Run>, out: seq<Run>)
    ensures !Serviceable(runs, out, Want(0))
  {
  }

  lemma NoOwner(runs: seq<Run>, out: seq<Run>, v: nat, len: nat, i: nat)
    requires i <= |out| && forall j :: 0 <= j < i ==> !Inside(out[j], v, len)
    ensures len == 0 || i == |out| ==> !Serviceable(runs, out, Give(v, len))
  {
  }

  method FindOwner(out: seq<Run>, v: nat, len: nat) returns (i: nat)
    ensures i <= |out| && (i < |out| ==> Inside(out[i], v, len))
    ensures forall j :: 0 <= j < i ==> !Inside(out[j], v, len)
  {
    i := 0;
    while i < |out| && !Inside(out[i], v, len)
      invariant i <= |out| && forall j :: 0 <= j < i ==> !Inside(out[j], v, len)
    {
      i := i + 1;
    }
  }

  /** One free page, two wanted: the walk runs off the list. */
  method NoFit() returns (r: Outcome)
    ensures r.NullFrame?
  {
    var k := new Kmem();
    k.FreeRange(1, 2);
    assert k.runs == [Run(1, 1)];
    r := k.Alloc(2);
  }
}
