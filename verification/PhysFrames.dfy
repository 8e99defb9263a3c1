/** The physical frame allocator: an intrusive list of free runs of pages whose headers
    live in the first page of each run.  Addresses are page numbers; page 0 is null. */
module PhysFrames {

  /** A maximal stretch of pages the list knows as one piece. */
  datatype Run = Run(start: nat, len: nat) {
    function End(): nat { start + len }
  }

  predicate Within(p: nat, start: nat, len: nat) { start <= p < start + len }

  ghost function Range(start: nat, len: nat): set<nat> { set p: nat | p < start + len && Within(p, start, len) }

  ghost function PagesOf(runs: seq<Run>): set<nat> {
    if runs == [] then {} else Range(runs[0].start, runs[0].len) + PagesOf(runs[1..])
  }

  ghost function Sum(runs: seq<Run>): nat {
    if runs == [] then 0 else runs[0].len + Sum(runs[1..])
  }

  ghost predicate Apart(a: Run, b: Run) { a.End() <= b.start || b.End() <= a.start }

  /** Runs are non-empty, do not contain page 0 and do not overlap. */
  ghost predicate Sound(runs: seq<Run>) {
    && (forall i :: 0 <= i < |runs| ==> runs[i].start > 0 && runs[i].len > 0)
    && (forall i, j :: 0 <= i < j < |runs| ==> Apart(runs[i], runs[j]))
  }

  ghost predicate Ascending(runs: seq<Run>) {
    forall i, j :: 0 <= i < j < |runs| ==> runs[i].start < runs[j].start
  }

  /** The order the list keeps: everything after the head ascends. */
  ghost predicate TailAscending(runs: seq<Run>) { |runs| > 0 ==> Ascending(runs[1..]) }

  ghost predicate Touch(a: Run, b: Run) { a.End() == b.start }

  // -------------------------------------------------------------------------
  // Pages and counts

  lemma {:induction false} PageIn(runs: seq<Run>, p: nat)
    ensures p in PagesOf(runs) <==> exists i :: 0 <= i < |runs| && runs[i].start <= p < runs[i].End()
  {
    if runs != [] {
      PageIn(runs[1..], p);
      if i :| 0 <= i < |runs| && runs[i].start <= p < runs[i].End() {
        if i > 0 { assert runs[1..][i - 1] == runs[i]; }
      }
      if i :| 0 <= i < |runs[1..]| && runs[1..][i].start <= p < runs[1..][i].End() {
        assert runs[i + 1] == runs[1..][i];
      }
      assert p in Range(runs[0].start, runs[0].len) <==> runs[0].start <= p < runs[0].End();
    }
  }

  lemma {:induction false} SplitAt(runs: seq<Run>, k: nat)
    requires k <= |runs|
    ensures Sum(runs) == Sum(runs[..k]) + Sum(runs[k..])
    ensures PagesOf(runs) == PagesOf(runs[..k]) + PagesOf(runs[k..])
  {
    if k > 0 {
      SplitAt(runs[1..], k - 1);
      assert runs[..k][1..] == runs[1..][..k - 1] && runs[1..][k - 1..] == runs[k..];
    } else {
      assert runs[..0] == [] && runs[0..] == runs;
    }
  }

  /** Replacing the run at `i` by `mid` changes pages and count by the difference. */
  lemma Replace(runs: seq<Run>, i: nat, mid: seq<Run>)
    requires i < |runs|
    ensures var runs' := runs[..i] + mid + runs[i + 1..];
            && Sum(runs') == Sum(runs) - runs[i].len + Sum(mid)
            && PagesOf(runs') == PagesOf(runs[..i]) + PagesOf(mid) + PagesOf(runs[i + 1..])
            && PagesOf(runs) == PagesOf(runs[..i]) + Range(runs[i].start, runs[i].len) + PagesOf(runs[i + 1..])
  {
    var runs' := runs[..i] + mid + runs[i + 1..];
    SplitAt(runs', i);
    assert runs'[..i] == runs[..i] && runs'[i..] == mid + runs[i + 1..];
    SplitAt(mid + runs[i + 1..], |mid|);
    assert (mid + runs[i + 1..])[..|mid|] == mid && (mid + runs[i + 1..])[|mid|..] == runs[i + 1..];
    SplitAt(runs, i);
    assert runs[i..][1..] == runs[i + 1..];
  }

  // -------------------------------------------------------------------------
  // Allocation: first fit, taken from the end of the run

  ghost predicate FirstFit(runs: seq<Run>, n: nat, i: nat) {
    i < |runs| && runs[i].len >= n && forall j :: 0 <= j < i ==> runs[j].len < n
  }

  function Take(runs: seq<Run>, i: nat, n: nat): seq<Run>
    requires i < |runs| && n <= runs[i].len
  {
    if runs[i].len == n then runs[..i] + runs[i + 1..] else runs[i := Run(runs[i].start, runs[i].len - n)]
  }

  /** The last `n` frames of a run. */
  function Taken(runs: seq<Run>, i: nat, n: nat): (page: nat)
    requires i < |runs| && n <= runs[i].len
    ensures page + n == runs[i].start + runs[i].len
  {
    runs[i].End() - n
  }

  lemma RemoveSound(runs: seq<Run>, i: nat)
    requires Sound(runs) && i < |runs|
    ensures Sound(runs[..i] + runs[i + 1..])
  {
    var t := runs[..i] + runs[i + 1..];
    forall a, b | 0 <= a < b < |t| ensures Apart(t[a], t[b]) {
      var a', b' := if a < i then a else a + 1, if b < i then b else b + 1;
      assert t[a] == runs[a'] && t[b] == runs[b'];
    }
  }

  lemma RemoveTail(runs: seq<Run>, i: nat)
    requires TailAscending(runs) && i < |runs|
    ensures TailAscending(runs[..i] + runs[i + 1..])
  {
    var t, u := runs[..i] + runs[i + 1..], runs[1..];
    if |t| > 0 {
      forall a, b | 0 <= a < b < |t[1..]| ensures t[1..][a].start < t[1..][b].start {
        var a', b' := if a + 1 < i then a else a + 1, if b + 1 < i then b else b + 1;
        assert t[1..][a] == u[a'] && t[1..][b] == u[b'];
      }
    }
  }

  lemma ShrinkSound(runs: seq<Run>, i: nat, len: nat)
    requires Sound(runs) && i < |runs| && 0 < len <= runs[i].len
    ensures Sound(runs[i := Run(runs[i].start, len)])
    ensures TailAscending(runs) ==> TailAscending(runs[i := Run(runs[i].start, len)])
  {
    var t := runs[i := Run(runs[i].start, len)];
    forall a, b | 0 <= a < b < |t| ensures Apart(t[a], t[b]) {
      assert Apart(runs[a], runs[b]);
    }
    if TailAscending(runs) {
      forall a, b | 0 <= a < b < |t[1..]| ensures t[1..][a].start < t[1..][b].start {
        assert runs[1..][a].start < runs[1..][b].start;
      }
    }
  }

  lemma TakeSound(runs: seq<Run>, i: nat, n: nat)
    requires Sound(runs) && i < |runs| && n <= runs[i].len
    ensures Sound(Take(runs, i, n))
    ensures TailAscending(runs) ==> TailAscending(Take(runs, i, n))
  {
    hide Sound, TailAscending;
    if runs[i].len == n {
      RemoveSound(runs, i);
      if TailAscending(runs) { RemoveTail(runs, i); }
    } else {
      ShrinkSound(runs, i, runs[i].len - n);
    }
  }

  /** A page of one run is in no other run. */
  lemma OnlyThere(runs: seq<Run>, i: nat, p: nat)
    requires Sound(runs) && i < |runs| && runs[i].start <= p < runs[i].End()
    ensures p !in PagesOf(runs[..i]) && p !in PagesOf(runs[i + 1..])
  {
    var front, back := runs[..i], runs[i + 1..];
    PageIn(front, p);
    PageIn(back, p);
    forall j | 0 <= j < |back| ensures !(back[j].start <= p < back[j].End()) {
      assert Apart(runs[i], runs[i + 1 + j]);
    }
    forall j | 0 <= j < |front| ensures !(front[j].start <= p < front[j].End()) {
      assert Apart(runs[j], runs[i]);
    }
  }

  lemma TakeIsReplace(runs: seq<Run>, i: nat, n: nat)
    requires i < |runs| && n <= runs[i].len
    ensures var r := runs[i];
            var mid := if r.len == n then [] else [Run(r.start, r.len - n)];
            && Take(runs, i, n) == runs[..i] + mid + runs[i + 1..]
            && Sum(mid) == r.len - n && PagesOf(mid) == Range(r.start, r.len - n)
  {
    OneRun(runs[i].start, runs[i].len - n);
  }

  lemma RangeSplit(start: nat, len: nat, n: nat)
    requires n <= len
    ensures Range(start, len) == Range(start, len - n) + Range(start + len - n, n)
    ensures Range(start, len - n) !! Range(start + len - n, n)
  {
  }

  /** The pages handed out are exactly those the list loses. */
  lemma TakeExact(runs: seq<Run>, i: nat, n: nat)
    requires Sound(runs) && i < |runs| && n <= runs[i].len
    ensures Sum(Take(runs, i, n)) == Sum(runs) - n
    ensures Range(Taken(runs, i, n), n) <= PagesOf(runs)
    ensures PagesOf(Take(runs, i, n)) == PagesOf(runs) - Range(Taken(runs, i, n), n)
  {
    hide Take, PagesOf, Sum, Sound, Range;
    var r, gone := runs[i], Range(Taken(runs, i, n), n);
    var mid := if r.len == n then [] else [Run(r.start, r.len - n)];
    TakeIsReplace(runs, i, n);
    Replace(runs, i, mid);
    RangeSplit(r.start, r.len, n);
    forall p | p in gone ensures p !in PagesOf(runs[..i]) && p !in PagesOf(runs[i + 1..]) {
      InRange(Taken(runs, i, n), n, p);
      OnlyThere(runs, i, p);
    }
  }

  lemma InRange(start: nat, len: nat, p: nat)
    ensures p in Range(start, len) <==> start <= p < start + len
  {
  }

  lemma OneRun(start: nat, len: nat)
    ensures Sum([Run(start, len)]) == len && PagesOf([Run(start, len)]) == Range(start, len)
  {
    assert [Run(start, len)][1..] == [];
  }

  // -------------------------------------------------------------------------
  // Freeing: insertion after the head, then one merging pass

  ghost predicate InsertPoint(runs: seq<Run>, start: nat, k: nat) {
    && k <= |runs| && (runs != [] ==> k > 0)
    && (forall j :: 0 < j < k ==> runs[j].start <= start)
    && (k < |runs| && runs != [] ==> runs[k].start > start)
  }

  function Insert(runs: seq<Run>, k: nat, r: Run): seq<Run>
    requires k <= |runs|
  {
    runs[..k] + [r] + runs[k..]
  }

  lemma ApartFrom(runs: seq<Run>, j: nat, r: Run)
    requires Sound(runs) && j < |runs| && r.len > 0 && Range(r.start, r.len) !! PagesOf(runs)
    ensures Apart(runs[j], r)
  {
    var p := if runs[j].start < r.start then r.start else runs[j].start;
    PageIn(runs, p);
    assert p in Range(r.start, r.len) <==> r.start <= p < r.End();
  }

  lemma InsertAt(runs: seq<Run>, k: nat, r: Run, j: nat)
    requires k <= |runs| && j <= |runs|
    ensures |Insert(runs, k, r)| == |runs| + 1
    ensures Insert(runs, k, r)[j] == if j < k then runs[j] else if j == k then r else runs[j - 1]
  {
  }

  lemma InsertSound(runs: seq<Run>, k: nat, r: Run)
    requires Sound(runs) && k <= |runs| && r.start > 0 && r.len > 0
    requires Range(r.start, r.len) !! PagesOf(runs)
    ensures Sound(Insert(runs, k, r))
  {
    hide PagesOf, Range, Insert;
    var t := Insert(runs, k, r);
    InsertAt(runs, k, r, 0);
    forall a, b | 0 <= a < b < |t| ensures Apart(t[a], t[b]) {
      InsertedApart(runs, k, r, a, b);
    }
    forall a | 0 <= a < |t| ensures t[a].start > 0 && t[a].len > 0 {
      InsertAt(runs, k, r, a);
    }
  }

  lemma InsertedApart(runs: seq<Run>, k: nat, r: Run, a: nat, b: nat)
    requires Sound(runs) && k <= |runs| && r.start > 0 && r.len > 0 && a < b <= |runs|
    requires Range(r.start, r.len) !! PagesOf(runs)
    ensures Apart(Insert(runs, k, r)[a], Insert(runs, k, r)[b])
  {
    hide PagesOf, Range, Insert, Apart;
    InsertAt(runs, k, r, a);
    InsertAt(runs, k, r, b);
    if b == k {
      ApartFrom(runs, a, r);
    } else if a == k {
      ApartFrom(runs, b - 1, r);
      ApartSym(runs[b - 1], r);
    } else {
      var a', b' := if a < k then a else a - 1, if b < k then b else b - 1;
      assert Apart(runs[a'], runs[b']);
    }
  }

  lemma ApartSym(a: Run, b: Run)
    ensures Apart(a, b) == Apart(b, a)
  {
  }

  lemma InsertExact(runs: seq<Run>, k: nat, r: Run)
    requires k <= |runs|
    ensures Sum(Insert(runs, k, r)) == Sum(runs) + r.len
    ensures PagesOf(Insert(runs, k, r)) == PagesOf(runs) + Range(r.start, r.len)
  {
    var t := Insert(runs, k, r);
    SplitAt(runs, k);
    SplitAt(t, k);
    assert t[..k] == runs[..k] && t[k..] == [r] + runs[k..] && t[k..][1..] == runs[k..];
  }

  lemma InsertAscending(runs: seq<Run>, k: nat, r: Run)
    requires TailAscending(runs) && InsertPoint(runs, r.start, k)
    requires forall j :: 0 <= j < |runs| ==> runs[j].start != r.start
    ensures TailAscending(Insert(runs, k, r))
  {
    if runs != [] {
      var u, v := runs[1..], Insert(runs, k, r)[1..];
      assert forall j :: 0 <= j < |v| ==> v[j] == if j < k - 1 then u[j] else if j == k - 1 then r else u[j - 1];
      assert forall j :: 0 <= j < |u| ==> u[j] == runs[j + 1];
      forall j | k - 1 <= j < |u| ensures u[j].start > r.start {
        assert j > k - 1 ==> u[k - 1].start < u[j].start;
      }
    }
  }

  /** The merging pass.  It steps past a run it has just merged, so the result of a merge
      is not tried against what follows it. */
  function Patch(runs: seq<Run>): seq<Run> {
    if |runs| <= 1 then runs
    else if runs[0].End() == runs[1].start then [Run(runs[0].start, runs[0].len + runs[1].len)] + Patch(runs[2..])
    else [runs[0]] + Patch(runs[1..])
  }

  lemma {:induction false} PatchExact(runs: seq<Run>)
    ensures Sum(Patch(runs)) == Sum(runs) && PagesOf(Patch(runs)) == PagesOf(runs)
  {
    if |runs| > 1 {
      if runs[0].End() == runs[1].start {
        PatchExact(runs[2..]);
        assert runs[1..][1..] == runs[2..];
        assert Range(runs[0].start, runs[0].len + runs[1].len) ==
          Range(runs[0].start, runs[0].len) + Range(runs[1].start, runs[1].len);
        assert Patch(runs)[1..] == Patch(runs[2..]);
      } else {
        PatchExact(runs[1..]);
        assert Patch(runs)[1..] == Patch(runs[1..]);
      }
    }
  }

  /** Every run of the result starts where some run started, and the order is kept. */
  ghost predicate Bounded(runs: seq<Run>, lo: Run) {
    forall i :: 0 <= i < |runs| ==> Apart(lo, runs[i])
  }

  lemma {:induction false} PatchApart(runs: seq<Run>, r: Run)
    requires r.len > 0 && Bounded(runs, r)
    requires forall i :: 0 <= i < |runs| ==> runs[i].len > 0
    ensures Bounded(Patch(runs), r)
  {
    if |runs| > 1 {
      if runs[0].End() == runs[1].start {
        PatchApart(runs[2..], r);
      } else {
        PatchApart(runs[1..], r);
      }
    }
  }

  lemma {:induction false} PatchSound(runs: seq<Run>)
    requires Sound(runs)
    ensures Sound(Patch(runs))
  {
    if |runs| > 1 {
      var t := Patch(runs);
      if runs[0].End() == runs[1].start {
        PatchSound(runs[2..]);
        PatchApart(runs[2..], t[0]);
        assert t[1..] == Patch(runs[2..]);
      } else {
        PatchSound(runs[1..]);
        PatchApart(runs[1..], t[0]);
        assert t[1..] == Patch(runs[1..]);
      }
      assert forall i :: 0 < i < |t| ==> t[i] == t[1..][i - 1];
    }
  }

  lemma {:induction false} PatchAscending(runs: seq<Run>, lo: int)
    requires Ascending(runs) && forall i :: 0 <= i < |runs| ==> lo < runs[i].start
    ensures Ascending(Patch(runs)) && forall i :: 0 <= i < |Patch(runs)| ==> lo < Patch(runs)[i].start
  {
    if |runs| > 1 {
      var t := Patch(runs);
      if runs[0].End() == runs[1].start {
        PatchAscending(runs[2..], runs[0].start);
        assert t[1..] == Patch(runs[2..]);
      } else {
        PatchAscending(runs[1..], runs[0].start);
        assert t[1..] == Patch(runs[1..]);
      }
      assert forall i :: 0 < i < |t| ==> t[i] == t[1..][i - 1];
    }
  }

  /** An ascending tail stays ascending through the merging pass. */
  lemma PatchTail(runs: seq<Run>)
    requires TailAscending(runs)
    ensures TailAscending(Patch(runs))
  {
    if |runs| > 1 {
      PatchAscending(runs[1..], -1);
      var u := runs[2..];
      assert forall i :: 0 <= i < |u| ==> u[i] == runs[1..][i + 1];
      PatchAscending(runs[2..], -1);
      assert Patch(runs)[1..] == if runs[0].End() == runs[1].start then Patch(runs[2..]) else Patch(runs[1..]);
    }
  }

  ghost predicate NoTouching(runs: seq<Run>) {
    forall i :: 0 <= i < |runs| - 1 ==> !Touch(runs[i], runs[i + 1])
  }

  ghost predicate NoTriple(runs: seq<Run>) {
    forall i :: 0 <= i < |runs| - 2 ==> !(Touch(runs[i], runs[i + 1]) && Touch(runs[i + 1], runs[i + 2]))
  }

  lemma TouchingCons(r: Run, rest: seq<Run>)
    ensures NoTouching([r] + rest) <==> NoTouching(rest) && (rest != [] ==> !Touch(r, rest[0]))
  {
    var t := [r] + rest;
    assert forall i :: 0 <= i < |rest| ==> t[i + 1] == rest[i];
    if NoTouching(t) {
      forall i | 0 <= i < |rest| - 1 ensures !Touch(rest[i], rest[i + 1]) {
        assert !Touch(t[i + 1], t[i + 2]);
      }
      if rest != [] { assert !Touch(t[0], t[1]); }
    }
    if NoTouching(rest) && (rest != [] ==> !Touch(r, rest[0])) {
      forall i | 0 <= i < |t| - 1 ensures !Touch(t[i], t[i + 1]) {
        if i > 0 { assert !Touch(rest[i - 1], rest[i]); }
      }
    }
  }

  /** One pass leaves no two touching neighbours exactly when no three touched in a row. */
  lemma {:induction false} PatchComplete(runs: seq<Run>)
    ensures NoTouching(Patch(runs)) <==> NoTriple(runs)
    ensures runs != [] ==> Patch(runs) != [] && Patch(runs)[0].start == runs[0].start
  {
    if |runs| > 1 {
      hide NoTouching, NoTriple;
      var merged := runs[0].End() == runs[1].start;
      var first := if merged then Run(runs[0].start, runs[0].len + runs[1].len) else runs[0];
      var rest := if merged then runs[2..] else runs[1..];
      assert Patch(runs) == [first] + Patch(rest);
      PatchComplete(rest);
      TouchingCons(first, Patch(rest));
      TripleStep(runs, merged, rest);
    }
  }

  lemma TripleStep(runs: seq<Run>, merged: bool, rest: seq<Run>)
    requires |runs| > 1 && merged == Touch(runs[0], runs[1])
    requires rest == if merged then runs[2..] else runs[1..]
    ensures NoTriple(runs) <==> NoTriple(rest) && (merged && rest != [] ==> !Touch(runs[1], rest[0]))
  {
    var d := if merged then 2 else 1;
    assert forall i :: 0 <= i < |rest| ==> rest[i] == runs[i + d];
    if NoTriple(rest) && (merged && rest != [] ==> !Touch(runs[1], rest[0])) {
      forall i | 0 <= i < |runs| - 2 ensures !(Touch(runs[i], runs[i + 1]) && Touch(runs[i + 1], runs[i + 2])) {
        if i >= d {
          assert runs[i] == rest[i - d] && runs[i + 1] == rest[i + 1 - d] && runs[i + 2] == rest[i + 2 - d];
        } else if merged && i == 0 {
          assert runs[2] == rest[0];
        }
      }
    }
    if NoTriple(runs) {
      forall i | 0 <= i < |rest| - 2 ensures !(Touch(rest[i], rest[i + 1]) && Touch(rest[i + 1], rest[i + 2])) {
        assert rest[i] == runs[i + d] && rest[i + 1] == runs[i + d + 1] && rest[i + 2] == runs[i + d + 2];
      }
    }
  }

  /** Three runs in a row: the pass merges the first two and steps past the third. */
  lemma PatchMisses()
    ensures var runs := [Run(1, 1), Run(2, 1), Run(3, 1)];
            Patch(runs) == [Run(1, 2), Run(3, 1)] && !NoTouching(Patch(runs))
  {
    var runs := [Run(1, 1), Run(2, 1), Run(3, 1)];
    assert runs[2..] == [Run(3, 1)];
    assert Touch(Patch(runs)[0], Patch(runs)[1]);
  }

  /** The run touches the one before it and the one after it. */
  predicate Bridges(runs: seq<Run>, k: nat, r: Run) {
    0 < k < |runs| && runs[k - 1].End() == r.start && r.End() == runs[k].start
  }

  lemma BridgeTriple(runs: seq<Run>, k: nat, r: Run)
    requires NoTouching(runs) && k <= |runs|
    ensures NoTriple(Insert(runs, k, r)) <==> !Bridges(runs, k, r)
  {
    hide Insert;
    var t := Insert(runs, k, r);
    InsertAt(runs, k, r, 0);
    forall i | 0 <= i < |t| - 2
      ensures Touch(t[i], t[i + 1]) && Touch(t[i + 1], t[i + 2]) ==> i + 1 == k && Bridges(runs, k, r)
    {
      InsertAt(runs, k, r, i);
      InsertAt(runs, k, r, i + 1);
      InsertAt(runs, k, r, i + 2);
      if i + 1 < k { assert !Touch(runs[i], runs[i + 1]); }
      if i + 1 > k { assert !Touch(runs[i], runs[i + 1]); }
    }
    if Bridges(runs, k, r) {
      InsertAt(runs, k, r, k - 1);
      InsertAt(runs, k, r, k);
      InsertAt(runs, k, r, k + 1);
      assert Touch(t[k - 1], t[k]) && Touch(t[k], t[k + 1]);
    }
  }

  /** Where no neighbours touched before, freeing leaves none touching if and only if the run
      does not close the gap between two others. */
  lemma ReleaseComplete(runs: seq<Run>, k: nat, r: Run)
    requires NoTouching(runs) && k <= |runs|
    ensures NoTouching(Patch(Insert(runs, k, r))) <==> !Bridges(runs, k, r)
  {
    hide Insert, Patch, NoTriple, Bridges, NoTouching;
    BridgeTriple(runs, k, r);
    PatchComplete(Insert(runs, k, r));
  }

  // -------------------------------------------------------------------------
  // The list in memory

  type Word = w: int | 0 <= w < 0x1_0000_0000_0000_0000

  /** What a page holds, as far as the kernel's data structures go. */
  datatype Page = Header(next: nat, len: nat) | Words(words: seq<Word>)

  function ZeroPage(): Page { Words(seq(512, _ => 0)) }

  function Link(runs: seq<Run>, i: nat): nat { if i < |runs| then runs[i].start else 0 }

  /** Memory holds the list `runs`, starting at page `head`. */
  ghost predicate Linked(mem: map<nat, Page>, head: nat, runs: seq<Run>) {
    && head == Link(runs, 0)
    && forall i :: 0 <= i < |runs| ==>
         runs[i].start in mem && mem[runs[i].start] == Header(Link(runs, i + 1), runs[i].len)
  }

  /** `OutOfMemory` is the panic on an empty list; `NullFrame` is the dereference of the null
      frame that follows when no run is long enough. */
  datatype Outcome = OutOfMemory | NullFrame | Allocated(page: nat)

  ghost predicate DistinctStarts(runs: seq<Run>) {
    && (forall i :: 0 <= i < |runs| ==> runs[i].start > 0)
    && (forall i, j :: 0 <= i < j < |runs| ==> runs[i].start != runs[j].start)
  }

  lemma SoundDistinct(runs: seq<Run>)
    requires Sound(runs)
    ensures DistinctStarts(runs)
  {
    forall i, j | 0 <= i < j < |runs| ensures runs[i].start != runs[j].start {
      assert Apart(runs[i], runs[j]);
    }
  }

  /** Pages outside `pages` keep their contents. */
  ghost predicate KeptOutside(mem: map<nat, Page>, mem': map<nat, Page>, pages: set<nat>) {
    forall q :: q !in pages ==> (q in mem' <==> q in mem) && (q in mem ==> q in mem' && mem'[q] == mem[q])
  }

  lemma NodeAt(mem: map<nat, Page>, head: nat, runs: seq<Run>, i: nat)
    requires Linked(mem, head, runs) && DistinctStarts(runs) && i < |runs|
    ensures runs[i].start in mem && mem[runs[i].start] == Header(Link(runs, i + 1), runs[i].len)
    ensures runs[i].start > 0 && (Link(runs, i + 1) == 0 <==> i + 1 == |runs|)
  {
  }

  lemma HeaderAt(mem: map<nat, Page>, head: nat, runs: seq<Run>, i: nat)
    requires Linked(mem, head, runs) && Sound(runs) && i < |runs|
    ensures runs[i].start in mem && mem[runs[i].start] == Header(Link(runs, i + 1), runs[i].len)
    ensures runs[i].start > 0 && runs[i].len > 0 && runs[i].start in PagesOf(runs)
  {
    PageIn(runs, runs[i].start);
  }

  function Remove(runs: seq<Run>, i: nat): seq<Run>
    requires i < |runs|
  {
    runs[..i] + runs[i + 1..]
  }

  lemma RemoveAt(runs: seq<Run>, i: nat, j: nat)
    requires i < |runs| && j < |runs| - 1
    ensures |Remove(runs, i)| == |runs| - 1
    ensures Remove(runs, i)[j] == if j < i then runs[j] else runs[j + 1]
  {
  }

  lemma LinkedRemove(mem: map<nat, Page>, head: nat, runs: seq<Run>, i: nat)
    requires DistinctStarts(runs) && Linked(mem, head, runs) && 0 < i < |runs|
    ensures var p := runs[i - 1].start;
            Linked(mem[p := Header(Link(runs, i + 1), runs[i - 1].len)], head, Remove(runs, i))
  {
    hide Remove;
    var t, p := Remove(runs, i), runs[i - 1].start;
    var mem' := mem[p := Header(Link(runs, i + 1), runs[i - 1].len)];
    RemoveAt(runs, i, 0);
    forall j | 0 <= j < |t| ensures t[j].start in mem' && mem'[t[j].start] == Header(Link(t, j + 1), t[j].len) {
      RemovedNode(mem, head, runs, i, j);
    }
  }

  lemma RemovedNode(mem: map<nat, Page>, head: nat, runs: seq<Run>, i: nat, j: nat)
    requires DistinctStarts(runs) && Linked(mem, head, runs) && 0 < i < |runs| && j < |runs| - 1
    ensures var mem' := mem[runs[i - 1].start := Header(Link(runs, i + 1), runs[i - 1].len)];
            var t := Remove(runs, i);
            && |t| == |runs| - 1 && t[j].start in mem'
            && mem'[t[j].start] == Header(Link(t, j + 1), t[j].len)
  {
    hide Remove, Linked;
    RemoveAt(runs, i, j);
    if j + 1 < |runs| - 1 { RemoveAt(runs, i, j + 1); }
    NodeAt(mem, head, runs, if j < i then j else j + 1);
  }

  lemma RemoveDistinct(runs: seq<Run>, i: nat)
    requires DistinctStarts(runs) && i < |runs|
    ensures DistinctStarts(Remove(runs, i))
  {
  }

  lemma LinkedRemoveHead(mem: map<nat, Page>, head: nat, runs: seq<Run>)
    requires Linked(mem, head, runs) && |runs| > 0
    ensures Linked(mem, mem[head].next, runs[1..])
  {
    assert forall j :: 0 <= j < |runs[1..]| ==> runs[1..][j] == runs[j + 1];
  }

  lemma LinkedShrink(mem: map<nat, Page>, head: nat, runs: seq<Run>, i: nat, len: nat)
    requires DistinctStarts(runs) && Linked(mem, head, runs) && i < |runs|
    ensures Linked(mem[runs[i].start := Header(Link(runs, i + 1), len)], head, runs[i := Run(runs[i].start, len)])
    ensures DistinctStarts(runs[i := Run(runs[i].start, len)])
  {
    var t := runs[i := Run(runs[i].start, len)];
    var mem' := mem[runs[i].start := Header(Link(runs, i + 1), len)];
    forall j | 0 <= j < |t| ensures t[j].start in mem' && mem'[t[j].start] == Header(Link(t, j + 1), t[j].len) {
      assert Link(t, j + 1) == Link(runs, j + 1);
    }
  }

  lemma LinkedInsert(mem: map<nat, Page>, head: nat, runs: seq<Run>, k: nat, r: Run)
    requires 0 < k <= |runs| && Linked(mem, head, runs) && DistinctStarts(Insert(runs, k, r))
    ensures var prev := runs[k - 1];
            Linked(mem[r.start := Header(Link(runs, k), r.len)][prev.start := Header(r.start, prev.len)],
                   head, Insert(runs, k, r))
  {
    var t, prev := Insert(runs, k, r), runs[k - 1];
    var mem' := mem[r.start := Header(Link(runs, k), r.len)][prev.start := Header(r.start, prev.len)];
    assert t[k] == r && t[k - 1] == prev;
    forall j | 0 <= j < |t| ensures t[j].start in mem' && mem'[t[j].start] == Header(Link(t, j + 1), t[j].len) {
      assert t[j] == if j < k then runs[j] else if j == k then r else runs[j - 1];
      assert j + 1 < |t| ==> t[j + 1] == if j + 1 < k then runs[j + 1] else if j + 1 == k then r else runs[j];
    }
  }

  /** The first two of the runs still to be looked at become one. */
  function Merge(runs: seq<Run>, i: nat): seq<Run>
    requires i + 1 < |runs|
  {
    runs[..i] + [Run(runs[i].start, runs[i].len + runs[i + 1].len)] + runs[i + 2..]
  }

  lemma MergeAt(runs: seq<Run>, i: nat, j: nat)
    requires i + 1 < |runs| && j < |runs| - 1
    ensures |Merge(runs, i)| == |runs| - 1
    ensures Merge(runs, i)[j] == if j < i then runs[j]
                                 else if j == i then Run(runs[i].start, runs[i].len + runs[i + 1].len) else runs[j + 1]
  {
  }

  lemma MergeIsRemove(runs: seq<Run>, i: nat)
    requires i + 1 < |runs|
    ensures Remove(runs[i := Run(runs[i].start, runs[i].len + runs[i + 1].len)], i + 1) == Merge(runs, i)
  {
  }

  lemma LinkedMerge(mem: map<nat, Page>, head: nat, runs: seq<Run>, i: nat)
    requires DistinctStarts(runs) && Linked(mem, head, runs) && i + 1 < |runs|
    ensures DistinctStarts(Merge(runs, i))
    ensures Linked(mem[runs[i].start := Header(Link(runs, i + 2), runs[i].len + runs[i + 1].len)], head, Merge(runs, i))
  {
    hide Linked, DistinctStarts, Merge, Remove;
    var len, p := runs[i].len + runs[i + 1].len, runs[i].start;
    var grown, mem1 := runs[i := Run(p, len)], mem[p := Header(Link(runs, i + 1), len)];
    LinkedShrink(mem, head, runs, i, len);
    LinkedRemove(mem1, head, grown, i + 1);
    RemoveDistinct(grown, i + 1);
    assert mem1[p := Header(Link(runs, i + 2), len)] == mem[p := Header(Link(runs, i + 2), len)];
    MergeIsRemove(runs, i);
  }

  /** The list does not see changes to pages that are not free. */
  lemma LinkedOutside(mem: map<nat, Page>, mem': map<nat, Page>, head: nat, runs: seq<Run>, pages: set<nat>)
    requires Linked(mem, head, runs) && Sound(runs) && KeptOutside(mem, mem', pages) && pages !! PagesOf(runs)
    ensures Linked(mem', head, runs)
  {
    hide PagesOf;
    forall i | 0 <= i < |runs| ensures runs[i].start in mem' && mem'[runs[i].start] == mem[runs[i].start] {
      HeaderAt(mem, head, runs, i);
    }
  }

  class Kmem {
    var mem: map<nat, Page>
    var freelist: nat
    var nfree: nat
    var maxFree: nat
    ghost var runs: seq<Run>

    constructor ()
      ensures Valid() && runs == [] && mem == map[] && nfree == 0
    {
      mem, freelist, nfree, maxFree, runs := map[], 0, 0, 0, [];
    }

    /** Acyclic, disjoint, counted, and laid out in memory. */
    ghost predicate Valid()
      reads this
    {
      Linked(mem, freelist, runs) && Sound(runs) && nfree == Sum(runs) && nfree <= maxFree
    }

    ghost function Free(): set<nat>
      reads this
    {
      PagesOf(runs)
    }

    /** Clears `n` pages. */
    method Memset(start: nat, n: nat)
      modifies this`mem
      ensures KeptOutside(old(mem), mem, Range(start, n))
      ensures forall p :: p in Range(start, n) ==> p in mem && mem[p] == ZeroPage()
    {
      for i := 0 to n
        invariant KeptOutside(old(mem), mem, Range(start, i))
        invariant forall p :: p in Range(start, i) ==> p in mem && mem[p] == ZeroPage()
      {
        mem := mem[start + i := ZeroPage()];
        assert Range(start, i + 1) == Range(start, i) + {start + i};
      }
    }

    /** Walks the list to the first run of at least `n` pages. */
    method FindFit(n: nat) returns (p: nat, c: nat, ghost i: nat)
      requires Valid()
      ensures i <= |runs| && c == Link(runs, i) && p == if i == 0 then 0 else runs[i - 1].start
      ensures forall j :: 0 <= j < i ==> runs[j].len < n
      ensures i < |runs| ==> runs[i].len >= n
      ensures c == 0 <==> i == |runs|
    {
      hide PagesOf, Sum, Linked, Sound;
      p, c, i := 0, freelist, 0;
      HeadIs(mem, freelist, runs);
      while c != 0
        invariant 0 <= i <= |runs| && c == Link(runs, i) && p == if i == 0 then 0 else runs[i - 1].start
        invariant forall j :: 0 <= j < i ==> runs[j].len < n
        decreases |runs| - i
      {
        HeaderAt(mem, freelist, runs, i);
        if mem[c].len >= n { return; }
        p, c, i := c, mem[c].next, i + 1;
        if i < |runs| { HeaderAt(mem, freelist, runs, i); }
      }
      if i < |runs| { HeaderAt(mem, freelist, runs, i); }
    }

    /** First fit.  The result is a stretch of free pages, cleared, and gone from the free
        pages; pages that were not free keep their contents. */
    method Alloc(n: nat) returns (r: Outcome)
      requires Valid()
      modifies this
      ensures r.OutOfMemory? <==> old(runs) == []
      ensures r.NullFrame? <==> old(runs) != [] && forall i :: 0 <= i < |old(runs)| ==> old(runs)[i].len < n
      ensures !r.Allocated? ==> mem == old(mem) && runs == old(runs) && nfree == old(nfree) && freelist == old(freelist)
      ensures !r.Allocated? ==> Valid()
      ensures r.Allocated? ==> Valid() && nfree == old(nfree) - n
      ensures r.Allocated? ==> exists i ::
                FirstFit(old(runs), n, i) && runs == Take(old(runs), i, n) && r.page == Taken(old(runs), i, n)
      ensures r.Allocated? ==> Range(r.page, n) <= old(Free()) && Free() == old(Free()) - Range(r.page, n)
      ensures r.Allocated? ==> forall p :: p in Range(r.page, n) ==> p in mem && mem[p] == ZeroPage()
      ensures r.Allocated? ==> KeptOutside(old(mem), mem, old(Free()))
      ensures r.Allocated? && old(TailAscending(runs)) ==> TailAscending(runs)
    {
      hide PagesOf, Sum, Linked, Sound, TailAscending, Take;
      HeadIs(mem, freelist, runs);
      if freelist == 0 { return OutOfMemory; }
      var p, c, i := FindFit(n);
      if c == 0 { return NullFrame; }
      assert FirstFit(runs, n, i);
      TakeSound(runs, i, n);
      TakeExact(runs, i, n);
      var a := Unlink(p, c, n, i);
      ghost var kept := mem;
      Memset(a, n);
      LinkedOutside(kept, mem, freelist, runs, Range(a, n));
      nfree := nfree - n;
      r := Allocated(a);
    }

    /** Takes `n` pages off the end of run `i`, or the whole run. */
    method Unlink(p: nat, c: nat, n: nat, ghost i: nat) returns (a: nat)
      requires Linked(mem, freelist, runs) && Sound(runs)
      requires i < |runs| && c == runs[i].start && runs[i].len >= n && p == if i == 0 then 0 else runs[i - 1].start
      modifies this`mem, this`freelist, this`runs
      ensures runs == Take(old(runs), i, n) && a == Taken(old(runs), i, n) && Linked(mem, freelist, runs)
      ensures KeptOutside(old(mem), mem, old(Free()))
    {
      hide PagesOf, Linked, Sound;
      HeadIs(mem, freelist, runs);
      SoundDistinct(runs);
      HeaderAt(mem, freelist, runs, i);
      if i > 0 { HeaderAt(mem, freelist, runs, i - 1); }
      var h := mem[c];
      if h.len == n {
        if p == 0 {
          LinkedRemoveHead(mem, freelist, runs);
          freelist := h.next;
          assert runs[..0] + runs[1..] == runs[1..];
        } else {
          LinkedRemove(mem, freelist, runs, i);
          assert Remove(runs, i) == runs[..i] + runs[i + 1..];
          mem := mem[p := Header(h.next, mem[p].len)];
        }
        runs := runs[..i] + runs[i + 1..];
        a := c;
      } else {
        LinkedShrink(mem, freelist, runs, i, h.len - n);
        mem := mem[c := Header(h.next, h.len - n)];
        runs := runs[i := Run(c, h.len - n)];
        a := c + (h.len - n);
      }
    }

    /** Puts the run after the last one, past the head, that starts below it. */
    method InsertFrame(v: nat, len: nat) returns (ghost k: nat)
      requires Valid() && v > 0 && len > 0 && Range(v, len) !! Free()
      modifies this`mem, this`freelist, this`runs
      ensures InsertPoint(old(runs), v, k) && runs == Insert(old(runs), k, Run(v, len))
      ensures Linked(mem, freelist, runs)
      ensures KeptOutside(old(mem), mem, old(Free()) + Range(v, len))
    {
      hide PagesOf, Linked, Sound, Sum;
      ghost var r := Run(v, len);
      HeadIs(mem, freelist, runs);
      var prev := freelist;
      if prev == 0 {
        mem := mem[v := Header(0, len)];
        freelist, k := v, 0;
        runs := Insert(runs, 0, r);
        LinkedOne(mem, r);
        assert runs == [r];
      } else {
        k := 1;
        HeaderAt(mem, freelist, runs, 0);
        if 1 < |runs| { HeaderAt(mem, freelist, runs, 1); }
        while mem[prev].next != 0 && mem[prev].next <= v
          invariant 0 < k <= |runs| && prev == runs[k - 1].start && prev in mem
          invariant mem[prev] == Header(Link(runs, k), runs[k - 1].len) && prev in Free()
          invariant forall j :: 0 < j < k ==> runs[j].start <= v
          invariant Link(runs, k) == 0 <==> k == |runs|
          modifies {}
          decreases |runs| - k
        {
          prev := mem[prev].next;
          HeaderAt(mem, freelist, runs, k);
          if k + 1 < |runs| { HeaderAt(mem, freelist, runs, k + 1); }
          k := k + 1;
        }
        InsertSound(runs, k, r);
        SoundDistinct(Insert(runs, k, r));
        LinkedInsert(mem, freelist, runs, k, r);
        assert v in Range(v, len);
        mem := mem[v := Header(mem[prev].next, len)];
        mem := mem[prev := Header(v, mem[prev].len)];
        runs := Insert(runs, k, r);
      }
    }

    /** The merging pass over the whole list. */
    method PatchUp()
      requires Linked(mem, freelist, runs) && Sound(runs)
      modifies this`mem, this`runs
      ensures runs == Patch(old(runs)) && Linked(mem, freelist, runs)
      ensures KeptOutside(old(mem), mem, old(Free()))
    {
      hide PagesOf, Linked, Sound, Patch, Merge, DistinctStarts, KeptOutside;
      HeadIs(mem, freelist, runs);
      SoundDistinct(runs);
      var f := freelist;
      ghost var n, all := 0, runs;
      ghost var free := Free();
      StartsFree(runs);
      KeptSelf(mem, free);
      assert runs[0..] == runs && runs[..0] == [];
      while true
        invariant Linked(mem, freelist, runs) && DistinctStarts(runs) && n <= |runs|
        invariant f == Link(runs, n) && (f == 0 ==> runs == [])
        invariant runs != [] ==> n < |runs|
        invariant Patch(all) == runs[..n] + Patch(runs[n..])
        invariant KeptOutside(old(mem), mem, free)
        invariant forall i :: 0 <= i < |runs| ==> runs[i].start in free
        decreases |runs| - n
      {
        if f == 0 { break; }
        NodeAt(mem, freelist, runs, n);
        if mem[f].next == 0 { break; }
        NodeAt(mem, freelist, runs, n + 1);
        var succ := mem[f].next;
        if mem[f].next == f + mem[f].len {
          LinkedMerge(mem, freelist, runs, n);
          PatchMerge(runs, n);
          ghost var old_, runs' := runs, Merge(runs, n);
          forall i | 0 <= i < |runs'| ensures runs'[i].start in free { MergeAt(runs, n, i); }
          KeptWrite(old(mem), mem, free, f, Header(mem[succ].next, mem[f].len + mem[succ].len));
          mem := mem[f := Header(mem[succ].next, mem[f].len + mem[succ].len)];
          runs := runs';
          MergeAt(old_, n, n);
          NodeAt(mem, freelist, runs, n);
          if mem[f].next == 0 {
            PatchShort(runs, n + 1);
            return;
          }
        } else {
          PatchSkip(runs, n);
        }
        f := mem[f].next;
        n := n + 1;
      }
      PatchShort(runs, n);
    }

    /** Returns a stretch of pages: insertion, then the merging pass. */
    method Release(v: nat, len: nat)
      requires Valid() && v > 0 && len > 0 && Range(v, len) !! Free()
      modifies this
      ensures Valid() && nfree == old(nfree) + len && Free() == old(Free()) + Range(v, len)
      ensures KeptOutside(old(mem), mem, old(Free()) + Range(v, len))
      ensures exists k :: InsertPoint(old(runs), v, k) && runs == Patch(Insert(old(runs), k, Run(v, len)))
                          && (old(NoTouching(runs)) ==> (NoTouching(runs) <==> !Bridges(old(runs), k, Run(v, len))))
      ensures old(TailAscending(runs)) ==> TailAscending(runs)
      ensures maxFree == if old(maxFree) < nfree then nfree else old(maxFree)
    {
      hide PagesOf, Sum, Linked, Sound, TailAscending, Patch, Insert, NoTouching, Bridges;
      ghost var before, r := runs, Run(v, len);
      ghost var k := InsertFrame(v, len);
      ghost var linked := runs;
      InsertSound(before, k, r);
      InsertExact(before, k, r);
      PatchUp();
      PatchExact(linked);
      PatchSound(linked);
      if NoTouching(before) { ReleaseComplete(before, k, r); }
      if TailAscending(before) {
        FreshStart(before, r);
        InsertAscending(before, k, r);
        PatchTail(linked);
      }
      nfree := nfree + len;
      if nfree > maxFree { maxFree := nfree; }
    }

    /** Adds pages at boot: right after the head, whatever its address, without merging. */
    method FreeRange(start: nat, end: nat)
      requires Valid() && 0 < start < end && Range(start, end - start) !! Free()
      modifies this
      ensures Valid() && nfree == old(nfree) + (end - start) && Free() == old(Free()) + Range(start, end - start)
      ensures runs == Insert(old(runs), if old(runs) == [] then 0 else 1, Run(start, end - start))
      ensures KeptOutside(old(mem), mem, old(Free()) + Range(start, end - start))
    {
      hide PagesOf, Sum, Linked, Sound;
      ghost var r := Run(start, end - start);
      HeadIs(mem, freelist, runs);
      InsertSound(runs, if runs == [] then 0 else 1, r);
      InsertExact(runs, if runs == [] then 0 else 1, r);
      assert start in Range(start, end - start);
      if freelist == 0 {
        mem := mem[start := Header(0, end - start)];
        freelist, runs := start, Insert(runs, 0, r);
        LinkedOne(mem, r);
        assert runs == [r];
      } else {
        HeaderAt(mem, freelist, runs, 0);
        SoundDistinct(Insert(runs, 1, r));
        LinkedInsert(mem, freelist, runs, 1, r);
        mem := mem[start := Header(mem[freelist].next, end - start)];
        mem := mem[freelist := Header(start, mem[freelist].len)];
        runs := Insert(runs, 1, r);
      }
      nfree := nfree + (end - start);
      if nfree > maxFree { maxFree := nfree; }
    }
  }

  lemma FreshStart(runs: seq<Run>, r: Run)
    requires Sound(runs) && r.len > 0 && Range(r.start, r.len) !! PagesOf(runs)
    ensures forall j :: 0 <= j < |runs| ==> runs[j].start != r.start
  {
    forall j | 0 <= j < |runs| ensures runs[j].start != r.start {
      ApartFrom(runs, j, r);
    }
  }

  lemma LinkedOne(mem: map<nat, Page>, r: Run)
    requires r.start in mem && mem[r.start] == Header(0, r.len)
    ensures Linked(mem, r.start, [r])
  {
  }

  lemma KeptSelf(mem: map<nat, Page>, pages: set<nat>)
    ensures KeptOutside(mem, mem, pages)
  {
  }

  lemma KeptWrite(mem: map<nat, Page>, mem': map<nat, Page>, pages: set<nat>, p: nat, page: Page)
    requires KeptOutside(mem, mem', pages) && p in pages
    ensures KeptOutside(mem, mem'[p := page], pages)
  {
  }

  lemma PatchShort(runs: seq<Run>, n: nat)
    requires n <= |runs| <= n + 1
    ensures runs[..n] + Patch(runs[n..]) == runs
  {
    assert runs[..n] + runs[n..] == runs;
  }

  lemma StartsFree(runs: seq<Run>)
    requires Sound(runs)
    ensures forall i :: 0 <= i < |runs| ==> runs[i].start in PagesOf(runs)
  {
    forall i | 0 <= i < |runs| ensures runs[i].start in PagesOf(runs) {
      PageIn(runs, runs[i].start);
    }
  }

  lemma PatchMerge(runs: seq<Run>, n: nat)
    requires n + 1 < |runs| && runs[n].End() == runs[n + 1].start
    ensures var t := Merge(runs, n);
            |t| == |runs| - 1 && runs[..n] + Patch(runs[n..]) == t[..n + 1] + Patch(t[n + 1..])
  {
    var t := Merge(runs, n);
    assert runs[n..][2..] == runs[n + 2..] == t[n + 1..];
    assert t[..n + 1] == runs[..n] + [t[n]];
  }

  lemma PatchSkip(runs: seq<Run>, n: nat)
    requires n + 1 < |runs| && runs[n].End() != runs[n + 1].start
    ensures runs[..n] + Patch(runs[n..]) == runs[..n + 1] + Patch(runs[n + 1..])
  {
    assert runs[n..][1..] == runs[n + 1..];
    assert runs[..n + 1] == runs[..n] + [runs[n]];
  }

  lemma HeadIs(mem: map<nat, Page>, head: nat, runs: seq<Run>)
    requires Linked(mem, head, runs) && Sound(runs)
    ensures head == Link(runs, 0) && (head == 0 <==> runs == [])
  {
  }
}
