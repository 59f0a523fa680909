/** The allocator of umalloc.c (section 8.7 of The C Programming Language):
    a circular free list in address order, searched first fit, coalesced on free.
    Addresses count units of one header. */
module Heap {
  import opened Basics

  datatype Header = Header(ptr: nat, size: nat)
  type Memory = map<nat, Header>

  /** A run of units that starts with its header. */
  datatype Run = Run(addr: nat, size: nat)

  // ----- The free list as a sequence: base first, then the free blocks upwards

  function NextAddr(ring: seq<Run>, i: nat): nat
    requires i < |ring|
  {
    if i + 1 < |ring| then ring[i + 1].addr else ring[0].addr
  }

  /** Memory holds the ring: each header has its size and points to the next. */
  ghost predicate Shape(mem: Memory, ring: seq<Run>) {
    forall i :: 0 <= i < |ring| ==>
      ring[i].addr in mem && mem[ring[i].addr] == Header(NextAddr(ring, i), ring[i].size)
  }

  predicate Before(x: Run, y: Run) { x.addr < y.addr && x.addr + x.size <= y.addr }
  predicate Touch(x: Run, y: Run) { x.addr + x.size == y.addr }

  /** In address order and disjoint; only neighbours i, i + 1 with lo <= i <= hi may touch. */
  ghost predicate Loose(base: nat, ring: seq<Run>, lo: int, hi: int) {
    && |ring| > 0 && ring[0] == Run(base, 0)
    && (forall i :: 1 <= i < |ring| ==> ring[i].size > 0)
    && (forall i :: 0 <= i < |ring| - 1 ==> Before(ring[i], ring[i + 1]))
    && (forall i :: 0 <= i < |ring| - 1 && Touch(ring[i], ring[i + 1]) ==> lo <= i <= hi)
  }

  /** The ring between calls: ordered, disjoint, no two free blocks adjacent. */
  ghost predicate RingOk(base: nat, ring: seq<Run>) { Loose(base, ring, 0, -1) }

  lemma {:induction false} InOrder(base: nat, ring: seq<Run>, lo: int, hi: int, i: nat, j: nat)
    requires Loose(base, ring, lo, hi) && i < j < |ring|
    ensures Before(ring[i], ring[j])
    ensures j > i + 1 ==> !Touch(ring[i], ring[j])
  {
    if j > i + 1 {
      InOrder(base, ring, lo, hi, i, j - 1);
      assert Before(ring[j - 1], ring[j - 1 + 1]);
    } else {
      assert Before(ring[i], ring[i + 1]);
    }
  }

  // ----- Sets of units

  predicate Above(a: nat, u: nat) { a <= u }

  ghost function Span(r: Run): set<nat> { set u: nat | u < r.addr + r.size && Above(r.addr, u) }

  ghost function FreeSet(ring: seq<Run>): set<nat> {
    if ring == [] then {} else Span(ring[0]) + FreeSet(ring[1..])
  }

  ghost function LiveSet(live: map<nat, nat>): set<nat> {
    set a, u | a in live && u in Span(Run(a, live[a])) :: u
  }

  lemma {:induction false} FreeSetConcat(x: seq<Run>, y: seq<Run>)
    ensures FreeSet(x + y) == FreeSet(x) + FreeSet(y)
  {
    if x == [] {
      assert x + y == y;
    } else {
      assert (x + y)[1..] == x[1..] + y;
      FreeSetConcat(x[1..], y);
    }
  }

  lemma {:induction false} FreeSetMember(ring: seq<Run>, i: nat)
    requires i < |ring|
    ensures Span(ring[i]) <= FreeSet(ring)
  {
    if i > 0 { FreeSetMember(ring[1..], i - 1); }
  }

  lemma {:induction false} FreeSetIndex(ring: seq<Run>, u: nat) returns (i: nat)
    requires u in FreeSet(ring)
    ensures i < |ring| && u in Span(ring[i])
  {
    if u in Span(ring[0]) {
      i := 0;
    } else {
      var k := FreeSetIndex(ring[1..], u);
      i := k + 1;
    }
  }

  lemma SpanJoin(x: Run, y: Run)
    requires Touch(x, y)
    ensures Span(x) + Span(y) == Span(Run(x.addr, x.size + y.size))
  {}

  lemma LiveSetRemove(live: map<nat, nat>, a: nat)
    requires a in live && forall b :: b in live && b != a ==> Span(Run(a, live[a])) !! Span(Run(b, live[b]))
    ensures LiveSet(live - {a}) == LiveSet(live) - Span(Run(a, live[a]))
  {
    var l' := live - {a};
    assert forall b :: b in l' ==> b in live && l'[b] == live[b];
    forall u | u in LiveSet(live) - Span(Run(a, live[a])) ensures u in LiveSet(l') {
      var b :| b in live && u in Span(Run(b, live[b]));
      assert b in l';
    }
    forall u | u in LiveSet(l') ensures u in LiveSet(live) - Span(Run(a, live[a])) {
      var b :| b in l' && u in Span(Run(b, l'[b]));
      assert b in live && b != a;
    }
  }

  lemma LiveSetAdd(live: map<nat, nat>, a: nat, n: nat)
    requires a !in live
    ensures LiveSet(live[a := n]) == LiveSet(live) + Span(Run(a, n))
  {
    var l' := live[a := n];
    forall u | u in LiveSet(live) + Span(Run(a, n)) ensures u in LiveSet(l') {
      if u in LiveSet(live) { var b :| b in live && u in Span(Run(b, live[b])); assert b in l' && l'[b] == live[b]; }
      else { assert a in l' && l'[a] == n; }
    }
    forall u | u in LiveSet(l') ensures u in LiveSet(live) + Span(Run(a, n)) {
      var b :| b in l' && u in Span(Run(b, l'[b]));
      if b != a { assert b in live; }
    }
  }

  /** The sizes on the free list add up to the number of free units. */
  ghost function SumSizes(ring: seq<Run>): nat {
    if ring == [] then 0 else ring[0].size + SumSizes(ring[1..])
  }

  lemma {:induction false} SpanSize(a: nat, n: nat)
    ensures |Span(Run(a, n))| == n
  {
    if n > 0 {
      SpanSize(a, n - 1);
      assert Span(Run(a, n)) == Span(Run(a, n - 1)) + {a + n - 1};
    } else {
      assert Span(Run(a, n)) == {};
    }
  }

  lemma {:induction false} FreeCount(base: nat, ring: seq<Run>, i: nat)
    requires RingOk(base, ring) && i <= |ring|
    ensures |FreeSet(ring[i..])| == SumSizes(ring[i..])
    decreases |ring| - i
  {
    if i < |ring| {
      FreeCount(base, ring, i + 1);
      var rest := ring[i + 1..];
      assert ring[i..][1..] == rest;
      SpanSize(ring[i].addr, ring[i].size);
      forall u | u in Span(ring[i]) ensures u !in FreeSet(rest) {
        if u in FreeSet(rest) {
          var k := FreeSetIndex(rest, u);
          InOrder(base, ring, 0, -1, i, i + 1 + k);
          assert false;
        }
      }
    }
  }

  // ----- The invariant

  ghost predicate LiveOk(base: nat, mem: Memory, live: map<nat, nat>) {
    && (forall a :: a in live ==> a in mem && mem[a].size == live[a] && 0 < live[a] && base < a)
    && (forall a, b :: a in live && b in live && a < b ==> Before(Run(a, live[a]), Run(b, live[b])))
  }

  /** Every unit obtained from sbrk is either free or live, never both. */
  ghost predicate Inv(base: nat, mem: Memory, ring: seq<Run>, live: map<nat, nat>, units: set<nat>, top: nat) {
    && RingOk(base, ring) && Shape(mem, ring) && LiveOk(base, mem, live)
    && FreeSet(ring) !! LiveSet(live)
    && units == FreeSet(ring) + LiveSet(live)
    && (forall u :: u in units ==> base < u < top) && base < top
  }

  /** Live blocks stay clear of the free ones. */
  lemma LiveFreeApart(base: nat, mem: Memory, ring: seq<Run>, live: map<nat, nat>, units: set<nat>, top: nat, a: nat,
                      i: nat)
    requires Inv(base, mem, ring, live, units, top) && a in live && i < |ring|
    ensures Before(Run(a, live[a]), ring[i]) || Before(ring[i], Run(a, live[a]))
  {
    var r, f := Run(a, live[a]), ring[i];
    if i > 0 {
      FreeSetMember(ring, i);
      LiveOwnSpan(live, a);
      var both := if a <= f.addr then f.addr else a;
      assert !(both in Span(r) && both in Span(f));
    }
  }

  lemma LiveOwnSpan(live: map<nat, nat>, a: nat)
    requires a in live
    ensures Span(Run(a, live[a])) <= LiveSet(live)
  {}

  // ----- Inserting and merging

  function InsertAt(ring: seq<Run>, k: nat, b: Run): seq<Run>
    requires k < |ring|
  {
    ring[..k + 1] + [b] + ring[k + 1..]
  }

  function MergeAt(ring: seq<Run>, i: nat): seq<Run>
    requires i + 1 < |ring|
  {
    ring[..i] + [Run(ring[i].addr, ring[i].size + ring[i + 1].size)] + ring[i + 2..]
  }

  lemma InsertIndex(ring: seq<Run>, k: nat, b: Run)
    requires k < |ring|
    ensures var r := InsertAt(ring, k, b);
      && |r| == |ring| + 1
      && forall i :: 0 <= i < |r| ==> r[i] == if i <= k then ring[i] else if i == k + 1 then b else ring[i - 1]
  {}

  lemma MergeIndex(ring: seq<Run>, i: nat)
    requires i + 1 < |ring|
    ensures var r := MergeAt(ring, i);
      && |r| == |ring| - 1
      && forall j :: 0 <= j < |r| ==>
           r[j] == if j < i then ring[j]
                   else if j == i then Run(ring[i].addr, ring[i].size + ring[i + 1].size)
                   else ring[j + 1]
  {}

  lemma InsertSet(ring: seq<Run>, k: nat, b: Run)
    requires k < |ring|
    ensures FreeSet(InsertAt(ring, k, b)) == FreeSet(ring) + Span(b)
  {
    hide Span;
    var x, y := ring[..k + 1], ring[k + 1..];
    FreeSetConcat(x, y);
    FreeSetConcat(x, [b]);
    FreeSetConcat(x + [b], y);
    assert ring == x + y;
    OneSet(b);
  }

  lemma OneSet(p: Run) ensures FreeSet([p]) == Span(p) {
    hide Span;
    assert [p][1..] == [];
  }

  lemma {:induction false} MergeSet(ring: seq<Run>, i: nat)
    requires i + 1 < |ring| && Touch(ring[i], ring[i + 1])
    ensures FreeSet(MergeAt(ring, i)) == FreeSet(ring)
  {
    if i == 0 {
      assert MergeAt(ring, 0)[1..] == ring[2..] == ring[1..][1..];
      SpanJoin(ring[0], ring[1]);
    } else {
      assert MergeAt(ring, i)[1..] == MergeAt(ring[1..], i - 1);
      MergeSet(ring[1..], i - 1);
    }
  }

  lemma InsertLoose(base: nat, ring: seq<Run>, k: nat, b: Run)
    requires RingOk(base, ring) && k < |ring| && b.size > 0 && Before(ring[k], b)
    requires k + 1 < |ring| ==> Before(b, ring[k + 1])
    ensures Loose(base, InsertAt(ring, k, b), k, k + 1)
  {
    InsertIndex(ring, k, b);
    var r := InsertAt(ring, k, b);
    assert r[0] == ring[0];
    forall i | 0 <= i < |r| - 1
      ensures Before(r[i], r[i + 1]) && (Touch(r[i], r[i + 1]) ==> k <= i <= k + 1)
    {
      if i < k { assert Before(ring[i], ring[i + 1]); }
      else if i > k + 1 { assert Before(ring[i - 1], ring[i - 1 + 1]); }
    }
  }

  lemma MergeLoose(base: nat, ring: seq<Run>, lo: int, hi: nat)
    requires Loose(base, ring, lo, hi) && hi + 1 < |ring| && Touch(ring[hi], ring[hi + 1])
    ensures Loose(base, MergeAt(ring, hi), lo, hi - 1)
  {
    MergeIndex(ring, hi);
    var r := MergeAt(ring, hi);
    assert Before(ring[hi], ring[hi + 1]);
    forall i | 0 <= i < |r| - 1
      ensures Before(r[i], r[i + 1]) && (Touch(r[i], r[i + 1]) ==> lo <= i <= hi - 1)
    {
      if i < hi { assert Before(ring[i], ring[i + 1]); }
      else { assert Before(ring[i + 1], ring[i + 1 + 1]); }
    }
  }

  lemma Untouching(base: nat, ring: seq<Run>, lo: int, hi: nat)
    requires Loose(base, ring, lo, hi)
    requires hi + 1 < |ring| ==> !Touch(ring[hi], ring[hi + 1])
    ensures Loose(base, ring, lo, hi - 1)
  {}

  lemma InsertNode(ring: seq<Run>, k: nat, b: Run, i: nat)
    requires k < |ring| && i <= |ring|
    ensures var r := InsertAt(ring, k, b);
      && |r| == |ring| + 1
      && r[i] == (if i <= k then ring[i] else if i == k + 1 then b else ring[i - 1])
      && NextAddr(r, i) == (if i < k then NextAddr(ring, i) else if i == k then b.addr
                            else if i == k + 1 then NextAddr(ring, k) else NextAddr(ring, i - 1))
  {
    InsertIndex(ring, k, b);
  }

  lemma MergeNode(ring: seq<Run>, hi: nat, i: nat)
    requires hi + 1 < |ring| && i < |ring| - 1
    ensures var r := MergeAt(ring, hi);
      && |r| == |ring| - 1
      && r[i] == (if i < hi then ring[i] else if i == hi then Run(ring[hi].addr, ring[hi].size + ring[hi + 1].size)
                  else ring[i + 1])
      && NextAddr(r, i) == (if i < hi then NextAddr(ring, i) else NextAddr(ring, i + 1))
  {
    MergeIndex(ring, hi);
  }

  /** Node i of the ring with b linked in after position k. */
  lemma ShapeInsertNode(base: nat, mem: Memory, ring: seq<Run>, k: nat, b: Run, mem': Memory, i: nat)
    requires RingOk(base, ring) && Shape(mem, ring) && k < |ring| && Before(ring[k], b) && i <= |ring|
    requires k + 1 < |ring| ==> b.addr < ring[k + 1].addr
    requires mem' == mem[b.addr := Header(NextAddr(ring, k), b.size)][ring[k].addr := Header(b.addr, ring[k].size)]
    ensures var r := InsertAt(ring, k, b);
      |r| == |ring| + 1 && r[i].addr in mem' && mem'[r[i].addr] == Header(NextAddr(r, i), r[i].size)
  {
    hide InsertAt, NextAddr, Loose;
    InsertNode(ring, k, b, i);
    if i < k {
      InOrder(base, ring, 0, -1, i, k);
      assert mem[ring[i].addr] == Header(NextAddr(ring, i), ring[i].size);
    } else if i > k + 1 {
      InOrder(base, ring, 0, -1, k, i - 1);
      if i - 1 > k + 1 { InOrder(base, ring, 0, -1, k + 1, i - 1); }
      assert mem[ring[i - 1].addr] == Header(NextAddr(ring, i - 1), ring[i - 1].size);
    }
  }

  lemma ShapeInsert(base: nat, mem: Memory, ring: seq<Run>, k: nat, b: Run, mem': Memory)
    requires RingOk(base, ring) && Shape(mem, ring) && k < |ring| && Before(ring[k], b)
    requires k + 1 < |ring| ==> b.addr < ring[k + 1].addr
    requires mem' == mem[b.addr := Header(NextAddr(ring, k), b.size)][ring[k].addr := Header(b.addr, ring[k].size)]
    ensures Shape(mem', InsertAt(ring, k, b))
  {
    hide NextAddr, Loose;
    var r := InsertAt(ring, k, b);
    forall i | 0 <= i < |r| ensures r[i].addr in mem' && mem'[r[i].addr] == Header(NextAddr(r, i), r[i].size) {
      ShapeInsertNode(base, mem, ring, k, b, mem', i);
    }
  }

  /** Node i of the ring with the blocks at hi and hi + 1 made one. */
  lemma ShapeMergeNode(base: nat, mem: Memory, ring: seq<Run>, lo: int, hi: nat, mem': Memory, i: nat)
    requires Loose(base, ring, lo, hi) && Shape(mem, ring) && hi + 1 < |ring| && i < |ring| - 1
    requires mem' == mem[ring[hi].addr := Header(NextAddr(ring, hi + 1), ring[hi].size + ring[hi + 1].size)]
    ensures var r := MergeAt(ring, hi);
      |r| == |ring| - 1 && r[i].addr in mem' && mem'[r[i].addr] == Header(NextAddr(r, i), r[i].size)
  {
    hide MergeAt, NextAddr, Loose;
    MergeNode(ring, hi, i);
    if i < hi {
      InOrder(base, ring, lo, hi, i, hi);
      assert mem[ring[i].addr] == Header(NextAddr(ring, i), ring[i].size);
    } else if i > hi {
      InOrder(base, ring, lo, hi, hi, i + 1);
      assert mem[ring[i + 1].addr] == Header(NextAddr(ring, i + 1), ring[i + 1].size);
    }
  }

  lemma ShapeMerge(base: nat, mem: Memory, ring: seq<Run>, lo: int, hi: nat, mem': Memory)
    requires Loose(base, ring, lo, hi) && Shape(mem, ring) && hi + 1 < |ring|
    requires mem' == mem[ring[hi].addr := Header(NextAddr(ring, hi + 1), ring[hi].size + ring[hi + 1].size)]
    ensures Shape(mem', MergeAt(ring, hi))
  {
    hide NextAddr, Loose;
    var r := MergeAt(ring, hi);
    forall i | 0 <= i < |r| ensures r[i].addr in mem' && mem'[r[i].addr] == Header(NextAddr(r, i), r[i].size) {
      ShapeMergeNode(base, mem, ring, lo, hi, mem', i);
    }
  }

  // ----- free

  /** Where a block belongs: after ring[k] and before the next one. */
  ghost predicate Fits(ring: seq<Run>, k: nat, b: Run) {
    k < |ring| && Before(ring[k], b) && (k + 1 < |ring| ==> Before(b, ring[k + 1]))
  }

  lemma {:induction false} FindPlace(base: nat, ring: seq<Run>, b: Run, n: nat) returns (k: nat)
    requires RingOk(base, ring) && 1 <= n <= |ring| && Before(ring[0], b)
    requires forall i :: 0 <= i < |ring| ==> Before(b, ring[i]) || Before(ring[i], b)
    requires n < |ring| ==> Before(b, ring[n])
    ensures Fits(ring, k, b)
    decreases n
  {
    if Before(ring[n - 1], b) {
      k := n - 1;
    } else {
      k := FindPlace(base, ring, b, n - 1);
    }
  }

  /** The search loop of free stops at the block's place and nowhere else. */
  predicate Stops(p: nat, next: nat, bp: nat) { (bp > p && bp < next) || (p >= next && (bp > p || bp < next)) }

  lemma StopsOnlyThere(base: nat, ring: seq<Run>, k: nat, b: Run, j: nat)
    requires RingOk(base, ring) && Fits(ring, k, b) && j < |ring| && base < b.addr
    ensures Stops(ring[j].addr, NextAddr(ring, j), b.addr) <==> j == k
  {
    if j > 0 { InOrder(base, ring, 0, -1, 0, j); }
    if j + 1 < |ring| { InOrder(base, ring, 0, -1, j, j + 1); }
    if j > k + 1 { InOrder(base, ring, 0, -1, k + 1, j); }
    if j + 1 < k { InOrder(base, ring, 0, -1, j + 1, k); }
    if j < k && j + 1 == |ring| { assert false; }
  }

  /** Memory and ring once bp is linked in and merged with its neighbours. */
  ghost function Joined(mem: Memory, ring: seq<Run>, k: nat, b: Run): (Memory, seq<Run>)
    requires k < |ring|
  {
    var mem1 := mem[b.addr := Header(NextAddr(ring, k), b.size)][ring[k].addr := Header(b.addr, ring[k].size)];
    var ring1 := InsertAt(ring, k, b);
    var up := k + 1 < |ring| && Touch(b, ring[k + 1]);
    var big := if up then Run(b.addr, b.size + ring[k + 1].size) else b;
    var after := if up then NextAddr(ring, k + 1) else NextAddr(ring, k);
    var mem2 := if up then mem1[b.addr := Header(after, big.size)] else mem1;
    var ring2 := if up then MergeAt(ring1, k + 1) else ring1;
    if Touch(ring[k], b)
    then (mem2[ring[k].addr := Header(after, ring[k].size + big.size)], MergeAt(ring2, k))
    else (mem2, ring2)
  }

  lemma JoinedUp(base: nat, mem: Memory, ring: seq<Run>, k: nat, b: Run, mem1: Memory, ring1: seq<Run>)
    requires RingOk(base, ring) && Shape(mem, ring) && Fits(ring, k, b) && b.size > 0
    requires mem1 == mem[b.addr := Header(NextAddr(ring, k), b.size)][ring[k].addr := Header(b.addr, ring[k].size)]
    requires ring1 == InsertAt(ring, k, b)
    ensures |ring1| == |ring| + 1 && ring1[k] == ring[k] && ring1[k + 1] == b
    ensures Loose(base, ring1, k, k + 1) && Shape(mem1, ring1) && FreeSet(ring1) == FreeSet(ring) + Span(b)
    ensures k + 1 < |ring| ==> ring1[k + 2] == ring[k + 1] && NextAddr(ring1, k + 2) == NextAddr(ring, k + 1)
    ensures NextAddr(ring1, k + 1) == NextAddr(ring, k)
  {
    hide Shape, Loose, FreeSet, Span;
    InsertNode(ring, k, b, k);
    InsertNode(ring, k, b, k + 1);
    if k + 1 < |ring| { InsertNode(ring, k, b, k + 2); }
    InsertLoose(base, ring, k, b);
    InsertSet(ring, k, b);
    ShapeInsert(base, mem, ring, k, b, mem1);
  }

  lemma JoinedOk(base: nat, mem: Memory, ring: seq<Run>, k: nat, b: Run)
    requires RingOk(base, ring) && Shape(mem, ring) && Fits(ring, k, b) && b.size > 0
    ensures var (mem', ring') := Joined(mem, ring, k, b);
      && RingOk(base, ring') && Shape(mem', ring') && FreeSet(ring') == FreeSet(ring) + Span(b)
      && k < |ring'| && ring'[k].addr == ring[k].addr
  {
    hide Shape, Loose, FreeSet, Span, InsertAt, MergeAt, NextAddr;
    var mem1 := mem[b.addr := Header(NextAddr(ring, k), b.size)][ring[k].addr := Header(b.addr, ring[k].size)];
    var ring1 := InsertAt(ring, k, b);
    JoinedUp(base, mem, ring, k, b, mem1, ring1);
    var up := k + 1 < |ring| && Touch(b, ring[k + 1]);
    var big := if up then Run(b.addr, b.size + ring[k + 1].size) else b;
    var after := if up then NextAddr(ring, k + 1) else NextAddr(ring, k);
    var mem2 := if up then mem1[b.addr := Header(after, big.size)] else mem1;
    var ring2 := if up then MergeAt(ring1, k + 1) else ring1;
    if up {
      MergeLoose(base, ring1, k, k + 1);
      MergeSet(ring1, k + 1);
      ShapeMerge(base, mem1, ring1, k, k + 1, mem2);
      MergeNode(ring1, k + 1, k);
      MergeNode(ring1, k + 1, k + 1);
    } else {
      Untouching(base, ring1, k, k + 1);
    }
    assert ring2[k] == ring[k] && ring2[k + 1] == big && NextAddr(ring2, k + 1) == after;
    if Touch(ring[k], b) {
      MergeLoose(base, ring2, k, k);
      MergeSet(ring2, k);
      ShapeMerge(base, mem2, ring2, k, k, mem2[ring[k].addr := Header(after, ring[k].size + big.size)]);
      MergeNode(ring2, k, k);
    } else {
      Untouching(base, ring2, k, k);
    }
    LooseAny(base, Joined(mem, ring, k, b).1, k, k - 1);
  }

  lemma LooseAny(base: nat, ring: seq<Run>, lo: int, hi: int)
    requires Loose(base, ring, lo, hi) && hi < lo
    ensures RingOk(base, ring)
  {}

  lemma JoinedFrame(mem: Memory, ring: seq<Run>, k: nat, b: Run, a: nat)
    requires k < |ring| && a != b.addr && a != ring[k].addr
    ensures var m := Joined(mem, ring, k, b).0;
      (a in m <==> a in mem) && (a in mem ==> m[a] == mem[a])
  {
    hide InsertAt, MergeAt, NextAddr;
  }

  lemma LiveSpansApart(base: nat, mem: Memory, live: map<nat, nat>, a: nat)
    requires LiveOk(base, mem, live) && a in live
    ensures forall b :: b in live && b != a ==> Span(Run(a, live[a])) !! Span(Run(b, live[b]))
  {}

  lemma FreeKeeps(base: nat, mem: Memory, ring: seq<Run>, live: map<nat, nat>, units: set<nat>, top: nat, bp: nat,
                  k: nat)
    requires Inv(base, mem, ring, live, units, top) && bp in live && Fits(ring, k, Run(bp, live[bp]))
    ensures var (mem', ring') := Joined(mem, ring, k, Run(bp, live[bp]));
      Inv(base, mem', ring', live - {bp}, units, top)
  {
    hide Joined, FreeSet, Loose, Shape, Span, LiveSet;
    var b := Run(bp, live[bp]);
    JoinedOk(base, mem, ring, k, b);
    LiveSpansApart(base, mem, live, bp);
    LiveSetRemove(live, bp);
    LiveOwnSpan(live, bp);
    var (mem', ring') := Joined(mem, ring, k, b);
    forall a | a in live && a != bp ensures a in mem' && mem'[a] == mem[a] {
      LiveFreeApart(base, mem, ring, live, units, top, a, k);
      JoinedFrame(mem, ring, k, b, a);
    }
  }

  /** sbrk handed out fresh units above everything; they count as a live block until freed. */
  lemma GrowKeeps(base: nat, mem: Memory, ring: seq<Run>, live: map<nat, nat>, units: set<nat>, top: nat, a: nat,
                  nu: nat, x: nat)
    requires Inv(base, mem, ring, live, units, top) && top <= a && nu > 0
    ensures Inv(base, mem[a := Header(x, nu)], ring, live[a := nu], units + Span(Run(a, nu)), a + nu)
  {
    hide Loose, FreeSet, LiveSet;
    var mem' := mem[a := Header(x, nu)];
    forall i | 0 <= i < |ring| ensures ring[i].addr < top { RingBelow(base, mem, ring, live, units, top, i); }
    forall b | b in live ensures b + live[b] <= top { LiveBelow(base, mem, ring, live, units, top, b); }
    assert Shape(mem', ring);
    LiveSetAdd(live, a, nu);
    assert FreeSet(ring) !! Span(Run(a, nu));
  }

  lemma RingBelow(base: nat, mem: Memory, ring: seq<Run>, live: map<nat, nat>, units: set<nat>, top: nat, i: nat)
    requires Inv(base, mem, ring, live, units, top) && i < |ring|
    ensures ring[i].addr < top
  {
    FreeSetMember(ring, i);
    if i > 0 { assert ring[i].addr in Span(ring[i]); }
  }

  lemma RingAllBelow(base: nat, mem: Memory, ring: seq<Run>, live: map<nat, nat>, units: set<nat>, top: nat)
    requires Inv(base, mem, ring, live, units, top)
    ensures forall i :: 0 <= i < |ring| ==> ring[i].addr < top
  {
    forall i | 0 <= i < |ring| ensures ring[i].addr < top { RingBelow(base, mem, ring, live, units, top, i); }
  }

  lemma LiveBelow(base: nat, mem: Memory, ring: seq<Run>, live: map<nat, nat>, units: set<nat>, top: nat, b: nat)
    requires Inv(base, mem, ring, live, units, top) && b in live
    ensures b + live[b] <= top
  {
    LiveOwnSpan(live, b);
    assert b + live[b] - 1 in Span(Run(b, live[b]));
  }

  // ----- malloc

  function RemoveAt(ring: seq<Run>, i: nat): seq<Run>
    requires i < |ring|
  {
    ring[..i] + ring[i + 1..]
  }

  lemma RemoveNode(ring: seq<Run>, i: nat, j: nat)
    requires 0 < i < |ring| && j < |ring| - 1
    ensures var r := RemoveAt(ring, i);
      && |r| == |ring| - 1
      && r[j] == (if j < i then ring[j] else ring[j + 1])
      && NextAddr(r, j) == (if j < i - 1 then NextAddr(ring, j) else NextAddr(ring, j + 1))
  {}

  lemma {:induction false} ApartSets(part: seq<Run>, b: Run)
    requires forall j :: 0 <= j < |part| ==> Before(part[j], b) || Before(b, part[j])
    ensures FreeSet(part) !! Span(b)
  {
    if part != [] {
      ApartSets(part[1..], b);
      assert Span(part[0]) !! Span(b);
    }
  }

  lemma RemoveSet(base: nat, ring: seq<Run>, i: nat)
    requires RingOk(base, ring) && 0 < i < |ring|
    ensures FreeSet(ring) == FreeSet(RemoveAt(ring, i)) + Span(ring[i])
    ensures FreeSet(RemoveAt(ring, i)) !! Span(ring[i])
  {
    hide Span, FreeSet;
    var x, y := ring[..i], ring[i + 1..];
    assert ring == x + [ring[i]] + y;
    FreeSetConcat(x + [ring[i]], y);
    FreeSetConcat(x, [ring[i]]);
    FreeSetConcat(x, y);
    OneSet(ring[i]);
    var r := RemoveAt(ring, i);
    forall j | 0 <= j < |r| ensures Before(r[j], ring[i]) || Before(ring[i], r[j]) {
      RemoveNode(ring, i, j);
      if j < i { InOrder(base, ring, 0, -1, j, i); } else { InOrder(base, ring, 0, -1, i, j + 1); }
    }
    ApartSets(r, ring[i]);
  }

  lemma RemoveOk(base: nat, mem: Memory, ring: seq<Run>, i: nat, mem': Memory)
    requires RingOk(base, ring) && Shape(mem, ring) && 0 < i < |ring|
    requires mem' == mem[ring[i - 1].addr := Header(NextAddr(ring, i), ring[i - 1].size)]
    ensures RingOk(base, RemoveAt(ring, i)) && Shape(mem', RemoveAt(ring, i))
  {
    hide RemoveAt, NextAddr;
    var r := RemoveAt(ring, i);
    RemoveNode(ring, i, 0);
    forall j | 0 <= j < |r| ensures r[j].addr in mem' && mem'[r[j].addr] == Header(NextAddr(r, j), r[j].size)
      ensures j > 0 ==> r[j].size > 0
    {
      RemoveNode(ring, i, j);
      if j < i - 1 {
        InOrder(base, ring, 0, -1, j, i - 1);
      } else if j >= i {
        InOrder(base, ring, 0, -1, i - 1, j + 1);
      }
    }
    forall j | 0 <= j < |r| - 1 ensures Before(r[j], r[j + 1]) && !Touch(r[j], r[j + 1]) {
      RemoveNode(ring, i, j);
      RemoveNode(ring, i, j + 1);
      if j < i - 1 { InOrder(base, ring, 0, -1, j, j + 1); }
      else if j == i - 1 { InOrder(base, ring, 0, -1, j, j + 2); }
      else { assert Before(ring[j + 1], ring[j + 1 + 1]); }
    }
  }

  /** The two memories agree at every unit of s. */
  ghost predicate SameOn(s: set<nat>, mem: Memory, mem': Memory) {
    forall u :: u in s ==> (u in mem <==> u in mem') && (u in mem ==> mem'[u] == mem[u])
  }

  lemma Separate(x: Run, y: Run)
    requires Span(x) !! Span(y) && x.size > 0 && y.size > 0
    ensures Before(x, y) || Before(y, x)
  {
    var u := if x.addr <= y.addr then y.addr else x.addr;
    assert !(u in Span(x) && u in Span(y));
  }

  /** Free units b become a live block: what is left still is the whole heap. */
  lemma TakeKeeps(base: nat, mem: Memory, ring: seq<Run>, live: map<nat, nat>, units: set<nat>, top: nat,
                  mem': Memory, ring': seq<Run>, b: Run)
    requires Inv(base, mem, ring, live, units, top) && b.size > 0
    requires RingOk(base, ring') && Shape(mem', ring')
    requires FreeSet(ring) == FreeSet(ring') + Span(b) && FreeSet(ring') !! Span(b)
    requires b.addr in mem' && mem'[b.addr].size == b.size
    requires SameOn(LiveSet(live), mem, mem')
    ensures b.addr !in live
    ensures Inv(base, mem', ring', live[b.addr := b.size], units, top)
  {
    hide RingOk, Shape, FreeSet, Span, LiveSet, SameOn;
    forall a | a in live
      ensures a != b.addr && a in mem' && mem'[a] == mem[a]
      ensures Before(Run(a, live[a]), b) || Before(b, Run(a, live[a]))
    {
      TakeApart(base, mem, live, mem', b, a);
    }
    SpanStart(b);
    LiveSetAdd(live, b.addr, b.size);
    hide Before;
  }

  lemma SpanStart(b: Run)
    requires b.size > 0
    ensures b.addr in Span(b)
  {}

  lemma TakeApart(base: nat, mem: Memory, live: map<nat, nat>, mem': Memory, b: Run, a: nat)
    requires LiveOk(base, mem, live) && b.size > 0 && LiveSet(live) !! Span(b) && SameOn(LiveSet(live), mem, mem')
    requires a in live
    ensures a != b.addr && a in mem' && mem'[a] == mem[a] && (Before(Run(a, live[a]), b) || Before(b, Run(a, live[a])))
  {
    LiveOwnSpan(live, a);
    hide LiveSet;
    assert a in Span(Run(a, live[a]));
    Separate(Run(a, live[a]), b);
  }

  /** Taking block i whole off the list. */
  lemma TakeWhole(base: nat, mem: Memory, ring: seq<Run>, live: map<nat, nat>, units: set<nat>, top: nat, i: nat,
                  mem': Memory)
    requires Inv(base, mem, ring, live, units, top) && 0 < i < |ring|
    requires mem' == mem[ring[i - 1].addr := Header(NextAddr(ring, i), ring[i - 1].size)]
    ensures ring[i].addr !in live
    ensures Inv(base, mem', RemoveAt(ring, i), live[ring[i].addr := ring[i].size], units, top)
    ensures SameOn(LiveSet(live), mem, mem')
  {
    hide RemoveAt, Shape, Loose, FreeSet, Span, LiveSet, NextAddr;
    RingNotLive(base, mem, ring, live, units, top, i - 1);
    RingStep(base, mem, ring, live, units, top, i);
    InOrder(base, ring, 0, -1, i - 1, i);
    RemoveOk(base, mem, ring, i, mem');
    RemoveSet(base, ring, i);
    TakeKeeps(base, mem, ring, live, units, top, mem', RemoveAt(ring, i), ring[i]);
  }

  lemma RingNotLive(base: nat, mem: Memory, ring: seq<Run>, live: map<nat, nat>, units: set<nat>, top: nat, i: nat)
    requires Inv(base, mem, ring, live, units, top) && i < |ring|
    ensures ring[i].addr !in LiveSet(live)
  {
    FreeSetMember(ring, i);
    if i > 0 { assert ring[i].addr in Span(ring[i]); }
  }

  lemma ShrinkRing(base: nat, ring: seq<Run>, i: nat, n: nat)
    requires RingOk(base, ring) && 0 < i < |ring| && 0 < n < ring[i].size
    ensures RingOk(base, ring[i := Run(ring[i].addr, ring[i].size - n)])
  {
    var ring' := ring[i := Run(ring[i].addr, ring[i].size - n)];
    forall j | 0 <= j < |ring| - 1 ensures Before(ring'[j], ring'[j + 1]) && !Touch(ring'[j], ring'[j + 1]) {
      assert Before(ring[j], ring[j + 1]) && !Touch(ring[j], ring[j + 1]);
    }
  }

  lemma ShrinkShape(mem: Memory, ring: seq<Run>, i: nat, n: nat, mem': Memory)
    requires Shape(mem, ring) && i < |ring| && n < ring[i].size
    requires forall j :: 0 <= j < |ring| && j != i ==> ring[j].addr in mem' && mem'[ring[j].addr] == mem[ring[j].addr]
    requires ring[i].addr in mem' && mem'[ring[i].addr] == Header(NextAddr(ring, i), ring[i].size - n)
    ensures Shape(mem', ring[i := Run(ring[i].addr, ring[i].size - n)])
  {
    var ring' := ring[i := Run(ring[i].addr, ring[i].size - n)];
    forall j | 0 <= j < |ring'|
      ensures ring'[j].addr in mem' && mem'[ring'[j].addr] == Header(NextAddr(ring', j), ring'[j].size)
    {
      assert NextAddr(ring', j) == NextAddr(ring, j);
    }
  }

  lemma ShrinkSet(base: nat, ring: seq<Run>, i: nat, n: nat)
    requires RingOk(base, ring) && 0 < i < |ring| && 0 < n < ring[i].size
    ensures var ring' := ring[i := Run(ring[i].addr, ring[i].size - n)];
      var b := Run(ring[i].addr + ring[i].size - n, n);
      FreeSet(ring) == FreeSet(ring') + Span(b) && FreeSet(ring') !! Span(b)
  {
    var small, b := Run(ring[i].addr, ring[i].size - n), Run(ring[i].addr + ring[i].size - n, n);
    var ring' := ring[i := small];
    SpanJoin(small, b);
    hide Span, FreeSet;
    var x, y := ring[..i], ring[i + 1..];
    assert ring == x + [ring[i]] + y && ring' == x + [small] + y;
    FreeSetConcat(x + [ring[i]], y);
    FreeSetConcat(x, [ring[i]]);
    FreeSetConcat(x + [small], y);
    FreeSetConcat(x, [small]);
    OneSet(ring[i]);
    OneSet(small);
    forall j | 0 <= j < |ring'| ensures Before(ring'[j], b) || Before(b, ring'[j]) {
      if j < i { InOrder(base, ring, 0, -1, j, i); } else if j > i { InOrder(base, ring, 0, -1, i, j); }
    }
    ApartSets(ring', b);
  }

  /** Taking the last n units of block i. */
  lemma TakeTail(base: nat, mem: Memory, ring: seq<Run>, live: map<nat, nat>, units: set<nat>, top: nat, i: nat, n: nat,
                 x: nat, mem': Memory)
    requires Inv(base, mem, ring, live, units, top) && 0 < i < |ring| && 0 < n < ring[i].size
    requires mem' == mem[ring[i].addr := Header(NextAddr(ring, i), ring[i].size - n)]
                        [ring[i].addr + ring[i].size - n := Header(x, n)]
    ensures ring[i].addr + ring[i].size - n !in live
    ensures Inv(base, mem', ring[i := Run(ring[i].addr, ring[i].size - n)],
                live[ring[i].addr + ring[i].size - n := n], units, top)
    ensures SameOn(LiveSet(live), mem, mem')
  {
    hide FreeSet, Span, LiveSet, NextAddr, Loose, Shape;
    var q := ring[i].addr + ring[i].size - n;
    RingNotLive(base, mem, ring, live, units, top, i);
    TailNotLive(base, mem, ring, live, units, top, i, n);
    forall j | 0 <= j < |ring| && j != i
      ensures ring[j].addr in mem && ring[j].addr != ring[i].addr && ring[j].addr != q
    {
      RingStep(base, mem, ring, live, units, top, j);
      if j < i { InOrder(base, ring, 0, -1, j, i); } else { InOrder(base, ring, 0, -1, i, j); }
    }
    ShrinkRing(base, ring, i, n);
    ShrinkShape(mem, ring, i, n, mem');
    ShrinkSet(base, ring, i, n);
    TakeKeeps(base, mem, ring, live, units, top, mem', ring[i := Run(ring[i].addr, ring[i].size - n)], Run(q, n));
  }

  lemma TailNotLive(base: nat, mem: Memory, ring: seq<Run>, live: map<nat, nat>, units: set<nat>, top: nat, i: nat,
                    n: nat)
    requires Inv(base, mem, ring, live, units, top) && i < |ring| && 0 < n < ring[i].size
    ensures ring[i].addr + ring[i].size - n !in LiveSet(live)
  {
    FreeSetMember(ring, i);
    assert ring[i].addr + ring[i].size - n in Span(ring[i]);
  }

  // ----- The arithmetic of sizes

  const WORD := 0x1_0000_0000
  const UNIT := 8

  /** nunits: the sum is an unsigned 32-bit sum. */
  function Units(nbytes: nat): nat { (nbytes + UNIT - 1) % WORD / UNIT + 1 }

  /** The signed 32-bit number of bytes asked of sbrk for nu units. */
  function Ask(nu: nat): int {
    var b := nu * UNIT % WORD;
    if b < 0x8000_0000 then b else b - WORD
  }

  /** The block has room for the request, with less than a unit to spare, exactly when the sum did not wrap. */
  lemma RoomIff(nbytes: nat)
    requires nbytes < 0x1_0000_0000
    ensures nbytes <= (Units(nbytes) - 1) * 8 <==> nbytes < 0xFFFF_FFF9
    ensures nbytes < 0xFFFF_FFF9 ==> (Units(nbytes) - 1) * 8 < nbytes + 8
  {}

  /** malloc(0xffffffff) hands out a bare header. */
  lemma HugeRequestGetsNothing()
    ensures Units(0xffff_ffff) == 1 && Ask(Units(0xffff_fff8)) == 0 && Ask(Units(0x8000_0000)) < 0
  {}

  /** sbrk is asked for the units malloc needs exactly when they are less than two gigabytes. */
  lemma AskIff(nbytes: nat)
    requires nbytes < WORD
    ensures Ask(Units(nbytes)) == Units(nbytes) * UNIT <==> Units(nbytes) < 0x1000_0000
  {}

  // ----- The allocator

  ghost predicate OnRing(ring: seq<Run>, a: nat) { exists i :: 0 <= i < |ring| && ring[i].addr == a }
  ghost predicate HasFit(ring: seq<Run>, n: nat) { exists i :: 0 <= i < |ring| && ring[i].size >= n }

  /** What the two tests at the end of free leave in memory. */
  lemma JoinedCode(base: nat, mem: Memory, ring: seq<Run>, k: nat, b: Run, next: nat, m1: Memory, m2: Memory)
    requires RingOk(base, ring) && Shape(mem, ring) && Fits(ring, k, b)
    requires base < b.addr && next == NextAddr(ring, k) && next in mem
    requires m1 == if b.addr + b.size == next
                   then mem[b.addr := Header(mem[next].ptr, b.size + mem[next].size)]
                   else mem[b.addr := Header(next, b.size)]
    requires var p := ring[k].addr;
      m2 == if p + ring[k].size == b.addr
            then m1[p := Header(m1[b.addr].ptr, ring[k].size + m1[b.addr].size)]
            else m1[p := Header(b.addr, ring[k].size)]
    ensures m2 == Joined(mem, ring, k, b).0
  {
    var up := k + 1 < |ring| && Touch(b, ring[k + 1]);
    assert up <==> b.addr + b.size == next;
    if up { assert mem[next] == Header(NextAddr(ring, k + 1), ring[k + 1].size); }
    hide InsertAt, MergeAt, Loose, NextAddr, Shape;
    var after, size := m1[b.addr].ptr, m1[b.addr].size;
    JoinedMemory(mem, ring, k, b, m1, m2);
  }

  lemma JoinedMemory(mem: Memory, ring: seq<Run>, k: nat, b: Run, m1: Memory, m2: Memory)
    requires k < |ring| && ring[k].addr != b.addr
    requires var up := k + 1 < |ring| && Touch(b, ring[k + 1]);
      m1 == mem[b.addr := if up then Header(NextAddr(ring, k + 1), b.size + ring[k + 1].size)
                          else Header(NextAddr(ring, k), b.size)]
    requires var p := ring[k].addr;
      m2 == m1[p := if Touch(ring[k], b) then Header(m1[b.addr].ptr, ring[k].size + m1[b.addr].size)
                    else Header(b.addr, ring[k].size)]
    ensures m2 == Joined(mem, ring, k, b).0
  {
    hide InsertAt, MergeAt, NextAddr;
    assert m2.Keys == Joined(mem, ring, k, b).0.Keys;
  }

  /** Somewhere on the new ring lies a block at least as large as the one freed. */
  lemma JoinedFit(ring: seq<Run>, k: nat, b: Run, mem: Memory)
    requires k < |ring|
    ensures HasFit(Joined(mem, ring, k, b).1, b.size)
  {
    hide NextAddr, InsertAt, MergeAt;
    var r1 := InsertAt(ring, k, b);
    InsertNode(ring, k, b, k + 1);
    InsertNode(ring, k, b, k);
    var up := k + 1 < |ring| && Touch(b, ring[k + 1]);
    if up { MergeNode(r1, k + 1, k + 1); MergeNode(r1, k + 1, k); }
    var r2 := if up then MergeAt(r1, k + 1) else r1;
    assert r2[k + 1].size >= b.size;
    if Touch(ring[k], b) { MergeNode(r2, k, k); assert MergeAt(r2, k)[k].size >= b.size; }
  }

  lemma PlaceOf(base: nat, mem: Memory, ring: seq<Run>, live: map<nat, nat>, units: set<nat>, top: nat, bp: nat)
      returns (k: nat)
    requires Inv(base, mem, ring, live, units, top) && bp in live
    ensures Fits(ring, k, Run(bp, live[bp]))
  {
    forall i | 0 <= i < |ring| ensures Before(Run(bp, live[bp]), ring[i]) || Before(ring[i], Run(bp, live[bp])) {
      LiveFreeApart(base, mem, ring, live, units, top, bp, i);
    }
    k := FindPlace(base, ring, Run(bp, live[bp]), |ring|);
  }

  lemma FreeLeaves(base: nat, mem: Memory, ring: seq<Run>, live: map<nat, nat>, units: set<nat>, top: nat, bp: nat,
                   k: nat)
    requires Inv(base, mem, ring, live, units, top) && bp in live && Fits(ring, k, Run(bp, live[bp]))
    ensures SameOn(LiveSet(live - {bp}), mem, Joined(mem, ring, k, Run(bp, live[bp])).0)
  {
    LiveSpansApart(base, mem, live, bp);
    LiveSetRemove(live, bp);
    RingNotLive(base, mem, ring, live, units, top, k);
    assert bp in Span(Run(bp, live[bp]));
    hide Joined;
    forall u | u in LiveSet(live - {bp})
      ensures var m := Joined(mem, ring, k, Run(bp, live[bp])).0;
        (u in mem <==> u in m) && (u in mem ==> m[u] == mem[u])
    {
      JoinedFrame(mem, ring, k, Run(bp, live[bp]), u);
    }
  }

  lemma RingStep(base: nat, mem: Memory, ring: seq<Run>, live: map<nat, nat>, units: set<nat>, top: nat, j: nat)
    requires Inv(base, mem, ring, live, units, top) && j < |ring|
    ensures ring[j].addr in mem && mem[ring[j].addr] == Header(NextAddr(ring, j), ring[j].size)
    ensures NextAddr(ring, j) in mem && base <= ring[j].addr && (j > 0 ==> ring[j].size > 0)
  {
    if j > 0 { InOrder(base, ring, 0, -1, 0, j); }
  }

  lemma StopsAt(base: nat, mem: Memory, ring: seq<Run>, live: map<nat, nat>, units: set<nat>, top: nat, k: nat, b: Run,
                j: nat)
    requires Inv(base, mem, ring, live, units, top) && Fits(ring, k, b) && j < |ring| && base < b.addr
    ensures Stops(ring[j].addr, NextAddr(ring, j), b.addr) <==> j == k
  {
    StopsOnlyThere(base, ring, k, b, j);
  }

  /** What free needs to know of a live block. */
  lemma LiveBlock(base: nat, mem: Memory, ring: seq<Run>, live: map<nat, nat>, units: set<nat>, top: nat, bp: nat)
    requires Inv(base, mem, ring, live, units, top) && bp in live
    ensures bp in mem && mem[bp].size == live[bp] && base < bp && |ring| > 0
  {}

  /** The whole of free after its search has found place k. */
  lemma FreeDone(base: nat, mem: Memory, ring: seq<Run>, live: map<nat, nat>, units: set<nat>, top: nat,
                 bp: nat, k: nat, next: nat, m1: Memory, m2: Memory)
    requires Inv(base, mem, ring, live, units, top) && bp in live && Fits(ring, k, Run(bp, live[bp]))
    requires next == NextAddr(ring, k) && next in mem
    requires var n := live[bp];
      m1 == if bp + n == next then mem[bp := Header(mem[next].ptr, n + mem[next].size)] else mem[bp := Header(next, n)]
    requires var p := ring[k].addr;
      m2 == if p + ring[k].size == bp
            then m1[p := Header(m1[bp].ptr, ring[k].size + m1[bp].size)]
            else m1[p := Header(bp, ring[k].size)]
    ensures var ring' := Joined(mem, ring, k, Run(bp, live[bp])).1;
      && Inv(base, m2, ring', live - {bp}, units, top) && HasFit(ring', live[bp])
      && OnRing(ring', ring[k].addr) && SameOn(LiveSet(live - {bp}), mem, m2)
  {
    hide Loose, FreeSet, LiveSet, Span, NextAddr, Shape, Joined;
    var b := Run(bp, live[bp]);
    JoinedCode(base, mem, ring, k, b, next, m1, m2);
    FreeKeeps(base, mem, ring, live, units, top, bp, k);
    FreeLeaves(base, mem, ring, live, units, top, bp, k);
    JoinedFit(ring, k, b, mem);
    JoinedOk(base, mem, ring, k, b);
  }

  // ----- Walking the ring

  function Next(ring: seq<Run>, j: nat): nat
    requires j < |ring|
  {
    if j + 1 < |ring| then j + 1 else 0
  }

  /** Going round from f, index t comes after f and no later than j. */
  predicate Between(f: nat, j: nat, t: nat) { if f <= j then f < t <= j else f < t || t <= j }

  ghost predicate Passed(ring: seq<Run>, f: nat, j: nat, n: nat) {
    forall t :: 0 <= t < |ring| && Between(f, j, t) ==> ring[t].size < n
  }

  /** Block i is the first from address a on that holds n units. */
  ghost predicate FirstFit(ring: seq<Run>, a: nat, i: nat, n: nat) {
    && 0 < i < |ring| && ring[i].size >= n
    && exists f: nat :: f < |ring| && ring[f].addr == a && Passed(ring, f, i - 1, n)
  }

  lemma PassOne(ring: seq<Run>, f: nat, j: nat, n: nat)
    requires f < |ring| && j < |ring| && Passed(ring, f, j, n) && ring[Next(ring, j)].size < n
    ensures Next(ring, j) != f ==> Passed(ring, f, Next(ring, j), n)
    ensures Next(ring, j) == f ==> !HasFit(ring, n)
  {}

  lemma Differ(base: nat, mem: Memory, ring: seq<Run>, live: map<nat, nat>, units: set<nat>, top: nat, i: nat, j: nat)
    requires Inv(base, mem, ring, live, units, top) && i < |ring| && j < |ring| && ring[i].addr == ring[j].addr
    ensures i == j
  {
    if i < j { InOrder(base, ring, 0, -1, i, j); } else if j < i { InOrder(base, ring, 0, -1, j, i); }
  }

  lemma BaseIsEmpty(base: nat, mem: Memory, ring: seq<Run>, live: map<nat, nat>, units: set<nat>, top: nat)
    requires Inv(base, mem, ring, live, units, top)
    ensures |ring| > 0 && ring[0].size == 0
  {}

  lemma EmptyHeap(base: nat, mem: Memory, top: nat)
    requires base < top && base in mem && mem[base] == Header(base, 0)
    ensures Inv(base, mem, [Run(base, 0)], map[], {}, top)
  {
    OneSet(Run(base, 0));
    assert LiveSet(map[]) == {};
  }

  lemma GrowIsNew(base: nat, mem: Memory, ring: seq<Run>, live: map<nat, nat>, units: set<nat>, top: nat, a: nat,
                  h: Header)
    requires Inv(base, mem, ring, live, units, top) && top <= a
    ensures a !in live && SameOn(LiveSet(live), mem, mem[a := h])
  {
    if a in live { LiveBelow(base, mem, ring, live, units, top, a); }
  }

  lemma SameTrans(s: set<nat>, m0: Memory, m1: Memory, m2: Memory)
    requires SameOn(s, m0, m1) && SameOn(s, m1, m2)
    ensures SameOn(s, m0, m2)
  {}

  /** The allocator's variables at one moment. */
  datatype Snap = Snap(mem: Memory, freep: nat, ring: seq<Run>, live: map<nat, nat>, units: set<nat>)

  /** What malloc does for n units. It returns 0 only if no block was large enough and sbrk
      failed, and then changes nothing. Otherwise it returns a new live block, the end of the
      first fit from freep on if there was one, and sbrk is asked only if there was none;
      then it is the end of the new memory. freep is left at the free block before the one used. */
  ghost predicate Allocated(s: Snap, t: Snap, n: nat, answer: Option<nat>, r: nat) {
    && (r == 0 <==> answer.None? && !HasFit(s.ring, n))
    && (r == 0 ==> t.live == s.live && t.units == s.units && t.ring == s.ring && (s.freep != 0 ==> t.freep == s.freep))
    && (r != 0 ==> r - 1 !in s.live && t.live == s.live[r - 1 := n])
    && (HasFit(s.ring, n) ==> t.units == s.units && TakenFirst(s, n, t.freep, r))
    && (answer.Some? && !HasFit(s.ring, n) ==>
          var b := Run(answer.value, Max(n, 4096));
          t.units == s.units + Span(b) && TakenLast(s.ring, b, n, t.freep, r))
    && SameOn(LiveSet(s.live), s.mem, t.mem)
  }

  ghost predicate TakenFirst(s: Snap, n: nat, rover: nat, r: nat) {
    exists i: nat ::
      FirstFit(s.ring, s.freep, i, n) && r - 1 == s.ring[i].addr + s.ring[i].size - n && rover == s.ring[i - 1].addr
  }

  /** The ring with a block added that lies above all of it. */
  function Grown(ring: seq<Run>, b: Run): seq<Run>
    requires |ring| > 0
  {
    var last := ring[|ring| - 1];
    if Touch(last, b) then ring[|ring| - 1 := Run(last.addr, last.size + b.size)] else ring + [b]
  }

  ghost predicate TakenLast(ring: seq<Run>, b: Run, n: nat, rover: nat, r: nat) {
    && |ring| > 0 && |Grown(ring, b)| > 1 && rover == Grown(ring, b)[|Grown(ring, b)| - 2].addr
    && r - 1 == b.addr + b.size - n
  }

  /** What free does to the ring: the block is filed after ring[k] and merged with what it touches,
      and freep is ring[k]. */
  ghost predicate Filed(s: Snap, t: Snap, b: Run) {
    exists k: nat :: Fits(s.ring, k, b) && t.freep == s.ring[k].addr && t.ring == Joined(s.mem, s.ring, k, b).1
  }

  /** A block above the whole ring is filed at its end. */
  lemma FiledLast(s: Snap, t: Snap, b: Run)
    requires Filed(s, t, b)
    requires forall i :: 0 <= i < |s.ring| ==> s.ring[i].addr < b.addr
    ensures |s.ring| > 0 && t.ring == Grown(s.ring, b) && t.freep == s.ring[|s.ring| - 1].addr
  {
    var k: nat :| Fits(s.ring, k, b) && t.freep == s.ring[k].addr && t.ring == Joined(s.mem, s.ring, k, b).1;
    assert k == |s.ring| - 1;
    hide Joined, Grown, Fits;
    JoinedLast(s.mem, s.ring, b);
  }

  lemma JoinedLast(mem: Memory, ring: seq<Run>, b: Run)
    requires |ring| > 0
    ensures Joined(mem, ring, |ring| - 1, b).1 == Grown(ring, b)
  {
    hide NextAddr;
    assert InsertAt(ring, |ring| - 1, b) == ring + [b];
  }

  /** With nothing large enough before, the first fit is the end of what was added. */
  lemma FitIsLast(ring: seq<Run>, b: Run, a: nat, i: nat, n: nat)
    requires |ring| > 0 && !HasFit(ring, n) && FirstFit(Grown(ring, b), a, i, n)
    ensures i == |Grown(ring, b)| - 1 && Grown(ring, b)[i].addr + Grown(ring, b)[i].size == b.addr + b.size
  {
    var g := Grown(ring, b);
    assert forall t :: 0 <= t < |g| - 1 ==> g[t] == ring[t];
  }

  class Heap {
    const base: nat
    var mem: Memory
    /** 0 until the first malloc. */
    var freep: nat
    ghost var ring: seq<Run>
    ghost var live: map<nat, nat>
    ghost var units: set<nat>
    ghost var top: nat

    ghost predicate Valid() reads this {
      && 0 < base < top
      && (freep == 0 ==> ring == [Run(base, 0)] && live == map[] && units == {})
      && (freep != 0 ==> Inv(base, mem, ring, live, units, top) && OnRing(ring, freep))
    }

    ghost function Now(): Snap reads this { Snap(mem, freep, ring, live, units) }

    constructor (base: nat)
      requires base > 0
      ensures Valid() && this.base == base && live == map[] && units == {} && top == base + 1
    {
      this.base := base;
      mem, freep := map[], 0;
      ring, live, units, top := [Run(base, 0)], map[], {}, base + 1;
    }

    /** The search loop of free. */
    method FindSpot(bp: nat) returns (p: nat, ghost k: nat)
      requires Valid() && bp in live
      ensures Fits(ring, k, Run(bp, live[bp])) && ring[k].addr == p
      ensures p in mem && Stops(p, mem[p].ptr, bp)
    {
      hide Inv;
      ghost var b := Run(bp, live[bp]);
      LiveBlock(base, mem, ring, live, units, top, bp);
      k := PlaceOf(base, mem, ring, live, units, top, bp);
      p := freep;
      ghost var j: nat :| j < |ring| && ring[j].addr == p;
      RingStep(base, mem, ring, live, units, top, j);
      StopsAt(base, mem, ring, live, units, top, k, b, j);
      hide Fits;
      while !(bp > p && bp < mem[p].ptr)
        invariant j < |ring| && ring[j].addr == p && p in mem
        invariant mem[p].ptr == NextAddr(ring, j) && NextAddr(ring, j) in mem
        invariant Stops(p, mem[p].ptr, bp) <==> j == k
        decreases if j <= k then k - j else |ring| - j + k
      {
        if p >= mem[p].ptr && (bp > p || bp < mem[p].ptr) { break; }
        p := mem[p].ptr;
        j := if j + 1 < |ring| then j + 1 else 0;
        RingStep(base, mem, ring, live, units, top, j);
        StopsAt(base, mem, ring, live, units, top, k, b, j);
      }
    }

    /** free: afterwards the block is on the list, merged with whatever it touches. */
    method Free(ap: nat)
      requires Valid() && ap >= 1 && ap - 1 in live
      modifies this
      ensures Valid() && freep != 0 && units == old(units) && top == old(top) && live == old(live) - {ap - 1}
      ensures HasFit(ring, old(live)[ap - 1]) && Filed(old(Now()), Now(), Run(ap - 1, old(live)[ap - 1]))
      ensures SameOn(LiveSet(live), old(mem), mem)
    {
      hide Inv, LiveSet, SameOn, HasFit, NextAddr, Joined;
      var bp := ap - 1;
      LiveBlock(base, mem, ring, live, units, top, bp);
      var p;
      ghost var k;
      p, k := FindSpot(bp);
      RingStep(base, mem, ring, live, units, top, k);
      ghost var next := mem[p].ptr;
      if bp + mem[bp].size == mem[p].ptr {
        mem := mem[bp := Header(mem[mem[p].ptr].ptr, mem[bp].size + mem[mem[p].ptr].size)];
      } else {
        mem := mem[bp := mem[bp].(ptr := mem[p].ptr)];
      }
      ghost var m1 := mem;
      if p + mem[p].size == bp {
        mem := mem[p := Header(mem[bp].ptr, mem[p].size + mem[bp].size)];
      } else {
        mem := mem[p := mem[p].(ptr := bp)];
      }
      freep := p;
      FreeDone(base, old(mem), ring, live, units, top, bp, k, next, m1, mem);
      ring := Joined(old(mem), ring, k, Run(bp, live[bp])).1;
      live := live - {bp};
      assert Filed(old(Now()), Now(), Run(bp, old(live)[bp]));
    }

    /** morecore: the units sbrk gave, at least 4096 of them, end up free. */
    method Morecore(nu: nat, answer: Option<nat>) returns (r: nat)
      requires Valid() && freep != 0 && nu > 0 && (answer.Some? ==> top <= answer.value)
      modifies this
      ensures Valid() && freep != 0 && live == old(live) && SameOn(LiveSet(live), old(mem), mem)
      ensures answer.None? ==>
        r == 0 && units == old(units) && top == old(top) && ring == old(ring) && freep == old(freep)
      ensures answer.Some? ==>
        && r == freep && HasFit(ring, nu) && |old(ring)| > 0 && r == old(ring)[|old(ring)| - 1].addr
        && ring == Grown(old(ring), Run(answer.value, Max(nu, 4096)))
        && units == old(units) + Span(Run(answer.value, Max(nu, 4096))) && top == answer.value + Max(nu, 4096)
    {
      hide Inv, LiveSet, SameOn, Span;
      var n := if nu < 4096 then 4096 else nu;
      if answer.None? { assert SameOn(LiveSet(live), mem, mem) by { Reflexive(LiveSet(live), mem); } return 0; }
      var hp := answer.value;
      var junk := if hp in mem then mem[hp].ptr else 0;
      GrowKeeps(base, mem, ring, live, units, top, hp, n, junk);
      GrowIsNew(base, mem, ring, live, units, top, hp, Header(junk, n));
      mem := mem[hp := Header(junk, n)];
      live, units, top := live[hp := n], units + Span(Run(hp, n)), hp + n;
      ghost var m1, s1 := mem, Now();
      RingAllBelow(base, old(mem), ring, old(live), old(units), old(top));
      Free(hp + 1);
      assert live == old(live);
      FiledLast(s1, Now(), Run(hp, n));
      SameTrans(LiveSet(live), old(mem), m1, mem);
      r := freep;
    }

    /** The block after prevp gives up nunits units, from its end when it has more. */
    method Take(prevp: nat, p: nat, nunits: nat, ghost j: nat) returns (r: nat)
      requires Valid() && freep != 0 && nunits > 0
      requires j + 1 < |ring| && ring[j].addr == prevp && ring[j + 1].addr == p && ring[j + 1].size >= nunits
      modifies this
      ensures Valid() && freep != 0 && units == old(units) && top == old(top)
      ensures r == old(ring)[j + 1].addr + old(ring)[j + 1].size - nunits + 1 && freep == prevp
      ensures r - 1 !in old(live) && live == old(live)[r - 1 := nunits]
      ensures SameOn(LiveSet(old(live)), old(mem), mem)
    {
      hide Inv, LiveSet, SameOn, NextAddr, RemoveAt;
      RingStep(base, mem, ring, live, units, top, j);
      RingStep(base, mem, ring, live, units, top, j + 1);
      NextIs(ring, j);
      ghost var i := j + 1;
      var q := p;
      if mem[p].size == nunits {
        mem := mem[prevp := mem[prevp].(ptr := mem[p].ptr)];
        TakeWhole(base, old(mem), ring, live, units, top, i, mem);
        RemoveNode(ring, i, j);
        ring := RemoveAt(ring, i);
      } else {
        mem := mem[p := mem[p].(size := mem[p].size - nunits)];
        q := p + mem[p].size;
        ghost var x := if q in mem then mem[q].ptr else 0;
        mem := mem[q := Header(if q in mem then mem[q].ptr else 0, nunits)];
        TakeTail(base, old(mem), ring, live, units, top, i, nunits, x, mem);
        ring := ring[i := Run(ring[i].addr, ring[i].size - nunits)];
      }
      assert ring[j].addr == prevp;
      live := live[q := nunits];
      freep := prevp;
      r := q + 1;
    }

    /** The loop of malloc from freep once round: the first block that fits, or none does. */
    method Scan(nunits: nat) returns (found: bool, prevp: nat, p: nat, ghost j: nat)
      requires Valid() && freep != 0 && nunits > 0
      ensures found <==> HasFit(ring, nunits)
      ensures found ==> j + 1 < |ring| && ring[j].addr == prevp && ring[j + 1].addr == p && ring[j + 1].size >= nunits
      ensures found ==> FirstFit(ring, freep, j + 1, nunits)
    {
      hide Inv, HasFit, Passed, FirstFit;
      prevp := freep;
      ghost var f: nat :| f < |ring| && ring[f].addr == freep;
      j := f;
      NothingPassed(ring, f, nunits);
      RingStep(base, mem, ring, live, units, top, j);
      p := mem[prevp].ptr;
      while true
        invariant f < |ring| && j < |ring| && ring[f].addr == freep && Passed(ring, f, j, nunits)
        invariant ring[j].addr == prevp && p == NextAddr(ring, j)
        decreases if j < f then f - j else |ring| - j + f
      {
        ghost var i := Next(ring, j);
        RingStep(base, mem, ring, live, units, top, i);
        if mem[p].size >= nunits {
          BaseIsEmpty(base, mem, ring, live, units, top);
          Found(ring, f, j, nunits);
          return true, prevp, p, j;
        }
        PassOne(ring, f, j, nunits);
        if p == freep {
          Differ(base, mem, ring, live, units, top, f, i);
          return false, prevp, p, j;
        }
        j := i;
        prevp := p;
        p := mem[p].ptr;
      }
    }

    /** malloc.  The source's one loop goes on after morecore from the new freep, so it is a scan, and
        at most one more after morecore. */
    method Malloc(nbytes: nat, answer: Option<nat>) returns (r: nat)
      requires Valid() && nbytes < WORD && Units(nbytes) < 0x1000_0000 && (answer.Some? ==> top <= answer.value)
      modifies this
      ensures Valid() && freep != 0 && Allocated(old(Now()), Now(), Units(nbytes), answer, r)
    {
      hide Inv, LiveSet, Span, Units, HasFit, FirstFit, Allocated, Grown;
      var nunits := Units(nbytes);
      UnitsPositive(nbytes);
      if freep == 0 {
        NoFitAtFirst(base, nunits);
        mem, freep := mem[base := Header(base, 0)], base;
        EmptyHeap(base, mem, top);
        NoLive();
        assert ring[0].addr == freep;
      }
      assert SameOn(LiveSet(live), old(mem), mem);
      hide SameOn;
      var found, prevp, p;
      ghost var j;
      found, prevp, p, j := Scan(nunits);
      ghost var m0 := mem;
      if !found {
        var core := Morecore(nunits, answer);
        SameTrans(LiveSet(old(live)), old(mem), m0, mem);
        if core == 0 {
          NoneDone(old(Now()), Now(), nunits);
          return 0;
        }
        found, prevp, p, j := Scan(nunits);
        m0 := mem;
        FitIsLast(old(ring), Run(answer.value, Max(nunits, 4096)), freep, j + 1, nunits);
      }
      r := Take(prevp, p, nunits, j);
      SameTrans(LiveSet(old(live)), old(mem), m0, mem);
      FoundDone(old(Now()), Now(), nunits, answer, r, j + 1);
    }
  }

  lemma Reflexive(s: set<nat>, m: Memory) ensures SameOn(s, m, m) {}

  lemma NoLive() ensures LiveSet(map[]) == {} {}

  lemma UnitsPositive(nbytes: nat) ensures Units(nbytes) > 0 {}

  lemma NextIs(ring: seq<Run>, j: nat)
    requires j + 1 < |ring|
    ensures NextAddr(ring, j) == ring[j + 1].addr
  {}

  lemma FoundDone(s: Snap, t: Snap, n: nat, answer: Option<nat>, r: nat, i: nat)
    requires r > 0 && r - 1 !in s.live && t.live == s.live[r - 1 := n] && SameOn(LiveSet(s.live), s.mem, t.mem)
    requires HasFit(s.ring, n) ==> t.units == s.units && FirstFit(s.ring, s.freep, i, n)
    requires HasFit(s.ring, n) ==> 0 < i < |s.ring| && r - 1 == s.ring[i].addr + s.ring[i].size - n
    requires HasFit(s.ring, n) ==> t.freep == s.ring[i - 1].addr
    requires !HasFit(s.ring, n) ==> answer.Some? && t.units == s.units + Span(Run(answer.value, Max(n, 4096)))
    requires !HasFit(s.ring, n) ==> TakenLast(s.ring, Run(answer.value, Max(n, 4096)), n, t.freep, r)
    ensures Allocated(s, t, n, answer, r)
  {
    hide HasFit, FirstFit, SameOn, Span, LiveSet;
  }

  lemma NoneDone(s: Snap, t: Snap, n: nat)
    requires !HasFit(s.ring, n) && t.live == s.live && t.units == s.units && t.ring == s.ring
    requires s.freep != 0 ==> t.freep == s.freep
    requires SameOn(LiveSet(s.live), s.mem, t.mem)
    ensures Allocated(s, t, n, None, 0)
  {}

  lemma NoFitAtFirst(base: nat, n: nat)
    requires n > 0
    ensures !HasFit([Run(base, 0)], n)
  {}

  lemma NothingPassed(ring: seq<Run>, f: nat, n: nat) ensures Passed(ring, f, f, n) {}

  lemma Found(ring: seq<Run>, f: nat, j: nat, n: nat)
    requires f < |ring| && j < |ring| && Passed(ring, f, j, n) && ring[Next(ring, j)].size >= n > 0 && ring[0].size == 0
    ensures j + 1 < |ring| && FirstFit(ring, ring[f].addr, j + 1, n) && HasFit(ring, n)
  {}
}
