/** The buffer cache of bio.c over the one-request disk of memide.c: a doubly
    linked list in order of last use, reference counts, pinning by B_DIRTY. */
module BufferCache {
  import opened Basics
  import opened Blocks

  // ----- The linked list

  /** next and prev of every buffer; the head comes last. */
  datatype Links = Links(next: seq<nat>, prev: seq<nat>)

  function Ring(head: nat, order: seq<nat>): seq<nat> { [head] + order + [head] }

  /** The buffers at places j and j + 1 point to each other. */
  ghost predicate Linked(l: Links, r: seq<nat>, j: nat) {
    && j + 1 < |r| && r[j] < |l.next| && r[j + 1] < |l.prev|
    && l.next[r[j]] == r[j + 1] && l.prev[r[j + 1]] == r[j]
  }

  /** The links thread exactly the buffers of order, front to back. */
  ghost predicate Listed(head: nat, l: Links, order: seq<nat>) {
    && |l.next| == |l.prev| == head + 1
    && Distinct(order) && (forall i :: 0 <= i < |order| ==> order[i] < head)
    && forall j: nat :: j <= |order| ==> Linked(l, Ring(head, order), j)
  }

  lemma Neighbours(head: nat, l: Links, order: seq<nat>, k: nat)
    requires Listed(head, l, order) && k < |order|
    ensures order[k] < head
    ensures l.prev[order[k]] == (if k == 0 then head else order[k - 1])
    ensures l.next[order[k]] == (if k + 1 == |order| then head else order[k + 1])
    ensures l.next[head] == order[0] && l.prev[head] == order[|order| - 1]
  {
    var r := Ring(head, order);
    assert r[0] == head && r[1] == order[0] && r[k + 1] == order[k];
    assert r[|order|] == order[|order| - 1] && r[|order| + 1] == head;
    assert Linked(l, r, 0) && Linked(l, r, k) && Linked(l, r, k + 1) && Linked(l, r, |order|);
    if k > 0 { assert r[k] == order[k - 1]; }
    if k + 1 < |order| { assert r[k + 2] == order[k + 1]; }
  }

  function Unlinked(l: Links, b: nat): Links
    requires b < |l.next| == |l.prev| && l.next[b] < |l.prev| && l.prev[b] < |l.next|
  {
    Links(l.next[l.prev[b] := l.next[b]], l.prev[l.next[b] := l.prev[b]])
  }

  function Without(order: seq<nat>, k: nat): seq<nat>
    requires k < |order|
  {
    order[..k] + order[k + 1..]
  }

  lemma WithoutRing(head: nat, order: seq<nat>, k: nat, j: nat)
    requires k < |order| && j <= |order|
    ensures |Ring(head, Without(order, k))| == |order| + 1
    ensures Ring(head, Without(order, k))[j] == Ring(head, order)[if j <= k then j else j + 1]
  {}

  lemma RingDistinct(head: nat, order: seq<nat>, i: nat, j: nat)
    requires Distinct(order) && head !in order && i < j <= |order|
    ensures Ring(head, order)[i] != Ring(head, order)[j] && Ring(head, order)[i + 1] != Ring(head, order)[j + 1]
  {}

  lemma UnlinkLink(head: nat, l: Links, order: seq<nat>, k: nat, j: nat)
    requires Listed(head, l, order) && k < |order| && j < |order|
    requires l.next[order[k]] <= head && l.prev[order[k]] <= head
    ensures var (l', r') := (Unlinked(l, order[k]), Ring(head, Without(order, k)));
      |r'| == |order| + 1 && Linked(l', r', j)
  {
    var r := Ring(head, order);
    var i := if j < k then j else j + 1;
    assert Linked(l, r, k) && Linked(l, r, k + 1) && Linked(l, r, i);
    WithoutRing(head, order, k, j);
    WithoutRing(head, order, k, j + 1);
    if i < k { RingDistinct(head, order, i, k); RingDistinct(head, order, i, k + 1); }
    if i > k + 1 { RingDistinct(head, order, k, i); RingDistinct(head, order, k + 1, i); }
    RingDistinct(head, order, k, k + 1);
    hide Ring, Without, Distinct;
  }

  lemma UnlinkKeeps(head: nat, l: Links, order: seq<nat>, k: nat)
    requires Listed(head, l, order) && k < |order|
    ensures l.next[order[k]] <= head && l.prev[order[k]] <= head
    ensures Listed(head, Unlinked(l, order[k]), Without(order, k)) && order[k] !in Without(order, k)
  {
    Neighbours(head, l, order, k);
    hide Ring;
    forall j: nat | j <= |Without(order, k)|
      ensures Linked(Unlinked(l, order[k]), Ring(head, Without(order, k)), j)
    {
      UnlinkLink(head, l, order, k, j);
    }
  }

  function Pushed(l: Links, head: nat, b: nat): Links
    requires b < head && |l.next| == |l.prev| == head + 1 && l.next[head] <= head
  {
    Links(l.next[b := l.next[head]][head := b], l.prev[b := head][l.next[head] := b])
  }

  lemma PushKeeps(head: nat, l: Links, order: seq<nat>, b: nat)
    requires Listed(head, l, order) && b < head && b !in order
    ensures l.next[head] <= head && Listed(head, Pushed(l, head, b), [b] + order)
  {
    var r, order' := Ring(head, order), [b] + order;
    var r' := Ring(head, order');
    assert Linked(l, r, 0);
    var l' := Pushed(l, head, b);
    assert forall j :: 1 <= j < |r'| ==> r'[j] == if j == 1 then b else r[j - 1];
    forall j: nat | j <= |order'| ensures Linked(l', r', j) {
      if j >= 1 { assert Linked(l, r, j - 1); }
    }
  }

  // ----- The buffers and what they say of the disk

  /** held: somebody has the buffer's sleep-lock. */
  datatype Buf = Buf(dev: nat, blockno: nat, valid: bool, dirty: bool, refcnt: nat, held: bool, data: Block)

  /** The one disk memide.c serves. */
  const DISK := 1

  predicate Caches(b: Buf, dev: nat, blockno: nat) { b.dev == dev && b.blockno == blockno }
  predicate Holds(b: Buf, blockno: nat) { Caches(b, DISK, blockno) && b.valid }
  /** bget may recycle it. */
  predicate Eligible(b: Buf) { b.refcnt == 0 && !b.dirty }
  /** Its data is on the disk, unless somebody is at work on it or the log has pinned it. */
  predicate Clean(b: Buf, disk: Disk) {
    b.valid ==> b.dev == DISK && b.blockno < |disk| && (b.dirty || b.data == disk[b.blockno])
  }

  ghost predicate Unique(buf: seq<Buf>) {
    forall i, j :: 0 <= i < j < |buf| && buf[i].dev == buf[j].dev != 0 ==> buf[i].blockno != buf[j].blockno
  }

  ghost predicate Sound(buf: seq<Buf>, disk: Disk) {
    && Unique(buf)
    && forall i :: 0 <= i < |buf| ==>
         && (buf[i].held ==> buf[i].refcnt > 0)
         && (buf[i].dirty ==> buf[i].valid)
         && (buf[i].valid ==> buf[i].dev == DISK && buf[i].blockno < |disk|)
         && (!buf[i].held ==> Clean(buf[i], disk))
  }

  ghost predicate Cached(buf: seq<Buf>, blockno: nat) { exists i: nat :: i < |buf| && Holds(buf[i], blockno) }

  /** What a reader of the block is given: the cached copy if there is one, else the disk. */
  ghost function Seen(buf: seq<Buf>, disk: Disk, blockno: nat): Block
    requires blockno < |disk|
  {
    if Cached(buf, blockno) then
      var i: nat :| i < |buf| && Holds(buf[i], blockno);
      buf[i].data
    else disk[blockno]
  }

  ghost function View(buf: seq<Buf>, disk: Disk): (v: Disk)
    ensures |v| == |disk|
  {
    seq(|disk|, b requires 0 <= b < |disk| => Seen(buf, disk, b))
  }

  lemma SeenHeld(buf: seq<Buf>, disk: Disk, i: nat)
    requires Unique(buf) && i < |buf| && buf[i].valid && buf[i].dev == DISK && buf[i].blockno < |disk|
    ensures Seen(buf, disk, buf[i].blockno) == buf[i].data
  {
    var j: nat :| j < |buf| && Holds(buf[j], buf[i].blockno)
      && Seen(buf, disk, buf[i].blockno) == buf[j].data;
  }

  /** Two caches that agree outside i give every block not cached at i the same content. */
  lemma SeenFrame(buf: seq<Buf>, buf': seq<Buf>, disk: Disk, i: nat, b: nat)
    requires Unique(buf) && Unique(buf') && i < |buf| == |buf'| && b < |disk|
    requires forall j :: 0 <= j < |buf| && j != i ==> buf'[j] == buf[j]
    requires !Holds(buf[i], b) && !Holds(buf'[i], b)
    ensures Seen(buf', disk, b) == Seen(buf, disk, b)
  {
    if Cached(buf, b) {
      var j: nat :| j < |buf| && Holds(buf[j], b);
      SeenHeld(buf, disk, j);
      SeenHeld(buf', disk, j);
    } else {
      assert !Cached(buf', b);
    }
  }

  /** Flags, counts and locks are not part of the content. */
  lemma ViewSameData(buf: seq<Buf>, disk: Disk, i: nat, x: Buf)
    requires Unique(buf) && i < |buf| && Caches(x, buf[i].dev, buf[i].blockno)
    requires x.valid == buf[i].valid && x.data == buf[i].data
    ensures Unique(buf[i := x]) && View(buf[i := x], disk) == View(buf, disk)
  {
    var buf' := buf[i := x];
    forall b | 0 <= b < |disk| ensures Seen(buf', disk, b) == Seen(buf, disk, b) {
      if Holds(x, b) {
        SeenHeld(buf, disk, i);
        SeenHeld(buf', disk, i);
      } else {
        SeenFrame(buf, buf', disk, i, b);
      }
    }
  }

  /** Recycling an eligible buffer loses nothing: its data was on the disk. */
  lemma EvictKeepsView(buf: seq<Buf>, disk: Disk, v: nat, dev: nat, blockno: nat)
    requires Sound(buf, disk) && v < |buf| && Eligible(buf[v])
    requires forall i :: 0 <= i < |buf| ==> !Caches(buf[i], dev, blockno)
    ensures var buf' := buf[v := Buf(dev, blockno, false, false, 1, false, buf[v].data)];
      Sound(buf', disk) && View(buf', disk) == View(buf, disk)
  {
    var buf' := buf[v := Buf(dev, blockno, false, false, 1, false, buf[v].data)];
    assert Unique(buf') by {
      forall i, j | 0 <= i < j < |buf'| && buf'[i].dev == buf'[j].dev != 0 ensures buf'[i].blockno != buf'[j].blockno {
        assert !Caches(buf[i], dev, blockno) && !Caches(buf[j], dev, blockno);
      }
    }
    forall b | 0 <= b < |disk| ensures Seen(buf', disk, b) == Seen(buf, disk, b) {
      if Holds(buf[v], b) {
        SeenHeld(buf, disk, v);
        assert !Cached(buf', b);
      } else {
        SeenFrame(buf, buf', disk, v, b);
      }
    }
  }

  /** A read request fills the buffer with what the block already looked like. */
  lemma FillKeepsView(buf: seq<Buf>, disk: Disk, i: nat)
    requires Unique(buf) && i < |buf| && !buf[i].valid && buf[i].dev == DISK && buf[i].blockno < |disk|
    ensures var buf' := buf[i := buf[i].(valid := true, data := disk[buf[i].blockno])];
      Unique(buf') && View(buf', disk) == View(buf, disk)
  {
    var n := buf[i].blockno;
    var buf' := buf[i := buf[i].(valid := true, data := disk[n])];
    assert Unique(buf');
    forall b | 0 <= b < |disk| ensures Seen(buf', disk, b) == Seen(buf, disk, b) {
      if b == n {
        SeenHeld(buf', disk, i);
        assert !Cached(buf, b);
      } else {
        SeenFrame(buf, buf', disk, i, b);
      }
    }
  }

  /** Changing a buffer's bytes changes that block, for every reader, and no other. */
  lemma ChangeView(buf: seq<Buf>, disk: Disk, i: nat, data: Block)
    requires Unique(buf) && i < |buf| && buf[i].valid && buf[i].dev == DISK && buf[i].blockno < |disk|
    ensures var buf' := buf[i := buf[i].(data := data)];
      Unique(buf') && View(buf', disk) == View(buf, disk)[buf[i].blockno := data]
  {
    var n := buf[i].blockno;
    var buf' := buf[i := buf[i].(data := data)];
    assert Unique(buf');
    forall b | 0 <= b < |disk| ensures Seen(buf', disk, b) == View(buf, disk)[n := data][b] {
      if b == n { SeenHeld(buf', disk, i); } else { SeenFrame(buf, buf', disk, i, b); }
    }
  }

  /** A write request puts on the disk what readers already saw. */
  lemma WriteKeepsView(buf: seq<Buf>, disk: Disk, i: nat)
    requires Unique(buf) && i < |buf| && buf[i].valid && buf[i].dev == DISK && buf[i].blockno < |disk|
    ensures View(buf, disk[buf[i].blockno := buf[i].data]) == View(buf, disk)
  {
    var n := buf[i].blockno;
    var disk' := disk[n := buf[i].data];
    forall b | 0 <= b < |disk| ensures Seen(buf, disk', b) == Seen(buf, disk, b) {
      if Cached(buf, b) {
        var j: nat :| j < |buf| && Holds(buf[j], b);
        SeenHeld(buf, disk, j);
        SeenHeld(buf, disk', j);
      } else {
        assert b != n;
      }
    }
  }

  // ----- The cache

  /** Front to back, every buffer once, the most recently dropped first. */
  ghost predicate Ordered(n: nat, order: seq<nat>, drop: seq<nat>, clock: nat) {
    && |order| == |drop| == n
    && (forall i: nat :: i < n ==> i in order)
    && (forall k :: 0 <= k < n ==> order[k] < n)
    && (forall i :: 0 <= i < n ==> drop[i] < clock)
    && (forall j, k :: 0 <= j < k < n ==> drop[order[j]] > drop[order[k]])
  }

  /** bget found no buffer for the block and took the eligible one dropped longest ago. */
  ghost predicate Oldest(buf: seq<Buf>, drop: seq<nat>, v: nat) {
    && v < |buf| == |drop| && Eligible(buf[v])
    && forall e :: 0 <= e < |buf| && Eligible(buf[e]) ==> drop[v] <= drop[e]
  }

  ghost predicate Missing(buf: seq<Buf>, dev: nat, blockno: nat) {
    forall i :: 0 <= i < |buf| ==> !Caches(buf[i], dev, blockno)
  }

  class Cache {
    const n: nat
    var links: Links
    var buf: seq<Buf>
    var disk: Disk
    ghost var order: seq<nat>
    /** When each buffer last became unused. */
    ghost var drop: seq<nat>
    ghost var clock: nat

    ghost predicate Valid() reads this {
      |buf| == n && Listed(n, links, order) && Ordered(n, order, drop, clock) && Sound(buf, disk)
    }

    /** binit. */
    constructor (n: nat, disk: Disk, blank: Block)
      ensures Valid() && this.n == n && this.disk == disk && View(buf, disk) == disk
      ensures forall i :: 0 <= i < n ==> buf[i].refcnt == 0 && !buf[i].valid
    {
      this.n := n;
      this.disk := disk;
      links := Links(seq(n + 1, i => n), seq(n + 1, i => n));
      buf := seq(n, i => Buf(0, 0, false, false, 0, false, blank));
      order, drop, clock := [], seq(n, i => i), n;
      new;
      var b := 0;
      while b < n
        invariant 0 <= b <= n && Listed(n, links, order) && |order| == b
        invariant forall k :: 0 <= k < b ==> order[k] == b - 1 - k
        invariant buf == seq(n, i => Buf(0, 0, false, false, 0, false, blank)) && drop == seq(n, i => i) && clock == n
        invariant this.disk == disk
      {
        PushKeeps(n, links, order, b);
        links := Pushed(links, n, b);
        order := [b] + order;
        b := b + 1;
      }
      forall i: nat | i < n ensures i in order { assert order[n - 1 - i] == i; }
    }

    /** The first loop of bget. */
    method FindCached(dev: nat, blockno: nat) returns (r: Option<nat>)
      requires Valid()
      ensures r.Some? ==> r.value < n && Caches(buf[r.value], dev, blockno)
      ensures r.None? ==> Missing(buf, dev, blockno)
    {
      Ends(n, links, order);
      var b := links.next[n];
      ghost var k := 0;
      while b != n
        invariant 0 <= k <= n && b == (if k == n then n else order[k])
        invariant forall j :: 0 <= j < k ==> !Caches(buf[order[j]], dev, blockno)
        decreases n - k
      {
        Neighbours(n, links, order, k);
        if Caches(buf[b], dev, blockno) { return Some(b); }
        b := links.next[b];
        k := k + 1;
      }
      forall i: nat | i < n ensures !Caches(buf[i], dev, blockno) { assert i in order; }
      return None;
    }

    /** The second loop of bget, from the back of the list. */
    method FindVictim() returns (r: Option<nat>)
      requires Valid()
      ensures r.Some? ==> r.value < n && Oldest(buf, drop, r.value)
      ensures r.None? ==> forall i :: 0 <= i < n ==> !Eligible(buf[i])
    {
      Ends(n, links, order);
      var b := links.prev[n];
      ghost var k := n;
      while b != n
        invariant 0 <= k <= n && b == (if k == 0 then n else order[k - 1])
        invariant forall j :: k <= j < n ==> !Eligible(buf[order[j]])
        decreases k
      {
        Neighbours(n, links, order, k - 1);
        if Eligible(buf[b]) {
          forall e: nat | e < n && Eligible(buf[e]) ensures drop[b] <= drop[e] { assert e in order; }
          return Some(b);
        }
        b := links.prev[b];
        k := k - 1;
      }
      forall i: nat | i < n ensures !Eligible(buf[i]) { assert i in order; }
      return None;
    }

    /** bget, up to the sleep-lock. None is the panic for want of buffers. */
    method Bget(dev: nat, blockno: nat) returns (r: Option<nat>)
      requires Valid()
      modifies this
      ensures Valid() && links == old(links) && order == old(order) && drop == old(drop) && disk == old(disk)
      ensures View(buf, disk) == old(View(buf, disk))
      ensures !Missing(old(buf), dev, blockno) ==>
        && r.Some? && r.value < n && Caches(old(buf)[r.value], dev, blockno)
        && buf == old(buf)[r.value := old(buf)[r.value].(refcnt := old(buf)[r.value].refcnt + 1)]
      ensures Missing(old(buf), dev, blockno) && r.Some? ==>
        && Oldest(old(buf), drop, r.value)
        && buf == old(buf)[r.value := Buf(dev, blockno, false, false, 1, false, old(buf)[r.value].data)]
      ensures r.None? <==> Missing(old(buf), dev, blockno) && forall i :: 0 <= i < n ==> !Eligible(old(buf)[i])
      ensures r.None? ==> buf == old(buf)
    {
      r := FindCached(dev, blockno);
      if r.Some? {
        var b := r.value;
        ViewSameData(buf, disk, b, buf[b].(refcnt := buf[b].refcnt + 1));
        buf := buf[b := buf[b].(refcnt := buf[b].refcnt + 1)];
        return;
      }
      r := FindVictim();
      if r.Some? {
        var b := r.value;
        EvictKeepsView(buf, disk, b, dev, blockno);
        buf := buf[b := Buf(dev, blockno, false, false, 1, false, buf[b].data)];
      }
    }

    /** acquiresleep has come back. */
    method Acquire(i: nat)
      requires Valid() && i < n && buf[i].refcnt > 0 && !buf[i].held
      modifies this`buf
      ensures Valid() && buf == old(buf)[i := old(buf)[i].(held := true)] && View(buf, disk) == old(View(buf, disk))
    {
      ViewSameData(buf, disk, i, buf[i].(held := true));
      buf := buf[i := buf[i].(held := true)];
    }

    /** iderw: false is one of its panics. */
    method Iderw(i: nat) returns (ok: bool)
      requires Valid() && i < n
      modifies this`buf, this`disk
      ensures Valid() && |disk| == |old(disk)|
      ensures ok <==> var b := old(buf)[i]; b.held && (!b.valid || b.dirty) && b.dev == DISK && b.blockno < |old(disk)|
      ensures !ok ==> buf == old(buf) && disk == old(disk)
      ensures ok && old(buf)[i].dirty ==>
        buf == old(buf)[i := old(buf)[i].(dirty := false)] && disk == old(disk)[old(buf)[i].blockno := buf[i].data]
      ensures ok && !old(buf)[i].dirty ==>
        disk == old(disk) && buf == old(buf)[i := old(buf)[i].(valid := true, data := disk[old(buf)[i].blockno])]
      ensures View(buf, disk) == old(View(buf, disk))
    {
      if !buf[i].held || (buf[i].valid && !buf[i].dirty) || buf[i].dev != DISK || buf[i].blockno >= |disk| {
        return false;
      }
      if buf[i].dirty {
        WriteKeepsView(buf, disk, i);
        disk := disk[buf[i].blockno := buf[i].data];
        ViewSameData(buf, disk, i, buf[i].(dirty := false));
        buf := buf[i := buf[i].(dirty := false)];
        WrittenSound(old(buf), old(disk), i);
      } else {
        FillKeepsView(buf, disk, i);
        buf := buf[i := buf[i].(valid := true, data := disk[buf[i].blockno])];
      }
      ok := true;
    }

    /** The end of bread: the caller now has the block as everybody sees it. */
    method Fill(i: nat) returns (ok: bool)
      requires Valid() && i < n && buf[i].held
      modifies this`buf, this`disk
      ensures Valid() && disk == old(disk) && View(buf, disk) == old(View(buf, disk))
      ensures ok <==> old(buf)[i].valid || (old(buf)[i].dev == DISK && old(buf)[i].blockno < |disk|)
      ensures ok ==> Holds(buf[i], old(buf)[i].blockno) && buf[i].blockno < |disk|
      ensures ok ==> buf[i] == if old(buf)[i].valid then old(buf)[i]
        else old(buf)[i].(valid := true, data := disk[buf[i].blockno])
      ensures ok ==> buf[i].data == View(buf, disk)[buf[i].blockno]
      ensures forall j :: 0 <= j < n && j != i ==> buf[j] == old(buf)[j]
    {
      ok := true;
      if !buf[i].valid { ok := Iderw(i); }
      if ok { SeenHeld(buf, disk, i); }
    }

    /** The holder stores into b->data. */
    method Change(i: nat, data: Block)
      requires Valid() && i < n && buf[i].held && buf[i].valid
      modifies this`buf
      ensures Valid() && buf == old(buf)[i := old(buf)[i].(data := data)]
      ensures buf[i].blockno < |disk| && View(buf, disk) == old(View(buf, disk))[buf[i].blockno := data]
    {
      ChangeView(buf, disk, i, data);
      buf := buf[i := buf[i].(data := data)];
    }

    /** The flag log_write sets, which pins the buffer. */
    method Pin(i: nat)
      requires Valid() && i < n && buf[i].held && buf[i].valid
      modifies this`buf
      ensures Valid() && buf == old(buf)[i := old(buf)[i].(dirty := true)] && View(buf, disk) == old(View(buf, disk))
    {
      ViewSameData(buf, disk, i, buf[i].(dirty := true));
      buf := buf[i := buf[i].(dirty := true)];
    }

    /** bwrite. */
    method Bwrite(i: nat)
      requires Valid() && i < n && buf[i].held && buf[i].valid
      modifies this`buf, this`disk
      ensures Valid() && buf == old(buf)[i := old(buf)[i].(dirty := false)]
      ensures buf[i].blockno < |old(disk)| && disk == old(disk)[buf[i].blockno := buf[i].data]
      ensures View(buf, disk) == old(View(buf, disk))
    {
      ViewSameData(buf, disk, i, buf[i].(dirty := true));
      buf := buf[i := buf[i].(dirty := true)];
      var ok := Iderw(i);
    }

    /** brelse by a holder whose changes, if any, were logged or written. */
    method Brelse(i: nat)
      requires Valid() && i < n && buf[i].held && Clean(buf[i], disk)
      modifies this
      ensures Valid() && disk == old(disk) && View(buf, disk) == old(View(buf, disk))
      ensures buf == old(buf)[i := old(buf)[i].(held := false, refcnt := old(buf)[i].refcnt - 1)]
      ensures buf[i].refcnt > 0 ==> links == old(links) && order == old(order) && drop == old(drop)
      ensures buf[i].refcnt == 0 ==>
        exists k: nat :: k < n && old(order)[k] == i && order == [i] + Without(old(order), k)
      ensures buf[i].refcnt == 0 ==> forall j :: 0 <= j < n && j != i ==> drop[j] == old(drop)[j] && drop[j] < drop[i]
    {
      hide Listed, Ordered, Pushed, Unlinked, Without, View, Sound;
      ReleaseKeeps(buf, disk, i);
      buf := buf[i := buf[i].(held := false, refcnt := buf[i].refcnt - 1)];
      if buf[i].refcnt == 0 {
        ghost var k := PlaceOf(n, order, drop, clock, i);
        DropKeeps(n, links, order, drop, clock, k);
        links := Unlinked(links, i);
        links := Pushed(links, n, i);
        order := [i] + Without(order, k);
        drop := drop[i := clock];
        clock := clock + 1;
      }
    }
  }

  lemma Ends(head: nat, l: Links, order: seq<nat>)
    requires Listed(head, l, order)
    ensures l.next[head] == if order == [] then head else order[0]
    ensures l.prev[head] == if order == [] then head else order[|order| - 1]
  {
    var r := Ring(head, order);
    assert Linked(l, r, 0) && Linked(l, r, |order|);
  }

  lemma WrittenSound(buf: seq<Buf>, disk: Disk, i: nat)
    requires Sound(buf, disk) && i < |buf| && buf[i].valid
    ensures Sound(buf[i := buf[i].(dirty := false)], disk[buf[i].blockno := buf[i].data])
  {
    var buf', disk' := buf[i := buf[i].(dirty := false)], disk[buf[i].blockno := buf[i].data];
    forall j | 0 <= j < |buf'| && !buf'[j].held ensures Clean(buf'[j], disk') {
      assert Clean(buf[j], disk);
      if j < i { assert buf[j].dev == buf[i].dev ==> buf[j].blockno != buf[i].blockno; }
    }
  }

  lemma ReleaseKeeps(buf: seq<Buf>, disk: Disk, i: nat)
    requires Sound(buf, disk) && i < |buf| && buf[i].held && Clean(buf[i], disk)
    ensures buf[i].refcnt > 0
    ensures var buf' := buf[i := buf[i].(held := false, refcnt := buf[i].refcnt - 1)];
      Sound(buf', disk) && View(buf', disk) == View(buf, disk)
  {
    ViewSameData(buf, disk, i, buf[i].(held := false, refcnt := buf[i].refcnt - 1));
  }

  lemma PlaceOf(n: nat, order: seq<nat>, drop: seq<nat>, clock: nat, i: nat) returns (k: nat)
    requires Ordered(n, order, drop, clock) && i < n
    ensures k < n && order[k] == i
  {
    assert i in order;
    k :| k < n && order[k] == i;
  }

  /** The six assignments of brelse move the buffer to the front. */
  lemma DropKeeps(n: nat, l: Links, order: seq<nat>, drop: seq<nat>, clock: nat, k: nat)
    requires Listed(n, l, order) && Ordered(n, order, drop, clock) && k < n
    ensures |order| == n && order[k] < n && |l.next| == |l.prev| == n + 1 && l.next[order[k]] <= n
    ensures l.prev[order[k]] <= n
    ensures var l1 := Unlinked(l, order[k]);
      && |l1.next| == |l1.prev| == n + 1 && l1.next[n] <= n
      && Listed(n, Pushed(l1, n, order[k]), [order[k]] + Without(order, k))
    ensures |order| == |drop| == n && Ordered(n, [order[k]] + Without(order, k), drop[order[k] := clock], clock + 1)
    ensures forall j :: 0 <= j < n ==> drop[j] < clock
  {
    UnlinkKeeps(n, l, order, k);
    MoveToFront(n, order, drop, clock, k);
    hide Ordered, Without;
    PushKeeps(n, Unlinked(l, order[k]), Without(order, k), order[k]);
  }

  lemma MoveToFront(n: nat, order: seq<nat>, drop: seq<nat>, clock: nat, k: nat)
    requires Ordered(n, order, drop, clock) && k < n && Distinct(order)
    ensures Ordered(n, [order[k]] + Without(order, k), drop[order[k] := clock], clock + 1)
  {
    var w := Without(order, k);
    var order' := [order[k]] + w;
    assert forall j :: 0 <= j < |w| ==> w[j] == order[if j < k then j else j + 1];
    forall i: nat | i < n ensures i in order' {
      assert i in order;
      var j :| 0 <= j < n && order[j] == i;
      if j < k { assert w[j] == i; } else if j > k { assert w[j - 1] == i; }
    }
  }
}
