/** The two-level page tables of vm.c over the frame allocator of kalloc.c.
    Frames and virtual pages are numbered; own says who has each frame. */
module PageTable {
  import opened Basics

  const PGSIZE := 4096
  const ENTRIES := 1024
  /** KERNBASE in pages: user pages come before it. */
  const KERN := 0x8_0000
  const NPAGES := 0x10_0000

  datatype Flags = Flags(writable: bool, user: bool, rest: nat)

  /** A 32-bit word read as a directory or table entry. */
  datatype Word = Word(frame: nat, present: bool, flags: Flags)

  const ZERO := Word(0, false, Flags(false, false, 0))
  /** Four bytes of the fill that kfree leaves behind: it looks present. */
  const JUNK := Word(0x1010, true, Flags(false, false, 0x100))
  const WU := Flags(true, true, 0)

  type Page = s: seq<Word> | |s| == ENTRIES witness seq(ENTRIES, _ => ZERO)
  type Memory = map<nat, Page>

  function Filled(w: Word): (p: Page)
    ensures forall x :: 0 <= x < ENTRIES ==> p[x] == w
  {
    seq(ENTRIES, _ => w)
  }

  /** What a frame in use is for. Other: taken from the free list, not (yet) in any directory. */
  datatype Slot = Dir(dir: nat) | Table(dir: nat, index: nat) | Leaf(dir: nat, page: nat) | Other

  ghost predicate IsDir(own: map<nat, Slot>, d: nat) { d in own && own[d] == Dir(d) }

  /** The entry the hardware finds for a page, ZERO when the table is absent. */
  function Pte(mem: Memory, d: nat, p: nat): Word
    requires d in mem && p < NPAGES
  {
    var e := mem[d][p / ENTRIES];
    if e.present && e.frame in mem then mem[e.frame][p % ENTRIES] else ZERO
  }

  /** What the processor lets a program do at a page: user code needs the user bit, and a store the
      write bit, in the directory entry and in the table entry. */
  datatype Rights = Rights(mapped: bool, user: bool, write: bool)

  function Mmu(mem: Memory, d: nat, p: nat): Rights
    requires d in mem && p < NPAGES
  {
    var e := mem[d][p / ENTRIES];
    if e.present && e.frame in mem && mem[e.frame][p % ENTRIES].present then
      var w := mem[e.frame][p % ENTRIES];
      Rights(true, e.flags.user && w.flags.user, e.flags.writable && w.flags.writable)
    else Rights(false, false, false)
  }

  ghost predicate SlotOk(mem: Memory, own: map<nat, Slot>, f: nat)
    requires f in own && own.Keys <= mem.Keys
  {
    match own[f]
    case Dir(d) => d == f
    case Table(d, i) => IsDir(own, d) && i < ENTRIES && mem[d][i].present && mem[d][i].frame == f
    case Leaf(d, p) => IsDir(own, d) && p < KERN && Pte(mem, d, p).present && Pte(mem, d, p).frame == f
    case Other => true
  }

  /** A directory entry names a table of its own and leaves all rights to the table's entries. */
  ghost predicate TableKnown(mem: Memory, own: map<nat, Slot>, d: nat, i: nat)
    requires d in mem && i < ENTRIES
  {
    mem[d][i].present ==>
      && mem[d][i].frame in own && own[mem[d][i].frame] == Table(d, i)
      && mem[d][i].flags.user && mem[d][i].flags.writable
  }

  ghost predicate LeafKnown(mem: Memory, own: map<nat, Slot>, d: nat, p: nat)
    requires d in mem && p < NPAGES
  {
    if Pte(mem, d, p).present then Pte(mem, d, p).frame in own && own[Pte(mem, d, p).frame] == Leaf(d, p)
    else Pte(mem, d, p) == ZERO
  }

  /** Directories, tables and user pages sit in frames of their own, each in one place only. */
  ghost predicate Maps(mem: Memory, own: map<nat, Slot>) {
    && own.Keys <= mem.Keys
    && (forall f :: f in own ==> SlotOk(mem, own, f))
    && (forall d: nat, i: nat :: IsDir(own, d) && i < ENTRIES ==> TableKnown(mem, own, d, i))
    && (forall d: nat, p: nat :: IsDir(own, d) && p < KERN ==> LeafKnown(mem, own, d, p))
  }

  /** Every frame is either on the free list, once, or in use. */
  ghost predicate Pool(mem: Memory, free: seq<nat>, own: map<nat, Slot>) {
    && (forall i, j :: 0 <= i < j < |free| ==> free[i] != free[j])
    && (forall f :: f in mem <==> f in own || f in free)
    && (forall f :: f in own ==> f !in free)
    && 0 !in mem
  }

  /** Entries outside pages [lo, hi) of directory d stay as they were. */
  ghost predicate SamePtes(mem: Memory, mem': Memory, own: map<nat, Slot>, d: nat, lo: nat, hi: nat) {
    forall e: nat, p: nat :: IsDir(own, e) && p < NPAGES && !(e == d && lo <= p < hi) ==> PteKept(mem, mem', e, p)
  }

  ghost predicate PteKept(mem: Memory, mem': Memory, e: nat, p: nat)
    requires p < NPAGES
  {
    e in mem && e in mem' && Pte(mem', e, p) == Pte(mem, e, p)
  }

  lemma Kept(mem: Memory, mem': Memory, own: map<nat, Slot>, d: nat, lo: nat, hi: nat)
    requires SamePtes(mem, mem', own, d, lo, hi)
    requires forall e :: IsDir(own, e) ==> e in mem && e in mem'
    ensures forall e: nat, p: nat :: IsDir(own, e) && p < NPAGES && !(e == d && lo <= p < hi) ==>
      Pte(mem', e, p) == Pte(mem, e, p)
  {
    forall e: nat, p: nat | IsDir(own, e) && p < NPAGES && !(e == d && lo <= p < hi)
      ensures Pte(mem', e, p) == Pte(mem, e, p)
    {
      assert PteKept(mem, mem', e, p);
    }
  }

  lemma SameChain(mem: Memory, m: Memory, m': Memory, own: map<nat, Slot>, o: map<nat, Slot>, d: nat,
                  lo: nat, hi: nat, lo1: nat, hi1: nat, lo2: nat, hi2: nat)
    requires SamePtes(mem, m, own, d, lo1, hi1) && SamePtes(m, m', o, d, lo2, hi2)
    requires lo1 == hi1 || lo <= lo1 <= hi1 <= hi
    requires lo2 == hi2 || lo <= lo2 <= hi2 <= hi
    requires forall e :: IsDir(own, e) ==> IsDir(o, e)
    ensures SamePtes(mem, m', own, d, lo, hi)
  {
    hide Pte;
    forall e: nat, p: nat | IsDir(own, e) && p < NPAGES && !(e == d && lo <= p < hi) ensures PteKept(mem, m', e, p) {
      assert PteKept(mem, m, e, p) && PteKept(m, m', e, p);
    }
  }

  // ----- One store at a time

  lemma PteSame(mem: Memory, mem': Memory, own: map<nat, Slot>, d: nat, p: nat)
    requires Maps(mem, own) && IsDir(own, d) && p < NPAGES && d in mem' && mem'[d] == mem[d]
    requires var e := mem[d][p / ENTRIES];
      e.present ==> e.frame in mem && e.frame in mem' && mem'[e.frame] == mem[e.frame]
    ensures Pte(mem', d, p) == Pte(mem, d, p)
  {
    assert TableKnown(mem, own, d, p / ENTRIES);
  }

  /** Storing in a frame that is neither directory nor table. */
  lemma StoreElsewhere(mem: Memory, own: map<nat, Slot>, f: nat, page: Page, own': map<nat, Slot>, d: nat)
    requires Maps(mem, own) && f in mem && (f in own ==> own[f].Leaf? || own[f].Other?)
    requires own' == own || (f !in own && own' == own[f := Other]) || (f in own && own[f].Other? && own' == own - {f})
    ensures Maps(mem[f := page], own')
    ensures SamePtes(mem, mem[f := page], own, d, 0, 0)
  {
    var mem' := mem[f := page];
    forall e: nat, p: nat | IsDir(own, e) && p < NPAGES
      ensures PteKept(mem, mem', e, p) && Pte(mem', e, p) == Pte(mem, e, p)
    {
      assert TableKnown(mem, own, e, p / ENTRIES);
      PteSame(mem, mem', own, e, p);
    }
    assert forall d :: IsDir(own', d) <==> IsDir(own, d);
    assert forall g :: g in own' ==> g in mem' && (g in own || own'[g].Other?);
    assert own'.Keys <= mem'.Keys;
    forall g | g in own' ensures SlotOk(mem', own', g) {
      if g in own { assert SlotOk(mem, own, g) && own'[g] == own[g]; }
    }
    forall d: nat, i: nat | IsDir(own', d) && i < ENTRIES ensures TableKnown(mem', own', d, i) {
      assert TableKnown(mem, own, d, i);
    }
    forall d: nat, p: nat | IsDir(own', d) && p < KERN ensures LeafKnown(mem', own', d, p) {
      assert LeafKnown(mem, own, d, p);
    }
  }

  /** Linking a cleared frame in as the missing table i of d. */
  lemma LinkTable(mem: Memory, own: map<nat, Slot>, d: nat, i: nat, t: nat)
    requires Maps(mem, own) && IsDir(own, d) && i < ENTRIES && !mem[d][i].present
    requires t in own && own[t].Other? && mem[t] == Filled(ZERO)
    ensures var mem' := mem[d := mem[d][i := Word(t, true, WU)]];
      Maps(mem', own[t := Table(d, i)]) && SamePtes(mem, mem', own, d, 0, 0)
  {
    var mem', own' := mem[d := mem[d][i := Word(t, true, WU)]], own[t := Table(d, i)];
    forall e: nat, p: nat | IsDir(own, e) && p < NPAGES
      ensures PteKept(mem, mem', e, p) && Pte(mem', e, p) == Pte(mem, e, p)
    {
      assert TableKnown(mem, own, e, p / ENTRIES);
      if e != d || p / ENTRIES != i { assert mem'[e][p / ENTRIES] == mem[e][p / ENTRIES]; }
    }
    assert forall e :: IsDir(own', e) <==> IsDir(own, e);
    forall g | g in own' ensures SlotOk(mem', own', g) { assert SlotOk(mem, own, g); }
    forall e: nat, j: nat | IsDir(own', e) && j < ENTRIES ensures TableKnown(mem', own', e, j) {
      assert TableKnown(mem, own, e, j);
    }
    forall e: nat, p: nat | IsDir(own', e) && p < KERN ensures LeafKnown(mem', own', e, p) {
      assert LeafKnown(mem, own, e, p);
    }
  }

  lemma SamePage(p: nat, q: nat)
    requires p / ENTRIES == q / ENTRIES && p % ENTRIES == q % ENTRIES
    ensures p == q
  {}

  /** The entry of page p, stored through its table, is the entry of no other page. */
  lemma StorePte(mem: Memory, own: map<nat, Slot>, d: nat, p: nat, t: nat, w: Word)
    requires Maps(mem, own) && IsDir(own, d) && p < NPAGES && t in own && own[t] == Table(d, p / ENTRIES)
    ensures var mem' := mem[t := mem[t][p % ENTRIES := w]];
      && (forall e :: IsDir(own, e) ==> mem'[e] == mem[e])
      && Pte(mem', d, p) == w && SamePtes(mem, mem', own, d, p, p + 1)
  {
    var mem' := mem[t := mem[t][p % ENTRIES := w]];
    assert SlotOk(mem, own, t);
    assert Pte(mem', d, p) == w;
    forall e: nat, q: nat | IsDir(own, e) && q < NPAGES && !(e == d && p <= q < p + 1)
      ensures PteKept(mem, mem', e, q)
    {
      assert TableKnown(mem, own, e, q / ENTRIES);
      if e == d && q / ENTRIES == p / ENTRIES && q % ENTRIES == p % ENTRIES { SamePage(p, q); }
    }
  }

  /** Mapping page p, for the kernel or onto a frame nobody else has. */
  lemma MapLeaf(mem: Memory, own: map<nat, Slot>, d: nat, p: nat, t: nat, w: Word, own': map<nat, Slot>)
    requires Maps(mem, own) && IsDir(own, d) && p < NPAGES && t in own && own[t] == Table(d, p / ENTRIES)
    requires !Pte(mem, d, p).present && w.present
    requires if p < KERN then w.frame in own && own[w.frame].Other? && own' == own[w.frame := Leaf(d, p)]
             else own' == own
    ensures Maps(mem[t := mem[t][p % ENTRIES := w]], own')
  {
    var mem' := mem[t := mem[t][p % ENTRIES := w]];
    StorePte(mem, own, d, p, t, w);
    Kept(mem, mem', own, d, p, p + 1);
    assert forall e :: IsDir(own', e) <==> IsDir(own, e);
    forall g | g in own' ensures SlotOk(mem', own', g) { assert SlotOk(mem, own, g); }
    forall e: nat, j: nat | IsDir(own', e) && j < ENTRIES ensures TableKnown(mem', own', e, j) {
      assert TableKnown(mem, own, e, j);
    }
    forall e: nat, q: nat | IsDir(own', e) && q < KERN ensures LeafKnown(mem', own', e, q) {
      assert LeafKnown(mem, own, e, q);
    }
  }

  /** Unmapping page p and giving its frame away. */
  lemma ClearLeaf(mem: Memory, own: map<nat, Slot>, d: nat, p: nat, t: nat, f: nat, page: Page)
    requires Maps(mem, own) && IsDir(own, d) && p < KERN && t in own && own[t] == Table(d, p / ENTRIES)
    requires f in own && own[f] == Leaf(d, p)
    ensures var mem' := mem[f := page][t := mem[t][p % ENTRIES := ZERO]];
      Maps(mem', own - {f}) && SamePtes(mem, mem', own, d, p, p + 1) && Pte(mem', d, p) == ZERO
  {
    var mem1 := mem[f := page];
    var mem', own' := mem1[t := mem1[t][p % ENTRIES := ZERO]], own - {f};
    assert SlotOk(mem, own, f);
    StoreElsewhere(mem, own, f, page, own, d);
    StorePte(mem1, own, d, p, t, ZERO);
    SameChain(mem, mem1, mem', own, own, d, p, p + 1, 0, 0, p, p + 1);
    Kept(mem, mem', own, d, p, p + 1);
    assert forall e :: IsDir(own', e) <==> IsDir(own, e);
    assert forall g :: g in own' ==> g in own && own'[g] == own[g];
    forall g | g in own' ensures SlotOk(mem', own', g) { assert SlotOk(mem, own, g); }
    forall e: nat, j: nat | IsDir(own', e) && j < ENTRIES ensures TableKnown(mem', own', e, j) {
      assert TableKnown(mem, own, e, j);
    }
    forall e: nat, q: nat | IsDir(own', e) && q < KERN ensures LeafKnown(mem', own', e, q) {
      assert LeafKnown(mem, own, e, q);
    }
  }

  /** A cleared frame becomes a directory that maps nothing. */
  lemma NewDir(mem: Memory, own: map<nat, Slot>, d: nat)
    requires Maps(mem, own) && d in own && own[d].Other? && mem[d] == Filled(ZERO)
    ensures Maps(mem, own[d := Dir(d)])
    ensures forall p: nat :: p < NPAGES ==> Pte(mem, d, p) == ZERO
  {
    var own' := own[d := Dir(d)];
    forall g | g in own' ensures SlotOk(mem, own', g) { assert SlotOk(mem, own, g); }
    forall e: nat, j: nat | IsDir(own', e) && j < ENTRIES ensures TableKnown(mem, own', e, j) {
      if e != d { assert TableKnown(mem, own, e, j); }
    }
    forall e: nat, q: nat | IsDir(own', e) && q < KERN ensures LeafKnown(mem, own', e, q) {
      if e != d { assert LeafKnown(mem, own, e, q); }
    }
  }

  predicate Within(s: Slot, d: nat) { !s.Other? && s.dir == d }

  /** Directory d no longer counts as one; its frames are merely in use. */
  ghost function Retired(own: map<nat, Slot>, d: nat): map<nat, Slot> {
    map f | f in own :: if Within(own[f], d) then Other else own[f]
  }

  lemma RetireKeeps(mem: Memory, own: map<nat, Slot>, d: nat)
    requires Maps(mem, own)
    ensures Maps(mem, Retired(own, d)) && Retired(own, d).Keys == own.Keys
  {
    var own' := Retired(own, d);
    assert forall e :: IsDir(own', e) <==> IsDir(own, e) && e != d by {
      forall e ensures IsDir(own', e) <==> IsDir(own, e) && e != d {
        if e in own { assert SlotOk(mem, own, e); }
      }
    }
    forall g | g in own' ensures SlotOk(mem, own', g) { assert SlotOk(mem, own, g); }
    forall e: nat, j: nat | IsDir(own', e) && j < ENTRIES ensures TableKnown(mem, own', e, j) {
      assert TableKnown(mem, own, e, j);
    }
    forall e: nat, q: nat | IsDir(own', e) && q < KERN ensures LeafKnown(mem, own', e, q) {
      assert LeafKnown(mem, own, e, q);
    }
  }

  // ----- The free list

  lemma PoolTake(mem: Memory, free: seq<nat>, own: map<nat, Slot>)
    requires Pool(mem, free, own) && free != []
    ensures Pool(mem, free[1..], own[free[0] := Other]) && free[0] in mem && free[0] !in own && free[0] != 0
  {
    assert forall f :: f in free <==> f == free[0] || f in free[1..];
  }

  lemma PoolGive(mem: Memory, free: seq<nat>, own: map<nat, Slot>, f: nat, page: Page)
    requires Pool(mem, free, own) && f in own
    ensures Pool(mem[f := page], [f] + free, own - {f}) && f in mem && f !in free
  {
    assert forall g :: g in [f] + free <==> g == f || g in free;
  }

  lemma PoolKeeps(mem: Memory, free: seq<nat>, own: map<nat, Slot>, mem': Memory, own': map<nat, Slot>)
    requires Pool(mem, free, own) && mem'.Keys == mem.Keys && own'.Keys == own.Keys
    ensures Pool(mem', free, own')
  {
    assert forall f :: f in mem <==> f in mem.Keys;
    assert forall f :: f in mem' <==> f in mem'.Keys;
    assert forall f :: f in own <==> f in own.Keys;
    assert forall f :: f in own' <==> f in own'.Keys;
  }

  /** Only page tables of d were added. */
  ghost predicate Grew(own: map<nat, Slot>, own': map<nat, Slot>, d: nat) {
    && (forall f :: f in own ==> f in own' && own'[f] == own[f])
    && (forall f :: f in own' && f !in own ==> own'[f].Table? && own'[f].dir == d)
  }

  /** Pages of memory, as opposed to directories and tables, hold what they held. */
  ghost predicate SameData(mem: Memory, mem': Memory, own: map<nat, Slot>) {
    forall f :: f in own && f in mem && (own[f].Leaf? || own[f].Other?) ==> f in mem' && mem'[f] == mem[f]
  }

  /** A table was found for page p, or made. */
  ghost predicate Walked(mem: Memory, own: map<nat, Slot>, mem': Memory, own': map<nat, Slot>, d: nat, p: nat,
                         r: Option<nat>) {
    && p < NPAGES && d in mem'
    && (if r.Some? then
          r.value in own' && own'[r.value] == Table(d, p / ENTRIES)
          && mem'[d][p / ENTRIES].present && mem'[d][p / ENTRIES].frame == r.value
        else !mem'[d][p / ENTRIES].present)
    && Grew(own, own', d) && SameData(mem, mem', own) && SamePtes(mem, mem', own, d, 0, 0)
  }

  /** Pages [a, done) of d now name consecutive frames. */
  ghost predicate RunPtes(mem: Memory, own: map<nat, Slot>, mem': Memory, d: nat, a: nat, done: nat, frame: nat,
                          flags: Flags) {
    && a <= done <= NPAGES && d in mem'
    && (forall p: nat :: a <= p < done ==> Pte(mem', d, p) == Word(frame + p - a, true, flags))
    && SamePtes(mem, mem', own, d, a, done) && SameData(mem, mem', own)
  }

  /** The user frames among them have become leaves, and d may have new tables. */
  ghost predicate RunOwn(own: map<nat, Slot>, own': map<nat, Slot>, d: nat, a: nat, done: nat, frame: nat) {
    && a <= done
    && (forall f :: f in own && RunLeaf(a, done, frame, f) ==> own[f].Other?)
    && (forall f :: f in own ==>
          f in own' && own'[f] == if RunLeaf(a, done, frame, f) then Leaf(d, a + f - frame) else own[f])
    && (forall f :: f in own' && f !in own ==> own'[f].Table? && own'[f].dir == d)
  }

  ghost predicate MappedRun(mem: Memory, own: map<nat, Slot>, mem': Memory, own': map<nat, Slot>,
                            d: nat, a: nat, done: nat, frame: nat, flags: Flags) {
    RunPtes(mem, own, mem', d, a, done, frame, flags) && RunOwn(own, own', d, a, done, frame)
  }

  predicate RunLeaf(a: nat, done: nat, frame: nat, f: nat) { frame <= f < frame + done - a && a + f - frame < KERN }

  lemma RunDir(own: map<nat, Slot>, o: map<nat, Slot>, d: nat, a: nat, p: nat, frame: nat, e: nat)
    requires RunOwn(own, o, d, a, p, frame) && IsDir(own, e)
    ensures IsDir(o, e)
  {
    assert !RunLeaf(a, p, frame, e);
  }

  lemma RunGrow(mem: Memory, own: map<nat, Slot>, m: Memory, o: map<nat, Slot>, m': Memory, o': map<nat, Slot>,
                d: nat, a: nat, p: nat, frame: nat, flags: Flags, r: Option<nat>)
    requires Maps(mem, own) && IsDir(own, d) && MappedRun(mem, own, m, o, d, a, p, frame, flags) && Maps(m, o)
    requires Walked(m, o, m', o', d, p, r) && Maps(m', o')
    ensures MappedRun(mem, own, m', o', d, a, p, frame, flags)
  {
    assert IsDir(o, d) && IsDir(o', d);
    hide Pte, Maps;
    forall q: nat | a <= q < p ensures Pte(m', d, q) == Word(frame + q - a, true, flags) {
      assert PteKept(m, m', d, q);
    }
    forall e | IsDir(own, e) ensures IsDir(o, e) { RunDir(own, o, d, a, p, frame, e); }
    SameChain(mem, m, m', own, o, d, a, p, a, p, 0, 0);
  }

  lemma RunStoreOwn(own: map<nat, Slot>, o: map<nat, Slot>, d: nat, a: nat, p: nat, frame: nat, o': map<nat, Slot>)
    requires RunOwn(own, o, d, a, p, frame)
    requires if p < KERN then UserFrame(own, frame + p - a) && o' == o[frame + p - a := Leaf(d, p)] else o' == o
    ensures RunOwn(own, o', d, a, p + 1, frame)
  {
    forall f | f in own
      ensures RunLeaf(a, p + 1, frame, f) <==> RunLeaf(a, p, frame, f) || (p < KERN && f == frame + p - a) {}
  }

  lemma RunStorePtes(mem: Memory, own: map<nat, Slot>, m: Memory, o: map<nat, Slot>, t: nat,
                     d: nat, a: nat, p: nat, frame: nat, flags: Flags, w: Word)
    requires Maps(mem, own) && IsDir(own, d) && MappedRun(mem, own, m, o, d, a, p, frame, flags) && Maps(m, o)
    requires p < NPAGES && t in o && o[t] == Table(d, p / ENTRIES) && w == Word(frame + p - a, true, flags)
    ensures RunPtes(mem, own, m[t := m[t][p % ENTRIES := w]], d, a, p + 1, frame, flags)
  {
    var m' := m[t := m[t][p % ENTRIES := w]];
    assert IsDir(o, d);
    StorePte(m, o, d, p, t, w);
    hide Maps;
    hide Pte;
    forall q: nat | a <= q < p + 1 ensures Pte(m', d, q) == Word(frame + q - a, true, flags) {
      if q < p { assert PteKept(m, m', d, q); }
    }
    forall e | IsDir(own, e) ensures IsDir(o, e) { RunDir(own, o, d, a, p, frame, e); }
    SameChain(mem, m, m', own, o, d, a, p + 1, a, p, p, p + 1);
  }

  /** One turn of mappages once its table is there. */
  lemma MapStep(mem: Memory, own: map<nat, Slot>, m: Memory, o: map<nat, Slot>, free: seq<nat>,
                d: nat, a: nat, p: nat, frame: nat, flags: Flags, t: nat, o': map<nat, Slot>)
    requires Maps(mem, own) && IsDir(own, d) && Maps(m, o) && Pool(m, free, o) && IsDir(o, d)
    requires MappedRun(mem, own, m, o, d, a, p, frame, flags) && Mappable(mem, own, d, a, frame, p)
    requires t in o && o[t] == Table(d, p / ENTRIES)
    requires o' == if p < KERN then o[frame + p - a := Leaf(d, p)] else o
    ensures t in m
    ensures var m' := m[t := m[t][p % ENTRIES := Word(frame + p - a, true, flags)]];
      && Maps(m', o') && Pool(m', free, o') && IsDir(o', d)
      && MappedRun(mem, own, m', o', d, a, p + 1, frame, flags)
  {
    var w := Word(frame + p - a, true, flags);
    hide RunOwn, RunPtes, Pte, SamePtes, Pool;
    NextPage(mem, own, m, o, d, a, p, frame, flags);
    RunStorePtes(mem, own, m, o, t, d, a, p, frame, flags, w);
    RunStoreOwn(own, o, d, a, p, frame, o');
    MapLeaf(m, o, d, p, t, w, o');
    PoolKeeps(m, free, o, m[t := m[t][p % ENTRIES := w]], o');
    hide Maps;
  }

  lemma RunNone(mem: Memory, own: map<nat, Slot>, d: nat, a: nat, frame: nat, flags: Flags)
    requires Maps(mem, own) && IsDir(own, d) && a <= NPAGES
    ensures MappedRun(mem, own, mem, own, d, a, a, frame, flags)
  {}

  // ----- Unmapping

  /** PGROUNDUP as a page number: as many pages as hold sz bytes and no more. */
  function RoundUp(sz: nat): (r: nat)
    ensures sz <= r * 4096 < sz + 4096
  {
    (sz + PGSIZE - 1) / PGSIZE
  }

  predicate LeafIn(s: Slot, d: nat, lo: nat, hi: nat) { s.Leaf? && s.dir == d && lo <= s.page < hi }

  /** The frames still in use once pages [lo, hi) of d are gone. */
  ghost function Unmapped(own: map<nat, Slot>, d: nat, lo: nat, hi: nat): map<nat, Slot> {
    map f | f in own && !LeafIn(own[f], d, lo, hi) :: own[f]
  }

  /** Exactly the frames of pages [lo, hi) were given up, and nothing else changed. */
  ghost predicate Cleared(mem: Memory, own: map<nat, Slot>, mem': Memory, own': map<nat, Slot>, d: nat, lo: nat,
                          hi: nat) {
    && own' == Unmapped(own, d, lo, hi) && hi <= KERN && d in mem && d in mem' && mem'[d] == mem[d]
    && (forall p: nat :: lo <= p < hi ==> !Pte(mem', d, p).present)
    && SamePtes(mem, mem', own, d, lo, hi) && SameData(mem, mem', own')
  }

  lemma UnmappedDirs(own: map<nat, Slot>, d: nat, lo: nat, hi: nat)
    ensures forall e :: IsDir(own, e) <==> IsDir(Unmapped(own, d, lo, hi), e)
  {}

  lemma ClearStep(mem: Memory, own: map<nat, Slot>, m: Memory, o: map<nat, Slot>, free: seq<nat>, d: nat, lo: nat,
                  p: nat, t: nat, f: nat)
    requires Maps(mem, own) && IsDir(own, d) && Maps(m, o) && Pool(m, free, o) && Cleared(mem, own, m, o, d, lo, p)
    requires lo <= p < KERN
    requires t in o && o[t] == Table(d, p / ENTRIES) && m[d][p / ENTRIES].present && m[d][p / ENTRIES].frame == t
    requires m[t][p % ENTRIES].present && m[t][p % ENTRIES].frame == f
    ensures f in o && f in m && f !in free && t != f && f != 0
    ensures var m' := m[f := Filled(JUNK)][t := m[t][p % ENTRIES := ZERO]];
      Maps(m', o - {f}) && Pool(m', [f] + free, o - {f}) && Cleared(mem, own, m', o - {f}, d, lo, p + 1)
  {
    UnmappedDirs(own, d, lo, p);
    assert LeafKnown(m, o, d, p);
    ClearLeaf(m, o, d, p, t, f, Filled(JUNK));
    var m' := m[f := Filled(JUNK)][t := m[t][p % ENTRIES := ZERO]];
    PoolGive(m, free, o, f, Filled(JUNK));
    PoolKeeps(m[f := Filled(JUNK)], [f] + free, o - {f}, m', o - {f});
    assert o - {f} == Unmapped(own, d, lo, p + 1) by { UnmapOne(mem, own, m, o, d, lo, p, f); }
    hide Maps, Pool, Pte;
    SameChain(mem, m, m', own, o, d, lo, p + 1, lo, p, p, p + 1);
    forall q: nat | lo <= q < p + 1 ensures !Pte(m', d, q).present {
      if q < p { assert PteKept(m, m', d, q); }
    }
  }

  lemma UnmapOne(mem: Memory, own: map<nat, Slot>, m: Memory, o: map<nat, Slot>, d: nat, lo: nat, p: nat, f: nat)
    requires Maps(m, o) && o == Unmapped(own, d, lo, p) && f in o && o[f] == Leaf(d, p) && lo <= p
    ensures o - {f} == Unmapped(own, d, lo, p + 1)
  {
    var o' := Unmapped(own, d, lo, p + 1);
    forall g | g in o' ensures g in o - {f} && (o - {f})[g] == o'[g] {}
    forall g | g in o - {f} ensures g in o' {
      assert SlotOk(m, o, g) && SlotOk(m, o, f);
    }
  }

  lemma ClearSkip(mem: Memory, own: map<nat, Slot>, m: Memory, o: map<nat, Slot>, d: nat, lo: nat, p: nat, q: nat)
    requires Maps(m, o) && Maps(mem, own) && IsDir(own, d) && Cleared(mem, own, m, o, d, lo, p) && lo <= p <= q <= KERN
    requires forall x: nat :: p <= x < q ==> !Pte(m, d, x).present
    ensures Cleared(mem, own, m, o, d, lo, q)
  {
    UnmappedDirs(own, d, lo, p);
    assert Unmapped(own, d, lo, q) == o by {
      forall g | g in o ensures g in Unmapped(own, d, lo, q) { assert SlotOk(m, o, g); }
    }
    SameChain(mem, m, m, own, o, d, lo, q, lo, p, 0, 0);
  }

  lemma ClearNone(mem: Memory, own: map<nat, Slot>, d: nat, lo: nat)
    requires Maps(mem, own) && IsDir(own, d) && lo <= KERN
    ensures Cleared(mem, own, mem, own, d, lo, lo)
  {
    assert Unmapped(own, d, lo, lo) == own;
  }

  lemma FoundPte(mem: Memory, own: map<nat, Slot>, d: nat, p: nat, t: nat)
    requires Maps(mem, own) && IsDir(own, d) && p < NPAGES && t in own && own[t] == Table(d, p / ENTRIES)
    ensures t in mem && mem[d][p / ENTRIES].present && mem[d][p / ENTRIES].frame == t
    ensures Pte(mem, d, p) == mem[t][p % ENTRIES]
  {
    assert SlotOk(mem, own, t);
  }

  lemma SkipTable(mem: Memory, own: map<nat, Slot>, m: Memory, o: map<nat, Slot>, d: nat, lo: nat, p: nat, hi: nat)
    requires Maps(m, o) && Maps(mem, own) && IsDir(own, d) && Cleared(mem, own, m, o, d, lo, p) && lo <= p < hi <= KERN
    requires !m[d][p / ENTRIES].present
    ensures var next := (p / ENTRIES + 1) * ENTRIES; Cleared(mem, own, m, o, d, lo, if next < hi then next else hi)
  {
    var next := (p / ENTRIES + 1) * ENTRIES;
    var q := if next < hi then next else hi;
    forall x: nat | p <= x < q ensures !Pte(m, d, x).present { AbsentTable(m, d, p, x); }
    ClearSkip(mem, own, m, o, d, lo, p, q);
  }

  lemma SkipPage(mem: Memory, own: map<nat, Slot>, m: Memory, o: map<nat, Slot>, d: nat, lo: nat, p: nat)
    requires Maps(m, o) && Maps(mem, own) && IsDir(own, d) && Cleared(mem, own, m, o, d, lo, p) && lo <= p < KERN
    requires !Pte(m, d, p).present
    ensures Cleared(mem, own, m, o, d, lo, p + 1)
  {
    ClearSkip(mem, own, m, o, d, lo, p, p + 1);
  }

  lemma ClearedDir(mem: Memory, own: map<nat, Slot>, m: Memory, o: map<nat, Slot>, d: nat, lo: nat, p: nat)
    requires Cleared(mem, own, m, o, d, lo, p) && IsDir(own, d)
    ensures IsDir(o, d)
  {
    UnmappedDirs(own, d, lo, p);
  }

  lemma AbsentTable(mem: Memory, d: nat, p: nat, x: nat)
    requires d in mem && p <= x < NPAGES && x / ENTRIES == p / ENTRIES && !mem[d][p / ENTRIES].present
    ensures !Pte(mem, d, x).present
  {}

  // ----- Growing

  ghost predicate FreshPage(mem: Memory, own: map<nat, Slot>, d: nat, p: nat)
    requires p < NPAGES
  {
    && d in mem && var w := Pte(mem, d, p);
    && w == Word(w.frame, true, WU) && w.frame in own && own[w.frame] == Leaf(d, p)
    && w.frame in mem && mem[w.frame] == Filled(ZERO)
  }

  /** A frame in use that was not before: the spare one, a table of d, or a page among [lo, hi). */
  predicate NewSlot(s: Slot, f: nat, d: nat, lo: nat, hi: nat, spare: nat) {
    (spare != 0 && f == spare && s.Other?) || (s.Table? && s.dir == d) || LeafIn(s, d, lo, hi)
  }

  /** Pages [lo, hi) of d were mapped to zeroed frames of their own, and nothing else changed
      but for new tables; spare, if not 0, was taken from the free list and not used yet. */
  ghost predicate Grown(mem: Memory, own: map<nat, Slot>, mem': Memory, own': map<nat, Slot>, d: nat, lo: nat, hi: nat,
                        spare: nat) {
    && lo <= hi <= KERN
    && (forall p: nat :: lo <= p < hi ==> FreshPage(mem', own', d, p))
    && (forall f :: f in own ==> f in own' && own'[f] == own[f])
    && (forall f :: f in own' && f !in own ==> NewSlot(own'[f], f, d, lo, hi, spare))
    && SamePtes(mem, mem', own, d, lo, hi) && SameData(mem, mem', own)
  }

  lemma GrownNone(mem: Memory, own: map<nat, Slot>, d: nat, lo: nat)
    requires Maps(mem, own) && IsDir(own, d) && lo <= KERN
    ensures Grown(mem, own, mem, own, d, lo, lo, 0)
  {}

  lemma GrownDirs(mem: Memory, own: map<nat, Slot>, m: Memory, o: map<nat, Slot>, d: nat, lo: nat, hi: nat, spare: nat)
    requires Grown(mem, own, m, o, d, lo, hi, spare)
    ensures forall e :: IsDir(own, e) ==> IsDir(o, e)
  {}

  /** kalloc and memset. */
  lemma GrownTake(mem: Memory, own: map<nat, Slot>, m: Memory, o: map<nat, Slot>, d: nat, lo: nat, p: nat, f: nat)
    requires Maps(m, o[f := Other]) && Maps(mem, own) && f !in o && Grown(mem, own, m, o, d, lo, p, 0) && f != 0
    requires IsDir(own, d)
    ensures f !in own
    ensures var m' := m[f := Filled(ZERO)];
      Maps(m', o[f := Other]) && Grown(mem, own, m', o[f := Other], d, lo, p, f) && IsDir(o[f := Other], d)
  {
    var m', o' := m[f := Filled(ZERO)], o[f := Other];
    GrownDirs(mem, own, m, o, d, lo, p, 0);
    StoreElsewhere(m, o', f, Filled(ZERO), o', d);
    SameChain(mem, m, m', own, o', d, lo, p, lo, p, 0, 0);
    hide Maps, Pte;
    forall q: nat | lo <= q < p ensures FreshPage(m', o', d, q) {
      assert FreshPage(m, o, d, q) && PteKept(m, m', d, q);
    }
  }

  /** mappages on one page. */
  lemma GrownMap(mem: Memory, own: map<nat, Slot>, m: Memory, o: map<nat, Slot>, m': Memory, o': map<nat, Slot>,
                 d: nat, lo: nat, p: nat, done: nat, f: nat)
    requires Maps(m', o') && Grown(mem, own, m, o, d, lo, p, f) && IsDir(own, d) && f !in own && f in o && f in m
    requires m[f] == Filled(ZERO) && o[f].Other? && p < KERN
    requires MappedRun(m, o, m', o', d, p, done, f, WU) && done <= p + 1
    ensures p <= done && Grown(mem, own, m', o', d, lo, done, if done == p then f else 0)
    ensures done == p ==> f in o' && o'[f].Other?
  {
    GrownDirs(mem, own, m, o, d, lo, p, f);
    SameChain(mem, m, m', own, o, d, lo, done, lo, p, p, done);
    assert forall g :: g in o && g != f ==> o'[g] == o[g];
    hide Maps, Pte;
    forall q: nat | lo <= q < done ensures FreshPage(m', o', d, q) {
      if q < p { assert FreshPage(m, o, d, q) && PteKept(m, m', d, q); }
    }
  }

  /** deallocuvm undoes it. */
  lemma GrownUndo(mem: Memory, own: map<nat, Slot>, m: Memory, o: map<nat, Slot>, m': Memory, o': map<nat, Slot>,
                  d: nat, lo: nat, p: nat, hi: nat, spare: nat)
    requires Maps(mem, own) && Maps(m', o') && IsDir(own, d) && p <= hi <= KERN
    requires Grown(mem, own, m, o, d, lo, p, spare)
    requires forall q: nat :: lo <= q < hi ==> !Pte(mem, d, q).present
    requires Cleared(m, o, m', o', d, lo, hi)
    ensures Grown(mem, own, m', o', d, lo, lo, spare)
  {
    GrownDirs(mem, own, m, o, d, lo, p, spare);
    UnmappedDirs(o, d, lo, hi);
    forall f | f in own ensures f in o' && o'[f] == own[f] { assert SlotOk(mem, own, f); }
    SameChain(mem, m, m', own, o, d, lo, hi, lo, p, lo, hi);
    forall e: nat, q: nat | IsDir(own, e) && q < NPAGES ensures PteKept(mem, m', e, q) {
      if e == d && lo <= q < hi {
        assert LeafKnown(mem, own, e, q) && LeafKnown(m', o', e, q);
      } else {
        assert PteKept(mem, m', e, q);
      }
    }
  }

  /** kfree of the spare frame. */
  lemma GrownDrop(mem: Memory, own: map<nat, Slot>, m: Memory, o: map<nat, Slot>, m': Memory, d: nat, lo: nat, f: nat)
    requires Grown(mem, own, m, o, d, lo, lo, f) && f in o && f !in own && m' == m[f := Filled(JUNK)] && IsDir(own, d)
    requires SamePtes(m, m', o, d, 0, 0)
    ensures Grown(mem, own, m', o - {f}, d, lo, lo, 0) && IsDir(o - {f}, d)
  {
    GrownDirs(mem, own, m, o, d, lo, lo, f);
    SameChain(mem, m, m', own, o, d, lo, lo, lo, lo, 0, 0);
  }

  // ----- Giving a directory up

  /** Everything directory d had is free again, and nothing else changed. */
  ghost predicate Freed(mem: Memory, own: map<nat, Slot>, mem': Memory, own': map<nat, Slot>, d: nat) {
    && own' == (map f | f in own && !Within(own[f], d) :: own[f])
    && SamePtes(mem, mem', own', d, 0, 0) && SameData(mem, mem', own')
  }

  predicate TableIn(s: Slot, d: nat, i: nat) { s.Table? && s.dir == d && s.index < i }

  /** In use when the first i entries of the retired directory d are done. */
  ghost function Dropped(own: map<nat, Slot>, d: nat, i: nat): map<nat, Slot> {
    map f | f in own && !TableIn(own[f], d, i) :: if Within(own[f], d) then Other else own[f]
  }

  lemma DropSkip(mem: Memory, own: map<nat, Slot>, d: nat, i: nat)
    requires Maps(mem, own) && IsDir(own, d) && i < ENTRIES && !mem[d][i].present
    ensures Dropped(own, d, i + 1) == Dropped(own, d, i)
  {
    forall f | f in own ensures TableIn(own[f], d, i + 1) <==> TableIn(own[f], d, i) { assert SlotOk(mem, own, f); }
  }

  lemma DropTable(mem: Memory, own: map<nat, Slot>, d: nat, i: nat)
    requires Maps(mem, own) && IsDir(own, d) && i < ENTRIES && mem[d][i].present
    ensures var f := mem[d][i].frame;
      && f != d && f in Dropped(own, d, i) && Dropped(own, d, i)[f] == Other
      && Dropped(own, d, i + 1) == Dropped(own, d, i) - {f}
  {
    var t := mem[d][i].frame;
    assert TableKnown(mem, own, d, i);
    forall f | f in own ensures TableIn(own[f], d, i + 1) <==> TableIn(own[f], d, i) || f == t {
      assert SlotOk(mem, own, f);
    }
  }

  /** No user page of d is left: retire the directory. */
  lemma DropStart(mem: Memory, own: map<nat, Slot>, m: Memory, o: map<nat, Slot>, d: nat)
    requires Maps(mem, own) && IsDir(own, d) && Maps(m, o) && Cleared(mem, own, m, o, d, 0, KERN)
    ensures Dropped(o, d, 0) == Retired(o, d) && Dropped(o, d, 0).Keys == o.Keys && Maps(m, Dropped(o, d, 0))
  {
    RetireKeeps(m, o, d);
  }

  lemma DropEnd(mem: Memory, own: map<nat, Slot>, m: Memory, o: map<nat, Slot>, m': Memory, o': map<nat, Slot>, d: nat)
    requires Maps(mem, own) && IsDir(own, d) && Maps(m, o) && Cleared(mem, own, m, o, d, 0, KERN)
    requires o' == Dropped(o, d, ENTRIES) - {d}
    requires SamePtes(m, m', Dropped(o, d, 0), d, 0, 0) && SameData(m, m', o')
    ensures Freed(mem, own, m', o', d)
  {
    DropRest(mem, own, o, d);
    hide Maps, Pte, Dropped, Unmapped;
    forall e: nat, q: nat | IsDir(o', e) && q < NPAGES ensures PteKept(mem, m', e, q) {
      assert IsDir(own, e) && e != d;
      DropOthers(own, o, d, e);
      assert PteKept(mem, m, e, q) && PteKept(m, m', e, q);
    }
    assert SameData(mem, m', o');
  }

  /** What is left when d, its tables and its pages are gone. */
  lemma DropRest(mem: Memory, own: map<nat, Slot>, o: map<nat, Slot>, d: nat)
    requires Maps(mem, own) && IsDir(own, d) && o == Unmapped(own, d, 0, KERN)
    ensures Dropped(o, d, ENTRIES) - {d} == (map f | f in own && !Within(own[f], d) :: own[f])
  {
    hide Pte, TableKnown, LeafKnown;
    var o' := Dropped(o, d, ENTRIES) - {d};
    forall f | f in own ensures f in o' <==> !Within(own[f], d) { assert SlotOk(mem, own, f); }
  }

  lemma DropOthers(own: map<nat, Slot>, o: map<nat, Slot>, d: nat, e: nat)
    requires o == Unmapped(own, d, 0, KERN) && IsDir(own, e) && e != d
    ensures IsDir(Dropped(o, d, 0), e)
  {}

  lemma ReleaseSame(own: map<nat, Slot>, d: nat, i: nat)
    ensures forall e :: IsDir(Dropped(own, d, 0), e) ==> IsDir(Dropped(own, d, i), e)
  {}

  // ----- Rights

  /** In a directory of the kernel's making the table entry alone decides. */
  lemma MmuIs(mem: Memory, own: map<nat, Slot>, d: nat, p: nat)
    requires Maps(mem, own) && IsDir(own, d) && p < NPAGES
    ensures d in mem
    ensures var w := Pte(mem, d, p); Mmu(mem, d, p) == if w.present then Rights(true, w.flags.user, w.flags.writable)
      else Rights(false, false, false)
  {
    assert TableKnown(mem, own, d, p / ENTRIES);
  }

  /** The user may read and write page p. */
  predicate UserPage(mem: Memory, d: nat, p: nat) {
    d in mem && p < NPAGES && Mmu(mem, d, p) == Rights(true, true, true)
  }

  ghost predicate UserPages(mem: Memory, d: nat, lo: nat, hi: nat) {
    forall p: nat :: lo <= p < hi ==> UserPage(mem, d, p)
  }

  lemma GrownRights(mem: Memory, own: map<nat, Slot>, m: Memory, o: map<nat, Slot>, d: nat, lo: nat, hi: nat)
    requires Maps(m, o) && IsDir(o, d) && Grown(mem, own, m, o, d, lo, hi, 0)
    ensures UserPages(m, d, lo, hi)
  {
    hide Maps, Pte, Mmu;
    forall p: nat | lo <= p < hi ensures UserPage(m, d, p) {
      assert FreshPage(m, o, d, p);
      MmuIs(m, o, d, p);
    }
  }

  /** Pages [0, n) of c have the rights they had in d. */
  ghost predicate SameRights(mem: Memory, d: nat, m: Memory, c: nat, n: nat) {
    forall p: nat :: p < n ==> SameRight(mem, d, m, c, p)
  }

  predicate SameRight(mem: Memory, d: nat, m: Memory, c: nat, p: nat) {
    d in mem && c in m && p < NPAGES && Mmu(m, c, p) == Mmu(mem, d, p)
  }

  lemma CopiedRights(mem: Memory, own: map<nat, Slot>, m: Memory, o: map<nat, Slot>, d: nat, c: nat,
                     kmap: seq<Kmap>, n: nat)
    requires Maps(mem, own) && Maps(m, o) && IsDir(own, d) && Copying(mem, own, m, o, d, c, kmap, n, 0)
    requires forall p: nat :: p < n ==> Taken(mem, d, p)
    ensures SameRights(mem, d, m, c, n)
  {
    hide Maps, Pte, Mmu;
    forall p: nat | p < n ensures SameRight(mem, d, m, c, p) {
      assert Taken(mem, d, p) && CopyPage(m, o, d, c, p) && PteKept(mem, m, d, p);
      MmuIs(mem, own, d, p);
      MmuIs(m, o, c, p);
    }
  }

  /** No page is open to the user. */
  ghost predicate Private(mem: Memory, d: nat) {
    d in mem && forall p: nat :: p < NPAGES ==> !Mmu(mem, d, p).user
  }

  lemma KernelPrivate(m: Memory, o: map<nat, Slot>, d: nat, kmap: seq<Kmap>)
    requires Maps(m, o) && IsDir(o, d) && KmapOk(kmap) && KernelMapped(m, d, kmap, |kmap|)
    requires forall i :: 0 <= i < |kmap| ==> !kmap[i].flags.user
    ensures Private(m, d)
  {
    hide Maps, Pte, Mmu;
    forall p: nat | p < NPAGES ensures !Mmu(m, d, p).user {
      MmuIs(m, o, d, p);
      if i :| 0 <= i < |kmap| && First(kmap[i]) <= p <= Last(kmap[i]) { assert KernelPage(m, d, kmap[i], p); }
    }
  }

  // ----- The kernel's own mappings

  /** kmap, with the address of the linker's symbol data, which starts a page. */
  function KernelTable(data: nat): seq<Kmap>
    requires 0x8010_0000 < data < 0x8E00_0000
  {
    [Kmap(0x8000_0000, 0x10_0000, 0, Flags(true, false, 0)),
     Kmap(0x8010_0000, data - 0x8010_0000, 0x100, Flags(false, false, 0)),
     Kmap(data, 0x8E00_0000 - data, data / PGSIZE - 0x8_0000, Flags(true, false, 0)),
     Kmap(0xFE00_0000, 0x200_0000, 0xF_E000, Flags(true, false, 0))]
  }

  lemma KernelTableOk(data: nat)
    requires 0x8010_0000 < data < 0x8E00_0000 && data % PGSIZE == 0
    ensures KmapOk(KernelTable(data)) && forall i :: 0 <= i < 4 ==> !KernelTable(data)[i].flags.user
  {}

  /** A new directory: physical memory below PHYSTOP shows from KERNBASE on, all but the kernel's text
      writable, devices show at their own addresses, and nothing else is mapped. */
  lemma KernelView(m: Memory, o: map<nat, Slot>, d: nat, data: nat, p: nat)
    requires 0x8010_0000 < data < 0x8E00_0000 && data % PGSIZE == 0 && KmapOk(KernelTable(data)) && p < NPAGES
    requires Maps(m, o) && IsDir(o, d) && KernelMapped(m, d, KernelTable(data), 4)
    ensures d in m
    ensures 0x8_0000 <= p < 0x8_E000 ==>
      && Mmu(m, d, p) == Rights(true, false, !(0x8_0100 <= p < data / PGSIZE))
      && Pte(m, d, p).frame == p - 0x8_0000
    ensures p >= 0xF_E000 ==> Mmu(m, d, p) == Rights(true, false, true) && Pte(m, d, p).frame == p
    ensures p < 0x8_0000 || 0x8_E000 <= p < 0xF_E000 ==> !Mmu(m, d, p).mapped
  {
    hide Maps, Pte, Mmu;
    var kmap := KernelTable(data);
    MmuIs(m, o, d, p);
    assert First(kmap[0]) == 0x8_0000 && Last(kmap[0]) == 0x8_00FF;
    assert First(kmap[1]) == 0x8_0100 && Last(kmap[1]) == data / PGSIZE - 1;
    assert First(kmap[2]) == data / PGSIZE && Last(kmap[2]) == 0x8_DFFF;
    assert First(kmap[3]) == 0xF_E000 && Last(kmap[3]) == 0xF_FFFF;
    forall i | 0 <= i < 4 && First(kmap[i]) <= p <= Last(kmap[i]) ensures KernelPage(m, d, kmap[i], p) {}
  }

  // ----- New address spaces

  /** One line of kmap: size bytes from virt on, mapped to frames from frame on. */
  datatype Kmap = Kmap(virt: nat, size: nat, frame: nat, flags: Flags)

  function First(k: Kmap): nat { k.virt / PGSIZE }
  function Last(k: Kmap): nat
    requires k.size > 0
  {
    (k.virt + k.size - 1) / PGSIZE
  }

  /** Kernel addresses only, no page twice. */
  ghost predicate KmapOk(kmap: seq<Kmap>) {
    && (forall i :: 0 <= i < |kmap| ==>
          kmap[i].size > 0 && KERN * PGSIZE <= kmap[i].virt && kmap[i].virt + kmap[i].size <= NPAGES * PGSIZE)
    && (forall i, j :: 0 <= i < j < |kmap| ==> Last(kmap[i]) < First(kmap[j]) || Last(kmap[j]) < First(kmap[i]))
  }

  ghost function Pages(kmap: seq<Kmap>, n: nat): int
    requires n <= |kmap| && KmapOk(kmap)
  {
    if n == 0 then 0 else Pages(kmap, n - 1) + Last(kmap[n - 1]) - First(kmap[n - 1]) + 1
  }

  /** What was there is as it was; what is new belongs to directory c, or is the spare frame. */
  ghost predicate Added(mem: Memory, own: map<nat, Slot>, mem': Memory, own': map<nat, Slot>, c: nat, spare: nat) {
    && c !in own && IsDir(own', c)
    && (forall f :: f in own ==> f in own' && own'[f] == own[f])
    && (forall f :: f in own' && f !in own ==> Within(own'[f], c) || (spare != 0 && f == spare && own'[f].Other?))
    && SamePtes(mem, mem', own, c, 0, 0) && SameData(mem, mem', own)
  }

  /** The first n lines of kmap are mapped in c and nothing else is. */
  ghost predicate KernelMapped(mem: Memory, c: nat, kmap: seq<Kmap>, n: nat)
    requires KmapOk(kmap) && n <= |kmap|
  {
    && c in mem
    && (forall i, p: nat :: 0 <= i < n && First(kmap[i]) <= p <= Last(kmap[i]) ==> KernelPage(mem, c, kmap[i], p))
    && (forall p: nat :: p < NPAGES && (forall i :: 0 <= i < n ==> !(First(kmap[i]) <= p <= Last(kmap[i]))) ==>
          !Pte(mem, c, p).present)
  }

  ghost predicate KernelPage(mem: Memory, c: nat, k: Kmap, p: nat)
    requires c in mem && First(k) <= p < NPAGES
  {
    Pte(mem, c, p) == Word(k.frame + p - First(k), true, k.flags)
  }

  lemma AddedRun(mem: Memory, own: map<nat, Slot>, m: Memory, o: map<nat, Slot>, m': Memory, o': map<nat, Slot>,
                 c: nat, a: nat, done: nat, f: nat, flags: Flags, spare: nat)
    requires Maps(mem, own) && Added(mem, own, m, o, c, spare) && MappedRun(m, o, m', o', c, a, done, f, flags)
    requires a >= KERN || (done <= a + 1 && f == spare && spare != 0 && f !in own)
    ensures Added(mem, own, m', o', c, if a < KERN && done > a then 0 else spare)
  {
    hide Pte, Maps;
    assert forall g :: g in own ==> o'[g] == own[g];
    forall e: nat, q: nat | IsDir(own, e) && q < NPAGES ensures PteKept(mem, m', e, q) {
      assert e != c && IsDir(o, e);
      assert PteKept(mem, m, e, q) && PteKept(m, m', e, q);
    }
  }

  lemma AddedFirst(mem: Memory, own: map<nat, Slot>, c: nat, kmap: seq<Kmap>)
    requires Maps(mem, own) && Maps(mem, own[c := Other]) && c in mem && c !in own && KmapOk(kmap)
    ensures var (m, o) := (mem[c := Filled(ZERO)], own[c := Dir(c)]);
      Maps(m, o) && Added(mem, own, m, o, c, 0) && KernelMapped(m, c, kmap, 0)
  {
    var m, o1 := mem[c := Filled(ZERO)], own[c := Other];
    StoreElsewhere(mem, o1, c, Filled(ZERO), o1, c);
    NewDir(m, o1, c);
    assert o1[c := Dir(c)] == own[c := Dir(c)];
    forall e: nat, q: nat | IsDir(own, e) && q < NPAGES ensures PteKept(mem, m, e, q) {
      assert IsDir(o1, e) && PteKept(mem, m, e, q);
    }
  }

  lemma KernelNext(m: Memory, o: map<nat, Slot>, m': Memory, o': map<nat, Slot>, c: nat, kmap: seq<Kmap>, n: nat)
    requires KmapOk(kmap) && n < |kmap| && KernelMapped(m, c, kmap, n) && IsDir(o, c)
    requires MappedRun(m, o, m', o', c, First(kmap[n]), Last(kmap[n]) + 1, kmap[n].frame, kmap[n].flags)
    ensures KernelMapped(m', c, kmap, n + 1)
  {
    hide Pte;
    forall i, p: nat | 0 <= i < n + 1 && First(kmap[i]) <= p <= Last(kmap[i]) ensures KernelPage(m', c, kmap[i], p) {
      if i < n { assert KernelPage(m, c, kmap[i], p) && PteKept(m, m', c, p); }
    }
    forall p: nat | p < NPAGES && (forall i :: 0 <= i < n + 1 ==> !(First(kmap[i]) <= p <= Last(kmap[i])))
      ensures !Pte(m', c, p).present
    {
      assert !(First(kmap[n]) <= p <= Last(kmap[n]));
      assert PteKept(m, m', c, p);
    }
  }

  lemma KernelMappable(m: Memory, o: map<nat, Slot>, c: nat, kmap: seq<Kmap>, n: nat)
    requires KmapOk(kmap) && n < |kmap| && KernelMapped(m, c, kmap, n) && IsDir(o, c)
    ensures forall p: nat :: First(kmap[n]) <= p <= Last(kmap[n]) ==>
      Usable(o, First(kmap[n]), kmap[n].frame, p) && Mappable(m, o, c, First(kmap[n]), kmap[n].frame, p)
  {}

  /** freevm takes back all that was added. */
  lemma AddedUndo(mem: Memory, own: map<nat, Slot>, m: Memory, o: map<nat, Slot>, m': Memory, o': map<nat, Slot>,
                  c: nat)
    requires Maps(mem, own) && Added(mem, own, m, o, c, 0) && Freed(m, o, m', o', c)
    ensures o' == own && SamePtes(mem, m', own, c, 0, 0) && SameData(mem, m', own)
  {
    forall f | f in own ensures !Within(own[f], c) { assert SlotOk(mem, own, f); }
    assert o' == own;
    hide Pte, Maps;
    forall e: nat, q: nat | IsDir(own, e) && q < NPAGES ensures PteKept(mem, m', e, q) {
      assert PteKept(mem, m, e, q) && PteKept(m, m', e, q);
    }
  }

  // ----- Copying an address space

  ghost predicate CopyPage(mem: Memory, own: map<nat, Slot>, d: nat, c: nat, p: nat)
    requires p < NPAGES
  {
    && d in mem && c in mem && var (w, v) := (Pte(mem, d, p), Pte(mem, c, p));
    && v.present && v.flags == w.flags && v.frame in own && own[v.frame] == Leaf(c, p)
    && v.frame in mem && w.frame in mem && mem[v.frame] == mem[w.frame]
  }

  /** c has the kernel's mappings and its own copy of the first n pages of d. */
  ghost predicate Copying(mem: Memory, own: map<nat, Slot>, m: Memory, o: map<nat, Slot>, d: nat, c: nat,
                          kmap: seq<Kmap>, n: nat, spare: nat) {
    && n <= KERN && KmapOk(kmap) && c in m && Added(mem, own, m, o, c, spare)
    && (forall p: nat :: p < n ==> CopyPage(m, o, d, c, p))
    && (forall p: nat :: n <= p < KERN ==> !Pte(m, c, p).present)
    && (forall i, p: nat :: 0 <= i < |kmap| && First(kmap[i]) <= p <= Last(kmap[i]) ==> KernelPage(m, c, kmap[i], p))
  }

  lemma CopyStart(mem: Memory, own: map<nat, Slot>, m: Memory, o: map<nat, Slot>, d: nat, c: nat, kmap: seq<Kmap>)
    requires KmapOk(kmap) && Added(mem, own, m, o, c, 0) && KernelMapped(m, c, kmap, |kmap|)
    ensures Copying(mem, own, m, o, d, c, kmap, 0, 0)
  {
    forall p: nat | p < KERN ensures !Pte(m, c, p).present {
      forall i | 0 <= i < |kmap| ensures !(First(kmap[i]) <= p <= Last(kmap[i])) { KernelAddresses(kmap, i); }
    }
  }

  lemma TakenIs(mem: Memory, d: nat, p: nat)
    requires d in mem && p < NPAGES
    ensures Taken(mem, d, p) <==> Pte(mem, d, p).present
  {}

  lemma TakenAll(mem: Memory, d: nat, p: nat)
    requires forall q: nat :: q <= p ==> Taken(mem, d, q)
    ensures d in mem && p < NPAGES && forall q: nat :: q <= p ==> Pte(mem, d, q).present
  {
    assert Taken(mem, d, p);
    forall q: nat | q <= p ensures Pte(mem, d, q).present { assert Taken(mem, d, q); }
  }

  lemma AbsentPage(mem: Memory, own: map<nat, Slot>, d: nat, p: nat)
    requires Maps(mem, own) && IsDir(own, d) && p < NPAGES && !mem[d][p / ENTRIES].present
    ensures !Taken(mem, d, p)
  {}

  /** copyuvm reads the parent's entries as they were when it started. */
  lemma CopyParent(mem: Memory, own: map<nat, Slot>, m: Memory, o: map<nat, Slot>, d: nat, c: nat, kmap: seq<Kmap>,
                   p: nat)
    requires Maps(mem, own) && Maps(m, o) && IsDir(own, d) && Copying(mem, own, m, o, d, c, kmap, p, 0) && p < KERN
    ensures IsDir(o, d) && d in mem && d in m && Pte(m, d, p) == Pte(mem, d, p) && Taken(mem, d, p) == Taken(m, d, p)
  {
    assert PteKept(mem, m, d, p);
  }

  /** What the loop of copyuvm reads of the parent. */
  lemma CopySource(mem: Memory, own: map<nat, Slot>, m: Memory, o: map<nat, Slot>, d: nat, c: nat, kmap: seq<Kmap>,
                   n: nat, p: nat)
    requires Maps(mem, own) && Maps(m, o) && IsDir(own, d) && Copying(mem, own, m, o, d, c, kmap, n, 0) && p < KERN
    requires Pte(mem, d, p).present
    ensures IsDir(o, d) && d != c && Pte(m, d, p) == Pte(mem, d, p) && m[d][p / ENTRIES].present
    ensures Pte(m, d, p).frame in o && o[Pte(m, d, p).frame] == Leaf(d, p) && Pte(m, d, p).frame in m
  {
    assert PteKept(mem, m, d, p);
    assert LeafKnown(m, o, d, p);
  }

  /** kalloc and memmove. */
  lemma CopyTake(mem: Memory, own: map<nat, Slot>, m: Memory, o: map<nat, Slot>, d: nat, c: nat, kmap: seq<Kmap>,
                 n: nat, f: nat, page: Page)
    requires Maps(mem, own) && Maps(m, o) && Maps(m, o[f := Other]) && f !in o && f != 0 && IsDir(own, d)
    requires Copying(mem, own, m, o, d, c, kmap, n, 0) && forall p: nat :: p < n ==> Pte(mem, d, p).present
    ensures var (m', o') := (m[f := page], o[f := Other]);
      Maps(m', o') && Copying(mem, own, m', o', d, c, kmap, n, f) && f !in own
  {
    var m', o' := m[f := page], o[f := Other];
    StoreElsewhere(m, o', f, page, o', d);
    hide Pte, Maps;
    forall e: nat, q: nat | IsDir(own, e) && q < NPAGES ensures PteKept(mem, m', e, q) {
      assert IsDir(o', e) && PteKept(mem, m, e, q) && PteKept(m, m', e, q);
    }
    forall p: nat | p < NPAGES ensures Pte(m', c, p) == Pte(m, c, p) { assert IsDir(o', c) && PteKept(m, m', c, p); }
    forall p: nat | p < n ensures CopyPage(m', o', d, c, p) {
      CopySource(mem, own, m, o, d, c, kmap, n, p);
      assert CopyPage(m, o, d, c, p) && IsDir(o', d) && PteKept(m, m', d, p);
    }
    forall i, p: nat | 0 <= i < |kmap| && First(kmap[i]) <= p <= Last(kmap[i]) ensures KernelPage(m', c, kmap[i], p) {
      assert KernelPage(m, c, kmap[i], p);
    }
  }

  /** mappages on one page of the copy. */
  lemma CopyMap(mem: Memory, own: map<nat, Slot>, m: Memory, o: map<nat, Slot>, m': Memory, o': map<nat, Slot>,
                d: nat, c: nat, kmap: seq<Kmap>, p: nat, done: nat, f: nat)
    requires Maps(mem, own) && Maps(m, o) && IsDir(own, d) && Copying(mem, own, m, o, d, c, kmap, p, f) && p < KERN
    requires forall q: nat :: q <= p ==> Pte(mem, d, q).present
    requires f in o && o[f].Other? && f in m && f !in own && f != 0
    requires Pte(mem, d, p).frame in m && m[f] == m[Pte(mem, d, p).frame]
    requires MappedRun(m, o, m', o', c, p, done, f, Pte(mem, d, p).flags) && done <= p + 1
    ensures p <= done && Copying(mem, own, m', o', d, c, kmap, done, if done == p then f else 0)
    ensures done == p ==> f in o' && o'[f].Other?
  {
    assert d != c && IsDir(o, d) && IsDir(o, c);
    AddedRun(mem, own, m, o, m', o', c, p, done, f, Pte(mem, d, p).flags, f);
    forall q: nat | q < done ensures CopyPage(m', o', d, c, q) {
      CopyKept(mem, own, m, o, m', o', d, c, kmap, p, done, f, q);
    }
    hide Maps, Pte, Added;
    forall q: nat | done <= q < KERN ensures !Pte(m', c, q).present { assert PteKept(m, m', c, q); }
    forall i, q: nat | 0 <= i < |kmap| && First(kmap[i]) <= q <= Last(kmap[i]) ensures KernelPage(m', c, kmap[i], q) {
      KernelAddresses(kmap, i);
      assert KernelPage(m, c, kmap[i], q) && PteKept(m, m', c, q);
    }
  }

  lemma CopyKept(mem: Memory, own: map<nat, Slot>, m: Memory, o: map<nat, Slot>, m': Memory, o': map<nat, Slot>,
                 d: nat, c: nat, kmap: seq<Kmap>, p: nat, done: nat, f: nat, q: nat)
    requires Maps(mem, own) && Maps(m, o) && IsDir(own, d) && Copying(mem, own, m, o, d, c, kmap, p, f)
    requires q < done <= p + 1 <= KERN
    requires Pte(mem, d, q).present && Pte(mem, d, p).frame in m
    requires f in o && o[f].Other? && f in m && m[f] == m[Pte(mem, d, p).frame]
    requires MappedRun(m, o, m', o', c, p, done, f, Pte(mem, d, p).flags)
    ensures CopyPage(m', o', d, c, q)
  {
    assert d != c && IsDir(o, d) && IsDir(o, c);
    assert PteKept(mem, m, d, q) && PteKept(m, m', d, q);
    assert LeafKnown(m, o, d, q);
    hide Pte, Maps;
    if q < p { assert CopyPage(m, o, d, c, q) && PteKept(m, m', c, q); }
  }

  lemma CopyDrop(mem: Memory, own: map<nat, Slot>, m: Memory, o: map<nat, Slot>, m': Memory, d: nat, c: nat,
                 kmap: seq<Kmap>, n: nat, f: nat)
    requires Copying(mem, own, m, o, d, c, kmap, n, f) && f in o && o[f].Other? && f !in own
    requires m' == m[f := Filled(JUNK)]
    requires SamePtes(m, m', o, c, 0, 0)
    ensures Added(mem, own, m', o - {f}, c, 0)
  {
    forall e: nat, q: nat | IsDir(own, e) && q < NPAGES ensures PteKept(mem, m', e, q) {
      assert IsDir(o, e) && PteKept(mem, m, e, q) && PteKept(m, m', e, q);
    }
  }

  lemma CopyAdded(mem: Memory, own: map<nat, Slot>, m: Memory, o: map<nat, Slot>, d: nat, c: nat, kmap: seq<Kmap>,
                  n: nat, spare: nat)
    requires Copying(mem, own, m, o, d, c, kmap, n, spare)
    ensures Added(mem, own, m, o, c, spare) && IsDir(o, c)
  {}

  lemma CopyMappable(mem: Memory, own: map<nat, Slot>, m: Memory, o: map<nat, Slot>, d: nat, c: nat, kmap: seq<Kmap>,
                     p: nat, f: nat)
    requires Copying(mem, own, m, o, d, c, kmap, p, f) && p < KERN && f in o && o[f].Other?
    ensures Usable(o, p, f, p) && Mappable(m, o, c, p, f, p)
  {}

  class Machine {
    var mem: Memory
    var free: seq<nat>
    ghost var own: map<nat, Slot>

    ghost predicate Valid() reads this { Maps(mem, own) && Pool(mem, free, own) }

    /** kalloc: 0 when there is no frame left. */
    method Kalloc() returns (r: nat)
      requires Valid()
      modifies this`free, this`own
      ensures Valid() && (r == 0 <==> old(free) == [])
      ensures r == 0 ==> free == old(free) && own == old(own)
      ensures r != 0 ==> r in mem && r !in old(own) && old(free) == [r] + free && own == old(own)[r := Other]
    {
      if free == [] { return 0; }
      PoolTake(mem, free, own);
      r := free[0];
      StoreElsewhere(mem, own, r, mem[r], own[r := Other], 0);
      assert mem[r := mem[r]] == mem;
      own := own[r := Other];
      free := free[1..];
    }

    /** kfree: callers may still have to clear an entry. */
    method Kfree(f: nat)
      requires Pool(mem, free, own) && f in own
      modifies this
      ensures Pool(mem, free, own) && f in mem && f !in old(free)
      ensures mem == old(mem)[f := Filled(JUNK)] && free == [f] + old(free) && own == old(own) - {f}
    {
      mem := mem[f := Filled(JUNK)];
      free := [f] + free;
      own := own - {f};
    }

    /** Freeing a frame that no directory uses. */
    method Release(f: nat, ghost d: nat)
      requires Valid() && f in own && own[f].Other?
      modifies this
      ensures Valid() && mem == old(mem)[f := Filled(JUNK)] && free == [f] + old(free) && own == old(own) - {f}
      ensures SamePtes(old(mem), mem, old(own), d, 0, 0)
    {
      PoolGive(mem, free, own, f, Filled(JUNK));
      StoreElsewhere(mem, own, f, Filled(JUNK), own - {f}, d);
      Kfree(f);
    }

    /** walkpgdir: the frame of the table that holds the page's entry. */
    method Walkpgdir(d: nat, p: nat, alloc: bool) returns (r: Option<nat>)
      requires Valid() && IsDir(own, d) && p < NPAGES
      modifies this
      ensures Valid() && IsDir(own, d) && (r.None? ==> !mem[d][p / ENTRIES].present)
      ensures r.Some? ==> r.value in own && own[r.value] == Table(d, p / ENTRIES)
      ensures Walked(old(mem), old(own), mem, own, d, p, r)
      ensures r.None? || !alloc ==> mem == old(mem) && free == old(free) && own == old(own)
      ensures (r.None? && alloc ==> old(free) == []) && |free| + 1 >= |old(free)|
    {
      var e := mem[d][p / ENTRIES];
      assert TableKnown(mem, own, d, p / ENTRIES);
      if e.present { return Some(e.frame); }
      if !alloc { return None; }
      var t := Kalloc();
      if t == 0 { return None; }
      StoreElsewhere(mem, own, t, Filled(ZERO), own, d);
      PoolKeeps(mem, free, own, mem[t := Filled(ZERO)], own);
      mem := mem[t := Filled(ZERO)];
      LinkTable(mem, own, d, p / ENTRIES, t);
      ghost var mem', own' := mem[d := mem[d][p / ENTRIES := Word(t, true, WU)]], own[t := Table(d, p / ENTRIES)];
      PoolKeeps(mem, free, own, mem', own');
      SameChain(old(mem), mem, mem', old(own), own, d, 0, 0, 0, 0, 0, 0);
      mem := mem[d := mem[d][p / ENTRIES := Word(t, true, WU)]];
      own := own';
      r := Some(t);
    }

    /** mappages. Pages [va / PGSIZE, done) are mapped; done falls short for want of a frame, or
        at the first page that is mapped already, where the kernel panics. */
    method Mappages(d: nat, va: nat, size: nat, frame: nat, flags: Flags) returns (r: MapResult, ghost done: nat)
      requires Valid() && IsDir(own, d) && size > 0 && va + size <= NPAGES * PGSIZE
      requires forall p: nat :: va / PGSIZE <= p <= (va + size - 1) / PGSIZE ==> Usable(own, va / PGSIZE, frame, p)
      modifies this
      ensures Valid() && IsDir(own, d) && va / PGSIZE <= done <= (va + size - 1) / PGSIZE + 1
      ensures MappedRun(old(mem), old(own), mem, own, d, va / PGSIZE, done, frame, flags)
      ensures MapStops(old(mem), d, va / PGSIZE, (va + size - 1) / PGSIZE, r, done)
      ensures r.Remap? ==> !Mappable(old(mem), old(own), d, va / PGSIZE, frame, done)
      ensures (!r.Remap? ==> |free| + done - va / PGSIZE >= |old(free)|) && (r.NoFrame? ==> free == [])
    {
      hide Maps, Pool, MappedRun, Usable;
      r, done := MapRange(d, va / PGSIZE, (va + size - 1) / PGSIZE, frame, flags);
    }

    /** The loop of mappages. */
    method MapRange(d: nat, a: nat, last: nat, frame: nat, flags: Flags) returns (r: MapResult, ghost done: nat)
      requires Valid() && IsDir(own, d) && a <= last < NPAGES
      requires forall p: nat :: a <= p <= last ==> Usable(own, a, frame, p)
      modifies this
      ensures Valid() && IsDir(own, d) && a <= done <= last + 1
      ensures MappedRun(old(mem), old(own), mem, own, d, a, done, frame, flags)
      ensures MapStops(old(mem), d, a, last, r, done)
      ensures (!r.Remap? ==> |free| + done - a >= |old(free)|) && (r.NoFrame? ==> free == [])
    {
      var p, pa := a, frame;
      hide Maps, Pool, MappedRun, Usable, Walked, IsDir, Pte;
      RunNone(mem, own, d, a, frame, flags);
      while true
        invariant a <= p <= last && pa == frame + p - a && |free| + p - a >= |old(free)|
        invariant Valid() && IsDir(own, d) && MappedRun(old(mem), old(own), mem, own, d, a, p, frame, flags)
        invariant forall q: nat :: a <= q < p ==> !Taken(old(mem), d, q)
        decreases last - p
      {
        ghost var m, o := mem, own;
        var e := Walkpgdir(d, p, true);
        RunGrow(old(mem), old(own), m, o, mem, own, d, a, p, frame, flags, e);
        RunTest(old(mem), old(own), mem, own, d, a, p, frame, flags);
        if e.None? {
          AbsentTable(mem, d, p, p);
          return NoFrame, p;
        }
        var t := e.value;
        FoundPte(mem, own, d, p, t);
        if mem[t][p % ENTRIES].present { return Remap, p; }
        ghost var own' := if p < KERN then own[pa := Leaf(d, p)] else own;
        MapStep(old(mem), old(own), mem, own, free, d, a, p, frame, flags, t, own');
        mem := mem[t := mem[t][p % ENTRIES := Word(pa, true, flags)]];
        own := own';
        if p == last { return Mapped, p + 1; }
        p := p + 1;
        pa := pa + 1;
      }
    }

    /** deallocuvm. Where a whole table is absent it jumps to the next one. */
    method Deallocuvm(d: nat, oldsz: nat, newsz: nat) returns (r: nat)
      requires Valid() && IsDir(own, d) && oldsz <= KERN * PGSIZE
      modifies this
      ensures Valid() && IsDir(own, d)
      ensures newsz >= oldsz ==> r == oldsz && mem == old(mem) && free == old(free) && own == old(own)
      ensures newsz < oldsz ==> r == newsz && Cleared(old(mem), old(own), mem, own, d, RoundUp(newsz), RoundUp(oldsz))
    {
      hide Maps, Pool, Cleared, Walked, IsDir, Pte;
      if newsz >= oldsz { return oldsz; }
      ghost var lo, hi := RoundUp(newsz), RoundUp(oldsz);
      ClearNone(mem, own, d, lo);
      var p := RoundUp(newsz);
      ghost var c := p;
      while p * PGSIZE < oldsz
        invariant Valid() && IsDir(own, d) && lo <= c <= hi && c == (if p < hi then p else hi)
        invariant Cleared(old(mem), old(own), mem, own, d, lo, c)
        decreases oldsz - p * PGSIZE
      {
        var table := Walkpgdir(d, p, false);
        if table.None? {
          SkipTable(old(mem), old(own), mem, own, d, lo, p, hi);
          p := (p / ENTRIES + 1) * ENTRIES - 1;
          c := if p + 1 < hi then p + 1 else hi;
        } else {
          var t := table.value;
          FoundPte(mem, own, d, p, t);
          if mem[t][p % ENTRIES].present {
            var f := mem[t][p % ENTRIES].frame;
            ClearStep(old(mem), old(own), mem, own, free, d, lo, p, t, f);
            Kfree(f);
            mem := mem[t := mem[t][p % ENTRIES := ZERO]];
            ClearedDir(old(mem), old(own), mem, own, d, lo, p + 1);
          } else {
            SkipPage(old(mem), old(own), mem, own, d, lo, p);
          }
          c := p + 1;
        }
        p := p + 1;
      }
      return newsz;
    }

    /** allocuvm. When frames run out it gives back every page it mapped. */
    method Allocuvm(d: nat, oldsz: nat, newsz: nat) returns (size: nat)
      requires Valid() && IsDir(own, d)
      requires forall p: nat :: RoundUp(oldsz) <= p < KERN ==> !Pte(mem, d, p).present
      modifies this
      ensures Valid() && IsDir(own, d)
      ensures newsz >= KERN * PGSIZE ==> size == 0 && mem == old(mem) && free == old(free) && own == old(own)
      ensures newsz < oldsz && newsz < KERN * PGSIZE ==>
        size == oldsz && mem == old(mem) && free == old(free) && own == old(own)
      ensures oldsz <= newsz < KERN * PGSIZE ==> size == newsz || size == 0
      ensures oldsz <= newsz < KERN * PGSIZE && size == newsz ==>
        Grown(old(mem), old(own), mem, own, d, RoundUp(oldsz), RoundUp(newsz), 0)
        && UserPages(mem, d, RoundUp(oldsz), RoundUp(newsz))
      ensures oldsz <= newsz < KERN * PGSIZE && size != newsz ==>
        && Grown(old(mem), old(own), mem, own, d, RoundUp(oldsz), RoundUp(oldsz), 0)
        && |old(free)| < 2 * (RoundUp(newsz) - RoundUp(oldsz))
    {
      hide Maps, Pool, Grown, MappedRun, Cleared, IsDir, Pte, Mappable, Usable, Taken, UserPages;
      if newsz >= KERN * PGSIZE { return 0; }
      if newsz < oldsz { return oldsz; }
      ghost var lo, hi := RoundUp(oldsz), RoundUp(newsz);
      GrownNone(mem, own, d, lo);
      var p := RoundUp(oldsz);
      while p * PGSIZE < newsz
        invariant Valid() && IsDir(own, d) && lo <= p <= hi && Grown(old(mem), old(own), mem, own, d, lo, p, 0)
        invariant |free| + 2 * (p - lo) >= |old(free)|
        decreases newsz - p * PGSIZE
      {
        ghost var m, o := mem, own;
        var f := Kalloc();
        if f == 0 {
          var _ := Deallocuvm(d, newsz, oldsz);
          GrownUndo(old(mem), old(own), m, o, mem, own, d, lo, p, hi, 0);
          return 0;
        }
        GrownTake(old(mem), old(own), m, o, d, lo, p, f);
        PoolKeeps(mem, free, own, mem[f := Filled(ZERO)], own);
        mem := mem[f := Filled(ZERO)];
        ghost var m1, o1 := mem, own;
        GrownMappable(old(mem), old(own), mem, own, d, lo, p, f);
        var r;
        ghost var done;
        r, done := Mappages(d, p * PGSIZE, PGSIZE, f, WU);
        GrownMap(old(mem), old(own), m1, o1, mem, own, d, lo, p, done, f);
        if !r.Mapped? {
          ghost var m2, o2 := mem, own;
          var _ := Deallocuvm(d, newsz, oldsz);
          GrownUndo(old(mem), old(own), m2, o2, mem, own, d, lo, p, hi, f);
          GrownSpare(old(mem), old(own), m2, o2, mem, own, d, lo, hi, f);
          ghost var m3, o3 := mem, own;
          Release(f, d);
          GrownDrop(old(mem), old(own), m3, o3, mem, d, lo, f);
          return 0;
        }
        p := p + 1;
      }
      GrownRights(old(mem), old(own), mem, own, d, lo, hi);
      return newsz;
    }

    /** freevm. */
    method Freevm(d: nat)
      requires Valid() && IsDir(own, d)
      modifies this
      ensures Valid() && Freed(old(mem), old(own), mem, own, d)
    {
      hide Maps, Pool, Cleared, Freed, Dropped, IsDir, SamePtes, SameData;
      var _ := Deallocuvm(d, KERN * PGSIZE, 0);
      ghost var m, o := mem, own;
      DropStart(old(mem), old(own), m, o, d);
      PoolKeeps(mem, free, own, mem, Dropped(o, d, 0));
      own := Dropped(o, d, 0);
      SameSelf(m, own, d);
      DropDir(m, o, d, 0);
      var i := 0;
      while i < ENTRIES
        invariant 0 <= i <= ENTRIES && Valid() && own == Dropped(o, d, i) && d in mem && mem[d] == m[d]
        invariant SamePtes(m, mem, Dropped(o, d, 0), d, 0, 0) && SameData(m, mem, own)
      {
        if mem[d][i].present {
          var f := mem[d][i].frame;
          ghost var m1, o1 := mem, own;
          DropTable(m, o, d, i);
          Release(f, d);
          ReleaseSame(o, d, i);
          SameChain(m, m1, mem, Dropped(o, d, 0), o1, d, 0, 0, 0, 0, 0, 0);
          DataDrop(m, m1, o1, f);
        } else {
          DropSkip(m, o, d, i);
        }
        i := i + 1;
      }
      ghost var m1, o1 := mem, own;
      DropDir(m, o, d, ENTRIES);
      Release(d, d);
      ReleaseSame(o, d, ENTRIES);
      SameChain(m, m1, mem, Dropped(o, d, 0), o1, d, 0, 0, 0, 0, 0, 0);
      DataDrop(m, m1, o1, d);
      DropEnd(old(mem), old(own), m, o, mem, own, d);
    }

    /** A zeroed page as the new directory. */
    method MakeDir(ghost kmap: seq<Kmap>) returns (d: nat)
      requires Valid() && KmapOk(kmap)
      modifies this
      ensures Valid() && |free| + 1 >= |old(free)|
      ensures d == 0 ==> old(free) == [] && mem == old(mem) && own == old(own)
      ensures d != 0 ==> Added(old(mem), old(own), mem, own, d, 0) && KernelMapped(mem, d, kmap, 0)
    {
      hide Maps, Pool, Added, KernelMapped;
      d := Kalloc();
      if d == 0 { return; }
      AddedFirst(mem, old(own), d, kmap);
      PoolKeeps(mem, free, own, mem[d := Filled(ZERO)], old(own)[d := Dir(d)]);
      mem := mem[d := Filled(ZERO)];
      own := own[d := Dir(d)];
      assert own == old(own)[d := Dir(d)];
    }

    /** setupkvm: a directory with the kernel's mappings and no user page, or 0 and nothing changed. */
    method Setupkvm(kmap: seq<Kmap>) returns (d: nat)
      requires Valid() && KmapOk(kmap)
      modifies this
      ensures Valid()
      ensures d != 0 ==> Added(old(mem), old(own), mem, own, d, 0) && KernelMapped(mem, d, kmap, |kmap|)
      ensures d != 0 && (forall i :: 0 <= i < |kmap| ==> !kmap[i].flags.user) ==> Private(mem, d)
      ensures d != 0 ==> |free| + 1 + Pages(kmap, |kmap|) >= |old(free)|
      ensures d == 0 ==> own == old(own) && SamePtes(old(mem), mem, own, 0, 0, 0) && SameData(old(mem), mem, own)
      ensures d == 0 ==> |old(free)| <= Pages(kmap, |kmap|)
    {
      hide Maps, Pool, Added, KernelMapped, KmapOk, MappedRun, IsDir, SamePtes, SameData, Freed, Mappable, Usable,
        Taken, Private;
      d := MakeDir(kmap);
      if d == 0 { SameSelf(mem, own, 0); PagesUp(kmap, 0, |kmap|); return; }
      var i := 0;
      while i < |kmap|
        invariant 0 <= i <= |kmap| && Valid() && Added(old(mem), old(own), mem, own, d, 0)
        invariant KernelMapped(mem, d, kmap, i) && |free| + 1 + Pages(kmap, i) >= |old(free)|
      {
        var k := kmap[i];
        ghost var m, o := mem, own;
        AddedDir(old(mem), old(own), m, o, d, 0);
        KernelMappable(m, o, d, kmap, i);
        KernelAddresses(kmap, i);
        var r;
        ghost var done;
        r, done := Mappages(d, k.virt, k.size, k.frame, k.flags);
        AddedRun(old(mem), old(own), m, o, mem, own, d, First(k), done, k.frame, k.flags, 0);
        if !r.Mapped? {
          PagesUp(kmap, i + 1, |kmap|);
          Abandon(d, old(mem), old(own));
          return 0;
        }
        KernelNext(m, o, mem, own, d, kmap, i);
        i := i + 1;
      }
      if forall i :: 0 <= i < |kmap| ==> !kmap[i].flags.user {
        AddedDir(old(mem), old(own), mem, own, d, 0);
        KernelPrivate(mem, own, d, kmap);
      }
    }

    /** copyuvm: the child's directory, or 0 and every frame back where it was. */
    method Copyuvm(d: nat, sz: nat, kmap: seq<Kmap>) returns (c: nat, panics: bool)
      requires Valid() && IsDir(own, d) && KmapOk(kmap) && sz <= KERN * PGSIZE
      modifies this
      ensures Valid() && (panics ==> c == 0 && exists p: nat :: p < RoundUp(sz) && !Taken(old(mem), d, p))
      ensures c != 0 ==> forall p: nat :: p < RoundUp(sz) ==> Taken(old(mem), d, p)
      ensures c != 0 ==> Copying(old(mem), old(own), mem, own, d, c, kmap, RoundUp(sz), 0)
      ensures c != 0 ==> SameRights(old(mem), d, mem, c, RoundUp(sz))
      ensures c == 0 && !panics ==>
        own == old(own) && SamePtes(old(mem), mem, own, 0, 0, 0) && SameData(old(mem), mem, own)
      ensures c == 0 && !panics ==> |old(free)| <= Pages(kmap, |kmap|) + 2 * RoundUp(sz)
    {
      hide Maps, Pool, Added, KernelMapped, KmapOk, MappedRun, IsDir, SamePtes, SameData, Freed, Mappable, Copying, Pte,
        Usable, Taken, SameRights;
      panics := false;
      c := Setupkvm(kmap);
      if c == 0 { return; }
      CopyStart(old(mem), old(own), mem, own, d, c, kmap);
      var p := 0;
      while p * PGSIZE < sz
        invariant 0 <= p <= RoundUp(sz) && Valid() && Copying(old(mem), old(own), mem, own, d, c, kmap, p, 0)
        invariant forall q: nat :: q < p ==> Taken(old(mem), d, q)
        invariant |free| + 1 + Pages(kmap, |kmap|) + 2 * p >= |old(free)|
        decreases sz - p * PGSIZE
      {
        CopyParent(old(mem), old(own), mem, own, d, c, kmap, p);
        var table := Walkpgdir(d, p, false);
        if table.None? {
          AbsentPage(mem, own, d, p);
          return 0, true;
        }
        var t := table.value;
        FoundPte(mem, own, d, p, t);
        var pte := mem[t][p % ENTRIES];
        TakenIs(mem, d, p);
        if !pte.present { return 0, true; }
        CopySource(old(mem), old(own), mem, own, d, c, kmap, p, p);
        var ok := CopyOne(d, c, kmap, p, pte, old(mem), old(own));
        if !ok { return 0, false; }
        p := p + 1;
      }
      CopiedRights(old(mem), old(own), mem, own, d, c, kmap, p);
    }

    /** A turn of the loop of copyuvm, from the parent's entry on. */
    method CopyOne(d: nat, c: nat, kmap: seq<Kmap>, p: nat, pte: Word, ghost mem0: Memory, ghost own0: map<nat, Slot>)
        returns (ok: bool)
      requires Valid() && Maps(mem0, own0) && IsDir(own0, d) && Copying(mem0, own0, mem, own, d, c, kmap, p, 0)
      requires p < KERN
      requires forall q: nat :: q <= p ==> Taken(mem0, d, q)
      requires IsDir(own, d) && d in mem0 && pte == Pte(mem, d, p) == Pte(mem0, d, p) && pte.frame in mem
      requires pte.frame in own
      modifies this
      ensures Valid() && (ok ==> Copying(mem0, own0, mem, own, d, c, kmap, p + 1, 0) && |free| + 2 >= |old(free)|)
      ensures !ok ==> own == own0 && SamePtes(mem0, mem, own, 0, 0, 0) && SameData(mem0, mem, own) && |old(free)| <= 1
    {
      hide Maps, Pool, Added, KernelMapped, KmapOk, MappedRun, IsDir, SamePtes, SameData, Freed, Mappable, Copying, Pte,
        Usable, Taken;
      TakenAll(mem0, d, p);
      ghost var m, o := mem, own;
      var f := Kalloc();
      if f == 0 {
        CopyAdded(mem0, own0, m, o, d, c, kmap, p, 0);
        Abandon(c, mem0, own0);
        return false;
      }
      CopyTake(mem0, own0, m, o, d, c, kmap, p, f, mem[pte.frame]);
      PoolKeeps(mem, free, own, mem[f := mem[pte.frame]], own);
      mem := mem[f := mem[pte.frame]];
      ghost var m1, o1 := mem, own;
      CopyMappable(mem0, own0, m1, o1, d, c, kmap, p, f);
      CopyAdded(mem0, own0, m1, o1, d, c, kmap, p, f);
      var r;
      ghost var done;
      r, done := Mappages(c, p * PGSIZE, PGSIZE, f, pte.flags);
      CopyMap(mem0, own0, m1, o1, mem, own, d, c, kmap, p, done, f);
      if !r.Mapped? {
        ghost var m2, o2 := mem, own;
        Release(f, c);
        CopyDrop(mem0, own0, m2, o2, mem, d, c, kmap, p, f);
        Abandon(c, mem0, own0);
        return false;
      }
      return true;
    }

    /** The label bad of copyuvm. */
    method Abandon(c: nat, ghost mem0: Memory, ghost own0: map<nat, Slot>)
      requires Valid() && Maps(mem0, own0) && Added(mem0, own0, mem, own, c, 0)
      modifies this
      ensures Valid() && own == own0 && SamePtes(mem0, mem, own, 0, 0, 0) && SameData(mem0, mem, own)
    {
      hide Maps, Pool, Added, IsDir, SamePtes, SameData, Freed;
      ghost var m, o := mem, own;
      AddedDir(mem0, own0, m, o, c, 0);
      Freevm(c);
      AddedUndo(mem0, own0, m, o, mem, own, c);
      SameAny(mem0, mem, own, c);
    }
  }

  lemma {:induction false} PagesUp(kmap: seq<Kmap>, i: nat, n: nat)
    requires i <= n <= |kmap| && KmapOk(kmap)
    ensures Pages(kmap, i) <= Pages(kmap, n)
  {
    if i < n { PagesUp(kmap, i, n - 1); }
  }

  lemma AddedDir(mem: Memory, own: map<nat, Slot>, m: Memory, o: map<nat, Slot>, c: nat, spare: nat)
    requires Added(mem, own, m, o, c, spare)
    ensures IsDir(o, c) && c !in own
  {}

  lemma KernelAddresses(kmap: seq<Kmap>, i: nat)
    requires KmapOk(kmap) && i < |kmap|
    ensures kmap[i].size > 0 && First(kmap[i]) >= KERN && kmap[i].virt + kmap[i].size <= NPAGES * PGSIZE
    ensures First(kmap[i]) <= Last(kmap[i])
  {}

  lemma SameAny(mem: Memory, mem': Memory, own: map<nat, Slot>, d: nat)
    requires SamePtes(mem, mem', own, d, 0, 0)
    ensures SamePtes(mem, mem', own, 0, 0, 0)
  {
    forall e: nat, q: nat | IsDir(own, e) && q < NPAGES ensures PteKept(mem, mem', e, q) {
      assert !(e == d && 0 <= q < 0);
    }
  }

  lemma SameSelf(mem: Memory, own: map<nat, Slot>, d: nat)
    requires Maps(mem, own)
    ensures SamePtes(mem, mem, own, d, 0, 0) && SameData(mem, mem, own)
  {}

  lemma DropDir(mem: Memory, own: map<nat, Slot>, d: nat, i: nat)
    requires Maps(mem, own) && IsDir(own, d)
    ensures d in mem && d in Dropped(own, d, i) && Dropped(own, d, i)[d] == Other
  {}

  lemma DataDrop(m: Memory, m1: Memory, o1: map<nat, Slot>, f: nat)
    requires SameData(m, m1, o1)
    ensures SameData(m, m1[f := Filled(JUNK)], o1 - {f})
  {}

  lemma GrownMappable(mem: Memory, own: map<nat, Slot>, m: Memory, o: map<nat, Slot>, d: nat, lo: nat, p: nat, f: nat)
    requires Maps(mem, own) && Grown(mem, own, m, o, d, lo, p, f) && IsDir(own, d) && p < KERN && f in o && o[f].Other?
    requires !Pte(mem, d, p).present
    ensures Usable(o, p, f, p) && Mappable(m, o, d, p, f, p)
  {
    assert PteKept(mem, m, d, p);
  }

  lemma GrownSpare(mem: Memory, own: map<nat, Slot>, m: Memory, o: map<nat, Slot>, m': Memory, o': map<nat, Slot>,
                   d: nat, lo: nat, hi: nat, f: nat)
    requires Cleared(m, o, m', o', d, lo, hi) && f in o && o[f].Other?
    ensures f in o' && o'[f].Other?
  {}

  /** How mappages ends: with 0, with -1, or in a panic. */
  datatype MapResult = Mapped | NoFrame | Remap

  predicate Taken(mem: Memory, d: nat, p: nat) { d in mem && p < NPAGES && Pte(mem, d, p).present }

  /** Pages [a, done) were unmapped, and page done tells why mappages stopped. */
  ghost predicate MapStops(mem: Memory, d: nat, a: nat, last: nat, r: MapResult, done: nat) {
    && (forall q: nat :: a <= q < done ==> !Taken(mem, d, q))
    && (r.Mapped? <==> done == last + 1)
    && (r.Remap? <==> done <= last && Taken(mem, d, done))
  }

  /** The frame meant for page p is nobody's, if p is a user page. */
  ghost predicate Usable(own: map<nat, Slot>, a: nat, frame: nat, p: nat) {
    a <= p < NPAGES && (p < KERN ==> UserFrame(own, frame + p - a))
  }

  ghost predicate Mappable(mem: Memory, own: map<nat, Slot>, d: nat, a: nat, frame: nat, p: nat) {
    d in mem && Usable(own, a, frame, p) && !Pte(mem, d, p).present
  }

  /** The loop of mappages reads the entry as it was when it started. */
  lemma RunTest(mem: Memory, own: map<nat, Slot>, m: Memory, o: map<nat, Slot>,
                d: nat, a: nat, p: nat, frame: nat, flags: Flags)
    requires Maps(mem, own) && IsDir(own, d) && MappedRun(mem, own, m, o, d, a, p, frame, flags) && p < NPAGES
    ensures d in mem && d in m && Pte(m, d, p) == Pte(mem, d, p)
    ensures Usable(own, a, frame, p) && !Pte(mem, d, p).present ==> Mappable(mem, own, d, a, frame, p)
  {
    assert PteKept(mem, m, d, p);
  }

  ghost predicate UserFrame(own: map<nat, Slot>, f: nat) { f in own && own[f].Other? }

  /** The page about to be mapped is still unmapped and its frame still nobody's. */
  lemma NextPage(mem: Memory, own: map<nat, Slot>, m: Memory, o: map<nat, Slot>,
                 d: nat, a: nat, p: nat, frame: nat, flags: Flags)
    requires Maps(mem, own) && IsDir(own, d) && Maps(m, o) && MappedRun(mem, own, m, o, d, a, p, frame, flags)
    requires p < NPAGES
    requires Mappable(mem, own, d, a, frame, p)
    ensures IsDir(o, d) && Mappable(m, o, d, a, frame, p) && (p < KERN ==> UserFrame(own, frame + p - a))
  {
    RunDir(own, o, d, a, p, frame, d);
    assert PteKept(mem, m, d, p);
  }
}
