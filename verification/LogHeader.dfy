/** struct logheader of log.c and its image in the header block. */
module LogHeader {
  import opened Blocks

  const MAXOPBLOCKS: nat := 10
  const LOGSIZE: nat := 30

  /** One log entry: home block, checksum of the slice, and the slice. */
  datatype Entry = Entry(block: nat, cksum: nat, off: nat, len: nat)

  ghost predicate Storable(e: Entry) {
    e.block < MAX_UINT && e.cksum < MAX_UINT && e.off < MAX_UINT && e.len < MAX_UINT
  }

  /** The blocks a header names. */
  ghost function Names(lh: seq<Entry>): set<nat> {
    set i | 0 <= i < |lh| :: lh[i].block
  }

  lemma NamesNone() ensures Names([]) == {} {}

  lemma NamesNext(lh: seq<Entry>, n: nat)
    requires n < |lh|
    ensures Names(lh[..n + 1]) == Names(lh[..n]) + {lh[n].block}
  {
    assert forall k :: 0 <= k < n ==> lh[..n + 1][k] == lh[..n][k];
    assert lh[..n + 1][n] == lh[n];
  }

  /** Distinct entries are as many as the blocks they name. */
  lemma {:induction false} NamesCount(lh: seq<Entry>)
    requires forall i, j :: 0 <= i < j < |lh| ==> lh[i].block != lh[j].block
    ensures |Names(lh)| == |lh|
  {
    if lh != [] {
      var n := |lh| - 1;
      NamesCount(lh[..n]);
      NamesNext(lh, n);
      assert lh[..n + 1] == lh;
      forall i | 0 <= i < n ensures lh[..n][i].block != lh[n].block {}
    }
  }

  // n is word 0; the four arrays of LOGSIZE words follow it

  function EntryAt(b: Block, i: nat): Entry
    requires i < LOGSIZE
  {
    Entry(Word(b, 1 + i), Word(b, 31 + i), Word(b, 61 + i), Word(b, 91 + i))
  }

  function SetEntry(b: Block, i: nat, e: Entry): Block
    requires i < LOGSIZE && Storable(e)
  {
    SetWord(SetWord(SetWord(SetWord(b, 1 + i, e.block), 31 + i, e.cksum), 61 + i, e.off), 91 + i, e.len)
  }

  lemma SetEntryWord(b: Block, i: nat, e: Entry, k: nat)
    requires i < LOGSIZE && Storable(e) && k < WORDS
    ensures Word(SetEntry(b, i, e), k)
         == if k == 1 + i then e.block else if k == 31 + i then e.cksum
            else if k == 61 + i then e.off else if k == 91 + i then e.len else Word(b, k)
  {
    hide Word, SetWord;
    var b1 := SetWord(b, 1 + i, e.block);
    var b2 := SetWord(b1, 31 + i, e.cksum);
    var b3 := SetWord(b2, 61 + i, e.off);
    SetWordAt(b, 1 + i, e.block, k);
    SetWordAt(b1, 31 + i, e.cksum, k);
    SetWordAt(b2, 61 + i, e.off, k);
    SetWordAt(b3, 91 + i, e.len, k);
  }

  lemma SetWordAt(b: Block, i: nat, v: nat, k: nat)
    requires i < WORDS && v < MAX_UINT && k < WORDS
    ensures Word(SetWord(b, i, v), k) == if k == i then v else Word(b, k)
  {
    if k == i { WordOfSet(b, i, v); } else { WordFrame(b, i, v, k); }
  }

  /** The header block holds a length that read_head can follow. */
  predicate HeadOk(b: Block) { Word(b, 0) <= LOGSIZE }

  function ReadHead(b: Block): seq<Entry>
    requires HeadOk(b)
  {
    seq(Word(b, 0), i requires 0 <= i < Word(b, 0) => EntryAt(b, i))
  }

  /** The bytes of struct logheader: n, then the arrays of 30 ints block, cksum, offset and len. */
  ghost predicate HeaderBytes(b: Block, lh: seq<Entry>) {
    && |lh| == Little(b, 0, 4) <= 30
    && forall i :: 0 <= i < |lh| ==>
         lh[i] == Entry(Little(b, 4 + 4 * i, 4), Little(b, 124 + 4 * i, 4),
                        Little(b, 244 + 4 * i, 4), Little(b, 364 + 4 * i, 4))
  }

  lemma HeadBytes(b: Block)
    requires HeadOk(b)
    ensures HeaderBytes(b, ReadHead(b))
  {
    hide Word, Little;
    WordIsLittle(b, 0);
    forall i | 0 <= i < Word(b, 0)
      ensures EntryAt(b, i) == Entry(Little(b, 4 + 4 * i, 4), Little(b, 124 + 4 * i, 4),
                                     Little(b, 244 + 4 * i, 4), Little(b, 364 + 4 * i, 4))
    {
      WordIsLittle(b, 1 + i);
      WordIsLittle(b, 31 + i);
      WordIsLittle(b, 61 + i);
      WordIsLittle(b, 91 + i);
    }
  }

  /** The header fits its block, and would not with more than 31 entries. */
  lemma HeaderFits(n: nat)
    ensures 4 * (1 + 4 * n) <= BSIZE <==> n <= 31
    ensures 4 * (1 + 4 * LOGSIZE) <= BSIZE && LOGSIZE == 3 * MAXOPBLOCKS
  {}

  /** read_head. */
  method Load(b: Block) returns (lh: seq<Entry>)
    requires HeadOk(b)
    ensures lh == ReadHead(b) && HeaderBytes(b, lh)
  {
    hide Word, HeaderBytes;
    HeadBytes(b);
    lh := [];
    var i := 0;
    while i < Word(b, 0)
      invariant 0 <= i <= Word(b, 0)
      invariant lh == ReadHead(b)[..i]
    {
      lh := lh + [EntryAt(b, i)];
      i := i + 1;
    }
  }

  /** write_head, up to the disk write: entries beyond n keep their old bytes. */
  method Store(b: Block, lh: seq<Entry>) returns (hb: Block)
    requires |lh| <= LOGSIZE
    requires forall i :: 0 <= i < |lh| ==> Storable(lh[i])
    ensures HeadOk(hb) && ReadHead(hb) == lh && HeaderBytes(hb, lh)
    ensures forall k :: 0 < k < WORDS && (k > 120 || (k - 1) % 30 >= |lh|) ==>
      Little(hb, 4 * k, 4) == Little(b, 4 * k, 4)
  {
    hide Word, SetWord, SetEntry, Little;
    hb := SetWord(b, 0, |lh|);
    forall k | 0 <= k < WORDS ensures Word(hb, k) == if k == 0 then |lh| else Word(b, k) {
      SetWordAt(b, 0, |lh|, k);
    }
    var i := 0;
    while i < |lh|
      invariant 0 <= i <= |lh|
      invariant Word(hb, 0) == |lh|
      invariant forall k :: 0 <= k < i ==> EntryAt(hb, k) == lh[k]
      invariant forall k :: 0 < k < WORDS && (k > 120 || (k - 1) % 30 >= |lh|) ==> Word(hb, k) == Word(b, k)
    {
      ghost var was := hb;
      hb := SetEntry(hb, i, lh[i]);
      forall k | 0 <= k < WORDS
        ensures Word(hb, k) == if k == 1 + i then lh[i].block else if k == 31 + i then lh[i].cksum
                               else if k == 61 + i then lh[i].off else if k == 91 + i then lh[i].len
                               else Word(was, k)
      {
        SetEntryWord(was, i, lh[i], k);
      }
      i := i + 1;
    }
    HeadBytes(hb);
    forall k | 0 < k < WORDS ensures Word(hb, k) == Little(hb, 4 * k, 4) && Word(b, k) == Little(b, 4 * k, 4) {
      WordIsLittle(hb, k);
      WordIsLittle(b, k);
    }
  }
}
