/** Disk blocks, the little-endian words stored in them, and a disk that is
    written one whole block at a time. */
module Blocks {

  const BSIZE: nat := 512
  const WORDS: nat := 128      // uints per block
  const MAX_UINT: nat := 0x1_0000_0000

  type Block = b: seq<bv8> | |b| == BSIZE witness seq(BSIZE, _ => 0)
  type Disk = seq<Block>

  /** memmove(to + off, from + off, len) between two block buffers. */
  function Splice(to: Block, from: Block, off: nat, len: nat): (r: Block)
    requires off + len <= BSIZE
    ensures forall j :: 0 <= j < BSIZE ==> r[j] == if off <= j < off + len then from[j] else to[j]
  {
    to[..off] + from[off..off + len] + to[off + len..]
  }

  function Slice(b: Block, off: nat, len: nat): seq<bv8>
    requires off + len <= BSIZE
  {
    b[off..off + len]
  }

  // ----- Words

  function Nibble(b0: bool, b1: bool, b2: bool, b3: bool): (v: nat)
    ensures v < 16
  {
    (if b0 then 1 else 0) + (if b1 then 2 else 0) + (if b2 then 4 else 0) + (if b3 then 8 else 0)
  }

  /** The weights of the bits of a byte. */
  function Bits(b: bv8): nat {
    Nibble(b & 1 != 0, b & 2 != 0, b & 4 != 0, b & 8 != 0)
    + 16 * Nibble(b & 16 != 0, b & 32 != 0, b & 64 != 0, b & 128 != 0)
  }

  /** A byte read as an unsigned number. */
  function Value(b: bv8): (v: nat)
    ensures v < 256
  {
    b as nat
  }

  lemma ValueIsBits(b: bv8) ensures Value(b) == Bits(b) {}

  function Mask(on: bool, m: bv8): bv8 { if on then m else 0 }

  /** The byte whose low and high halves are the numbers l and h. */
  function Join(l: nat, h: nat): bv8 {
    Mask(l % 2 == 1, 1) | Mask(l / 2 % 2 == 1, 2) | Mask(l / 4 % 2 == 1, 4) | Mask(l / 8 % 2 == 1, 8)
    | Mask(h % 2 == 1, 16) | Mask(h / 2 % 2 == 1, 32) | Mask(h / 4 % 2 == 1, 64) | Mask(h / 8 % 2 == 1, 128)
  }

  lemma NibbleBits(l: nat)
    requires l < 16
    ensures l == Nibble(l % 2 == 1, l / 2 % 2 == 1, l / 4 % 2 == 1, l / 8 % 2 == 1)
  {}

  lemma JoinBits(b0: bool, b1: bool, b2: bool, b3: bool, b4: bool, b5: bool, b6: bool, b7: bool)
    ensures Bits(Mask(b0, 1) | Mask(b1, 2) | Mask(b2, 4) | Mask(b3, 8)
                  | Mask(b4, 16) | Mask(b5, 32) | Mask(b6, 64) | Mask(b7, 128))
         == Nibble(b0, b1, b2, b3) + 16 * Nibble(b4, b5, b6, b7)
  {}

  lemma JoinValue(l: nat, h: nat)
    requires l < 16 && h < 16
    ensures Bits(Join(l, h)) == l + 16 * h
  {
    hide Bits, Nibble;
    JoinBits(l % 2 == 1, l / 2 % 2 == 1, l / 4 % 2 == 1, l / 8 % 2 == 1,
             h % 2 == 1, h / 2 % 2 == 1, h / 4 % 2 == 1, h / 8 % 2 == 1);
    NibbleBits(l);
    NibbleBits(h);
  }

  /** The byte holding a number below 256. */
  function ByteOf(n: nat): bv8
    requires n < 256
  {
    Join(n % 16, n / 16)
  }

  lemma ByteRoundTrip(n: nat)
    requires n < 256
    ensures Value(ByteOf(n)) == n
  {
    JoinValue(n % 16, n / 16);
    ValueIsBits(ByteOf(n));
  }

  function Word(b: Block, k: nat): (w: nat)
    requires k < WORDS
    ensures w < MAX_UINT
  {
    Value(b[4 * k]) + 0x100 * Value(b[4 * k + 1]) + 0x1_0000 * Value(b[4 * k + 2])
    + 0x100_0000 * Value(b[4 * k + 3])
  }

  function SetWord(b: Block, k: nat, v: nat): Block
    requires k < WORDS && v < MAX_UINT
  {
    b[4 * k := ByteOf(v % 0x100)][4 * k + 1 := ByteOf(v / 0x100 % 0x100)]
     [4 * k + 2 := ByteOf(v / 0x1_0000 % 0x100)][4 * k + 3 := ByteOf(v / 0x100_0000)]
  }

  lemma WordOfSet(b: Block, k: nat, v: nat)
    requires k < WORDS && v < MAX_UINT
    ensures Word(SetWord(b, k, v), k) == v
  {
    hide ByteOf, Value;
    ByteRoundTrip(v % 0x100);
    ByteRoundTrip(v / 0x100 % 0x100);
    ByteRoundTrip(v / 0x1_0000 % 0x100);
    ByteRoundTrip(v / 0x100_0000);
    Digits(v);
  }

  lemma Digits(v: nat)
    requires v < MAX_UINT
    ensures v == v % 0x100 + 0x100 * (v / 0x100 % 0x100) + 0x1_0000 * (v / 0x1_0000 % 0x100)
              + 0x100_0000 * (v / 0x100_0000)
  {
    var v1, v2, v3 := v / 0x100, v / 0x1_0000, v / 0x100_0000;
    assert v1 == v1 % 0x100 + 0x100 * v2;
    assert v2 == v2 % 0x100 + 0x100 * v3;
  }

  lemma WordFrame(b: Block, k: nat, v: nat, j: nat)
    requires k < WORDS && v < MAX_UINT && j < WORDS && j != k
    ensures Word(SetWord(b, k, v), j) == Word(b, j)
  {
    hide ByteOf, Value;
  }

  // ----- Numbers as the processor stores them, lowest byte first

  /** The number in the n bytes from at on. */
  function Little(b: seq<bv8>, at: nat, n: nat): nat
    requires at + n <= |b|
    decreases n
  {
    if n == 0 then 0 else b[at] as nat + 0x100 * Little(b, at + 1, n - 1)
  }

  /** Word k of a block is the int at byte 4k. */
  lemma WordIsLittle(b: Block, k: nat)
    requires k < WORDS
    ensures Word(b, k) == Little(b, 4 * k, 4)
  {
    var at := 4 * k;
    assert Little(b, at + 4, 0) == 0;
    assert Little(b, at + 3, 1) == b[at + 3] as nat;
    assert Little(b, at + 2, 2) == b[at + 2] as nat + 0x100 * Little(b, at + 3, 1);
    assert Little(b, at + 1, 3) == b[at + 1] as nat + 0x100 * Little(b, at + 2, 2);
    assert Little(b, at, 4) == b[at] as nat + 0x100 * Little(b, at + 1, 3);
  }

  /** Its two halves are the shorts at bytes 4k and 4k + 2. */
  lemma HalvesAreLittle(b: Block, k: nat)
    requires k < WORDS
    ensures Word(b, k) % 0x1_0000 == Little(b, 4 * k, 2) && Word(b, k) / 0x1_0000 == Little(b, 4 * k + 2, 2)
  {
    Halves(Value(b[4 * k]), Value(b[4 * k + 1]), Value(b[4 * k + 2]), Value(b[4 * k + 3]));
    Short(b, 4 * k);
    Short(b, 4 * k + 2);
    hide Value, Little;
  }

  lemma Short(b: Block, at: nat)
    requires at + 2 <= BSIZE
    ensures Little(b, at, 2) == Value(b[at]) + 0x100 * Value(b[at + 1])
  {
    assert Little(b, at + 2, 0) == 0;
    assert Little(b, at + 1, 1) == b[at + 1] as nat;
  }

  lemma Halves(w: nat, x: nat, y: nat, z: nat)
    requires w < 0x100 && x < 0x100 && y < 0x100 && z < 0x100
    ensures var v := w + 0x100 * x + 0x1_0000 * y + 0x100_0000 * z;
      v % 0x1_0000 == w + 0x100 * x && v / 0x1_0000 == y + 0x100 * z
  {}

  // ----- The disk and the requests it serves

  /** One request to the drive: a whole-block write, or a cache flush. */
  datatype Io = Write(b: nat, data: Block) | Flush

  function Apply(d: Disk, io: Io): (r: Disk)
    ensures |r| == |d|
  {
    if io.Write? && io.b < |d| then d[io.b := io.data] else d
  }

  function ApplyAll(d: Disk, ios: seq<Io>): (r: Disk)
    ensures |r| == |d|
  {
    if ios == [] then d else Apply(ApplyAll(d, ios[..|ios| - 1]), ios[|ios| - 1])
  }

  lemma ApplyLast(d: Disk, ios: seq<Io>, io: Io)
    ensures ApplyAll(d, ios + [io]) == Apply(ApplyAll(d, ios), io)
  {
    assert (ios + [io])[..|ios|] == ios;
  }

  lemma ApplyStep(d: Disk, ios: seq<Io>, w: nat)
    requires w < |ios|
    ensures ApplyAll(d, ios[..w + 1]) == Apply(ApplyAll(d, ios[..w]), ios[w])
  {
    assert ios[..w + 1] == ios[..w] + [ios[w]];
    ApplyLast(d, ios[..w], ios[w]);
  }

  lemma {:induction false} ApplyConcat(d: Disk, x: seq<Io>, y: seq<Io>)
    ensures ApplyAll(d, x + y) == ApplyAll(ApplyAll(d, x), y)
    decreases |y|
  {
    if y == [] {
      assert x + y == x;
    } else {
      var y' := y[..|y| - 1];
      assert x + y == (x + y') + [y[|y| - 1]];
      ApplyLast(d, x + y', y[|y| - 1]);
      ApplyConcat(d, x, y');
    }
  }

  /** None of the requests from i up to k writes block b. */
  ghost predicate Spared(ios: seq<Io>, i: nat, k: nat, b: nat)
    requires k <= |ios|
  {
    forall m :: i <= m < k && ios[m].Write? ==> ios[m].b != b
  }

  lemma {:induction false} ApplySpared(d: Disk, ios: seq<Io>, i: nat, k: nat, b: nat)
    requires b < |d| && i <= k <= |ios| && Spared(ios, i, k, b)
    ensures ApplyAll(d, ios[..k])[b] == ApplyAll(d, ios[..i])[b]
    decreases k
  {
    if i < k {
      ApplyStep(d, ios, k - 1);
      ApplySpared(d, ios, i, k - 1, b);
    }
  }

  /** The last of the first k requests that writes a block decides its contents. */
  lemma ApplyWritten(d: Disk, ios: seq<Io>, w: nat, k: nat)
    requires w < k <= |ios| && ios[w].Write? && ios[w].b < |d|
    requires Spared(ios, w + 1, k, ios[w].b)
    ensures ApplyAll(d, ios[..k])[ios[w].b] == ios[w].data
  {
    ApplyStep(d, ios, w);
    ApplySpared(d, ios, w + 1, k, ios[w].b);
  }

  lemma ApplyNone(d: Disk, ios: seq<Io>, k: nat, b: nat)
    requires b < |d| && k <= |ios| && Spared(ios, 0, k, b)
    ensures ApplyAll(d, ios[..k])[b] == d[b]
  {
    ApplySpared(d, ios, 0, k, b);
    assert ios[..0] == [];
  }
}
