/** The CRC-32 of log.c (section 3.2.9 of IEEE 802.3, in the table form of
    section 8 of RFC 1952): the table-driven loop, the bit-serial register it
    must agree with, and the errors it is guaranteed to detect. */
module Crc32 {

  /** The 32-bit register.  The wrapper keeps word-level facts in small lemmas. */
  datatype Reg = Reg(w: bv32)

  const POLY: Reg := Reg(0xEDB88320)
  const ALL_ONES: Reg := Reg(0xFFFFFFFF)

  function Xor(a: Reg, b: Reg): Reg { Reg(a.w ^ b.w) }
  function Half(a: Reg): Reg { Reg(a.w >> 1) }
  predicate Odd(a: Reg) { a.w & 1 == 1 }
  function Low(a: Reg): Reg { Reg(a.w & 0xFF) }
  function Upper(a: Reg): Reg { Reg(a.w & 0xFFFFFF00) }
  function High(a: Reg): Reg { Reg(a.w >> 8) }

  // ----- The reference: one message bit at a time, least significant bit first

  /** One clock of the reflected CRC register fed with one message bit. */
  function BitStep(c: Reg, bit: bool): Reg {
    if Odd(c) != bit then Xor(POLY, Half(c)) else Half(c)
  }

  function FeedBits(c: Reg, bits: seq<bool>): Reg
    decreases |bits|
  {
    if bits == [] then c else FeedBits(BitStep(c, bits[0]), bits[1..])
  }

  /** The low k bits of t, least significant first. */
  function LowBits(t: Reg, k: nat): seq<bool>
    decreases k
  {
    if k == 0 then [] else [Odd(t)] + LowBits(Half(t), k - 1)
  }

  function MessageBits(data: seq<bv8>): seq<bool> {
    if data == [] then [] else LowBits(Byte(data[0]), 8) + MessageBits(data[1..])
  }

  function ReferenceCrc(data: seq<bv8>): bv32 {
    Xor(FeedBits(ALL_ONES, MessageBits(data)), ALL_ONES).w
  }

  // ----- The register clocked a byte at a time

  function Byte(b: bv8): Reg { Reg(b as bv32) }

  function Rounds(c: Reg, k: nat): Reg
    decreases k
  {
    if k == 0 then c else Rounds(BitStep(c, false), k - 1)
  }

  function FeedByte(c: Reg, b: bv8): Reg { Rounds(Xor(c, Byte(b)), 8) }

  function Feed(c: Reg, data: seq<bv8>): Reg
    decreases |data|
  {
    if data == [] then c else Feed(FeedByte(c, data[0]), data[1..])
  }

  function Crc(data: seq<bv8>): bv32 { Xor(Feed(ALL_ONES, data), ALL_ONES).w }

  // ----- The checksum as a stored uint

  function Number(a: bv32): nat { a as nat }

  function FromNumber(n: nat): bv32
    requires n < 0x1_0000_0000
  {
    n as bv32
  }

  lemma NumberBack(a: bv32) ensures Number(a) < 0x1_0000_0000 && FromNumber(Number(a)) == a {}

  lemma NumberInjective(a: bv32, b: bv32)
    requires Number(a) == Number(b)
    ensures a == b
  {
    hide Number, FromNumber;
    NumberBack(a);
    NumberBack(b);
  }

  // ----- Register algebra

  lemma OddXor(s: Reg, t: Reg) ensures Odd(Xor(s, t)) == (Odd(s) != Odd(t)) {}
  lemma HalfXor(s: Reg, t: Reg) ensures Half(Xor(s, t)) == Xor(Half(s), Half(t)) {}
  lemma XorAssoc(a: Reg, b: Reg, c: Reg) ensures Xor(a, Xor(b, c)) == Xor(Xor(a, b), c) {}
  lemma XorZero(a: Reg) ensures Xor(a, Reg(0)) == a {}
  lemma XorCancel(a: Reg, b: Reg, m: Reg) requires Xor(a, m) == Xor(b, m) ensures a == b {}

  /** A word xored into the register ahead of time surfaces one bit per clock. */
  lemma StepXor(s: Reg, t: Reg)
    ensures BitStep(Xor(s, t), false) == Xor(BitStep(s, Odd(t)), Half(t))
  {
    OddXor(s, t);
    HalfXor(s, t);
    XorAssoc(POLY, Half(s), Half(t));
  }

  function ShiftDown(t: Reg, k: nat): Reg
    decreases k
  {
    if k == 0 then t else ShiftDown(Half(t), k - 1)
  }

  /** Xoring a word into the register up front is the same as feeding its low
      bits one per clock and xoring in what is left of it at the end. */
  lemma {:induction false} RoundsXor(s: Reg, t: Reg, k: nat)
    ensures Rounds(Xor(s, t), k) == Xor(FeedBits(s, LowBits(t, k)), ShiftDown(t, k))
    decreases k
  {
    if k > 0 {
      StepXor(s, t);
      RoundsXor(BitStep(s, Odd(t)), Half(t), k - 1);
      assert LowBits(t, k) == [Odd(t)] + LowBits(Half(t), k - 1);
    }
  }

  lemma EightHalves(t: Reg) ensures Half(Half(Half(Half(Half(Half(Half(Half(t)))))))) == High(t) {}

  lemma ShiftDownFour(t: Reg, k: nat)
    requires k >= 4
    ensures ShiftDown(t, k) == ShiftDown(Half(Half(Half(Half(t)))), k - 4)
  {
    var t2 := Half(Half(t));
    assert ShiftDown(t, k) == ShiftDown(t2, k - 2);
    assert ShiftDown(t2, k - 2) == ShiftDown(Half(Half(t2)), k - 4);
  }

  lemma ShiftDownByte(t: Reg)
    ensures ShiftDown(t, 8) == High(t)
  {
    ShiftDownFour(t, 8);
    ShiftDownFour(Half(Half(Half(Half(t)))), 4);
    EightHalves(t);
  }

  lemma ByteHasNoHigh(b: bv8) ensures High(Byte(b)) == Reg(0) {}

  // ----- The byte-wise register agrees with the bit-serial one

  lemma {:induction false} FeedBitsConcat(c: Reg, x: seq<bool>, y: seq<bool>)
    ensures FeedBits(c, x + y) == FeedBits(FeedBits(c, x), y)
    decreases |x|
  {
    if x == [] {
      assert x + y == y;
    } else {
      assert (x + y)[1..] == x[1..] + y;
      FeedBitsConcat(BitStep(c, x[0]), x[1..], y);
    }
  }

  lemma {:induction false} FeedIsBitSerial(c: Reg, data: seq<bv8>)
    ensures Feed(c, data) == FeedBits(c, MessageBits(data))
    decreases |data|
  {
    if data != [] {
      var t := Byte(data[0]);
      RoundsXor(c, t, 8);
      ShiftDownByte(t);
      ByteHasNoHigh(data[0]);
      XorZero(FeedBits(c, LowBits(t, 8)));
      FeedBitsConcat(c, LowBits(t, 8), MessageBits(data[1..]));
      FeedIsBitSerial(FeedByte(c, data[0]), data[1..]);
    }
  }

  lemma CrcIsReference(data: seq<bv8>)
    ensures Crc(data) == ReferenceCrc(data)
  {
    FeedIsBitSerial(ALL_ONES, data);
  }

  // ----- Bits above the low byte pass through eight clocks unchanged

  lemma TwoLowBits(y: Reg, k: nat)
    requires k >= 2 && y.w & 3 == 0
    ensures LowBits(y, k) == [false, false] + LowBits(Half(Half(y)), k - 2)
  {
    assert !Odd(y) && !Odd(Half(y));
    assert LowBits(y, k) == [false] + LowBits(Half(y), k - 1);
  }

  lemma LowBitsOfHigh(y: Reg)
    requires Low(y) == Reg(0)
    ensures LowBits(y, 8) == LowBits(Reg(0), 8)
  {
    var y2 := Half(Half(y));
    var y4 := Half(Half(y2));
    TwoLowBits(y, 8);
    TwoLowBits(y2, 6);
    TwoLowBits(y4, 4);
    TwoLowBits(Half(Half(y4)), 2);
  }

  lemma RoundsHigh(s: Reg, y: Reg)
    requires Low(y) == Reg(0)
    ensures Rounds(Xor(s, y), 8) == Xor(Rounds(s, 8), High(y))
  {
    RoundsXor(s, y, 8);
    RoundsXor(s, Reg(0), 8);
    ShiftDownByte(y);
    ShiftDownByte(Reg(0));
    XorZero(s);
    LowBitsOfHigh(y);
    XorZero(FeedBits(s, LowBits(y, 8)));
  }

  lemma LowUpper(c: Reg) ensures Xor(Low(c), Upper(c)) == c {}
  lemma LowOfUpper(c: Reg) ensures Low(Upper(c)) == Reg(0) {}
  lemma HighOfUpper(c: Reg) ensures High(Upper(c)) == High(c) {}

  /** The identity behind the lookup table. */
  lemma RoundsByTable(c: Reg)
    ensures Rounds(c, 8) == Xor(Rounds(Low(c), 8), High(c))
  {
    LowUpper(c);
    LowOfUpper(c);
    HighOfUpper(c);
    RoundsHigh(Low(c), Upper(c));
  }

  // ----- crc32_init and crc32

  function Word(i: nat): Reg
    requires i < 256
  {
    Reg(i as bv32)
  }

  /** The table slot a register selects. */
  function Index(x: Reg): nat { Low(x).w as nat }

  lemma WordOfIndex(x: Reg)
    ensures Index(x) < 256 && Word(Index(x)) == Low(x)
  {
    assert Low(x).w <= 255;
    IndexBack(Low(x).w);
  }

  lemma IndexBack(w: bv32) ensures (w as nat) as bv32 == w {}

  ghost predicate IsTable(table: seq<Reg>) {
    && |table| == 256
    && forall i :: 0 <= i < 256 ==> table[i] == Rounds(Word(i), 8)
  }

  /** crc32_init: its inner loop clocks one entry eight times. */
  method TableEntry(w: Reg) returns (c: Reg)
    ensures c == Rounds(w, 8)
  {
    c := w;
    var j := 0;
    while j < 8
      invariant 0 <= j <= 8
      invariant Rounds(c, 8 - j) == Rounds(w, 8)
    {
      c := if Odd(c) then Xor(POLY, Half(c)) else Half(c);
      j := j + 1;
    }
  }

  method InitTable() returns (table: array<Reg>)
    ensures fresh(table) && IsTable(table[..])
  {
    table := new Reg[256];
    hide Rounds, Word;
    var i := 0;
    while i < 256
      invariant 0 <= i <= 256
      invariant forall k :: 0 <= k < i ==> table[k] == Rounds(Word(k), 8)
    {
      var c := TableEntry(Word(i));
      table[i] := c;
      i := i + 1;
    }
  }

  lemma HighIgnoresByte(c: Reg, b: bv8) ensures High(Xor(c, Byte(b))) == High(c) {}

  /** One turn of the loop in crc32. */
  lemma TableStep(table: seq<Reg>, crc: Reg, b: bv8)
    requires IsTable(table)
    ensures var k := Index(Xor(crc, Byte(b)));
      k < 256 && Xor(table[k], High(crc)) == FeedByte(crc, b)
  {
    var x := Xor(crc, Byte(b));
    WordOfIndex(x);
    RoundsByTable(x);
    HighIgnoresByte(crc, b);
  }

  /** crc32: the loop over the bytes computes the reference checksum. */
  method Checksum(table: array<Reg>, data: seq<bv8>) returns (r: bv32)
    requires IsTable(table[..])
    ensures r == ReferenceCrc(data)
  {
    var crc := ALL_ONES;
    var i := 0;
    while i < |data|
      invariant 0 <= i <= |data|
      invariant Feed(crc, data[i..]) == Feed(ALL_ONES, data)
    {
      TableStep(table[..], crc, data[i]);
      crc := Xor(table[Index(Xor(crc, Byte(data[i])))], High(crc));
      i := i + 1;
    }
    r := Xor(crc, ALL_ONES).w;
    CrcIsReference(data);
  }

  // ----- What the checksum detects

  lemma StepInjective(a: Reg, b: Reg)
    requires BitStep(a, false) == BitStep(b, false)
    ensures a == b
  {}

  lemma {:induction false} RoundsInjective(a: Reg, b: Reg, k: nat)
    requires Rounds(a, k) == Rounds(b, k)
    ensures a == b
    decreases k
  {
    if k > 0 {
      RoundsInjective(BitStep(a, false), BitStep(b, false), k - 1);
      StepInjective(a, b);
    }
  }

  /** Distinct registers stay distinct while the same bytes are fed to both. */
  lemma {:induction false} FeedInjective(c: Reg, d: Reg, data: seq<bv8>)
    requires Feed(c, data) == Feed(d, data)
    ensures c == d
    decreases |data|
  {
    if data != [] {
      FeedInjective(FeedByte(c, data[0]), FeedByte(d, data[0]), data[1..]);
      RoundsInjective(Xor(c, Byte(data[0])), Xor(d, Byte(data[0])), 8);
      XorCancel(c, d, Byte(data[0]));
    }
  }

  lemma {:induction false} FeedConcat(c: Reg, x: seq<bv8>, y: seq<bv8>)
    ensures Feed(c, x + y) == Feed(Feed(c, x), y)
    decreases |x|
  {
    if x == [] {
      assert x + y == y;
    } else {
      assert (x + y)[1..] == x[1..] + y;
      FeedConcat(FeedByte(c, x[0]), x[1..], y);
    }
  }

  function ShiftUp(a: Reg): Reg { Reg(a.w << 8) }

  /** Up to four bytes as one little-endian word. */
  function Pack(w: seq<bv8>): Reg {
    if w == [] then Reg(0) else Xor(Byte(w[0]), ShiftUp(Pack(w[1..])))
  }

  /** The word has at most k significant bytes. */
  predicate Fits(a: Reg, k: nat) {
    && (k == 0 ==> a == Reg(0))
    && (k == 1 ==> a.w & 0xFFFFFF00 == 0)
    && (k == 2 ==> a.w & 0xFFFF0000 == 0)
    && (k == 3 ==> a.w & 0xFF000000 == 0)
  }

  lemma ShiftUpLow(a: Reg) ensures Low(ShiftUp(a)) == Reg(0) {}
  lemma ShiftUpHigh(a: Reg) requires a.w & 0xFF000000 == 0 ensures High(ShiftUp(a)) == a {}

  lemma FitsHigh(a: Reg, k: nat)
    requires k < 4 && Fits(a, k)
    ensures a.w & 0xFF000000 == 0
  {}

  lemma FitsShift(a: Reg, b: bv8, k: nat)
    requires k < 4 && Fits(a, k)
    ensures Fits(Xor(Byte(b), ShiftUp(a)), k + 1)
  {}

  lemma FitsXor(a: Reg, b: Reg, k: nat)
    requires Fits(a, k) && Fits(b, k)
    ensures Fits(Xor(a, b), k)
  {
    if k == 1 { MaskXor(a.w, b.w, 0xFFFFFF00); }
    if k == 2 { MaskXor(a.w, b.w, 0xFFFF0000); }
    if k == 3 { MaskXor(a.w, b.w, 0xFF000000); }
  }

  lemma MaskXor(a: bv32, b: bv32, m: bv32)
    requires a & m == 0 && b & m == 0
    ensures (a ^ b) & m == 0
  {}

  lemma {:induction false} PackFits(w: seq<bv8>)
    requires |w| <= 4
    ensures Fits(Pack(w), |w|)
  {
    if w != [] {
      PackFits(w[1..]);
      FitsShift(Pack(w[1..]), w[0], |w| - 1);
    }
  }

  lemma ShiftUpXor(a: Reg, b: Reg) ensures ShiftUp(Xor(a, b)) == Xor(ShiftUp(a), ShiftUp(b)) {}
  lemma XorSelf(a: Reg) ensures Xor(a, a) == Reg(0) {}
  lemma XorComm(a: Reg, b: Reg) ensures Xor(a, b) == Xor(b, a) {}
  lemma XorMove(a: Reg, b: Reg, c: Reg) requires Xor(a, b) == c ensures b == Xor(a, c) {}

  /** Two windows of at most four bytes that lead to the same register must
      have started from registers that differ by exactly their difference. */
  lemma {:induction false} WindowDifference(c: Reg, d: Reg, x: seq<bv8>, y: seq<bv8>)
    requires |x| == |y| <= 4
    requires Feed(c, x) == Feed(d, y)
    ensures Xor(c, d) == Xor(Pack(x), Pack(y))
    decreases |x|
  {
    if x == [] {
      XorSelf(c);
      XorSelf(Reg(0));
    } else {
      var e := Xor(Pack(x[1..]), Pack(y[1..]));
      WindowDifference(FeedByte(c, x[0]), FeedByte(d, y[0]), x[1..], y[1..]);
      PackFits(x[1..]);
      PackFits(y[1..]);
      FitsXor(Pack(x[1..]), Pack(y[1..]), |x| - 1);
      FitsHigh(e, |x| - 1);
      UndoByte(Xor(c, Byte(x[0])), Xor(d, Byte(y[0])), e);
      ShiftUpXor(Pack(x[1..]), Pack(y[1..]));
      Regroup(c, d, Byte(x[0]), Byte(y[0]), ShiftUp(Pack(x[1..])), ShiftUp(Pack(y[1..])));
    }
  }

  /** Eight clocks backwards. */
  lemma UndoByte(p: Reg, q: Reg, e: Reg)
    requires Xor(Rounds(p, 8), Rounds(q, 8)) == e && e.w & 0xFF000000 == 0
    ensures q == Xor(p, ShiftUp(e))
  {
    ShiftUpLow(e);
    ShiftUpHigh(e);
    RoundsHigh(p, ShiftUp(e));
    XorMove(Rounds(p, 8), Rounds(q, 8), e);
    RoundsInjective(q, Xor(p, ShiftUp(e)), 8);
  }

  lemma Regroup(c: Reg, d: Reg, x: Reg, y: Reg, u: Reg, v: Reg)
    requires Xor(d, y) == Xor(Xor(c, x), Xor(u, v))
    ensures Xor(c, d) == Xor(Xor(x, u), Xor(y, v))
  {
    XorComm(d, y);
    XorMove(y, d, Xor(Xor(c, x), Xor(u, v)));
    Shuffle(c, x, u, v, y);
  }

  lemma Shuffle(c: Reg, x: Reg, u: Reg, v: Reg, y: Reg)
    ensures Xor(c, Xor(y, Xor(Xor(c, x), Xor(u, v)))) == Xor(Xor(x, u), Xor(y, v))
  {
    var t := Xor(u, v);
    XorAssoc(c, x, t);
    XorSwap(c, y, Xor(c, Xor(x, t)));
    XorTwice(c, Xor(x, t));
    XorSwap(y, x, t);
    XorSwap(y, u, v);
    XorAssoc(x, u, Xor(y, v));
  }

  lemma XorSwap(a: Reg, b: Reg, m: Reg) ensures Xor(a, Xor(b, m)) == Xor(b, Xor(a, m)) {}
  lemma XorTwice(a: Reg, m: Reg) ensures Xor(a, Xor(a, m)) == m {}

  lemma PackSplit(a: bv8, b: bv8, u: Reg, v: Reg)
    requires Xor(Byte(a), ShiftUp(u)) == Xor(Byte(b), ShiftUp(v))
    requires u.w & 0xFF000000 == 0 && v.w & 0xFF000000 == 0
    ensures a == b && u == v
  {}

  lemma PackUnfold(w: seq<bv8>)
    requires w != []
    ensures Pack(w) == Xor(Byte(w[0]), ShiftUp(Pack(w[1..])))
  {
    hide Xor, ShiftUp, Byte;
  }

  lemma PackHead(x: seq<bv8>, y: seq<bv8>)
    requires 0 < |x| == |y| <= 4 && Pack(x) == Pack(y)
    ensures x[0] == y[0] && Pack(x[1..]) == Pack(y[1..])
  {
    hide Fits, Pack, Xor, ShiftUp, Byte;
    PackUnfold(x);
    PackUnfold(y);
    PackFits(x[1..]);
    PackFits(y[1..]);
    FitsHigh(Pack(x[1..]), |x| - 1);
    FitsHigh(Pack(y[1..]), |x| - 1);
    PackSplit(x[0], y[0], Pack(x[1..]), Pack(y[1..]));
  }

  lemma {:induction false} PackInjective(x: seq<bv8>, y: seq<bv8>)
    requires |x| == |y| <= 4 && Pack(x) == Pack(y)
    ensures x == y
  {
    if x != [] {
      PackHead(x, y);
      PackInjective(x[1..], y[1..]);
      assert x == [x[0]] + x[1..] && y == [y[0]] + y[1..];
    }
  }

  /** Any damage confined to at most four consecutive bytes changes the checksum. */
  lemma DetectsWindow(before: seq<bv8>, x: seq<bv8>, y: seq<bv8>, after: seq<bv8>)
    requires |x| == |y| <= 4 && x != y
    ensures Crc(before + x + after) != Crc(before + y + after)
  {
    if Crc(before + x + after) == Crc(before + y + after) {
      XorCancel(Feed(ALL_ONES, before + x + after), Feed(ALL_ONES, before + y + after), ALL_ONES);
      FeedConcat(ALL_ONES, before + x, after);
      FeedConcat(ALL_ONES, before + y, after);
      FeedConcat(ALL_ONES, before, x);
      FeedConcat(ALL_ONES, before, y);
      var c := Feed(ALL_ONES, before);
      FeedInjective(Feed(c, x), Feed(c, y), after);
      WindowDifference(c, c, x, y);
      XorSelf(c);
      XorSelf(Pack(y));
      XorCancel(Pack(x), Pack(y), Pack(y));
      PackInjective(x, y);
      assert false;
    }
  }

  /** Four bytes is the exact limit: adding the generator polynomial, which is
      thirty-three bits long, to a five-byte slice goes unnoticed. */
  lemma FiveBytesCanCollide()
    ensures Crc([0, 0, 0, 0, 0]) == Crc([0x41, 0x06, 0x71, 0xDB, 0x01])
  {
    assert FeedByte(Reg(0xFFFFFFFF), 0x0) == Reg(0x2DFD1072);
    assert FeedByte(Reg(0x2DFD1072), 0x0) == Reg(0xBE26ED00);
    assert FeedByte(Reg(0xBE26ED00), 0x0) == Reg(0xBE26ED);
    assert FeedByte(Reg(0xBE26ED), 0x0) == Reg(0xDEBB20E3);
    assert FeedByte(Reg(0xDEBB20E3), 0x0) == Reg(0x39DD08E2);
    assert FeedByte(Reg(0xFFFFFFFF), 0x41) == Reg(0x2C266174);
    assert FeedByte(Reg(0x2C266174), 0x6) == Reg(0xBE273671);
    assert FeedByte(Reg(0xBE273671), 0x71) == Reg(0xBE2736);
    assert FeedByte(Reg(0xBE2736), 0xDB) == Reg(0xDEBB20E2);
    assert FeedByte(Reg(0xDEBB20E2), 0x1) == Reg(0x39DD08E2);
  }

  lemma FeedThree(c: Reg, x: bv8, y: bv8, z: bv8, more: seq<bv8>)
    ensures Feed(c, [x, y, z] + more) == Feed(FeedByte(FeedByte(FeedByte(c, x), y), z), more)
  {
    hide FeedByte;
    FeedOne(c, x, [y, z] + more);
    FeedOne(FeedByte(c, x), y, [z] + more);
    FeedOne(FeedByte(FeedByte(c, x), y), z, more);
    hide Feed;
    assert [x, y, z] + more == [x] + ([y, z] + more) && [y, z] + more == [y] + ([z] + more);
  }

  lemma FeedOne(c: Reg, x: bv8, more: seq<bv8>)
    ensures Feed(c, [x] + more) == Feed(FeedByte(c, x), more)
  {
    hide FeedByte;
    assert ([x] + more)[1..] == more;
  }

  lemma FirstDigits()
    ensures FeedByte(FeedByte(FeedByte(Reg(0xFFFFFFFF), 0x31), 0x32), 0x33) == Reg(0x77B79C2D)
  {
    assert FeedByte(Reg(0xFFFFFFFF), 0x31) == Reg(0x7C231048);
    assert FeedByte(Reg(0x7C231048), 0x32) == Reg(0xB0ACBB32);
    assert FeedByte(Reg(0xB0ACBB32), 0x33) == Reg(0x77B79C2D);
  }

  lemma MiddleDigits()
    ensures FeedByte(FeedByte(FeedByte(Reg(0x77B79C2D), 0x34), 0x35), 0x36) == Reg(0xF68D2C9E)
  {
    assert FeedByte(Reg(0x77B79C2D), 0x34) == Reg(0x641C1F5C);
    assert FeedByte(Reg(0x641C1F5C), 0x35) == Reg(0x340AC5E3);
    assert FeedByte(Reg(0x340AC5E3), 0x36) == Reg(0xF68D2C9E);
  }

  lemma LastDigits()
    ensures FeedByte(FeedByte(FeedByte(Reg(0xF68D2C9E), 0x37), 0x38), 0x39) == Reg(0x340BC6D9)
  {
    assert FeedByte(Reg(0xF68D2C9E), 0x37) == Reg(0xAFFC9660);
    assert FeedByte(Reg(0xAFFC9660), 0x38) == Reg(0x651F2550);
    assert FeedByte(Reg(0x651F2550), 0x39) == Reg(0x340BC6D9);
  }

  /** The check value that catalogues of CRCs give for this one: the digits 1 to 9. */
  lemma CheckValue()
    ensures ReferenceCrc([0x31, 0x32, 0x33, 0x34, 0x35, 0x36, 0x37, 0x38, 0x39]) == 0xCBF43926
  {
    hide MessageBits, FeedBits, FeedByte, Feed;
    var data: seq<bv8> := [0x31, 0x32, 0x33, 0x34, 0x35, 0x36, 0x37, 0x38, 0x39];
    CrcIsReference(data);
    FirstDigits();
    MiddleDigits();
    LastDigits();
    FeedThree(ALL_ONES, 0x31, 0x32, 0x33, [0x34, 0x35, 0x36] + ([0x37, 0x38, 0x39] + []));
    FeedThree(Reg(0x77B79C2D), 0x34, 0x35, 0x36, [0x37, 0x38, 0x39] + []);
    FeedThree(Reg(0xF68D2C9E), 0x37, 0x38, 0x39, []);
    assert data == [0x31, 0x32, 0x33] + ([0x34, 0x35, 0x36] + ([0x37, 0x38, 0x39] + []));
    assert Feed(Reg(0x340BC6D9), []) == Reg(0x340BC6D9) by { FeedNone(Reg(0x340BC6D9)); }
  }

  lemma FeedNone(c: Reg) ensures Feed(c, []) == c {}
}
