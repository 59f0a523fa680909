/** Recovery over a log slot that was damaged after it was written. */
module Damage {
  import opened Blocks
  import opened LogHeader
  import opened CrashSafety
  import Crc32

  /** The slot of entry i still has the checksum recorded for it. */
  ghost predicate Intact(g: Geometry, d: Disk, lh: seq<Entry>, i: nat)
    requires GeometryOk(g) && |d| == g.size && ReplayableLog(g, lh) && i < |lh|
  {
    Checksum(Slice(d[g.start + 1 + i], lh[i].off, lh[i].len)) == lh[i].cksum
  }

  ghost function Installed(g: Geometry, d: Disk, lh: seq<Entry>, i: nat): Block
    requires GeometryOk(g) && |d| == g.size && ReplayableLog(g, lh) && i < |lh|
  {
    var b := lh[i].block;
    if Intact(g, d, lh, i) then Splice(d[b], d[g.start + 1 + i], lh[i].off, lh[i].len) else d[b]
  }

  lemma GoodIsReplayable(g: Geometry, lh: seq<Entry>)
    requires GeometryOk(g) && GoodLog(g, lh)
    ensures ReplayableLog(g, lh)
  {
    assert forall i :: 0 <= i < |lh| ==> GoodEntry(g, lh[i]);
  }

  /** One block after the first t entries have been replayed: an entry with a
      wrong checksum leaves its block alone, the others copy their slice. */
  lemma {:induction false} InstallEffect(g: Geometry, d: Disk, lh: seq<Entry>, t: nat, b: nat)
    requires GeometryOk(g) && |d| == g.size && GoodLog(g, lh) && ReplayableLog(g, lh) && t <= |lh| && b < g.size
    ensures var c := ApplyAll(d, InstallIos(g, d, lh, t));
      && (forall i :: 0 <= i < t && lh[i].block == b ==> c[b] == Installed(g, d, lh, i))
      && ((forall i :: 0 <= i < t ==> lh[i].block != b) ==> c[b] == d[b])
  {
    hide Installed, InstallOne, Apply;
    assert forall m :: 0 <= m < |lh| ==> GoodEntry(g, lh[m]);
    if t > 0 {
      var i := t - 1;
      InstallEffect(g, d, lh, i, b);
      InstallEffect(g, d, lh, i, g.start + 1 + i);
      InstallEffect(g, d, lh, i, lh[i].block);
      InstallEffectStep(g, d, lh, i);
    }
  }

  lemma InstallEffectStep(g: Geometry, d: Disk, lh: seq<Entry>, i: nat)
    requires GeometryOk(g) && |d| == g.size && GoodLog(g, lh) && ReplayableLog(g, lh) && i < |lh|
    requires var c := ApplyAll(d, InstallIos(g, d, lh, i));
      c[g.start + 1 + i] == d[g.start + 1 + i] && c[lh[i].block] == d[lh[i].block]
    ensures ApplyAll(d, InstallIos(g, d, lh, i + 1))
         == ApplyAll(d, InstallIos(g, d, lh, i))[lh[i].block := Installed(g, d, lh, i)]
  {
    hide Splice, Slice, Checksum;
    var sent := InstallIos(g, d, lh, i);
    var c := ApplyAll(d, sent);
    var one := InstallOne(g, c, lh, i);
    ApplyConcat(d, sent, one);
    ApplyOne(c, one);
    assert InstallIos(g, d, lh, i + 1) == sent + one;
  }

  lemma ApplyOne(d: Disk, ios: seq<Io>)
    requires |ios| <= 1
    ensures ApplyAll(d, ios) == if ios == [] then d else Apply(d, ios[0])
  {
    if ios != [] { assert ios == [] + [ios[0]]; ApplyLast(d, [], ios[0]); }
  }

  /** A completed recovery, block by block. */
  lemma RecoveryEffect(g: Geometry, d: Disk, lh: seq<Entry>, final: Disk, b: nat)
    requires GeometryOk(g) && |d| == g.size && GoodLog(g, lh) && IsHome(g, b)
    requires HeadOk(d[g.start]) && ReadHead(d[g.start]) == lh && FullRecovery(g, d, final)
    ensures |final| == g.size && ReplayableLog(g, lh)
    ensures forall i :: 0 <= i < |lh| && lh[i].block == b ==> final[b] == Installed(g, d, lh, i)
    ensures (forall i :: 0 <= i < |lh| ==> lh[i].block != b) ==> final[b] == d[b]
  {
    hide HeadOk, ReadHead, Installed, InstallIos;
    GoodIsReplayable(g, lh);
    var tr :| RecoverTrace(g, d, tr) && final == ApplyAll(d, tr);
    var sent := InstallIos(g, d, lh, |lh|);
    InstallEffect(g, d, lh, |lh|, b);
    assert tr == sent + [tr[|sent|]];
    ApplyLast(d, sent, tr[|sent|]);
  }

  // ----- A burst of up to four damaged bytes

  /** Two blocks that agree outside bytes p .. p + 3. */
  ghost predicate Burst(x: Block, y: Block, p: nat) {
    forall j :: 0 <= j < BSIZE && !(p <= j < p + 4) ==> x[j] == y[j]
  }

  function Clamp(v: int, hi: nat): nat { if v < 0 then 0 else if v > hi then hi else v }

  lemma BurstChangesChecksum(x: Block, y: Block, p: nat, off: nat, len: nat)
    requires off + len <= BSIZE && Burst(x, y, p) && Slice(x, off, len) != Slice(y, off, len)
    ensures Checksum(Slice(x, off, len)) != Checksum(Slice(y, off, len))
  {
    hide Crc32.Crc;
    var s, t := Slice(x, off, len), Slice(y, off, len);
    var lo, hi := Clamp(p - off, len), Clamp(p + 4 - off, len);
    SameEnds(x, y, p, off, len);
    Crc32.DetectsWindow(s[..lo], s[lo..hi], t[lo..hi], s[hi..]);
    if Checksum(s) == Checksum(t) {
      Crc32.NumberInjective(Crc32.Crc(s), Crc32.Crc(t));
      assert false;
    }
  }

  lemma SameEnds(x: Block, y: Block, p: nat, off: nat, len: nat)
    requires off + len <= BSIZE && Burst(x, y, p) && Slice(x, off, len) != Slice(y, off, len)
    ensures var s, t := Slice(x, off, len), Slice(y, off, len);
      var lo, hi := Clamp(p - off, len), Clamp(p + 4 - off, len);
      && lo <= hi <= len && hi - lo <= 4 && s[..lo] == t[..lo] && s[hi..] == t[hi..]
      && s[lo..hi] != t[lo..hi]
      && s == s[..lo] + s[lo..hi] + s[hi..] && t == s[..lo] + t[lo..hi] + s[hi..]
  {
    var s, t := Slice(x, off, len), Slice(y, off, len);
    var lo, hi := Clamp(p - off, len), Clamp(p + 4 - off, len);
    assert s[..lo] == t[..lo] by {
      forall j | 0 <= j < lo ensures s[j] == t[j] { assert x[off + j] == y[off + j]; }
    }
    assert s[hi..] == t[hi..] by {
      forall j | hi <= j < len ensures s[j] == t[j] { assert x[off + j] == y[off + j]; }
    }
    Cut(s, lo, hi);
    Cut(t, lo, hi);
  }

  lemma Cut(s: seq<bv8>, lo: nat, hi: nat)
    requires lo <= hi <= |s|
    ensures s == s[..lo] + s[lo..hi] + s[hi..]
  {}

  /** A committed log with one slot hit by a burst: recovery rebuilds every
      other block in full, and the one block either in full, when the burst
      missed the logged slice, or not at all. */
  lemma DamagedSlot(g: Geometry, pre: Disk, view: Disk, lh: seq<Entry>, d: Disk, i: nat, x: Block, p: nat, final: Disk)
    requires Ready(g, pre, view, lh) && Committed(g, pre, view, lh, d) && i < |lh|
    requires Burst(d[g.start + 1 + i], x, p)
    requires FullRecovery(g, d[g.start + 1 + i := x], final)
    ensures |final| == g.size
    ensures forall b: nat :: IsHome(g, b) && b != lh[i].block ==> final[b] == view[b]
    ensures final[lh[i].block]
         == if Slice(x, lh[i].off, lh[i].len) == Slice(view[lh[i].block], lh[i].off, lh[i].len)
            then view[lh[i].block] else d[lh[i].block]
  {
    hide HeadOk, ReadHead, Covered, Cleared, Checksum, FullRecovery, Burst;
    var s := Sealed(view, lh);
    var hit := d[g.start + 1 + i := x];
    SealedGood(g, view, lh);
    GoodIsReplayable(g, s);
    assert forall m :: 0 <= m < |lh| ==> GoodEntry(g, lh[m]);
    forall b: nat | IsHome(g, b) && b != lh[i].block
      ensures |final| == g.size && final[b] == view[b]
    {
      RecoveryEffect(g, hit, s, final, b);
      if m :| 0 <= m < |lh| && lh[m].block == b {
        assert SlotHolds(g, view, lh, d, m);
        InstallBlock(g, pre, view, lh, m, d[b], hit[g.start + 1 + m]);
        assert final[b] == Installed(g, hit, s, m);
      } else {
        NotLogged(g, pre, view, lh, b);
      }
    }
    var c := lh[i].block;
    RecoveryEffect(g, hit, s, final, c);
    assert final[c] == Installed(g, hit, s, i);
    assert SlotHolds(g, view, lh, d, i);
    if Slice(x, lh[i].off, lh[i].len) == Slice(view[c], lh[i].off, lh[i].len) {
      InstallBlock(g, pre, view, lh, i, d[c], x);
    } else {
      BurstChangesChecksum(d[g.start + 1 + i], x, p, lh[i].off, lh[i].len);
    }
  }

  lemma SealedGood(g: Geometry, view: Disk, lh: seq<Entry>)
    requires GeometryOk(g) && |view| == g.size && GoodLog(g, lh)
    ensures GoodLog(g, Sealed(view, lh))
  {
    assert forall i :: 0 <= i < |lh| ==> GoodEntry(g, lh[i]);
    forall i | 0 <= i < |lh| ensures GoodEntry(g, Sealed(view, lh)[i]) {}
  }
}
