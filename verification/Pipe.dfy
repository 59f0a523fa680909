/** The pipe of pipe.c: a ring of bytes under 32-bit counters. A method is one
    stretch of pipewrite or piperead between taking p->lock and giving it up, or a
    kill; readers and writers that interleave and get killed are a sequence of calls. */
module Pipe {
  import opened Basics

  const PIPESIZE := 512
  const WORD := 0x1_0000_0000

  /** How a stretch ends: the call returns n, it returns -1, or it sleeps. */
  datatype Outcome = Done(n: nat) | Failed | Asleep

  lemma Slot(n: nat)
    ensures n % WORD % PIPESIZE == n % PIPESIZE
  {
    assert n == n / WORD * 0x80_0000 * PIPESIZE + n % WORD;
    SlotOf(n / WORD * 0x80_0000, n % WORD);
  }

  lemma {:induction false} SlotOf(q: nat, r: nat)
    ensures (q * PIPESIZE + r) % PIPESIZE == r % PIPESIZE
  {
    if q > 0 {
      SlotOf(q - 1, r);
      assert q * PIPESIZE + r == (q - 1) * PIPESIZE + r + PIPESIZE;
    }
  }

  /** The test for a full pipe survives the counters' wrapping. */
  lemma FullTest(r: nat, w: nat)
    requires r <= w <= r + PIPESIZE
    ensures w % WORD == (r % WORD + PIPESIZE) % WORD <==> w == r + PIPESIZE
    ensures w % WORD == r % WORD <==> w == r
  {}

  lemma Bump(n: nat)
    ensures (n % WORD + 1) % WORD == (n + 1) % WORD
  {}

  /** Distinct bytes in flight have distinct places. */
  lemma Apart(j: nat, k: nat)
    requires j < k < j + PIPESIZE
    ensures j % PIPESIZE != k % PIPESIZE
  {}

  /** The bytes of the ring from nread on, nwrite - nread of them. */
  ghost function Held(d: seq<bv8>, nread: nat, nwrite: nat): (h: seq<bv8>)
    requires |d| == PIPESIZE
    ensures |h| == (nwrite - nread) % WORD
  {
    seq((nwrite - nread) % WORD, i requires i >= 0 => d[(nread + i) % WORD % PIPESIZE])
  }

  lemma HeldAt(d: seq<bv8>, r: nat, w: nat, i: nat)
    requires |d| == PIPESIZE && r + i < w <= r + PIPESIZE
    ensures |Held(d, r % WORD, w % WORD)| == w - r && Held(d, r % WORD, w % WORD)[i] == d[(r + i) % PIPESIZE]
  {
    Ahead(r, w - r);
    Ahead(r, i);
    Slot(r + i);
  }

  /** The ring d and the two counters hold what was accepted and not yet delivered. */
  ghost predicate Rings(d: seq<bv8>, nread: nat, nwrite: nat, accepted: seq<bv8>, delivered: seq<bv8>) {
    && |d| == PIPESIZE
    && |delivered| <= |accepted| <= |delivered| + PIPESIZE
    && nread == |delivered| % WORD && nwrite == |accepted| % WORD
    && delivered == accepted[..|delivered|]
    && (forall k: nat :: |delivered| <= k < |accepted| ==> d[k % PIPESIZE] == accepted[k])
  }

  /** The two tests of the code say full and empty. */
  lemma RingTests(d: seq<bv8>, nread: nat, nwrite: nat, accepted: seq<bv8>, delivered: seq<bv8>)
    requires Rings(d, nread, nwrite, accepted, delivered)
    ensures |d| == PIPESIZE && |delivered| <= |accepted| <= |delivered| + PIPESIZE
    ensures nwrite == (nread + PIPESIZE) % WORD <==> |accepted| == |delivered| + PIPESIZE
    ensures nread == nwrite <==> |accepted| == |delivered|
  {
    FullTest(|delivered|, |accepted|);
  }

  lemma Store(d: seq<bv8>, nread: nat, nwrite: nat, accepted: seq<bv8>, delivered: seq<bv8>, x: bv8)
    requires Rings(d, nread, nwrite, accepted, delivered) && |accepted| < |delivered| + PIPESIZE
    ensures Rings(d[nwrite % PIPESIZE := x], nread, (nwrite + 1) % WORD, accepted + [x], delivered)
  {
    Slot(|accepted|);
    Bump(|accepted|);
    forall k: nat | |delivered| <= k < |accepted| ensures k % PIPESIZE != |accepted| % PIPESIZE {
      Apart(k, |accepted|);
    }
  }

  lemma Fetch(d: seq<bv8>, nread: nat, nwrite: nat, accepted: seq<bv8>, delivered: seq<bv8>)
    requires Rings(d, nread, nwrite, accepted, delivered) && |delivered| < |accepted|
    ensures Rings(d, (nread + 1) % WORD, nwrite, accepted, delivered + [accepted[|delivered|]])
    ensures |d| == PIPESIZE && d[nread % PIPESIZE] == accepted[|delivered|]
  {
    Slot(|delivered|);
    Bump(|delivered|);
  }

  class Pipe {
    const data: array<bv8>
    var nread: nat
    var nwrite: nat
    var readopen: bool
    var writeopen: bool
    /** Every byte a writer stored and every byte a reader was given, in order. */
    ghost var accepted: seq<bv8>
    ghost var delivered: seq<bv8>
    /** Processes asleep on &nread and on &nwrite. */
    ghost var readers: set<nat>
    ghost var writers: set<nat>

    /** The bytes and counters. */
    ghost predicate Sound()
      reads this, data
    {
      Rings(data[..], nread, nwrite, accepted, delivered)
    }

    /** Whenever the lock is free. Writers sleep only on a full pipe that somebody may still read. */
    ghost predicate Valid()
      reads this, data
    {
      && Sound() && (writers != {} ==> |accepted| == |delivered| + PIPESIZE && readopen && writeopen)
      && (readers != {} ==> readopen)
    }

    /** Readers sleep only while there is nothing to read and somebody may still write. */
    ghost predicate ReadersSafe()
      reads this
    {
      readers != {} ==> |accepted| == |delivered| && writeopen
    }

    /** What has been accepted is what was delivered and then what the ring holds. */
    lemma Fifo()
      requires Valid()
      ensures accepted == delivered + Held(data[..], nread, nwrite)
      ensures 0 <= (nwrite - nread) % WORD <= PIPESIZE
    {
      var r, w := |delivered|, |accepted|;
      var h := Held(data[..], nread, nwrite);
      Ahead(r, w - r);
      hide Held;
      forall i | 0 <= i < w - r ensures h[i] == accepted[r + i] {
        HeldAt(data[..], r, w, i);
        assert data[(r + i) % PIPESIZE] == accepted[r + i];
      }
      assert accepted == delivered + accepted[r..];
    }

    /** pipealloc. */
    constructor ()
      ensures Valid() && ReadersSafe() && accepted == [] && delivered == [] && readopen && writeopen && fresh(data)
      ensures readers == {} && writers == {}
    {
      data := new bv8[PIPESIZE];
      nread, nwrite, readopen, writeopen := 0, 0, true, true;
      accepted, delivered, readers, writers := [], [], {}, {};
    }

    /** pipewrite by process p from byte i on. */
    method Write(p: nat, addr: seq<bv8>, i: nat, killed: bool) returns (j: nat, r: Outcome)
      requires Valid() && i <= |addr| && p !in writers && writeopen
      modifies this, data
      ensures Valid() && i <= j <= |addr| && accepted == old(accepted) + addr[i..j] && delivered == old(delivered)
      ensures r.Done? ==> j == |addr| == r.n && readers == {} && writers == old(writers)
      ensures r.Asleep? ==> |accepted| == |delivered| + PIPESIZE && readers == {} && writers == old(writers) + {p}
      ensures r.Failed? <==> (killed || !readopen) && j < |addr|
      ensures r.Failed? ==> |accepted| == |delivered| + PIPESIZE && readers == old(readers) && writers == old(writers)
      ensures old(ReadersSafe()) ==> (ReadersSafe() <==> !(killed && old(readers) != {} && |addr| - i > PIPESIZE))
      ensures readopen == old(readopen) && writeopen == old(writeopen)
    {
      hide Rings;
      j := i;
      while j < |addr|
        invariant Valid() && i <= j <= |addr| && accepted == old(accepted) + addr[i..j] && delivered == old(delivered)
        invariant readers == old(readers) && writers == old(writers) && readopen == old(readopen)
        invariant writeopen == old(writeopen)
      {
        RingTests(data[..], nread, nwrite, accepted, delivered);
        if nwrite == (nread + PIPESIZE) % WORD {
          if !readopen || killed { return j, Failed; }
          readers := {};
          writers := writers + {p};
          return j, Asleep;
        }
        Store(data[..], nread, nwrite, accepted, delivered, addr[j]);
        ghost var before := data[..];
        data[nwrite % PIPESIZE] := addr[j];
        assert data[..] == before[nwrite % PIPESIZE := addr[j]];
        nwrite := (nwrite + 1) % WORD;
        accepted := accepted + [addr[j]];
        j := j + 1;
      }
      RingTests(data[..], nread, nwrite, accepted, delivered);
      readers := {};
      r := Done(|addr|);
    }

    /** piperead by process p; the bytes it copied out are out. */
    method Read(p: nat, n: nat, killed: bool) returns (out: seq<bv8>, r: Outcome)
      requires Valid() && p !in readers && readopen
      modifies this
      ensures Valid() && accepted == old(accepted) && delivered == old(delivered) + out
      ensures r.Done? ==>
        r.n == |out| == Min(n, |accepted| - |old(delivered)|) && writers == {} && readers == old(readers)
      ensures r.Asleep? ==>
        out == [] && |accepted| == |delivered| && writeopen && readers == old(readers) + {p} && writers == old(writers)
      ensures r.Failed? ==> out == [] && readers == old(readers) && writers == old(writers)
      ensures r.Failed? <==> |accepted| == |old(delivered)| && writeopen && killed
      ensures !r.Done? <==> |accepted| == |old(delivered)| && writeopen
      ensures old(ReadersSafe()) ==> ReadersSafe()
      ensures readopen == old(readopen) && writeopen == old(writeopen)
    {
      hide Rings;
      out := [];
      RingTests(data[..], nread, nwrite, accepted, delivered);
      if nread == nwrite && writeopen {
        if killed { return out, Failed; }
        readers := readers + {p};
        return out, Asleep;
      }
      var i := 0;
      while i < n
        invariant i == |out| <= n && Sound() && accepted == old(accepted) && delivered == old(delivered) + out
        invariant readers == old(readers)
        invariant readopen == old(readopen) && writeopen == old(writeopen)
      {
        RingTests(data[..], nread, nwrite, accepted, delivered);
        if nread == nwrite { break; }
        Fetch(data[..], nread, nwrite, accepted, delivered);
        out := out + [data[nread % PIPESIZE]];
        nread := (nread + 1) % WORD;
        delivered := delivered + [accepted[|delivered|]];
        i := i + 1;
      }
      RingTests(data[..], nread, nwrite, accepted, delivered);
      writers := {};
      r := Done(i);
    }

    /** kill: p is runnable again, and its next stretch starts at the test it slept in. */
    method Kill(p: nat)
      requires Valid()
      modifies this`readers, this`writers
      ensures Valid() && readers == old(readers) - {p} && writers == old(writers) - {p}
      ensures old(ReadersSafe()) ==> ReadersSafe()
    {
      readers := readers - {p};
      writers := writers - {p};
    }

    /** pipeclose of one end, once nobody uses it any more. */
    method Close(writable: bool)
      requires Valid() && (if writable then writers == {} else readers == {})
      modifies this
      ensures Valid() && accepted == old(accepted) && delivered == old(delivered)
      ensures writable ==> !writeopen && readopen == old(readopen) && readers == {} && writers == old(writers)
      ensures !writable ==> !readopen && writeopen == old(writeopen) && writers == {} && readers == old(readers)
      ensures old(ReadersSafe()) ==> ReadersSafe()
    {
      if writable {
        writeopen := false;
        readers := {};
      } else {
        readopen := false;
        writers := {};
      }
    }
  }

  /** A killed writer that fills the pipe leaves with -1 and wakes no one: process 1
      sleeps on, with 512 bytes to read. */
  method ReaderForgotten() returns (p: Pipe)
    ensures fresh(p) && p.Valid() && p.writeopen && p.readers == {1}
    ensures |p.accepted| == PIPESIZE && p.delivered == []
  {
    p := new Pipe();
    var out, r := p.Read(1, 1, false);
    var addr := seq(PIPESIZE + 1, _ => 0 as bv8);
    var j, w := p.Write(2, addr, 0, true);
    assert addr[0..j] == addr[..j];
  }

  /** A writer asleep on a full pipe that is killed leaves with -1 and stores nothing. */
  method KilledWriterLeaves(p: Pipe, w: nat, addr: seq<bv8>, i: nat) returns (j: nat, r: Outcome)
    requires p.Valid() && w in p.writers && i < |addr|
    modifies p, p.data
    ensures p.Valid() && r.Failed? && j == i && w !in p.writers
    ensures p.accepted == old(p.accepted) && p.delivered == old(p.delivered)
  {
    p.Kill(w);
    j, r := p.Write(w, addr, i, true);
  }

  lemma Ahead(r: nat, i: nat)
    requires i <= PIPESIZE
    ensures (r % WORD + i) % WORD == (r + i) % WORD && ((r + i) % WORD - r % WORD) % WORD == i
  {}
}
