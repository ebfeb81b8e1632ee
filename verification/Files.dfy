/** Positioned reads and writes on the bytes of a file. */
module Files {
  import opened Crc

  /** Files are read back and moved in pieces of this size. */
  const CHUNK: nat := 0x40_0000

  function Zeros(n: nat): (z: seq<u8>)
    ensures |z| == n
  {
    seq(n, _ => 0)
  }

  /** write_all_at: a write past the end fills the gap with zeros. */
  function Pwrite(f: seq<u8>, off: nat, d: seq<u8>): (r: seq<u8>)
    ensures |r| == if off + |d| <= |f| then |f| else off + |d|
    ensures r[off..off + |d|] == d
  {
    (if off <= |f| then f[..off] else f + Zeros(off - |f|)) + d
      + (if off + |d| <= |f| then f[off + |d|..] else [])
  }

  /** set_len. */
  function SetLen(f: seq<u8>, n: nat): (r: seq<u8>)
    ensures |r| == n
  {
    if n <= |f| then f[..n] else f + Zeros(n - |f|)
  }

  lemma PwriteByte(f: seq<u8>, off: nat, d: seq<u8>, i: nat)
    requires i < |Pwrite(f, off, d)|
    ensures Pwrite(f, off, d)[i] ==
      if off <= i < off + |d| then d[i - off] else if i < |f| then f[i] else 0
  {
  }

  /** The file holds these bytes at this place. */
  predicate Holds(f: seq<u8>, off: nat, d: seq<u8>) {
    d == [] || (off + |d| <= |f| && f[off..off + |d|] == d)
  }

  lemma PwriteHolds(f: seq<u8>, off: nat, d: seq<u8>)
    ensures Holds(Pwrite(f, off, d), off, d)
  {
  }

  lemma PwriteAtEnd(f: seq<u8>, d: seq<u8>)
    ensures Pwrite(f, |f|, d) == f + d
  {
  }

  /** A write leaves what lies beside it alone. */
  lemma PwriteFrame(f: seq<u8>, off: nat, d: seq<u8>, off2: nat, d2: seq<u8>)
    requires Holds(f, off2, d2) && (off + |d| <= off2 || off2 + |d2| <= off)
    ensures Holds(Pwrite(f, off, d), off2, d2)
  {
    if d2 != [] {
      var r := Pwrite(f, off, d);
      forall i | 0 <= i < |d2|
        ensures r[off2..off2 + |d2|][i] == d2[i]
      {
        PwriteByte(f, off, d, off2 + i);
        assert f[off2..off2 + |d2|][i] == d2[i];
      }
      assert r[off2..off2 + |d2|] == d2;
    }
  }

  /** Writing the next piece extends what the file holds. */
  lemma PwriteExtends(f: seq<u8>, off: nat, d: seq<u8>, more: seq<u8>)
    requires Holds(f, off, d)
    ensures Holds(Pwrite(f, off + |d|, more), off, d + more)
  {
    var r := Pwrite(f, off + |d|, more);
    PwriteFrame(f, off + |d|, more, off, d);
    if d != [] {
      assert r[off..off + |d| + |more|] == r[off..off + |d|] + r[off + |d|..off + |d| + |more|];
    } else {
      assert d + more == more;
    }
  }

  /** Rewriting inside, or at the end of, what the file holds. */
  lemma PwriteOverlay(f: seq<u8>, off: nat, b: seq<u8>, rel: nat, d: seq<u8>)
    requires Holds(f, off, b) && rel <= |b|
    ensures Holds(Pwrite(f, off + rel, d), off, Pwrite(b, rel, d))
  {
    hide Pwrite;
    var r, c := Pwrite(f, off + rel, d), Pwrite(b, rel, d);
    if c != [] && (b != [] || d != []) {
      forall i | 0 <= i < |c|
        ensures r[off + i] == c[i]
      {
        PwriteByte(f, off + rel, d, off + i);
        PwriteByte(b, rel, d, i);
        assert b != [] ==> |f| >= off + |b|;
        if i < |b| {
          assert f[off..off + |b|][i] == b[i];
        }
      }
      assert r[off..off + |c|] == c;
    }
  }

  lemma SetLenHolds(f: seq<u8>, n: nat, off: nat, d: seq<u8>)
    requires Holds(f, off, d) && off + |d| <= n
    ensures Holds(SetLen(f, n), off, d)
  {
    if d != [] {
      assert SetLen(f, n)[off..off + |d|] == f[off..off + |d|];
    }
  }

  /** Growing a file keeps what it holds. */
  lemma GrowHolds(f: seq<u8>, n: nat, off: nat, d: seq<u8>)
    requires Holds(f, off, d)
    ensures Holds(if |f| < n then SetLen(f, n) else f, off, d)
  {
    if |f| < n && d != [] {
      SetLenHolds(f, n, off, d);
    }
  }

  lemma HoldsPart(f: seq<u8>, off: nat, d: seq<u8>, i: nat, j: nat)
    requires Holds(f, off, d) && i <= j <= |d|
    ensures Holds(f, off + i, d[i..j])
  {
    if i < j {
      var a, b := f[off + i..off + j], d[i..j];
      forall k | 0 <= k < |a|
        ensures a[k] == b[k]
      {
        assert f[off..off + |d|][i + k] == d[i + k];
      }
      assert a == b;
    }
  }

  // --- durability ---

  /** What the durable copy of a file may become when some of the unsynced
      bytes reach the disk: each byte is the old or the new one. */
  ghost predicate Mix(dur: seq<u8>, vol: seq<u8>, c: seq<u8>) {
    && (|c| >= |dur| || |c| >= |vol|)
    && forall i :: 0 <= i < |c| && i < |dur| && i < |vol| ==> c[i] == dur[i] || c[i] == vol[i]
  }

  lemma MixHolds(dur: seq<u8>, vol: seq<u8>, c: seq<u8>, off: nat, d: seq<u8>)
    requires Mix(dur, vol, c) && Holds(dur, off, d) && Holds(vol, off, d)
    ensures Holds(c, off, d)
  {
    if d != [] {
      forall i | 0 <= i < |d|
        ensures c[off..off + |d|][i] == d[i]
      {
        assert dur[off + i] == dur[off..off + |d|][i] == d[i];
        assert vol[off + i] == vol[off..off + |d|][i] == d[i];
      }
      assert c[off..off + |d|] == d;
    }
  }

  lemma Cut<T>(a: seq<T>, b: seq<T>, c: seq<T>)
    ensures (a + b + c)[|a|..|a| + |b|] == b
    ensures a + b + c == a + (b + c)
  {
  }

  lemma CutLeft<T>(a: seq<T>, b: seq<T>, i: nat, j: nat)
    requires i <= j <= |a|
    ensures (a + b)[i..j] == a[i..j]
  {
  }

  lemma CutRight<T>(a: seq<T>, b: seq<T>)
    ensures (a + b)[..|a|] == a && (a + b)[|a|..] == b
  {
  }
}
