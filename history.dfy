/**
 The bounded history buffer of the open-interest sentry: one record per
 successful polling cycle, oldest first, cut back to the last `keep_points`
 records after every append with Python's slice `history[-keep_points:]`.
 */
module History {

  /** One successful observation of both exchanges. The timestamp is opaque. */
  datatype Record = Record(ts: string, oiBinance: real, oiBybit: real)

  function Min(a: int, b: int): int { if a <= b then a else b }

  function Max(a: int, b: int): int { if a <= b then b else a }

  /** The buffer after evicting its `n` oldest entries, one at a time (all of
      them when there are fewer than `n`). */
  function DropOldest<T>(h: seq<T>, n: nat): (r: seq<T>)
    ensures |r| == Max(0, |h| - n)
    decreases n
  {
    if n == 0 || |h| == 0 then h else DropOldest(h[1..], n - 1)
  }

  /** Evicting the `n` oldest entries leaves exactly the slice after them. */
  lemma {:induction false} DropOldestIsSlice<T>(h: seq<T>, n: nat)
    ensures DropOldest(h, n) == h[Min(n, |h|)..]
    decreases n
  {
    if n != 0 && |h| != 0 {
      DropOldestIsSlice(h[1..], n - 1);
      assert h[1..][Min(n - 1, |h| - 1)..] == h[Min(n, |h|)..];
    }
  }

  /** Python's `h[-k:]`: for k > 0 the last k elements (all of them when there
      are fewer), for k == 0 the whole list (`-0` is `0`), and for k < 0 the
      list without its first -k elements. */
  function KeepLast<T>(h: seq<T>, k: int): (r: seq<T>)
    ensures |r| <= |h|
    ensures k >= 1 ==> |r| == Min(k, |h|)
    ensures k == 0 ==> |r| == |h|
    ensures k < 0 ==> |r| == Max(0, |h| + k)
  {
    DropOldest(h, if k > 0 then Max(0, |h| - k) else -k)
  }

  /** Whatever the bound, what is kept is a suffix of the buffer: the oldest
      entries are the ones evicted. */
  lemma KeepLastIsSuffix<T>(h: seq<T>, k: int)
    ensures KeepLast(h, k) == h[|h| - |KeepLast(h, k)|..]
  {
    DropOldestIsSlice(h, if k > 0 then Max(0, |h| - k) else -k);
  }

  /** With a non-negative bound the record just appended survives the trim as
      the newest one. */
  lemma KeepLastNewest<T>(h: seq<T>, x: T, k: int)
    requires k >= 0
    ensures var r := KeepLast(h + [x], k); |r| > 0 && r[|r| - 1] == x
  {
    KeepLastIsSuffix(h + [x], k);
    var r := KeepLast(h + [x], k);
    assert r[|r| - 1] == (h + [x])[|h|];
  }

  /** Two suffixes of one sequence with the same length are the same sequence. */
  lemma SuffixesOfSameLength<T>(x: seq<T>, s: seq<T>, t: seq<T>)
    requires |s| <= |x| && s == x[|x| - |s|..]
    requires |t| <= |x| && t == x[|x| - |t|..]
    requires |s| == |t|
    ensures s == t
  {
  }

  /** Trimming a second time with the same non-negative bound changes nothing:
      once a successful cycle has trimmed the buffer, the re-trim before the
      final save writes exactly the in-memory history. */
  lemma KeepLastIdempotent<T>(h: seq<T>, k: int)
    requires k >= 0
    ensures KeepLast(KeepLast(h, k), k) == KeepLast(h, k)
  {
    var r := KeepLast(h, k);
    KeepLastIsSuffix(r, k);
    assert |KeepLast(r, k)| == |r|;
  }

  /** Trimming before appending more records and trimming again gives the same
      buffer as trimming only once at the end. */
  lemma KeepLastAppend<T>(a: seq<T>, b: seq<T>, k: int)
    requires k >= 0
    ensures KeepLast(KeepLast(a, k) + b, k) == KeepLast(a + b, k)
  {
    var a' := KeepLast(a, k);
    var x := a + b;
    var s := a' + b;
    KeepLastIsSuffix(a, k);
    assert s == x[|x| - |s|..] by {
      assert forall i :: 0 <= i < |s| ==> s[i] == x[|x| - |s| + i];
    }
    var l := KeepLast(s, k);
    var r := KeepLast(x, k);
    KeepLastIsSuffix(s, k);
    KeepLastIsSuffix(x, k);
    assert |l| == |r|;
    assert l == x[|x| - |l|..] by {
      assert forall i :: 0 <= i < |l| ==> l[i] == x[|x| - |l| + i];
    }
    SuffixesOfSameLength(x, l, r);
  }

  /** The buffer after absorbing the records `rs` one at a time, each append
      followed by the trim to `k`, once per successful cycle. */
  function PushAll(h: seq<Record>, rs: seq<Record>, k: int): (r: seq<Record>)
    ensures k >= 1 && rs != [] ==> |r| <= k
    decreases |rs|
  {
    if rs == [] then h
    else KeepLast(PushAll(h, rs[..|rs| - 1], k) + [rs[|rs| - 1]], k)
  }

  /** Absorbing one more record is one more append-and-trim. */
  lemma PushAllSnoc(h: seq<Record>, rs: seq<Record>, r: Record, k: int)
    ensures PushAll(h, rs + [r], k) == KeepLast(PushAll(h, rs, k) + [r], k)
  {
    assert (rs + [r])[..|rs|] == rs;
  }

  /** The kept-suffix invariant: with a non-negative bound, once at least one
      record has been absorbed the buffer is exactly the last `k` records of
      everything ever seen, in their original order (FIFO eviction). */
  lemma {:induction false} PushAllKeepsLast(h: seq<Record>, rs: seq<Record>, k: int)
    requires k >= 0 && rs != []
    ensures PushAll(h, rs, k) == KeepLast(h + rs, k)
    decreases |rs|
  {
    var init, r := rs[..|rs| - 1], rs[|rs| - 1];
    assert rs == init + [r];
    if init == [] {
      assert h + rs == h + [r];
    } else {
      PushAllKeepsLast(h, init, k);
      KeepLastAppend(h + init, [r], k);
      assert h + init + [r] == h + rs;
    }
  }
}
