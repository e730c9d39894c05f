/** The reference definition for a bounded console transcript: the most recent
    `k` entries of everything that arrived, in arrival order. */
module ConsoleLog {

  /** The last `k` elements of `xs` (all of them when there are fewer). */
  function Last<T>(xs: seq<T>, k: nat): seq<T> {
    if |xs| <= k then xs else xs[|xs| - k..]
  }

  /** Keeping `k` entries is at most `k` long and is a suffix of the whole. */
  lemma LastIsBoundedSuffix<T>(xs: seq<T>, k: nat)
    ensures |Last(xs, k)| == if |xs| <= k then |xs| else k
    ensures Last(xs, k) == xs[|xs| - |Last(xs, k)|..]
  {
  }

  /** Truncating early does not change the window: keeping the last `k` of a
      truncated history and then appending more is the same as keeping the
      last `k` of the whole history. */
  lemma {:induction false} LastConcat<T>(a: seq<T>, b: seq<T>, k: nat)
    ensures Last(Last(a, k) + b, k) == Last(a + b, k)
  {
    if |a| > k {
      var t := a[|a| - k..];
      assert |t + b| == k + |b|;
      var lhs := Last(t + b, k);
      var rhs := Last(a + b, k);
      assert |lhs| == |rhs| == k;
      forall i | 0 <= i < k
        ensures lhs[i] == rhs[i]
      {
        var j := |b| + i;
        assert lhs[i] == (t + b)[j];
        assert rhs[i] == (a + b)[|a| - k + j];
        if j < k {
          assert (t + b)[j] == t[j] == a[|a| - k + j];
        } else {
          assert (t + b)[j] == b[j - k];
        }
      }
    }
  }

  /** `LastConcat` for a history that arrives in two parts after `a`. */
  lemma LastConcat3<T>(a: seq<T>, x: seq<T>, b: seq<T>, k: nat)
    ensures Last(Last(a + x, k) + b, k) == Last(a + (x + b), k)
  {
    LastConcat(a + x, b, k);
    assert a + x + b == a + (x + b);
  }

  /** One arrival into a window that is already at most `k` long: the new entry
      goes last, and when the window was full exactly its oldest entry leaves. */
  lemma {:induction false} LastSnoc<T>(w: seq<T>, x: T, k: nat)
    requires 0 < k && |w| <= k
    ensures Last(w + [x], k) == if |w| == k then w[1..] + [x] else w + [x]
  {
    if |w| == k {
      assert (w + [x])[1..] == w[1..] + [x];
    }
  }
}
