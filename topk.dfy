/** torch.topk along one row: the k highest-scoring positions, best first.
    Ties are broken deterministically in favour of the lower index. */
module Selection {

  /** Position a ranks strictly ahead of position b in s: a higher score, or an
      equal score at a lower index. This is a strict total order on positions. */
  predicate Ahead(s: seq<real>, a: nat, b: nat)
    requires a < |s| && b < |s|
  {
    s[a] > s[b] || (s[a] == s[b] && a < b)
  }

  /** r is a top-k selection of s: k distinct in-range positions, each ranked
      ahead of the ones after it and of every position left out. */
  predicate IsTopK(s: seq<real>, k: nat, r: seq<nat>)
  {
    && |r| == k
    && (forall i :: 0 <= i < k ==> r[i] < |s|)
    && (forall i, j :: 0 <= i < j < k ==> r[i] < |s| && r[j] < |s| && Ahead(s, r[i], r[j]))
    && (forall i, x :: 0 <= i < k && 0 <= x < |s| && x !in r ==> r[i] < |s| && Ahead(s, r[i], x))
  }

  /** The best-ranked position below n that is not excluded; -1 when every
      position below n is excluded. */
  function Best(s: seq<real>, excluded: seq<nat>, n: nat): (r: int)
    requires n <= |s|
    ensures -1 <= r < n
    ensures r == -1 <==> forall x :: 0 <= x < n ==> x in excluded
    ensures r >= 0 ==> r !in excluded
    ensures r >= 0 ==> forall x :: 0 <= x < n && x !in excluded && x != r ==> Ahead(s, r, x)
  {
    if n == 0 then -1
    else
      var r := Best(s, excluded, n - 1);
      if n - 1 in excluded then r
      else if r == -1 || s[n - 1] > s[r] then n - 1
      else r
  }

  /** k distinct positions below n leave one free when k < n. */
  lemma {:induction false} FreePosition(p: seq<nat>, n: nat)
    requires |p| < n
    requires forall i :: 0 <= i < |p| ==> p[i] < n
    requires forall i, j :: 0 <= i < j < |p| ==> p[i] != p[j]
    ensures exists x :: 0 <= x < n && x !in p
  {
    if n - 1 in p {
      var j :| 0 <= j < |p| && p[j] == n - 1;
      var q := p[..j] + p[j + 1..];
      assert forall t :: 0 <= t < |q| ==> q[t] == if t < j then p[t] else p[t + 1];
      forall t | 0 <= t < |q|
        ensures q[t] < n - 1
      {
        if t < j { assert p[t] != p[j]; } else { assert p[t + 1] != p[j]; }
      }
      FreePosition(q, n - 1);
      var x :| 0 <= x < n - 1 && x !in q;
      assert x !in p;
    }
  }

  /** torch.topk(s, k): selection by repeatedly taking the best remaining position. */
  function TopK(s: seq<real>, k: nat): (r: seq<nat>)
    requires k <= |s|
    ensures IsTopK(s, k, r)
  {
    if k == 0 then []
    else
      var p := TopK(s, k - 1);
      FreePosition(p, |s|);
      var b := Best(s, p, |s|);
      p + [b]
  }

  /** Dropping the last position of a top-k selection leaves a top-(k-1) selection. */
  lemma TopKDropLast(s: seq<real>, k: nat, r: seq<nat>)
    requires 0 < k && IsTopK(s, k, r)
    ensures IsTopK(s, k - 1, r[..k - 1])
  {
    var p := r[..k - 1];
    forall i, x | 0 <= i < k - 1 && 0 <= x < |s| && x !in p
      ensures Ahead(s, p[i], x)
    {
      if x != r[k - 1] {
        assert x !in r;
      }
    }
  }

  /** The top-k selection is unique: any sequence meeting IsTopK is TopK's result. */
  lemma {:induction false} TopKUnique(s: seq<real>, k: nat, r: seq<nat>)
    requires k <= |s|
    requires IsTopK(s, k, r)
    ensures r == TopK(s, k)
  {
    if k > 0 {
      var p := r[..k - 1];
      TopKDropLast(s, k, r);
      TopKUnique(s, k - 1, p);
      var last := r[k - 1];
      assert r == p + [last];
      TopKLastIsBest(s, k, r);
    }
  }

  /** The last position of a top-k selection is the best one outside the others. */
  lemma TopKLastIsBest(s: seq<real>, k: nat, r: seq<nat>)
    requires 0 < k <= |s| && IsTopK(s, k, r) && r[..k - 1] == TopK(s, k - 1)
    ensures r == TopK(s, k)
  {
    var p := r[..k - 1];
    FreePosition(p, |s|);
    var b := Best(s, p, |s|);
    var last := r[k - 1];
    assert TopK(s, k) == p + [b];
    assert r == p + [last];
    assert last !in p && b !in p;
    assert b == last || Ahead(s, b, last);
    assert b == last || b !in r;
  }

  /** Asking for fewer positions gives a prefix: the best m do not depend on k. */
  lemma {:induction false} TopKPrefix(s: seq<real>, k: nat, m: nat)
    requires m <= k <= |s|
    ensures TopK(s, k)[..m] == TopK(s, m)
  {
    if m < k {
      TopKPrefix(s, k - 1, m);
      assert TopK(s, k)[..k - 1] == TopK(s, k - 1);
      assert TopK(s, k)[..m] == TopK(s, k)[..k - 1][..m];
    }
  }

  /** The first selected position holds a largest score, and the lowest such position. */
  lemma TopKFirstIsArgMax(s: seq<real>, k: nat)
    requires 1 <= k <= |s|
    ensures var a := TopK(s, k)[0];
      && (forall x :: 0 <= x < |s| ==> s[x] <= s[a])
      && (forall x :: 0 <= x < |s| && s[x] == s[a] ==> a <= x)
  {
    var r := TopK(s, k);
    var a := r[0];
    forall x | 0 <= x < |s| && x != a
      ensures s[x] <= s[a] && (s[x] == s[a] ==> a <= x)
    {
      if x in r {
        var j :| 0 <= j < k && r[j] == x;
        assert j != 0 && Ahead(s, r[0], r[j]);
      } else {
        assert Ahead(s, r[0], x);
      }
    }
  }
}
