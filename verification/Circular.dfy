/** Positions in a circular list, counted modulo its length from a moving index: what the sender's
    index arithmetic means for the list rotated to that index. */
module Circular {
  import opened Ring

  lemma ModUnique(x: nat, n: nat, q: nat, r: nat)
    requires 0 < n && x == q * n + r && r < n
    ensures x % n == r
  {
    var d := x / n - q;
    assert x == (x / n) * n + x % n;
    assert d * n == r - x % n;
    MulBig(d, n);
  }

  lemma MulBig(d: int, n: int)
    requires n > 0
    ensures d >= 1 ==> d * n >= n
    ensures d <= -1 ==> d * n <= -n
  {
    if d >= 1 { assert d * n == (d - 1) * n + n; }
    if d <= -1 { assert d * n == (d + 1) * n - n; }
  }

  /** Going round is the remainder, which is how the code does it. */
  lemma {:induction false} TurnIsRemainder(j: nat, n: nat)
    requires 0 < n
    ensures Turn(j, n) == j % n
    decreases j
  {
    if j < n {
      ModUnique(j, n, 0, j);
    } else {
      TurnIsRemainder(j - n, n);
      SameRemainder(j - n, n, (j - n) / n, (j - n) % n);
    }
  }

  lemma SameRemainder(j: nat, n: nat, q: nat, r: nat)
    requires 0 < n && q == j / n && r == j % n
    ensures (j + n) % n == r
  {
    assert j == q * n + r && (q + 1) * n == q * n + n;
    ModUnique(j + n, n, q + 1, r);
  }

  /** The position i places after `cur`. */
  lemma TurnAfter(cur: nat, i: nat, n: nat)
    requires cur < n
    ensures Turn(cur + i, n) == if cur + Turn(i, n) < n then cur + Turn(i, n) else cur + Turn(i, n) - n
    decreases i
  {
    if i >= n {
      TurnAfter(cur, i - n, n);
      assert cur + i - n == cur + (i - n);
    }
  }

  /** Going on from a place of the ring is going on from where it was reached. */
  lemma TurnOn(x: nat, k: nat, n: nat)
    requires 0 < n
    ensures Turn(Turn(x, n) + k, n) == Turn(x + k, n)
    decreases x
  {
    if x >= n {
      TurnOn(x - n, k, n);
      assert x + k - n == x - n + k;
    }
  }

  /** The place before, as the code computes it without a subtraction below zero. */
  lemma TurnBefore(j: nat, n: nat)
    requires 0 < n && 0 < j
    ensures Turn(j - 1, n) == Before(Turn(j, n), n)
    decreases j
  {
    if j > n {
      TurnBefore(j - n, n);
      assert j - 1 - n == j - n - 1;
    }
  }

  lemma RotateAt<T>(s: seq<T>, cur: nat, i: nat)
    requires cur < |s|
    ensures Rotate(s, cur)[Turn(i, |s|)] == s[Turn(cur + i, |s|)]
  {
    TurnAfter(cur, i, |s|);
  }

  lemma RotateSwap(s: seq<nat>, cur: nat, a: nat, b: nat)
    requires cur < |s|
    ensures Rotate(Swap(s, Turn(cur + a, |s|), Turn(cur + b, |s|)), cur)
      == Swap(Rotate(s, cur), Turn(a, |s|), Turn(b, |s|))
  {
    TurnAfter(cur, a, |s|);
    TurnAfter(cur, b, |s|);
    SwapRotated(s, cur, Turn(a, |s|), Turn(b, |s|), Turn(cur + a, |s|), Turn(cur + b, |s|));
  }

  lemma SwapRotated(s: seq<nat>, cur: nat, a: nat, b: nat, x: nat, y: nat)
    requires cur < |s| && a < |s| && b < |s|
    requires x == (if cur + a < |s| then cur + a else cur + a - |s|)
    requires y == (if cur + b < |s| then cur + b else cur + b - |s|)
    ensures Rotate(Swap(s, x, y), cur) == Swap(Rotate(s, cur), a, b)
  {
  }

  lemma RotateAround<T>(s: seq<T>, cur: nat, k: nat, at: nat)
    requires cur < |s| && k <= |s| && at == if cur + k < |s| then cur + k else cur + k - |s|
    ensures Rotate(s, at) == Rotate(Rotate(s, cur), k)
  {
  }

  lemma {:induction false} RotateOn<T>(s: seq<T>, cur: nat, k: nat)
    requires cur < |s| && k <= |s|
    ensures Rotate(s, Turn(cur + k, |s|)) == Rotate(Rotate(s, cur), k)
  {
    RotateAround(s, cur, k, Turn(cur + k, |s|));
  }

  lemma RotateRotate<T>(s: seq<T>, a: nat, b: nat)
    requires a <= |s| && b <= |s|
    ensures Rotate(Rotate(s, a), b) == if a + b <= |s| then Rotate(s, a + b) else Rotate(s, a + b - |s|)
  {
  }

  lemma RoundedUp(n: nat, m: nat)
    requires 0 < m
    ensures (n + m - 1) / m == n / m + if n % m > 0 then 1 else 0
  {
    var q, r := n / m, n % m;
    assert n == q * m + r;
    var x := n + m - 1;
    if r > 0 {
      assert (q + 1) * m == q * m + m;
      QuotientUnique(x, m, q + 1, r - 1);
    } else {
      QuotientUnique(x, m, q, m - 1);
    }
  }

  lemma QuotientUnique(x: nat, m: nat, q: nat, r: nat)
    requires 0 < m && x == q * m + r && r < m
    ensures x / m == q
  {
    ModUnique(x, m, q, r);
    var d := x / m - q;
    assert x == (x / m) * m + r;
    assert d * m == 0;
  }
}
