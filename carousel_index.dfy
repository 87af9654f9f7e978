/** Index arithmetic of the video carousel: moving forwards and backwards over a
    fixed list of `n` sources with wraparound. */
module CarouselIndex {

  /** Number of sources the carousel cycles through (welcome-us, vid1, vid2). */
  const SourceCount: nat := 3

  /** The index after pressing "next": `(i + 1) % n`. */
  function Next(i: nat, n: nat): (r: nat)
    requires n >= 1
    ensures r < n
    ensures i < n ==> r == (if i + 1 == n then 0 else i + 1)
  {
    (i + 1) % n
  }

  /** The index after pressing "previous": `(i - 1 + n) % n`. For a natural `i`
      and `n >= 1` the dividend is never negative, so the language's remainder
      and Dafny's agree. */
  function Prev(i: nat, n: nat): (r: nat)
    requires n >= 1
    ensures r < n
    ensures i < n ==> r == (if i == 0 then n - 1 else i - 1)
  {
    (i - 1 + n) % n
  }

  /** With a single source both moves stay on it. */
  lemma SingleSource(i: nat)
    requires i < 1
    ensures Next(i, 1) == 0 && Prev(i, 1) == 0
  {
  }

  /** Going forward then back returns to the start. */
  lemma PrevAfterNext(i: nat, n: nat)
    requires 1 <= n && i < n
    ensures Prev(Next(i, n), n) == i
  {
  }

  /** Going back then forward returns to the start. */
  lemma NextAfterPrev(i: nat, n: nat)
    requires 1 <= n && i < n
    ensures Next(Prev(i, n), n) == i
  {
  }

  /** `k` presses of "next" from `i`. */
  function NextTimes(i: nat, n: nat, k: nat): (r: nat)
    requires n >= 1
    ensures i < n ==> r < n
  {
    if k == 0 then i else Next(NextTimes(i, n, k - 1), n)
  }

  /** `k` presses of "next" advance the index by `k` modulo `n`. */
  lemma {:induction false} NextTimesIsModular(i: nat, n: nat, k: nat)
    requires 1 <= n && i < n
    ensures NextTimes(i, n, k) == (i + k) % n
  {
    if k > 0 {
      NextTimesIsModular(i, n, k - 1);
      var j := (i + k - 1) % n;
      assert NextTimes(i, n, k) == (j + 1) % n;
      ModAddOne(i + k - 1, n);
    }
  }

  lemma ModAddOne(x: nat, n: nat)
    requires n >= 1
    ensures (x % n + 1) % n == (x + 1) % n
  {
    var q, r := x / n, x % n;
    if r + 1 < n {
      ModUnique(r + 1, n, 0, r + 1);
      ModUnique(x + 1, n, q, r + 1);
    } else {
      ModUnique(r + 1, n, 1, 0);
      ModUnique(x + 1, n, q + 1, 0);
    }
  }

  /** Euclidean division is determined by quotient and remainder. */
  lemma ModUnique(x: int, n: int, q: int, r: int)
    requires 1 <= n && 0 <= r < n && x == q * n + r
    ensures x % n == r && x / n == q
  {
    var q', r' := x / n, x % n;
    assert x == q' * n + r';
    if q' > q {
      MulAtLeast(q' - q, n);
      Distribute(q', q, n);
    } else if q' < q {
      MulAtLeast(q - q', n);
      Distribute(q, q', n);
    }
  }

  lemma MulAtLeast(d: int, n: int)
    requires d >= 1 && n >= 1
    ensures d * n >= n
  {
    assert d * n == (d - 1) * n + n;
  }

  lemma Distribute(a: int, b: int, n: int)
    ensures (a - b) * n == a * n - b * n
  {
  }

  /** Pressing "next" `n` times visits every source once and comes back. */
  lemma FullCycle(i: nat, n: nat)
    requires 1 <= n && i < n
    ensures NextTimes(i, n, n) == i
  {
    NextTimesIsModular(i, n, n);
    ModUnique(i + n, n, 1, i);
  }

  /** With the three bundled sources, "next" from 0 gives 1, then 2, then 0. */
  lemma ThreeSourceWalk()
    ensures NextTimes(0, SourceCount, 1) == 1
    ensures NextTimes(0, SourceCount, 2) == 2
    ensures NextTimes(0, SourceCount, 3) == 0
  {
  }
}
