/** Ring buffers addressed by 32-bit counters that wrap around (console.c, pipe.c). The sizes in
    use divide the range of the counters, so that indices continue across the wrap. */
module Ring {
  const WRAP: nat := 0x1_0000_0000

  type counter = x: int | 0 <= x < 0x1_0000_0000

  predicate Size(n: nat) { n == 128 || n == 512 }

  /** (a + k) % 2^32. */
  function Plus(a: counter, k: nat): counter
    requires k < 0x1_0000_0000
  {
    if a + k < 0x1_0000_0000 then a + k else a + k - 0x1_0000_0000
  }

  /** How far counter b is ahead of counter a: (b - a) % 2^32. */
  function Ahead(a: counter, b: counter): nat { if a <= b then b - a else b - a + 0x1_0000_0000 }

  /** x % n for the ring sizes in use. */
  function Index(x: nat, n: nat): (i: nat)
    requires Size(n)
    ensures i < n
  {
    if n == 128 then x % 128 else x % 512
  }

  /** Wrapping a counter does not disturb indices into the ring. */
  lemma WrapIndex(a: counter, k: nat, n: nat)
    requires Size(n) && k <= 512
    ensures Index(Plus(a, k), n) == Index(a + k, n)
  {
    if a + k >= WRAP {
      assert Plus(a, k) == a + k - 0x1_0000_0000;
      assert a + k == Plus(a, k) + 128 * 0x200_0000 == Plus(a, k) + 512 * 0x80_0000;
    }
  }

  lemma AheadPlus(a: counter, k: nat)
    requires k < WRAP
    ensures Ahead(a, Plus(a, k)) == k
  {
  }

  lemma PlusPlus(a: counter, j: nat, k: nat)
    requires j <= 512 && k <= 512
    ensures Plus(Plus(a, j), k) == Plus(a, j + k)
  {
  }

  /** x - 1 on counters. */
  function Back(a: counter): counter { if a == 0 then 0xffff_ffff else a - 1 }

  lemma BackPlus(a: counter, k: nat)
    requires 0 < k <= 512
    ensures Back(Plus(a, k)) == Plus(a, k - 1)
  {
  }

  /** Distances up to the ring size tell counters apart. */
  lemma PlusSame(a: counter, j: nat, k: nat)
    requires j <= 512 && k <= 512
    ensures Plus(a, j) == Plus(a, k) <==> j == k
  {
  }

  /** Counters less than a ring apart have different indices. */
  lemma Apart(x: nat, y: nat, n: nat)
    requires Size(n) && x < y < x + n
    ensures Index(x, n) != Index(y, n)
  {
  }

  /** The n elements from counter a on. */
  ghost function Window<T>(buf: seq<T>, a: nat, n: nat): seq<T>
    requires Size(|buf|)
    decreases n
  {
    if n == 0 then [] else [buf[Index(a, |buf|)]] + Window(buf, a + 1, n - 1)
  }

  lemma {:induction false} WindowAt<T>(buf: seq<T>, a: nat, n: nat)
    requires Size(|buf|)
    ensures |Window(buf, a, n)| == n && forall k :: 0 <= k < n ==> Window(buf, a, n)[k] == buf[Index(a + k, |buf|)]
    decreases n
  {
    if n > 0 {
      WindowAt(buf, a + 1, n - 1);
      forall k | 0 < k < n ensures Window(buf, a, n)[k] == buf[Index(a + k, |buf|)] {
        assert Window(buf, a, n)[k] == Window(buf, a + 1, n - 1)[k - 1];
      }
    }
  }

  /** Storing outside a window leaves it alone. */
  lemma {:induction false} Beside<T>(buf: seq<T>, a: nat, n: nat, x: nat, c: T)
    requires Size(|buf|) && a + n <= x < a + |buf|
    ensures Window(buf[Index(x, |buf|) := c], a, n) == Window(buf, a, n)
    decreases n
  {
    if n > 0 {
      Apart(a, x, |buf|);
      Beside(buf, a + 1, n - 1, x, c);
    }
  }

  /** Storing at the end of a window that does not fill the ring. */
  lemma {:induction false} Push<T>(buf: seq<T>, a: nat, n: nat, c: T)
    requires Size(|buf|) && n < |buf|
    ensures Window(buf[Index(a + n, |buf|) := c], a, n + 1) == Window(buf, a, n) + [c]
    decreases n
  {
    var r := buf[Index(a + n, |buf|) := c];
    if n == 0 {
      assert Window(r, a + 1, 0) == [];
    } else {
      Apart(a, a + n, |buf|);
      Push(buf, a + 1, n - 1, c);
      assert Window(r, a, n + 1) == [buf[Index(a, |buf|)]] + Window(r, a + 1, n);
    }
  }

  /** A window splits at any point. */
  lemma {:induction false} Split<T>(buf: seq<T>, a: nat, m: nat, n: nat)
    requires Size(|buf|)
    ensures Window(buf, a, m + n) == Window(buf, a, m) + Window(buf, a + m, n)
    decreases m
  {
    if m > 0 {
      Split(buf, a + 1, m - 1, n);
    }
  }

  lemma TurnIndex(x: nat, n: nat)
    requires Size(n)
    ensures Index(x + 0x1_0000_0000, n) == Index(x, n)
  {
    assert x + 0x1_0000_0000 == x + 128 * 0x200_0000 == x + 512 * 0x80_0000;
  }

  /** A whole turn of the counters changes nothing. */
  lemma {:induction false} Turn<T>(buf: seq<T>, a: nat, n: nat)
    requires Size(|buf|)
    ensures Window(buf, a + 0x1_0000_0000, n) == Window(buf, a, n)
    decreases n
  {
    if n > 0 {
      var b, i := a + 0x1_0000_0000, Index(a, |buf|);
      assert Index(b, |buf|) == i by { TurnIndex(a, |buf|); }
      Turn(buf, a + 1, n - 1);
      assert Window(buf, b, n) == [buf[i]] + Window(buf, b + 1, n - 1);
    }
  }

  /** So a window can start at a wrapped counter. */
  lemma WrapWindow<T>(buf: seq<T>, a: counter, k: nat, n: nat)
    requires Size(|buf|) && k <= 512
    ensures Window(buf, Plus(a, k), n) == Window(buf, a + k, n)
  {
    if a + k >= 0x1_0000_0000 { Turn(buf, a + k - 0x1_0000_0000, n); }
  }
}
