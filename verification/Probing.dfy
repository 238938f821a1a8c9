/**
 * The order in which a hash's search visits the records of the index: sector by
 * sector from the hash's own, wrapping round, every record of each.
 */
module Probing {
  import opened Base

  const RECORDS: nat := 42              // of twelve bytes, in a sector of 512

  /** The k-th record a search for hash h visits, in an index of s sectors. */
  function Spot(h: nat, k: nat, s: nat): (q: nat)
    requires s > 0
  {
    (h + k / RECORDS) % s * RECORDS + k % RECORDS
  }

  /** Record j of the i-th sector a search visits. */
  function SpotIn(h: nat, i: nat, j: nat, s: nat): (q: nat)
    requires s > 0
  {
    (h + i) % s * RECORDS + j
  }

  lemma {:induction false} SpotSplit(h: nat, i: nat, j: nat, s: nat)
    requires s > 0 && j < RECORDS
    ensures SpotIn(h, i, j, s) == Spot(h, i * RECORDS + j, s)
    ensures (i * RECORDS + j) / RECORDS == i && (i * RECORDS + j) % RECORDS == j
  {
  }

  /** The k-th record again, as the 32-bit sum finds it. */
  function Slot(h: nat, k: nat, s: nat): (q: nat)
    requires s > 0
  {
    (h + k / RECORDS) % U32 % s * RECORDS + k % RECORDS
  }

  lemma {:induction false} SpotInside(h: nat, k: nat, s: nat)
    requires s > 0
    ensures Spot(h, k, s) < s * RECORDS
  {
    assert (h + k / RECORDS) % s <= s - 1;
  }

  lemma {:induction false} ModCancel(h: nat, a: nat, b: nat, s: nat)
    requires a < s && b < s && (h + a) % s == (h + b) % s
    ensures a == b
  {
    var x, y := h + a, h + b;
    assert x - y == (x / s - y / s) * s;
    NoMultiple(x / s - y / s, s);
  }

  lemma {:induction false} SectorOf(q: nat, a: nat, j: nat)
    requires j < RECORDS && q == a * RECORDS + j
    ensures q / RECORDS == a && q % RECORDS == j
  {
  }

  lemma {:induction false} SectorBelow(k: nat, s: nat)
    requires k < s * RECORDS
    ensures k / RECORDS < s
  {
  }

  /** A search visits no record twice. */
  lemma {:induction false} SpotOnce(h: nat, j: nat, k: nat, s: nat)
    requires s > 0 && j < s * RECORDS && k < s * RECORDS && Spot(h, j, s) == Spot(h, k, s)
    ensures j == k
  {
    var a, b := (h + j / RECORDS) % s, (h + k / RECORDS) % s;
    SectorOf(Spot(h, j, s), a, j % RECORDS);
    SectorOf(Spot(h, k, s), b, k % RECORDS);
    SectorBelow(j, s);
    SectorBelow(k, s);
    ModCancel(h, j / RECORDS, k / RECORDS, s);
  }

  /** How far into its search a hash meets record q: every record is met. */
  function Distance(h: nat, q: nat, s: nat): (k: nat)
    requires s > 0
  {
    (q / RECORDS + s - h % s) % s * RECORDS + q % RECORDS
  }

  lemma {:induction false} ModReturn(h: nat, a: nat, s: nat)
    requires a < s
    ensures (h + (a + s - h % s) % s) % s == a
  {
    var d := (a + s - h % s) % s;
    var c := (a + s - h % s) / s;
    assert h == h / s * s + h % s;
    assert d == a + s - h % s - c * s;
    assert h + d == a + (h / s + 1 - c) * s;
    ModPlus(a, h / s + 1 - c, s, h + d);
  }

  lemma {:induction false} NoMultiple(d: int, s: nat)
    requires 0 - s < d * s < s
    ensures d == 0
  {
    Multiples(d, s);
  }

  lemma {:induction false} Multiples(d: int, s: nat)
    ensures d >= 1 ==> d * s >= s
    ensures d <= -1 ==> d * s <= 0 - s
  {
  }

  lemma {:induction false} ModPlus(a: nat, m: int, s: nat, x: nat)
    requires a < s && x == a + m * s
    ensures x % s == a
  {
    var q, r := x / s, x % s;
    assert x == q * s + r;
    assert (m - q) * s == m * s - q * s;
    NoMultiple(m - q, s);
  }

  lemma {:induction false} SpotMet(h: nat, q: nat, s: nat)
    requires s > 0 && q < s * RECORDS
    ensures Distance(h, q, s) < s * RECORDS && Spot(h, Distance(h, q, s), s) == q
  {
    var a := (q / RECORDS + s - h % s) % s;
    SectorOf(Distance(h, q, s), a, q % RECORDS);
    SectorBelow(q, s);
    ModReturn(h, q / RECORDS, s);
    assert a <= s - 1;
  }

  /** A remainder by a multiple of s leaves the remainder by s alone. */
  lemma {:induction false} ModOfMod(x: nat, s: nat, m: nat)
    requires s > 0 && m > 0
    ensures s * m > 0 && x % (s * m) % s == x % s
  {
    var u := s * m;
    assert u > 0;
    var y, r, c := x % u, x % s, x / u;
    assert x == c * u + y && x == x / s * s + r;
    assert c * u == (c * m) * s;
    var d := x / s - c * m;
    assert d * s == x / s * s - (c * m) * s;
    ModPlus(r, d, s, y);
  }

  lemma {:induction false} PowersAdd(a: nat, b: nat)
    ensures Pow2(a + b) == Pow2(a) * Pow2(b)
    decreases a
  {
    if a > 0 {
      PowersAdd(a - 1, b);
    }
  }

  lemma {:induction false} PowerIs()
    ensures Pow2(32) == U32
  {
    PowersAdd(4, 4);
    PowersAdd(8, 8);
    PowersAdd(16, 16);
  }

  /** Adding to a 32-bit hash wraps round, which a power-of-two number of sectors does not notice. */
  lemma {:induction false} WrapsAlike(x: nat, n: nat)
    requires n <= 32
    ensures x % U32 % Pow2(n) == x % Pow2(n)
  {
    PowerIs();
    PowersAdd(n, 32 - n);
    hide Pow2;
    ModOfMod(x, Pow2(n), Pow2(32 - n));
  }

  /** The next record of a search is the next one of the index, the first after the last. */
  lemma {:induction false} SpotNext(h: nat, k: nat, s: nat)
    requires s > 0
    ensures Spot(h, k + 1, s) == if Spot(h, k, s) + 1 < s * RECORDS then Spot(h, k, s) + 1 else 0
  {
    var a, j := k / RECORDS, k % RECORDS;
    var c := (h + a) % s;
    if j + 1 < RECORDS {
      SectorOf(k + 1, a, j + 1);
    } else {
      SectorOf(k + 1, a + 1, 0);
      ModNext(h + a, s);
    }
  }

  lemma {:induction false} WrapsOnce(x: nat, n: nat)
    requires x < n
    ensures (x + 1) % n == if x + 1 < n then x + 1 else 0
  {
    ModNext(x, n);
    ModPlus(x, 0, n, x);
  }

  lemma {:induction false} ModNext(x: nat, s: nat)
    requires s > 0
    ensures (x + 1) % s == if x % s + 1 < s then x % s + 1 else 0
  {
    var q, r := x / s, x % s;
    assert x == q * s + r;
    if r + 1 < s {
      ModPlus(r + 1, q, s, x + 1);
    } else {
      assert (q + 1) * s == q * s + s;
      ModPlus(0, q + 1, s, x + 1);
    }
  }
}
