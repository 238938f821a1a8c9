/**
 * Debian version order (src/tuxpac/tuxpac.c): the character loop agrees with comparing
 * the lists of texts and numbers that Debian Policy section 5.6.12 describes, and so is
 * a total preorder.
 */
module Versions {
  import opened Base

  /** A character of a C string: any byte but the zero that ends it. */
  type Char = c: nat | 0 < c < 256 witness 1
  type Text = seq<Char>

  const VER: nat := 40

  function Digit(c: nat): (r: bool) { '0' as nat <= c <= '9' as nat }
  function Letter(c: nat): (r: bool) { 'a' as nat <= c <= 'z' as nat || 'A' as nat <= c <= 'Z' as nat }

  /** The character at i, or the zero at the end. */
  function Peek(s: Text, i: nat): (c: nat)
  {
    if i < |s| then s[i] else 0
  }

  /** Where a character sorts: '~' before the end, then letters, then all the others, which are signed as a char is. */
  function Order(c: nat): (r: int)
    requires c < 256
  {
    if Digit(c) then 0 else if Letter(c) then c else if c == '~' as nat then -1
    else if c == 0 then 0 else (if c < 128 then c else c - 256) + 256
  }

  lemma {:induction false} OrderOnce(c: nat, d: nat)
    requires c < 256 && d < 256 && Order(c) == Order(d) && c != 0 && !Digit(c)
    ensures c == d
  {
  }

  /**
   * '~' comes before the end, which digits count as too; then letters, as their codes; then all
   * others, the bytes past ASCII before those in it, and each as its code.
   */
  lemma {:induction false} OrderBands(c: nat, d: nat)
    requires c < 256 && d < 256
    ensures Order('~' as nat) < Order(0) == 0 && (Digit(c) ==> Order(c) == 0)
    ensures Letter(c) ==> 0 < Order(c)
    ensures Letter(c) && Letter(d) ==> (Order(c) < Order(d) <==> c < d)
    ensures Letter(c) && Other(d) ==> Order(c) < Order(d)
    ensures Other(c) && Other(d) ==> (Order(c) < Order(d) <==> if c < 128 <==> d < 128 then c < d else d < 128)
  {
  }

  /** Neither digit, letter, '~' nor the end. */
  predicate Other(c: nat)
  {
    c != 0 && c != '~' as nat && !Digit(c) && !Letter(c)
  }

  // ---- versions as lists

  /** Characters up to the first digit. */
  function Before(s: Text): (n: nat)
    ensures n <= |s| && (n < |s| ==> Digit(s[n])) && forall i :: 0 <= i < n ==> !Digit(s[i])
  {
    if s == [] || Digit(s[0]) then 0
    else
      var n := Before(s[1..]);
      assert forall i :: 1 <= i < n + 1 ==> s[i] == s[1..][i - 1];
      n + 1
  }

  function Digits(s: Text): (n: nat)
    ensures n <= |s| && (n < |s| ==> !Digit(s[n])) && forall i :: 0 <= i < n ==> Digit(s[i])
  {
    if s == [] || !Digit(s[0]) then 0
    else
      var n := Digits(s[1..]);
      assert forall i :: 1 <= i < n + 1 ==> s[i] == s[1..][i - 1];
      n + 1
  }

  /** What a digit stands for. */
  function Face(c: nat): (v: nat)
    requires Digit(c)
    ensures v < 10 && v + '0' as nat == c
  {
    c - '0' as nat
  }

  function Value(s: Text): (v: nat)
    requires forall i :: 0 <= i < |s| ==> Digit(s[i])
  {
    if s == [] then 0 else 10 * Value(s[..|s| - 1]) + Face(s[|s| - 1])
  }

  function Orders(s: Text): (r: seq<int>)
  {
    seq(|s|, i requires 0 <= i < |s| => Order(s[i]))
  }

  /** A text without digits, and the number after it. */
  datatype Part = Part(text: seq<int>, number: nat)

  const NO_PART: Part := Part([], 0)

  function Parts(s: Text): (r: seq<Part>)
    decreases |s|
  {
    if s == [] then []
    else
      var n := Before(s);
      var m := Digits(s[n..]);
      assert n == 0 ==> s[n..] == s && m > 0;
      [Part(Orders(s[..n]), Value(s[n..][..m]))] + Parts(s[n..][m..])
  }

  // ---- comparing

  function Sign(x: int): (r: int)
    ensures -1 <= r <= 1
  {
    if x < 0 then -1 else if x > 0 then 1 else 0
  }

  function Head(t: seq<int>): (r: int) { if t == [] then 0 else t[0] }
  function Tail(t: seq<int>): (r: seq<int>)
    ensures |r| <= |t| && (t != [] ==> |r| < |t|)
  {
    if t == [] then [] else t[1..]
  }

  /** Character by character, the end sorting as nothing at all. */
  function CompareText(x: seq<int>, y: seq<int>): (r: int)
    decreases |x| + |y|
  {
    if x == [] && y == [] then 0
    else if Head(x) != Head(y) then Sign(Head(x) - Head(y))
    else CompareText(Tail(x), Tail(y))
  }

  function ComparePart(p: Part, q: Part): (r: int)
  {
    var t := CompareText(p.text, q.text);
    if t != 0 then t else Sign(p.number - q.number)
  }

  function First(ps: seq<Part>): (p: Part) { if ps == [] then NO_PART else ps[0] }
  function Rest(ps: seq<Part>): (r: seq<Part>)
    ensures |r| <= |ps| && (ps != [] ==> |r| < |ps|)
  {
    if ps == [] then [] else ps[1..]
  }

  /** Part by part; a list that has ended goes on with empty texts and zeroes. */
  function CompareParts(ps: seq<Part>, qs: seq<Part>): (r: int)
    decreases |ps| + |qs|
  {
    if ps == [] && qs == [] then 0
    else
      var c := ComparePart(First(ps), First(qs));
      if c != 0 then c else CompareParts(Rest(ps), Rest(qs))
  }

  // ---- the order is an order

  lemma {:induction false} TextLaws(x: seq<int>, y: seq<int>)
    ensures CompareText(x, x) == 0 && CompareText(y, x) == -CompareText(x, y) && -1 <= CompareText(x, y) <= 1
    decreases |x| + |y|
  {
    if x != [] || y != [] { TextLaws(Tail(x), Tail(y)); }
  }

  lemma {:induction false} TextChain(x: seq<int>, y: seq<int>, z: seq<int>)
    requires CompareText(x, y) <= 0 && CompareText(y, z) <= 0
    ensures CompareText(x, z) <= 0 && (CompareText(x, z) == 0 <==> CompareText(x, y) == 0 && CompareText(y, z) == 0)
    decreases |x| + |y| + |z|
  {
    if x != [] || y != [] || z != [] {
      TextStep(x, y);
      TextStep(y, z);
      TextStep(x, z);
      if Head(x) == Head(y) == Head(z) { TextChain(Tail(x), Tail(y), Tail(z)); }
    }
  }

  lemma {:induction false} TextStep(x: seq<int>, y: seq<int>)
    ensures CompareText(x, y) == if Head(x) != Head(y) then Sign(Head(x) - Head(y)) else CompareText(Tail(x), Tail(y))
  {
  }

  lemma {:induction false} PartLaws(p: Part, q: Part)
    ensures ComparePart(p, p) == 0 && ComparePart(q, p) == -ComparePart(p, q) && -1 <= ComparePart(p, q) <= 1
  {
    TextLaws(p.text, q.text);
  }

  lemma {:induction false} PartChain(p: Part, q: Part, r: Part)
    requires ComparePart(p, q) <= 0 && ComparePart(q, r) <= 0
    ensures ComparePart(p, r) <= 0 && (ComparePart(p, r) == 0 <==> ComparePart(p, q) == 0 && ComparePart(q, r) == 0)
  {
    TextChain(p.text, q.text, r.text);
  }

  lemma {:induction false} PartsLaws(ps: seq<Part>, qs: seq<Part>)
    ensures CompareParts(ps, ps) == 0 && CompareParts(qs, ps) == -CompareParts(ps, qs)
      && -1 <= CompareParts(ps, qs) <= 1
    decreases |ps| + |qs|
  {
    hide ComparePart;
    if ps != [] || qs != [] {
      PartLaws(First(ps), First(qs));
      PartsLaws(Rest(ps), Rest(qs));
    }
  }

  lemma {:induction false} PartsStep(ps: seq<Part>, qs: seq<Part>)
    ensures var c := ComparePart(First(ps), First(qs)); CompareParts(ps, qs) == if c != 0 then c
      else CompareParts(Rest(ps), Rest(qs))
  {
  }

  lemma {:induction false} PartsChain(ps: seq<Part>, qs: seq<Part>, rs: seq<Part>)
    requires CompareParts(ps, qs) <= 0 && CompareParts(qs, rs) <= 0
    ensures CompareParts(ps, rs) <= 0 && (CompareParts(ps, rs) == 0 <==>
      CompareParts(ps, qs) == 0 && CompareParts(qs, rs) == 0)
    decreases |ps| + |qs| + |rs|
  {
    if ps != [] || qs != [] || rs != [] {
      PartsStep(ps, qs);
      PartsStep(qs, rs);
      PartsStep(ps, rs);
      hide ComparePart;
      PartChain(First(ps), First(qs), First(rs));
      if ComparePart(First(ps), First(qs)) == 0 == ComparePart(First(qs), First(rs)) {
        PartsChain(Rest(ps), Rest(qs), Rest(rs));
      }
    }
  }

  // ---- what the loops step over

  /** s begins with other characters than digits, or with a digit, or is over. */
  lemma {:induction false} PartsHead(s: Text)
    ensures var n := Before(s); var m := Digits(s[n..]);
      First(Parts(s)) == Part(Orders(s[..n]), Value(s[n..][..m])) && Rest(Parts(s)) == Parts(s[n..][m..])
  {
    if s == [] {
      assert s[..0] == [] && s[0..][..0] == [] && s[0..][0..] == [];
    }
  }

  /** One character other than a digit more. */
  lemma {:induction false} PartsAfter(c: Char, s: Text)
    requires !Digit(c)
    ensures First(Parts([c] + s)) == Part([Order(c)] + First(Parts(s)).text, First(Parts(s)).number)
    ensures Rest(Parts([c] + s)) == Rest(Parts(s))
  {
    hide Parts, Orders, Value, Before, Digits, Order;
    BeforeAfter(c, s);
    PartsHead([c] + s);
    PartsHead(s);
  }

  lemma {:induction false} BeforeAfter(c: Char, s: Text)
    requires !Digit(c)
    ensures var (t, n) := ([c] + s, Before(s));
      Before(t) == n + 1 && t[n + 1..] == s[n..] && Orders(t[..n + 1]) == [Order(c)] + Orders(s[..n])
  {
    hide Order, Orders, Before;
    var (t, n) := ([c] + s, Before(s));
    BeforeOne(c, s);
    assert t[..n + 1] == [c] + s[..n];
    OrdersOne(c, s[..n]);
  }

  lemma {:induction false} BeforeOne(c: Char, s: Text)
    requires !Digit(c)
    ensures Before([c] + s) == Before(s) + 1
  {
    assert ([c] + s)[1..] == s;
  }

  lemma {:induction false} OrdersOne(c: Char, s: Text)
    ensures Orders([c] + s) == [Order(c)] + Orders(s)
  {
    hide Order;
  }

  /** The same character in front of both changes nothing. */
  lemma {:induction false} SameCharacter(c: Char, x: Text, y: Text)
    requires !Digit(c)
    ensures CompareParts(Parts([c] + x), Parts([c] + y)) == CompareParts(Parts(x), Parts(y))
  {
    hide Parts, CompareText, CompareParts, Order;
    PartsAfter(c, x);
    PartsAfter(c, y);
    TextAfter(Order(c), First(Parts(x)).text, First(Parts(y)).text);
    PartsStep(Parts([c] + x), Parts([c] + y));
    PartsStep(Parts(x), Parts(y));
  }

  lemma {:induction false} TextAfter(o: int, x: seq<int>, y: seq<int>)
    ensures CompareText([o] + x, [o] + y) == CompareText(x, y)
  {
    TextStep([o] + x, [o] + y);
    assert ([o] + x)[1..] == x && ([o] + y)[1..] == y;
  }

  lemma {:induction false} FirstText(s: Text)
    ensures Head(First(Parts(s)).text) == if s != [] then Order(s[0]) else 0
  {
    PartsHead(s);
    hide Parts, Value;
  }

  /** Different characters, not both digits or ends, decide. */
  lemma {:induction false} OtherCharacter(x: Text, y: Text)
    requires Order(Peek(x, 0)) != Order(Peek(y, 0))
    ensures CompareParts(Parts(x), Parts(y)) == Sign(Order(Peek(x, 0)) - Order(Peek(y, 0)))
  {
    FirstText(x);
    FirstText(y);
    PartsStep(Parts(x), Parts(y));
    TextStep(First(Parts(x)).text, First(Parts(y)).text);
    hide Parts, CompareText, CompareParts;
  }

  /** No text left: the numbers decide, or what comes after them. */
  lemma {:induction false} NumbersNext(x: Text, y: Text)
    requires Before(x) == 0 == Before(y)
    ensures var (m, k) := (Digits(x), Digits(y));
      var d := Sign(Value(x[..m]) - Value(y[..k]));
      CompareParts(Parts(x), Parts(y)) == if d != 0 then d else CompareParts(Parts(x[m..]), Parts(y[k..]))
  {
    hide Before, Digits, Value, Orders, Parts, CompareParts;
    NumberHead(x);
    NumberHead(y);
    PartsStep(Parts(x), Parts(y));
  }

  lemma {:induction false} NumberHead(x: Text)
    requires Before(x) == 0
    ensures First(Parts(x)) == Part([], Value(x[..Digits(x)])) && Rest(Parts(x)) == Parts(x[Digits(x)..])
  {
    hide Before, Digits, Value, Parts;
    assert x[0..] == x;
    PartsHead(x);
    assert Orders(x[..0]) == [];
  }

  /**
   * A version with more after it is older than without if that begins with '~', and newer if it
   * begins with any other character but a digit.
   */
  lemma {:induction false} Suffixed(s: Text, c: Char, t: Text)
    requires !Digit(c)
    ensures CompareParts(Parts(s + [c] + t), Parts(s)) == if c == '~' as nat then -1 else 1
    decreases |s|
  {
    hide Parts, CompareParts, Value;
    var x := s + [c] + t;
    if s == [] {
      OrderBands(c, 0);
      OtherCharacter(x, s);
    } else if !Digit(s[0]) {
      assert x == [s[0]] + (s[1..] + [c] + t) && s == [s[0]] + s[1..];
      SameCharacter(s[0], s[1..] + [c] + t, s[1..]);
      Suffixed(s[1..], c, t);
    } else {
      var m := Digits(s);
      DigitsBefore(s, c, t);
      assert x[..m] == s[..m] && x[m..] == s[m..] + [c] + t;
      NumbersNext(x, s);
      Suffixed(s[m..], c, t);
    }
  }

  lemma {:induction false} DigitsBefore(s: Text, c: Char, t: Text)
    requires !Digit(c)
    ensures Digits(s + [c] + t) == Digits(s)
  {
    if s != [] && Digit(s[0]) {
      assert (s + [c] + t)[1..] == s[1..] + [c] + t;
      DigitsBefore(s[1..], c, t);
    }
  }

  // ---- numbers

  lemma {:induction false} ValueNext(s: Text, k: nat)
    requires k < |s| && forall i :: 0 <= i <= k ==> Digit(s[i])
    ensures Value(s[..k + 1]) == 10 * Value(s[..k]) + Face(s[k])
  {
    assert s[..k + 1][..k] == s[..k];
  }

  /** Zeroes in front do not count. */
  lemma {:induction false} ValueZeroes(s: Text, z: nat, m: nat)
    requires z <= m <= |s| && (forall i :: 0 <= i < m ==> Digit(s[i])) && forall i :: 0 <= i < z ==> s[i] == '0' as nat
    ensures Value(s[..m]) == Value(s[z..m])
    decreases m
  {
    if m > 0 {
      assert s[..m][..m - 1] == s[..m - 1];
      if z < m {
        ValueZeroes(s, z, m - 1);
        assert s[z..m][..m - 1 - z] == s[z..m - 1];
      } else {
        ValueZeroes(s, z - 1, m - 1);
        assert s[z - 1..m - 1] == [] && s[z..m] == [];
      }
    } else {
      assert s[..0] == s[z..0];
    }
  }

  function Ten(n: nat): (r: nat)
    ensures r >= 1
  {
    if n == 0 then 1 else 10 * Ten(n - 1)
  }

  lemma {:induction false} ValueBounds(s: Text)
    requires forall i :: 0 <= i < |s| ==> Digit(s[i])
    ensures Value(s) < Ten(|s|)
    ensures s != [] && s[0] != '0' as nat ==> Value(s) >= Ten(|s| - 1)
  {
    if s != [] {
      var m := |s| - 1;
      ValueBounds(s[..m]);
      if m == 0 { assert s[..m] == []; }
    }
  }

  lemma {:induction false} TenGrows(a: nat, b: nat)
    requires a <= b
    ensures Ten(a) <= Ten(b)
    decreases b - a
  {
    if a < b { TenGrows(a, b - 1); }
  }

  /** The longer of two numbers without zeroes in front is the bigger. */
  lemma {:induction false} LongerIsBigger(x: Text, y: Text)
    requires (forall i :: 0 <= i < |x| ==> Digit(x[i])) && forall i :: 0 <= i < |y| ==> Digit(y[i])
    requires |x| > |y| && x[0] != '0' as nat
    ensures Value(x) > Value(y)
  {
    ValueBounds(x);
    ValueBounds(y);
    TenGrows(|y|, |x| - 1);
  }

  // ---- the loops

  /** How what is left of the two compares. */
  ghost function Left(a: Text, i: nat, b: Text, j: nat): int
  {
    if i <= |a| && j <= |b| then CompareParts(Parts(a[i..]), Parts(b[j..])) else 0
  }

  ghost predicate AtNumber(s: Text, i: nat)
  {
    i <= |s| && Before(s[i..]) == 0
  }

  /** Past characters that both have alike and that are not digits: up to a difference, or to digits or ends in both. */
  method SkipText(a: Text, b: Text, i0: nat, j0: nat) returns (i: nat, j: nat)
    requires i0 <= |a| && j0 <= |b|
    ensures i0 <= i <= |a| && j0 <= j <= |b|
    ensures Left(a, i0, b, j0) == Left(a, i, b, j)
    ensures Order(Peek(a, i)) != Order(Peek(b, j)) || (AtNumber(a, i) && AtNumber(b, j))
  {
    i, j := i0, j0;
    hide Parts, CompareParts, Order, Digit;
    while ((i < |a| && !Digit(a[i])) || (j < |b| && !Digit(b[j]))) && Order(Peek(a, i)) == Order(Peek(b, j))
      invariant i0 <= i <= |a| && j0 <= j <= |b|
      invariant CompareParts(Parts(a[i0..]), Parts(b[j0..])) == CompareParts(Parts(a[i..]), Parts(b[j..]))
      decreases |a| - i
    {
      BothThere(a, b, i, j);
      assert a[i..] == [a[i]] + a[i + 1..] && b[j..] == [b[j]] + b[j + 1..];
      SameCharacter(a[i], a[i + 1..], b[j + 1..]);
      i, j := i + 1, j + 1;
    }
  }

  lemma {:induction false} BothThere(a: Text, b: Text, i: nat, j: nat)
    requires i <= |a| && j <= |b| && Order(Peek(a, i)) == Order(Peek(b, j))
    requires (i < |a| && !Digit(a[i])) || (j < |b| && !Digit(b[j]))
    ensures i < |a| && j < |b| && a[i] == b[j] && !Digit(a[i])
  {
    if i < |a| && !Digit(a[i]) { OrderOnce(a[i], Peek(b, j)); } else { OrderOnce(b[j], Peek(a, i)); }
  }

  method SkipZeroes(s: Text, i0: nat) returns (i: nat)
    requires i0 <= |s|
    ensures i0 <= i <= i0 + Digits(s[i0..]) && Peek(s, i) != '0' as nat
    ensures forall k :: i0 <= k < i ==> s[k] == '0' as nat
  {
    i := i0;
    while i < |s| && s[i] == '0' as nat
      invariant i0 <= i <= |s| && i <= i0 + Digits(s[i0..]) && forall k :: i0 <= k < i ==> s[k] == '0' as nat
    {
      assert s[i0..][i - i0] == s[i];
      i := i + 1;
    }
  }

  /** Two numbers compared by their digits: by how many there are, and if as many by the first that differs. */
  method CompareDigits(x: Text, y: Text) returns (r: int, n: nat, first: int)
    requires Peek(x, 0) != '0' as nat && Peek(y, 0) != '0' as nat
    ensures var (m, k) := (Digits(x), Digits(y));
      && Sign(if r != 0 then r else first) == Sign(Value(x[..m]) - Value(y[..k]))
      && (r == 0 ==> n == m == k)
  {
    hide Value, Digits;
    var m, k := Digits(x), Digits(y);
    n, first := 0, 0;
    assert x[..0] == y[..0];
    while n < |x| && Digit(x[n]) && n < |y| && Digit(y[n])
      invariant n <= m && n <= k
      invariant Sign(first) == Sign(Value(x[..n]) - Value(y[..n]))
    {
      ValueNext(x, n);
      ValueNext(y, n);
      first := if first != 0 then first else (x[n] as int) - (y[n] as int);
      n := n + 1;
    }
    if n < |x| && Digit(x[n]) {
      LongerIsBigger(x[..m], y[..k]);
      r := 1;
    } else if n < |y| && Digit(y[n]) {
      LongerIsBigger(y[..k], x[..m]);
      r := -1;
    } else {
      r := 0;
    }
  }

  /** Past two numbers that are alike; r tells those that are not apart. */
  method SkipNumber(a: Text, b: Text, i0: nat, j0: nat) returns (r: int, i: nat, j: nat)
    requires AtNumber(a, i0) && AtNumber(b, j0)
    ensures i0 <= i <= |a| && j0 <= j <= |b| && (r == 0 ==> (i0 < |a| ==> i0 < i) && (j0 < |b| ==> j0 < j))
    ensures Left(a, i0, b, j0) == if r != 0 then Sign(r) else Left(a, i, b, j)
  {
    hide Parts, CompareParts, Value, Digits, Before;
    NumbersNext(a[i0..], b[j0..]);
    var p := SkipZeroes(a, i0);
    var q := SkipZeroes(b, j0);
    PastZeroes(a, i0, p);
    PastZeroes(b, j0, q);
    var n, first;
    r, n, first := CompareDigits(a[p..], b[q..]);
    i, j := i0, j0;
    if r != 0 {
      return;
    }
    if first != 0 {
      r := first;
      return;
    }
    SomethingPassed(a, i0, p, n);
    SomethingPassed(b, j0, q, n);
    i, j := p + n, q + n;
    assert a[p..][n..] == a[i..] && b[q..][n..] == b[j..];
  }

  /** The sign of the result orders the two strings as their lists of parts. */
  method Verrevcmp(a: Text, b: Text) returns (r: int)
    ensures Sign(r) == CompareParts(Parts(a), Parts(b))
  {
    hide *;
    var i: nat, j: nat := 0, 0;
    WholeLeft(a, b);
    while i < |a| || j < |b|
      invariant i <= |a| && j <= |b| && CompareParts(Parts(a), Parts(b)) == Left(a, i, b, j)
      decreases |a| - i + |b| - j
    {
      i, j := SkipText(a, b, i, j);
      PeekSmall(a, i);
      PeekSmall(b, j);
      if Order(Peek(a, i)) != Order(Peek(b, j)) {
        Decided(a, i, b, j);
        return Order(Peek(a, i)) - Order(Peek(b, j));
      }
      r, i, j := SkipNumber(a, b, i, j);
      if r != 0 {
        return;
      }
    }
    NoneLeft(a, b);
    r := 0;
  }

  lemma {:induction false} PeekSmall(s: Text, i: nat)
    ensures Peek(s, i) < 256
  {
  }

  lemma {:induction false} WholeLeft(a: Text, b: Text)
    ensures Left(a, 0, b, 0) == CompareParts(Parts(a), Parts(b))
  {
    hide Parts, CompareParts;
    assert a[0..] == a && b[0..] == b;
  }

  lemma {:induction false} NoneLeft(a: Text, b: Text)
    ensures Left(a, |a|, b, |b|) == 0 == Sign(0)
  {
    EndsAlike();
    assert a[|a|..] == [] && b[|b|..] == [];
  }

  lemma {:induction false} Decided(a: Text, i: nat, b: Text, j: nat)
    requires i <= |a| && j <= |b| && Order(Peek(a, i)) != Order(Peek(b, j))
    ensures Left(a, i, b, j) == Sign(Order(Peek(a, i)) - Order(Peek(b, j)))
  {
    hide Parts, CompareParts, Order;
    OtherCharacter(a[i..], b[j..]);
  }

  lemma {:induction false} EndsAlike()
    ensures CompareParts(Parts([]), Parts([])) == 0
  {
  }

  /** After zeroes, what is left of the number has its value, and ends where it did. */
  lemma {:induction false} PastZeroes(s: Text, i: nat, p: nat)
    requires i <= p <= |s| && p <= i + Digits(s[i..]) && forall k :: i <= k < p ==> s[k] == '0' as nat
    ensures var (m, k) := (Digits(s[i..]), Digits(s[p..]));
      i + m == p + k && Value(s[i..][..m]) == Value(s[p..][..k]) && s[i..][m..] == s[p..][k..]
  {
    hide Value, Digits;
    var (x, z) := (s[i..], p - i);
    var m := Digits(x);
    DigitsFrom(x, z);
    assert x[z..] == s[p..];
    ZeroesPassed(x, z, m, s[p..]);
  }

  lemma {:induction false} ZeroesPassed(x: Text, z: nat, m: nat, y: Text)
    requires z <= m <= |x| && (forall i :: 0 <= i < m ==> Digit(x[i]))
      && (forall i :: 0 <= i < z ==> x[i] == '0' as nat) && y == x[z..]
    ensures (forall i :: 0 <= i < m - z ==> Digit(y[i])) && Value(x[..m]) == Value(y[..m - z]) && x[m..] == y[m - z..]
  {
    hide Value;
    ValueZeroes(x, z, m);
    assert x[z..m] == y[..m - z];
  }

  lemma {:induction false} DigitsFrom(x: Text, z: nat)
    requires z <= Digits(x)
    ensures z + Digits(x[z..]) == Digits(x)
  {
    if z > 0 {
      DigitsFrom(x[1..], z - 1);
      assert x[1..][z - 1..] == x[z..];
    } else {
      assert x[0..] == x;
    }
  }

  lemma {:induction false} SomethingPassed(s: Text, i: nat, p: nat, n: nat)
    requires i <= p <= |s| && n == Digits(s[p..]) && i + Digits(s[i..]) == p + n && Before(s[i..]) == 0
    ensures i <= p + n <= |s| && (i < |s| ==> i < p + n)
  {
    if i < |s| { assert s[i..][0] == s[i]; }
  }

  // ---- whole versions

  const COLON: Char := 58
  const DASH: Char := 45

  /** Where c first stands, or the length. */
  function FirstOf(s: Text, c: Char): (i: nat)
    ensures i <= |s| && (i < |s| ==> s[i] == c) && forall k :: 0 <= k < i ==> s[k] != c
  {
    if s == [] || s[0] == c then 0
    else
      var i := FirstOf(s[1..], c);
      assert forall k :: 1 <= k < i + 1 ==> s[k] == s[1..][k - 1];
      i + 1
  }

  /** Where c last stands, or the length. */
  function LastOf(s: Text, c: Char): (i: nat)
    ensures i <= |s| && (i < |s| ==> s[i] == c && forall k :: i < k < |s| ==> s[k] != c)
    ensures i == |s| ==> forall k :: 0 <= k < |s| ==> s[k] != c
  {
    if s == [] then 0
    else if s[|s| - 1] == c then |s| - 1
    else
      var i := LastOf(s[..|s| - 1], c);
      if i == |s| - 1 then |s| else i
  }

  /** The number before the first colon, as 32 bits hold it. */
  function Epoch(s: Text): (e: nat)
  {
    if FirstOf(s, COLON) < |s| then Value(s[..Digits(s)]) % U32 else 0
  }

  function AfterEpoch(s: Text): (r: Text)
  {
    var i := FirstOf(s, COLON);
    if i < |s| then s[i + 1..] else s
  }

  /** What is before the last dash, as far as there is room for it. */
  function Upstream(s: Text): (r: Text)
    ensures |r| < VER
  {
    var t := AfterEpoch(s);
    var n := LastOf(t, DASH);
    t[..if n < VER - 1 then n else VER - 1]
  }

  function Revision(s: Text): (r: Text)
  {
    var t := AfterEpoch(s);
    var n := LastOf(t, DASH);
    if n < |t| then t[n + 1..] else []
  }

  /** A version written out: an epoch and a colon, if any, the upstream version, a dash and a revision, if any. */
  function Spelled(e: Option<Text>, u: Text, r: Option<Text>): (s: Text)
  {
    (if e.Some? then e.value + [':' as nat] else []) + u + Tagged(r)
  }

  /** It is read as that, the upstream version as far as 39 characters. */
  lemma {:induction false} SpelledIs(e: Option<Text>, u: Text, r: Option<Text>)
    requires e.Some? ==> forall i :: 0 <= i < |e.value| ==> Digit(e.value[i])
    requires e.None? ==> ':' as nat !in u && (r.Some? ==> ':' as nat !in r.value)
    requires if r.Some? then '-' as nat !in r.value else '-' as nat !in u
    ensures var s := Spelled(e, u, r);
      && Epoch(s) == (if e.Some? then Value(e.value) % U32 else 0)
      && Upstream(s) == u[..if |u| < 39 then |u| else 39] && Revision(s) == if r.Some? then r.value else []
  {
    hide Epoch, AfterEpoch, Upstream, Revision, Value, Tagged;
    var s, t := Spelled(e, u, r), u + Tagged(r);
    var before := if e.Some? then e.value + [':' as nat] else [];
    assert s == before + t;
    NoColon(u, r);
    EpochRead(e, t);
    Parted(s, u, r);
  }

  lemma {:induction false} NoColon(u: Text, r: Option<Text>)
    ensures ':' as nat in u + Tagged(r) <==> ':' as nat in u || (r.Some? && ':' as nat in r.value)
  {
  }

  lemma {:induction false} Parted(s: Text, u: Text, r: Option<Text>)
    requires AfterEpoch(s) == u + Tagged(r) && if r.Some? then '-' as nat !in r.value else '-' as nat !in u
    ensures Upstream(s) == u[..if |u| < 39 then |u| else 39] && Revision(s) == if r.Some? then r.value else []
  {
    hide AfterEpoch, LastOf, Tagged;
    var t := u + Tagged(r);
    TagRead(u, r);
    var k := if |u| < 39 then |u| else 39;
    assert t[..k] == u[..k];
  }

  /** A dash and a revision, if any. */
  function Tagged(r: Option<Text>): (s: Text)
  {
    if r.Some? then ['-' as nat] + r.value else []
  }

  lemma {:induction false} EpochRead(e: Option<Text>, t: Text)
    requires e.Some? ==> forall i :: 0 <= i < |e.value| ==> Digit(e.value[i])
    requires e.None? ==> ':' as nat !in t
    ensures var s := (if e.Some? then e.value + [':' as nat] else []) + t;
      Epoch(s) == (if e.Some? then Value(e.value) % U32 else 0) && AfterEpoch(s) == t
  {
    hide Value, FirstOf;
    var s := (if e.Some? then e.value + [':' as nat] else []) + t;
    if e.Some? {
      var k := |e.value|;
      assert s == e.value + [COLON] + t && s[k] == COLON;
      assert FirstOf(s, COLON) == k;
      assert s[k + 1..] == t;
      DigitsBefore(e.value, COLON, t);
      AllDigits(e.value);
      assert s[..k] == e.value;
    } else {
      assert s == t;
      assert FirstOf(s, COLON) == |s| by { assert COLON !in s; }
    }
  }

  lemma {:induction false} TagRead(u: Text, r: Option<Text>)
    requires if r.Some? then '-' as nat !in r.value else '-' as nat !in u
    ensures var t := u + Tagged(r); var n := LastOf(t, DASH);
      n == |u| && t[..n] == u && (n < |t| <==> r.Some?) && (r.Some? ==> t[n + 1..] == r.value)
  {
    hide LastOf;
    var t := u + Tagged(r);
    if r.Some? {
      assert t[|u|] == DASH && forall k :: |u| < k < |t| ==> t[k] in r.value;
      assert LastOf(t, DASH) == |u|;
      assert t[|u| + 1..] == r.value;
    } else {
      assert t == u;
    }
  }

  lemma {:induction false} AllDigits(s: Text)
    requires forall i :: 0 <= i < |s| ==> Digit(s[i])
    ensures Digits(s) == |s|
  {
    if s != [] { AllDigits(s[1..]); }
  }

  function Compare(a: Text, b: Text): (r: int)
  {
    if Epoch(a) != Epoch(b) then Sign(Epoch(a) - Epoch(b))
    else
      var u := CompareParts(Parts(Upstream(a)), Parts(Upstream(b)));
      if u != 0 then u else CompareParts(Parts(Revision(a)), Parts(Revision(b)))
  }

  /** Any two versions compare, one way or the other or as equals, and each with itself as equal. */
  lemma {:induction false} VersionLaws(a: Text, b: Text)
    ensures Compare(a, a) == 0 && Compare(b, a) == -Compare(a, b) && -1 <= Compare(a, b) <= 1
  {
    hide Parts, CompareParts, Epoch, Upstream, Revision;
    PartsLaws(Parts(Upstream(a)), Parts(Upstream(b)));
    PartsLaws(Parts(Revision(a)), Parts(Revision(b)));
  }

  /** No newer than one that is no newer than a third: and equal to the third only if all three are. */
  lemma {:induction false} VersionChain(a: Text, b: Text, c: Text)
    requires Compare(a, b) <= 0 && Compare(b, c) <= 0
    ensures Compare(a, c) <= 0 && (Compare(a, c) == 0 <==> Compare(a, b) == 0 && Compare(b, c) == 0)
  {
    hide Parts, CompareParts, Epoch, Upstream, Revision;
    if Epoch(a) == Epoch(b) == Epoch(c) {
      PartsChain(Parts(Upstream(a)), Parts(Upstream(b)), Parts(Upstream(c)));
      if CompareParts(Parts(Upstream(a)), Parts(Upstream(b))) == 0
        == CompareParts(Parts(Upstream(b)), Parts(Upstream(c))) {
        PartsChain(Parts(Revision(a)), Parts(Revision(b)), Parts(Revision(c)));
      }
    }
  }

  /** The leading digits as a 32-bit number. */
  method Number(s: Text) returns (v: nat)
    ensures v == Value(s[..Digits(s)]) % U32
  {
    hide Value, Digits;
    var i: nat := 0;
    v := 0;
    ValueNone(s);
    while i < |s| && Digit(s[i])
      invariant i <= Digits(s) && v == Value(s[..i]) % U32
    {
      ValueNext(s, i);
      Wrapped(Value(s[..i]), Face(s[i]));
      v := (v * 10 + Face(s[i])) % U32;
      i := i + 1;
    }
  }

  lemma {:induction false} ValueNone(s: Text)
    ensures Value(s[..0]) == 0
  {
  }

  lemma {:induction false} Wrapped(x: nat, d: nat)
    ensures (x % U32 * 10 + d) % U32 == (10 * x + d) % U32
  {
    var q := x / U32;
    assert x == q * U32 + x % U32;
    WrapsAway(x % U32 * 10 + d, 10 * q);
  }

  lemma {:induction false} WrapsAway(x: nat, k: nat)
    ensures (x + k * U32) % U32 == x % U32
  {
    if k > 0 { WrapsAway(x, k - 1); }
  }

  /** The sign of the result orders the two versions: epoch, then upstream, then revision. */
  method Vcmp(a: Text, b: Text) returns (r: int)
    ensures Sign(r) == Compare(a, b)
  {
    hide Parts, CompareParts, Value, Digits, LastOf;
    var x, y := 0, 0;
    if FirstOf(a, COLON) < |a| {
      x := Number(a);
    }
    if FirstOf(b, COLON) < |b| {
      y := Number(b);
    }
    if x != y {
      return if x > y then 1 else -1;
    }
    r := Verrevcmp(Upstream(a), Upstream(b));
    if r == 0 {
      r := Verrevcmp(Revision(a), Revision(b));
    }
  }
}
