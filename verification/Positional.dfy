/** Fixed-width positional notation over an increasing alphabet, and the order in which
    Python and SQLite compare text. */
module Positional {
  import opened Prelude

  // ---- text order ----

  /** Strictly before, character by character; a proper prefix comes first. */
  predicate Before(a: string, b: string) {
    |b| > 0 && (|a| == 0 || a[0] < b[0] || (a[0] == b[0] && Before(a[1..], b[1..])))
  }

  /** Heads of equal length decide; only equal heads leave it to the tails. */
  lemma {:induction false} BeforeAppend(a: string, x: string, b: string, y: string)
    requires |a| == |b|
    ensures Before(a + x, b + y) <==> Before(a, b) || (a == b && Before(x, y))
  {
    if |a| == 0 {
      assert a + x == x && b + y == y;
    } else {
      BeforeAppend(a[1..], x, b[1..], y);
      assert (a + x)[1..] == a[1..] + x && (b + y)[1..] == b[1..] + y;
      assert a == [a[0]] + a[1..] && b == [b[0]] + b[1..];
    }
  }

  lemma {:induction false} NeverBeforeItself(a: string)
    ensures !Before(a, a)
  {
    if |a| > 0 {
      NeverBeforeItself(a[1..]);
    }
  }

  // ---- positional notation ----

  function Power(base: nat, k: nat): nat {
    if k == 0 then 1 else base * Power(base, k - 1)
  }

  predicate Increasing(symbols: string) {
    forall i | 0 < i < |symbols| :: symbols[i - 1] < symbols[i]
  }

  lemma {:induction false} SymbolsOrdered(symbols: string, i: nat, j: nat)
    requires Increasing(symbols) && i < j < |symbols|
    ensures symbols[i] < symbols[j]
    decreases j
  {
    if i < j - 1 {
      SymbolsOrdered(symbols, i, j - 1);
    }
  }

  /** An alphabet's length is the base. */
  type Alphabet = s: string | |s| >= 2 && Increasing(s) witness "01"

  /** The last `k` digits of `v`, most significant first. */
  function Digits(v: nat, k: nat, symbols: Alphabet): (r: string)
    ensures |r| == k
  {
    if k == 0 then [] else Digits(v / |symbols|, k - 1, symbols) + [symbols[v % |symbols|]]
  }

  function IndexOf(symbols: string, c: char): Option<nat> {
    if |symbols| == 0 then None
    else if symbols[|symbols| - 1] == c then Some(|symbols| - 1)
    else IndexOf(symbols[..|symbols| - 1], c)
  }

  /** Reading digits back: none if some character is no digit. */
  function Read(s: string, symbols: Alphabet): Option<nat> {
    if |s| == 0 then Some(0)
    else
      var front, last := Read(s[..|s| - 1], symbols), IndexOf(symbols, s[|s| - 1]);
      if front.None? || last.None? then None else Some(|symbols| * front.value + last.value)
  }

  lemma {:induction false} IndexOfIs(symbols: string, i: nat)
    requires Increasing(symbols) && i < |symbols|
    ensures IndexOf(symbols, symbols[i]) == Some(i)
  {
    if i < |symbols| - 1 {
      SymbolsOrdered(symbols, i, |symbols| - 1);
      IndexOfIs(symbols[..|symbols| - 1], i);
    }
  }

  lemma QuotientBounded(v: nat, base: nat, p: nat)
    requires base > 0 && v < base * p
    ensures v / base < p
  {
    assert v == base * (v / base) + v % base;
    if v / base >= p {
      Scaled(p, v / base, base);
    }
  }

  lemma ReadStep(front: string, value: nat, d: nat, symbols: Alphabet)
    requires Read(front, symbols) == Some(value) && d < |symbols|
    ensures Read(front + [symbols[d]], symbols) == Some(|symbols| * value + d)
  {
    var s := front + [symbols[d]];
    assert s[..|s| - 1] == front;
    IndexOfIs(symbols, d);
  }

  lemma DivMod(v: nat, base: nat)
    requires base > 0
    ensures v == base * (v / base) + v % base
  {
  }

  /** What fits in `k` digits reads back exactly. */
  lemma {:induction false} DigitsRoundTrip(v: nat, k: nat, symbols: Alphabet)
    requires v < Power(|symbols|, k)
    ensures Read(Digits(v, k, symbols), symbols) == Some(v)
    decreases k
  {
    if k > 0 {
      var base := |symbols|;
      QuotientBounded(v, base, Power(base, k - 1));
      DigitsRoundTrip(v / base, k - 1, symbols);
      ReadStep(Digits(v / base, k - 1, symbols), v / base, v % base, symbols);
      DivMod(v, base);
    }
  }

  lemma LessByDigits(base: nat, p: nat, i: nat, q: nat, j: nat)
    requires i < base && j < base
    ensures base * p + i < base * q + j <==> p < q || (p == q && i < j)
  {
    if p < q {
      Scaled(p + 1, q, base);
    } else if q < p {
      Scaled(q + 1, p, base);
    }
  }

  lemma OneSymbol(symbols: Alphabet, i: nat, j: nat)
    requires i < |symbols| && j < |symbols|
    ensures Before([symbols[i]], [symbols[j]]) <==> i < j
    ensures [symbols[i]] == [symbols[j]] <==> i == j
  {
    if i < j {
      SymbolsOrdered(symbols, i, j);
    } else if j < i {
      SymbolsOrdered(symbols, j, i);
    }
    assert [symbols[i]][0] == symbols[i] && [symbols[j]][0] == symbols[j];
  }

  lemma DigitsInjective(v: nat, w: nat, k: nat, symbols: Alphabet)
    requires v < Power(|symbols|, k) && w < Power(|symbols|, k)
    ensures Digits(v, k, symbols) == Digits(w, k, symbols) <==> v == w
  {
    DigitsRoundTrip(v, k, symbols);
    DigitsRoundTrip(w, k, symbols);
  }

  lemma OrderStep(a: string, b: string, i: nat, j: nat, symbols: Alphabet)
    requires |a| == |b| && i < |symbols| && j < |symbols|
    ensures Before(a + [symbols[i]], b + [symbols[j]]) <==> Before(a, b) || (a == b && i < j)
  {
    OneSymbol(symbols, i, j);
    BeforeAppend(a, [symbols[i]], b, [symbols[j]]);
  }

  lemma LastDigit(v: nat, k: nat, symbols: Alphabet) returns (p: nat, i: nat)
    requires k > 0 && v < Power(|symbols|, k)
    ensures i < |symbols| && p < Power(|symbols|, k - 1) && v == |symbols| * p + i
    ensures Digits(v, k, symbols) == Digits(p, k - 1, symbols) + [symbols[i]]
  {
    p, i := v / |symbols|, v % |symbols|;
    DivMod(v, |symbols|);
    QuotientBounded(v, |symbols|, Power(|symbols|, k - 1));
  }

  /** Numbers of one width compare as text exactly as they compare as numbers. */
  lemma {:induction false} DigitsOrder(v: nat, w: nat, k: nat, symbols: Alphabet)
    requires v < Power(|symbols|, k) && w < Power(|symbols|, k)
    ensures Before(Digits(v, k, symbols), Digits(w, k, symbols)) <==> v < w
    decreases k
  {
    if k > 0 {
      var p, i := LastDigit(v, k, symbols);
      var q, j := LastDigit(w, k, symbols);
      DigitsOrder(p, q, k - 1, symbols);
      DigitsInjective(p, q, k - 1, symbols);
      OrderStep(Digits(p, k - 1, symbols), Digits(q, k - 1, symbols), i, j, symbols);
      LessByDigits(|symbols|, p, i, q, j);
    }
  }
}
