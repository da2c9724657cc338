/** Finite sums of natural-number valued functions over index ranges `0 .. n-1`,
    and the rearrangement facts the histogram totals rely on. */
module Sums {

  /** Sum of `f(0) + ... + f(n-1)`. */
  function Sum(n: nat, f: nat -> nat): nat
  {
    if n == 0 then 0 else Sum(n - 1, f) + f(n - 1)
  }

  /** `f(i, 0) + ... + f(i, m-1)`: row `i` of a double sum. */
  function Row(f: (nat, nat) -> nat, i: nat, m: nat): nat
  {
    Sum(m, j => f(i, j))
  }

  /** `f(0, j) + ... + f(l-1, j)`: column `j` of a double sum. */
  function Col(f: (nat, nat) -> nat, j: nat, l: nat): nat
  {
    Sum(l, i => f(i, j))
  }

  /** The innermost line `sum over k < n of f(i, j, k)` of a triple sum. */
  function Line(f: (nat, nat, nat) -> nat, i: nat, j: nat, n: nat): nat
  {
    Sum(n, k => f(i, j, k))
  }

  /** The slice `sum over j < m, k < n of f(i, j, k)` at a fixed first index. */
  function Slab(f: (nat, nat, nat) -> nat, i: nat, m: nat, n: nat): nat
  {
    Sum(m, j => Line(f, i, j, n))
  }

  /** Triple sum over the box `[0,l) x [0,m) x [0,n)`. */
  function Sum3(l: nat, m: nat, n: nat, f: (nat, nat, nat) -> nat): nat
  {
    Sum(l, i => Slab(f, i, m, n))
  }

  /** `sum over j < m of f(i, j, k)` at fixed first and last index. */
  function CrossLine(f: (nat, nat, nat) -> nat, i: nat, k: nat, m: nat): nat
  {
    Sum(m, j => f(i, j, k))
  }

  /** The slice `sum over i < l, j < m of f(i, j, k)` at a fixed last index. */
  function Layer(f: (nat, nat, nat) -> nat, k: nat, l: nat, m: nat): nat
  {
    Sum(l, i => CrossLine(f, i, k, m))
  }

  lemma {:induction false} SumExt(n: nat, f: nat -> nat, g: nat -> nat)
    requires forall i: nat :: i < n ==> f(i) == g(i)
    ensures Sum(n, f) == Sum(n, g)
  {
    if n > 0 {
      SumExt(n - 1, f, g);
    }
  }

  lemma {:induction false} SumZero(n: nat, f: nat -> nat)
    requires forall i: nat :: i < n ==> f(i) == 0
    ensures Sum(n, f) == 0
  {
    if n > 0 {
      SumZero(n - 1, f);
    }
  }

  lemma {:induction false} SumAdd(n: nat, f: nat -> nat, g: nat -> nat, h: nat -> nat)
    requires forall i: nat :: i < n ==> h(i) == f(i) + g(i)
    ensures Sum(n, h) == Sum(n, f) + Sum(n, g)
  {
    if n > 0 {
      SumAdd(n - 1, f, g, h);
    }
  }

  lemma {:induction false} SumLe(n: nat, f: nat -> nat, g: nat -> nat)
    requires forall i: nat :: i < n ==> f(i) <= g(i)
    ensures Sum(n, f) <= Sum(n, g)
  {
    if n > 0 {
      SumLe(n - 1, f, g);
    }
  }

  lemma {:induction false} SumPrefix(m: nat, n: nat, f: nat -> nat)
    requires m <= n
    ensures Sum(m, f) <= Sum(n, f)
  {
    if m < n {
      SumPrefix(m, n - 1, f);
    }
  }

  /** A sum whose terms vanish outside one index `c` equals the term at `c`. */
  lemma {:induction false} SumSingle(n: nat, c: nat, f: nat -> nat)
    requires c < n
    requires forall i: nat :: i < n && i != c ==> f(i) == 0
    ensures Sum(n, f) == f(c)
  {
    if n - 1 == c {
      SumZero(n - 1, f);
    } else {
      SumSingle(n - 1, c, f);
    }
  }

  /** Exchanging the order of a double sum: the total of the rows is the total of the columns. */
  lemma {:induction false} SumSwap(l: nat, m: nat, f: (nat, nat) -> nat)
    ensures Sum(l, i => Row(f, i, m)) == Sum(m, j => Col(f, j, l))
  {
    if l == 0 {
      SumZero(m, j => Col(f, j, 0));
    } else {
      SumSwap(l - 1, m, f);
      SumAdd(m, j => Col(f, j, l - 1), j => f(l - 1, j), j => Col(f, j, l));
    }
  }

  lemma Sum3Ext(l: nat, m: nat, n: nat, f: (nat, nat, nat) -> nat, g: (nat, nat, nat) -> nat)
    requires forall i: nat, j: nat, k: nat :: i < l && j < m && k < n ==> f(i, j, k) == g(i, j, k)
    ensures Sum3(l, m, n, f) == Sum3(l, m, n, g)
  {
    forall i: nat | i < l
      ensures Slab(f, i, m, n) == Slab(g, i, m, n)
    {
      forall j: nat | j < m
        ensures Line(f, i, j, n) == Line(g, i, j, n)
      {
        SumExt(n, k => f(i, j, k), k => g(i, j, k));
      }
      SumExt(m, j => Line(f, i, j, n), j => Line(g, i, j, n));
    }
    SumExt(l, i => Slab(f, i, m, n), i => Slab(g, i, m, n));
  }

  lemma Sum3Add(l: nat, m: nat, n: nat, f: (nat, nat, nat) -> nat, g: (nat, nat, nat) -> nat,
                h: (nat, nat, nat) -> nat)
    requires forall i: nat, j: nat, k: nat :: i < l && j < m && k < n ==> h(i, j, k) == f(i, j, k) + g(i, j, k)
    ensures Sum3(l, m, n, h) == Sum3(l, m, n, f) + Sum3(l, m, n, g)
  {
    forall i: nat | i < l
      ensures Slab(h, i, m, n) == Slab(f, i, m, n) + Slab(g, i, m, n)
    {
      forall j: nat | j < m
        ensures Line(h, i, j, n) == Line(f, i, j, n) + Line(g, i, j, n)
      {
        SumAdd(n, k => f(i, j, k), k => g(i, j, k), k => h(i, j, k));
      }
      SumAdd(m, j => Line(f, i, j, n), j => Line(g, i, j, n), j => Line(h, i, j, n));
    }
    SumAdd(l, i => Slab(f, i, m, n), i => Slab(g, i, m, n), i => Slab(h, i, m, n));
  }

  lemma Sum3Le(l: nat, m: nat, n: nat, f: (nat, nat, nat) -> nat, g: (nat, nat, nat) -> nat)
    requires forall i: nat, j: nat, k: nat :: i < l && j < m && k < n ==> f(i, j, k) <= g(i, j, k)
    ensures Sum3(l, m, n, f) <= Sum3(l, m, n, g)
  {
    forall i: nat | i < l
      ensures Slab(f, i, m, n) <= Slab(g, i, m, n)
    {
      forall j: nat | j < m
        ensures Line(f, i, j, n) <= Line(g, i, j, n)
      {
        SumLe(n, k => f(i, j, k), k => g(i, j, k));
      }
      SumLe(m, j => Line(f, i, j, n), j => Line(g, i, j, n));
    }
    SumLe(l, i => Slab(f, i, m, n), i => Slab(g, i, m, n));
  }

  /** Enlarging the box never decreases a sum of natural numbers. */
  lemma Sum3Prefix(l: nat, m: nat, n: nat, l': nat, m': nat, n': nat, f: (nat, nat, nat) -> nat)
    requires l <= l' && m <= m' && n <= n'
    ensures Sum3(l, m, n, f) <= Sum3(l', m', n', f)
  {
    forall i: nat | i < l
      ensures Slab(f, i, m, n) <= Slab(f, i, m', n')
    {
      forall j: nat | j < m
        ensures Line(f, i, j, n) <= Line(f, i, j, n')
      {
        SumPrefix(n, n', k => f(i, j, k));
      }
      SumLe(m, j => Line(f, i, j, n), j => Line(f, i, j, n'));
      SumPrefix(m, m', j => Line(f, i, j, n'));
    }
    SumLe(l, i => Slab(f, i, m, n), i => Slab(f, i, m', n'));
    SumPrefix(l, l', i => Slab(f, i, m', n'));
  }

  /** A box sum whose terms vanish everywhere but at one cell inside the box is that term. */
  lemma Sum3Single(l: nat, m: nat, n: nat, a: nat, b: nat, c: nat, f: (nat, nat, nat) -> nat)
    requires a < l && b < m && c < n
    requires forall i: nat, j: nat, k: nat :: i < l && j < m && k < n && (i != a || j != b || k != c) ==> f(i, j, k) == 0
    ensures Sum3(l, m, n, f) == f(a, b, c)
  {
    forall i: nat | i < l
      ensures Slab(f, i, m, n) == if i == a then f(a, b, c) else 0
    {
      forall j: nat | j < m
        ensures Line(f, i, j, n) == if i == a && j == b then f(a, b, c) else 0
      {
        if i == a && j == b {
          SumSingle(n, c, k => f(i, j, k));
        } else {
          SumZero(n, k => f(i, j, k));
        }
      }
      if i == a {
        SumSingle(m, b, j => Line(f, i, j, n));
      } else {
        SumZero(m, j => Line(f, i, j, n));
      }
    }
    SumSingle(l, a, i => Slab(f, i, m, n));
  }

  /** Summing the last index outermost gives the same triple sum. */
  lemma Sum3Rotate(l: nat, m: nat, n: nat, f: (nat, nat, nat) -> nat)
    ensures Sum3(l, m, n, f) == Sum(n, k => Layer(f, k, l, m))
  {
    forall i: nat | i < l
      ensures Slab(f, i, m, n) == Sum(n, k => CrossLine(f, i, k, m))
    {
      var g: (nat, nat) -> nat := (j, k) => f(i, j, k);
      SumSwap(m, n, g);
      forall j: nat | j < m
        ensures Line(f, i, j, n) == Row(g, j, n)
      {
        SumExt(n, k => f(i, j, k), k => g(j, k));
      }
      SumExt(m, j => Line(f, i, j, n), j => Row(g, j, n));
      forall k: nat | k < n
        ensures CrossLine(f, i, k, m) == Col(g, k, m)
      {
        SumExt(m, j => f(i, j, k), j => g(j, k));
      }
      SumExt(n, k => CrossLine(f, i, k, m), k => Col(g, k, m));
    }
    SumExt(l, i => Slab(f, i, m, n), i => Sum(n, k => CrossLine(f, i, k, m)));
    var h: (nat, nat) -> nat := (i, k) => CrossLine(f, i, k, m);
    SumSwap(l, n, h);
    forall i: nat | i < l
      ensures Sum(n, k => CrossLine(f, i, k, m)) == Row(h, i, n)
    {
      SumExt(n, k => CrossLine(f, i, k, m), k => h(i, k));
    }
    SumExt(l, i => Sum(n, k => CrossLine(f, i, k, m)), i => Row(h, i, n));
    forall k: nat | k < n
      ensures Layer(f, k, l, m) == Col(h, k, l)
    {
      SumExt(l, i => CrossLine(f, i, k, m), i => h(i, k));
    }
    SumExt(n, k => Layer(f, k, l, m), k => Col(h, k, l));
  }

  /** A box sum whose terms all vanish is zero. */
  lemma Sum3Zero(l: nat, m: nat, n: nat, f: (nat, nat, nat) -> nat)
    requires forall i: nat, j: nat, k: nat :: i < l && j < m && k < n ==> f(i, j, k) == 0
    ensures Sum3(l, m, n, f) == 0
  {
    forall i: nat | i < l
      ensures Slab(f, i, m, n) == 0
    {
      forall j: nat | j < m
        ensures Line(f, i, j, n) == 0
      {
        SumZero(n, k => f(i, j, k));
      }
      SumZero(m, j => Line(f, i, j, n));
    }
    SumZero(l, i => Slab(f, i, m, n));
  }
}
