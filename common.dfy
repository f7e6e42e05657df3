/** Values and helpers shared by every part of the model: JavaScript's
    null/undefined as Option, the truthiness tests the routes apply to ids,
    the error-or-value shape of a persistence callback, sums and means over
    reals, and counting over a completion order. */
module Common {

  datatype Option<+T> = None | Some(value: T)

  datatype Result<+T> = Ok(value: T) | Err(message: string)

  /** How one dispatched persistence call ended: the id of the row it
      inserted, or the error it reported. */
  datatype Outcome = Stored(rowId: int) | Failed(message: string)

  function StoredAt(outcomes: seq<Outcome>): nat -> bool {
    (i: nat) => i < |outcomes| && outcomes[i].Stored?
  }

  function FailedAt(outcomes: seq<Outcome>): nat -> bool {
    (i: nat) => i < |outcomes| && outcomes[i].Failed?
  }

  /** A day, ordered as the ISO `yyyy-mm-dd` strings the backend stores
      compare. */
  type Date = int

  /** A time of day, kept opaque. */
  type Time = int

  /** `x` is truthy in JavaScript: present and not the number 0. */
  predicate Truthy(x: Option<int>) {
    x.Some? && x.value != 0
  }

  /** `x || null` on an id. */
  function OrNull(x: Option<int>): (r: Option<int>)
    ensures Truthy(x) ==> r == x
    ensures !Truthy(x) ==> r == None
    ensures r == None || Truthy(r)
  {
    if Truthy(x) then x else None
  }

  /** `value || fallback` on a request field that is absent or falsy when None. */
  function OrDefault<T>(x: Option<T>, fallback: T): T {
    if x.Some? then x.value else fallback
  }

  // ---------------------------------------------------------------------
  // Filtering

  /** `s.filter(keep)`: the elements of `s` that satisfy `keep`, in their
      order; each one as many times as it occurs in `s`. */
  function Filter<T(==,!new)>(s: seq<T>, keep: T -> bool): (r: seq<T>)
    ensures |r| <= |s|
    ensures forall x :: multiset(r)[x] == if keep(x) then multiset(s)[x] else 0
    ensures forall x :: x in r <==> x in s && keep(x)
    ensures forall k :: 0 <= k < |r| ==> keep(r[k])
  {
    if s == [] then []
    else
      var last := s[|s| - 1];
      assert s == s[..|s| - 1] + [last];
      Filter(s[..|s| - 1], keep) + (if keep(last) then [last] else [])
  }

  // ---------------------------------------------------------------------
  // Sums and means

  function Sum(xs: seq<real>): real {
    if xs == [] then 0.0 else Sum(xs[..|xs| - 1]) + xs[|xs| - 1]
  }

  /** The mean of `xs`, or 0 when there is none (what every average in the
      backend falls back to). */
  function Mean(xs: seq<real>): real {
    if |xs| == 0 then 0.0 else Sum(xs) / (|xs| as real)
  }

  lemma {:induction false} SumBounds(xs: seq<real>, lo: real, hi: real)
    requires forall i :: 0 <= i < |xs| ==> lo <= xs[i] <= hi
    ensures lo * (|xs| as real) <= Sum(xs) <= hi * (|xs| as real)
  {
    if xs != [] {
      SumBounds(xs[..|xs| - 1], lo, hi);
    }
  }

  /** A mean lies between any bounds of the values it is taken over. */
  lemma MeanBounds(xs: seq<real>, lo: real, hi: real)
    requires |xs| > 0
    requires forall i :: 0 <= i < |xs| ==> lo <= xs[i] <= hi
    ensures lo <= Mean(xs) <= hi
  {
    SumBounds(xs, lo, hi);
    var n := |xs| as real;
    assert lo * n <= Sum(xs) <= hi * n;
    assert Sum(xs) / n >= lo by {
      assert (Sum(xs) / n) * n == Sum(xs);
    }
    assert Sum(xs) / n <= hi by {
      assert (Sum(xs) / n) * n == Sum(xs);
    }
  }

  // ---------------------------------------------------------------------
  // Counting over completion orders

  /** The indices 0 .. n-1 in increasing order. */
  function Range(n: nat): (r: seq<nat>)
    ensures |r| == n
    ensures forall i :: 0 <= i < n ==> r[i] == i
  {
    if n == 0 then [] else Range(n - 1) + [n - 1]
  }

  /** `order` lists every index 0 .. n-1 exactly once: the order in which the
      n callbacks of a fan-out complete. */
  predicate IsOrder(order: seq<nat>, n: nat) {
    multiset(order) == multiset(Range(n))
  }

  lemma OrderBounds(order: seq<nat>, n: nat)
    requires IsOrder(order, n)
    ensures |order| == n
    ensures forall k :: 0 <= k < |order| ==> order[k] < n
  {
    assert |order| == |multiset(order)| == |multiset(Range(n))| == n;
    forall k | 0 <= k < |order| ensures order[k] < n {
      assert order[k] in multiset(order);
      assert order[k] in multiset(Range(n));
      assert order[k] in Range(n);
    }
  }

  /** How many entries of `s` satisfy `p`. */
  function CountWhere(s: seq<nat>, p: nat -> bool): (r: nat)
    ensures r <= |s|
  {
    if s == [] then 0 else CountWhere(s[..|s| - 1], p) + (if p(s[|s| - 1]) then 1 else 0)
  }

  lemma {:induction false} CountWhereAppend(a: seq<nat>, b: seq<nat>, p: nat -> bool)
    ensures CountWhere(a + b, p) == CountWhere(a, p) + CountWhere(b, p)
  {
    if b != [] {
      assert (a + b)[..|a + b| - 1] == a + b[..|b| - 1];
      CountWhereAppend(a, b[..|b| - 1], p);
    } else {
      assert a + b == a;
    }
  }

  /** Taking out the entry at `j` takes out its count. */
  lemma {:induction false} CountWhereRemove(b: seq<nat>, j: nat, p: nat -> bool)
    requires j < |b|
    ensures CountWhere(b, p) == CountWhere(b[..j] + b[j + 1..], p) + (if p(b[j]) then 1 else 0)
  {
    var init := b[..|b| - 1];
    if j == |b| - 1 {
      assert b[..j] + b[j + 1..] == init;
    } else {
      CountWhereRemove(init, j, p);
      var rest := init[..j] + init[j + 1..];
      var removed := b[..j] + b[j + 1..];
      assert removed == rest + [b[|b| - 1]];
      assert removed[..|removed| - 1] == rest;
    }
  }

  lemma MultisetRemove(b: seq<nat>, j: nat)
    requires j < |b|
    ensures multiset(b) == multiset(b[..j] + b[j + 1..]) + multiset{b[j]}
  {
    assert b == b[..j] + [b[j]] + b[j + 1..];
  }

  /** A count does not depend on the order the entries come in. */
  lemma {:induction false} CountWhereRearranged(a: seq<nat>, b: seq<nat>, p: nat -> bool)
    requires multiset(a) == multiset(b)
    ensures CountWhere(a, p) == CountWhere(b, p)
    decreases |a|
  {
    if a == [] {
      assert |b| == |multiset(b)| == 0;
    } else {
      var x := a[|a| - 1];
      var a' := a[..|a| - 1];
      assert a == a' + [x];
      assert multiset(a) == multiset(a') + multiset{x};
      assert x in multiset(b);
      var j :| 0 <= j < |b| && b[j] == x;
      var b' := b[..j] + b[j + 1..];
      CountWhereRemove(b, j, p);
      MultisetRemove(b, j);
      assert multiset(a') == multiset(b') by {
        forall y ensures multiset(a')[y] == multiset(b')[y] {
          assert (multiset(a') + multiset{x})[y] == (multiset(b') + multiset{x})[y];
        }
      }
      CountWhereRearranged(a', b', p);
    }
  }

  /** Counting over a completion order gives the count over all indices. */
  lemma CountOverOrder(order: seq<nat>, n: nat, p: nat -> bool)
    requires IsOrder(order, n)
    ensures CountWhere(order, p) == CountWhere(Range(n), p)
  {
    CountWhereRearranged(order, Range(n), p);
  }

  /** Every index satisfies exactly one of `p` and `q`: their counts add up. */
  lemma {:induction false} CountWherePartition(s: seq<nat>, p: nat -> bool, q: nat -> bool)
    requires forall i :: i in s ==> p(i) != q(i)
    ensures CountWhere(s, p) + CountWhere(s, q) == |s|
  {
    if s != [] {
      CountWherePartition(s[..|s| - 1], p, q);
    }
  }
}
