/** Facts about sets, maps and positions in sequences. */
module Collections {
  lemma SubsetSize<T>(a: set<T>, b: set<T>)
    requires a <= b
    ensures |a| <= |b|
  {
    assert b == a + (b - a);
  }

  lemma ValuesWithout<K, V>(m: map<K, V>, k: K)
    requires k in m
    ensures m.Values == (m - {k}).Values + {m[k]}
  {
    var rest := m - {k};
    forall v | v in m.Values ensures v in rest.Values + {m[k]} {
      var l :| l in m && m[l] == v;
      if l != k { assert rest[l] == v; }
    }
    forall v | v in rest.Values ensures v in m.Values {
      var l :| l in rest && rest[l] == v;
      assert m[l] == v;
    }
  }

  /** How many of the first `n` positions have the property. */
  function HowMany(n: nat, p: nat -> bool): nat {
    |set j: nat | j < n && p(j)|
  }

  lemma HowManyStep(n: nat, p: nat -> bool)
    ensures HowMany(n + 1, p) == HowMany(n, p) + if p(n) then 1 else 0
    ensures HowMany(0, p) == 0
  {
    var before, after := set j: nat | j < n && p(j), set j: nat | j < n + 1 && p(j);
    assert after == if p(n) then before + {n} else before;
  }

  lemma {:induction false} NumberGrows(i: nat, n: nat, p: nat -> bool)
    requires i < n && p(i)
    ensures HowMany(i, p) < HowMany(n, p)
  {
    HowManyStep(n - 1, p);
    if i < n - 1 { NumberGrows(i, n - 1, p); }
  }

  /** `s` has the items whose position among the first `n` has the property, in order: each is where the number of
      those before it says. */
  predicate Placed<T(==)>(s: seq<T>, n: nat, p: nat -> bool, items: seq<T>)
    requires n <= |items|
  {
    && |s| == HowMany(n, p)
    && forall i: nat | i < n && p(i) :: HowMany(i, p) < |s| && s[HowMany(i, p)] == items[i]
  }

  lemma PlacedStep<T>(s: seq<T>, n: nat, p: nat -> bool, items: seq<T>)
    requires n < |items| && Placed(s, n, p, items)
    ensures Placed(if p(n) then s + [items[n]] else s, n + 1, p, items)
  {
    HowManyStep(n, p);
  }

  lemma NonePlaced<T>(p: nat -> bool, items: seq<T>)
    ensures Placed([], 0, p, items)
  {
    HowManyStep(0, p);
  }

  lemma SameNumber(n: nat, p: nat -> bool, q: nat -> bool)
    requires forall j | 0 <= j < n :: p(j) == q(j)
    ensures HowMany(n, p) == HowMany(n, q)
  {
    assert (set j: nat | j < n && p(j)) == (set j: nat | j < n && q(j));
  }

  lemma PlacedAlike<T>(s: seq<T>, n: nat, p: nat -> bool, q: nat -> bool, items: seq<T>, more: seq<T>)
    requires n <= |items| && n <= |more| && Placed(s, n, p, items)
    requires forall j: nat | j < n :: p(j) == q(j) && items[j] == more[j]
    ensures Placed(s, n, q, more)
  {
    forall i: nat | i <= n ensures HowMany(i, p) == HowMany(i, q) { SameNumber(i, p, q); }
  }
}
