/** Relations kept as maps from an element to the set of elements it is
    related to, and the one update the graph applies to them. */
module Relations {
  /** The members of a sequence. */
  function Elements<X>(s: seq<X>): (e: set<X>)
    ensures forall i | 0 <= i < |s| :: s[i] in e
    ensures forall x | x in e :: exists i :: 0 <= i < |s| && s[i] == x
  {
    set x | x in s
  }

  lemma ElementsSnoc<X>(s: seq<X>, i: int)
    requires 0 <= i < |s|
    ensures Elements(s[..i + 1]) == Elements(s[..i]) + {s[i]}
  {
    assert s[..i + 1] == s[..i] + [s[i]];
  }

  /** Relates every member of `S` additionally to every member of `T`. */
  function Spread<X, Y>(m: map<X, set<Y>>, S: set<X>, T: set<Y>): (r: map<X, set<Y>>)
    ensures r.Keys == m.Keys
  {
    map x | x in m :: if x in S then m[x] + T else m[x]
  }

  /** Spreading one pair is one map update. */
  lemma SpreadOne<X, Y>(m: map<X, set<Y>>, a: X, b: Y)
    requires a in m
    ensures Spread(m, {a}, {b}) == m[a := m[a] + {b}]
  {
  }

  /** Adding a pair that is already related changes nothing. */
  lemma UpdateNoop<X, Y>(m: map<X, set<Y>>, a: X, b: Y)
    requires a in m && b in m[a]
    ensures m[a := m[a] + {b}] == m
  {
    assert m[a] + {b} == m[a];
  }

  /** One more target for a single source. */
  lemma SpreadAddTarget<X, Y>(m: map<X, set<Y>>, a: X, T: set<Y>, b: Y)
    requires a in m
    ensures var s := Spread(m, {a}, T); s[a := s[a] + {b}] == Spread(m, {a}, T + {b})
  {
    var s := Spread(m, {a}, T);
    var l, r := s[a := s[a] + {b}], Spread(m, {a}, T + {b});
    forall x | x in l ensures l[x] == r[x] {
      if x == a { assert l[x] == m[a] + T + {b}; }
    }
  }

  /** One more source for a single target. */
  lemma SpreadAddSource<X, Y>(m: map<X, set<Y>>, S: set<X>, a: X, b: Y)
    requires a in m
    ensures var s := Spread(m, S, {b}); s[a := s[a] + {b}] == Spread(m, S + {a}, {b})
  {
    var s := Spread(m, S, {b});
    var l, r := s[a := s[a] + {b}], Spread(m, S + {a}, {b});
    forall x | x in l ensures l[x] == r[x] {
      if x == a { assert l[x] == m[a] + {b}; }
    }
  }

  /** Two spreads from the same sources merge into one. */
  lemma SpreadMerge<X, Y>(m: map<X, set<Y>>, S: set<X>, T1: set<Y>, T2: set<Y>)
    ensures Spread(Spread(m, S, T1), S, T2) == Spread(m, S, T1 + T2)
  {
    var a, b := Spread(Spread(m, S, T1), S, T2), Spread(m, S, T1 + T2);
    forall x | x in a ensures a[x] == b[x] {
      if x in S { assert a[x] == m[x] + T1 + T2; }
    }
  }

  /** Two spreads to the same targets merge into one. */
  lemma SpreadGrow<X, Y>(m: map<X, set<Y>>, S1: set<X>, S2: set<X>, T: set<Y>)
    ensures Spread(Spread(m, S1, T), S2, T) == Spread(m, S1 + S2, T)
  {
  }

  /** Spreading what is already there changes nothing. */
  lemma SpreadPresent<X, Y>(m: map<X, set<Y>>, S: set<X>, T: set<Y>)
    requires forall x | x in S && x in m :: T <= m[x]
    ensures Spread(m, S, T) == m
  {
    var a := Spread(m, S, T);
    forall x | x in a ensures a[x] == m[x] {
      if x in S { assert T <= m[x]; }
    }
  }

  /** Spreading nothing, or from nowhere, changes nothing. */
  lemma SpreadNothing<X, Y>(m: map<X, set<Y>>, S: set<X>, T: set<Y>)
    requires S == {} || T == {}
    ensures Spread(m, S, T) == m
  {
    SpreadPresent(m, S, T);
  }

  /** `m` is keyed by exactly `keys` and relates them only to members of
      `vals`. */
  ghost predicate Within<X, Y>(m: map<X, set<Y>>, keys: set<X>, vals: set<Y>)
  {
    m.Keys == keys && forall x | x in m :: m[x] <= vals
  }

  lemma SpreadWithin<X, Y>(m: map<X, set<Y>>, keys: set<X>, vals: set<Y>, S: set<X>, T: set<Y>)
    requires Within(m, keys, vals) && T <= vals
    ensures Within(Spread(m, S, T), keys, vals)
  {
  }

  lemma AddKeyWithin<X, Y>(m: map<X, set<Y>>, keys: set<X>, vals: set<Y>, k: X, vals': set<Y>)
    requires Within(m, keys, vals) && vals <= vals'
    ensures Within(m[k := {}], keys + {k}, vals')
  {
  }

  /** `y` is related to `x` in `fwd` exactly when `x` is related to `y` in
      `bwd`, for every pair of keys except perhaps (`a`, `b`). */
  ghost predicate SymmetricExcept<X, Y>(fwd: map<X, set<Y>>, bwd: map<Y, set<X>>, a: X, b: Y)
  {
    forall x, y | x in fwd && y in bwd && (x != a || y != b) :: y in fwd[x] <==> x in bwd[y]
  }

  ghost predicate Symmetric<X, Y>(fwd: map<X, set<Y>>, bwd: map<Y, set<X>>)
  {
    forall x, y | x in fwd && y in bwd :: y in fwd[x] <==> x in bwd[y]
  }

  /** A symmetric pair of relations agrees on one given pair. */
  lemma SymmetricAt<X, Y>(fwd: map<X, set<Y>>, bwd: map<Y, set<X>>, x: X, y: Y)
    requires Symmetric(fwd, bwd) && x in fwd && y in bwd
    ensures y in fwd[x] <==> x in bwd[y]
  {
  }

  lemma SymmetricIsExcept<X, Y>(fwd: map<X, set<Y>>, bwd: map<Y, set<X>>, a: X, b: Y)
    requires Symmetric(fwd, bwd)
    ensures SymmetricExcept(fwd, bwd, a, b)
  {
  }

  /** Recording one half of the pair (`a`, `b`) leaves the other pairs as
      they were. */
  lemma SymmetricExceptSpreadFwd<X, Y>(fwd: map<X, set<Y>>, bwd: map<Y, set<X>>, a: X, b: Y)
    requires SymmetricExcept(fwd, bwd, a, b)
    ensures SymmetricExcept(Spread(fwd, {a}, {b}), bwd, a, b)
  {
  }

  lemma SymmetricExceptSpreadBwd<X, Y>(fwd: map<X, set<Y>>, bwd: map<Y, set<X>>, a: X, b: Y)
    requires SymmetricExcept(fwd, bwd, a, b)
    ensures SymmetricExcept(fwd, Spread(bwd, {b}, {a}), a, b)
  {
  }

  /** Once both halves of (`a`, `b`) agree, every pair does. */
  lemma SymmetricExceptClosed<X, Y>(fwd: map<X, set<Y>>, bwd: map<Y, set<X>>, a: X, b: Y)
    requires SymmetricExcept(fwd, bwd, a, b)
    requires a in fwd && b in bwd && (b in fwd[a] <==> a in bwd[b])
    ensures Symmetric(fwd, bwd)
  {
  }

  /** A new key related to nothing keeps the relations symmetric, provided
      nothing is related to it yet. */
  lemma SymmetricAddFwd<X, Y>(fwd: map<X, set<Y>>, bwd: map<Y, set<X>>, a: X)
    requires Symmetric(fwd, bwd)
    requires forall y | y in bwd :: a !in bwd[y]
    ensures Symmetric(fwd[a := {}], bwd)
  {
  }

  lemma SymmetricAddBwd<X, Y>(fwd: map<X, set<Y>>, bwd: map<Y, set<X>>, b: Y)
    requires Symmetric(fwd, bwd)
    requires forall x | x in fwd :: b !in fwd[x]
    ensures Symmetric(fwd, bwd[b := {}])
  {
  }
}
