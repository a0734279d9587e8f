/** Splitting one Kahn level into batches whose members never use a
    resource at the same time. Processes are of type `P`, resources of type
    `R`, and `reqs[p]` is the set of resources process `p` requires. */
module ResourceSplit {
  import opened Enumerables
  import opened Schedules
  import opened Kahn

  /** Some member of `level` requires at least one resource. */
  predicate AnyRequires<P, R>(level: set<P>, reqs: map<P, set<R>>)
  {
    exists p | p in level && p in reqs :: reqs[p] != {}
  }

  /** The level is handed back whole: the graph has no resources, or no
      member of the level requires one. */
  predicate FastPath<P, R>(level: set<P>, resources: set<R>, reqs: map<P, set<R>>): (fast: bool)
    ensures resources == {} ==> fast
    ensures (forall p | p in level && p in reqs :: reqs[p] == {}) ==> fast
    ensures fast && (forall p | p in level && p in reqs :: reqs[p] <= resources) ==>
      forall p | p in level && p in reqs :: reqs[p] == {}
  {
    resources == {} || !AnyRequires(level, reqs)
  }

  /** `p` may join `batch`: the members of `batch` whose resources overlap
      those of `p` form an empty collection. */
  predicate Agreeable<P, R>(batch: set<P>, p: P, reqs: map<P, set<R>>): (ok: bool)
    requires batch <= reqs.Keys && p in reqs
    ensures ok <==> forall q | q in batch :: !Share(q, p, reqs)
  {
    ClashesNoShare(batch, p, reqs);
    IsEmpty(set q | q in batch && !(reqs[q] !! reqs[p]))
  }

  /** The members of `batch` whose resources overlap those of `p` are none
      exactly when no member shares a resource with `p`. */
  lemma ClashesNoShare<P, R>(batch: set<P>, p: P, reqs: map<P, set<R>>)
    requires batch <= reqs.Keys && p in reqs
    ensures IsEmpty(set q | q in batch && !(reqs[q] !! reqs[p])) <==> forall q | q in batch :: !Share(q, p, reqs)
  {
    var clash := set q | q in batch && !(reqs[q] !! reqs[p]);
    if !IsEmpty(clash) {
      var q :| q in clash;
      assert Share(q, p, reqs);
    } else {
      forall q | q in batch ensures !Share(q, p, reqs) {
        assert q !in clash;
      }
    }
  }

  /** Every batch is made of processes known to `reqs`. */
  ghost predicate Known<P, R>(batches: seq<set<P>>, reqs: map<P, set<R>>)
  {
    forall i | 0 <= i < |batches| :: batches[i] <= reqs.Keys
  }

  /** Puts `p` into the smallest batch it agrees with (ties go to the later
      batch, as a left fold keeping the strictly smaller one does), or into a
      new batch at the end when it agrees with none. `k` is the index used. */
  method Place<P, R>(batches: seq<set<P>>, p: P, reqs: map<P, set<R>>) returns (result: seq<set<P>>, k: nat)
    requires Known(batches, reqs) && p in reqs
    ensures k <= |batches|
    ensures k < |batches| ==>
      && Agreeable(batches[k], p, reqs)
      && (forall i | 0 <= i < |batches| && Agreeable(batches[i], p, reqs) ::
            |batches[k]| <= |batches[i]| && (k < i ==> |batches[k]| < |batches[i]|))
      && result == batches[k := batches[k] + {p}]
    ensures k == |batches| ==>
      && (forall i | 0 <= i < |batches| :: !Agreeable(batches[i], p, reqs))
      && result == batches + [{p}]
  {
    k := |batches|;
    var i := 0;
    while i < |batches|
      invariant 0 <= i <= |batches| && k <= |batches|
      invariant k == |batches| ==> forall j | 0 <= j < i :: !Agreeable(batches[j], p, reqs)
      invariant k < |batches| ==>
        && k < i
        && Agreeable(batches[k], p, reqs)
        && (forall j | 0 <= j < i && Agreeable(batches[j], p, reqs) ::
              |batches[k]| <= |batches[j]| && (k < j ==> |batches[k]| < |batches[j]|))
    {
      if Agreeable(batches[i], p, reqs) && (k == |batches| || |batches[i]| <= |batches[k]|) {
        k := i;
      }
      i := i + 1;
    }
    if k < |batches| {
      result := batches[k := batches[k] + {p}];
    } else {
      result := batches + [{p}];
    }
  }

  /** Each batch after the first was opened by a founder that clashed with
      some member of every batch before it, the batches being in the order
      they were created. */
  ghost predicate FoundedBy<P, R>(batches: seq<set<P>>, founders: seq<P>, reqs: map<P, set<R>>)
  {
    && |founders| == |batches|
    && (forall i | 0 <= i < |batches| :: founders[i] in batches[i])
    && (forall i, j | 0 <= j < i < |batches| :: Clashes(batches[j], founders[i], reqs))
  }

  /** Some member of `batch` shares a resource with `f`. */
  ghost predicate Clashes<P, R>(batch: set<P>, f: P, reqs: map<P, set<R>>)
  {
    exists q :: q in batch && Share(q, f, reqs)
  }

  /** Every level's batches were opened by the founders recorded for it. */
  ghost predicate AllFoundedBy<P, R>(parts: seq<seq<set<P>>>, founders: seq<seq<P>>, reqs: map<P, set<R>>)
  {
    |founders| == |parts| && forall i | 0 <= i < |parts| :: FoundedBy(parts[i], founders[i], reqs)
  }

  /** What the greedy split promises: a conflict-free partition of the level,
      in which no batch was opened without need. */
  ghost predicate GreedySplit<P, R>(batches: seq<set<P>>, level: set<P>, founders: seq<P>, reqs: map<P, set<R>>)
  {
    Partitions(batches, level) && AllConflictFree(batches, reqs) && FoundedBy(batches, founders, reqs)
  }

  /** Splits a level of mutually unordered processes into batches that can
      each run without two of its members using the same resource. */
  method SolveResourceDependencies<P, R>(level: set<P>, resources: set<R>, reqs: map<P, set<R>>)
    returns (batches: seq<set<P>>, ghost founders: seq<P>)
    requires level <= reqs.Keys
    requires forall p | p in level :: reqs[p] <= resources
    ensures FastPath(level, resources, reqs) ==> batches == [level]
    ensures level != {} ==> GreedySplit(batches, level, founders, reqs) && 1 <= |batches| <= |level|
  {
    if FastPath(level, resources, reqs) {
      batches := [level];
      founders := [];
      if level != {} {
        FastPathSplit(level, resources, reqs);
        var p :| p in level;
        founders := [p];
      }
      return;
    }
    batches, founders := GreedyBatches(level, reqs);
  }

  /** The slow path of `SolveResourceDependencies`: each process of the
      level, in turn, joins the smallest batch it agrees with, or opens a new
      batch when it agrees with none. */
  method GreedyBatches<P, R>(level: set<P>, reqs: map<P, set<R>>)
    returns (batches: seq<set<P>>, ghost founders: seq<P>)
    requires level <= reqs.Keys
    ensures level != {} ==> GreedySplit(batches, level, founders, reqs) && 1 <= |batches| <= |level|
  {
    batches, founders := [], [];
    var todo := level;
    while todo != {}
      invariant todo <= level
      invariant Progress(batches, founders, level - todo, reqs)
      invariant |batches| <= |level| - |todo|
      invariant todo == level || batches != []
      decreases |todo|
    {
      var p :| p in todo;
      var before := batches;
      var k;
      batches, k := Place(batches, p, reqs);
      ghost var grown := if k == |before| then founders + [p] else founders;
      MoveOne(level, todo, p);
      PlaceStep(before, founders, level - todo, p, reqs, batches, k, grown, level - (todo - {p}));
      founders := grown;
      todo := todo - {p};
    }
    assert level - todo == level;
  }

  lemma MoveOne<P>(level: set<P>, todo: set<P>, p: P)
    requires todo <= level && p in todo
    ensures (level - todo) + {p} == level - (todo - {p})
    ensures |todo - {p}| == |todo| - 1
  {
  }

  /** The loop invariant of the greedy split: the batches so far split the
      processes `done` already placed. */
  ghost predicate Progress<P, R>(batches: seq<set<P>>, founders: seq<P>, done: set<P>, reqs: map<P, set<R>>)
  {
    Known(batches, reqs) && Partitions(batches, done) && AllConflictFree(batches, reqs) && FoundedBy(batches, founders, reqs)
  }

  /** One placement keeps the loop invariant. */
  lemma PlaceStep<P, R>(batches: seq<set<P>>, founders: seq<P>, done: set<P>, p: P, reqs: map<P, set<R>>,
                        result: seq<set<P>>, k: nat, grown: seq<P>, done': set<P>)
    requires Progress(batches, founders, done, reqs) && p in reqs && p !in done && k <= |batches|
    requires done' == done + {p}
    requires k < |batches| ==> Agreeable(batches[k], p, reqs) && result == batches[k := batches[k] + {p}]
    requires k == |batches| ==>
      (forall i | 0 <= i < |batches| :: !Agreeable(batches[i], p, reqs)) && result == batches + [{p}]
    requires grown == if k == |batches| then founders + [p] else founders
    ensures Progress(result, grown, done', reqs)
  {
    PlaceKeepsPartition(batches, done, p, result, k);
    PlaceKeepsConflictFree(batches, p, reqs, result, k);
    if k == |batches| {
      PlaceFounds(batches, founders, p, reqs, result);
    } else {
      PlaceKeepsFounders(batches, founders, p, reqs, result, k);
    }
  }

  lemma FastPathSplit<P, R>(level: set<P>, resources: set<R>, reqs: map<P, set<R>>)
    requires level <= reqs.Keys && level != {}
    requires forall p | p in level :: reqs[p] <= resources
    requires FastPath(level, resources, reqs)
    ensures Partitions([level], level) && AllConflictFree([level], reqs)
  {
    forall p, q | p in level && q in level && p != q
      ensures !Share(p, q, reqs)
    {
      assert reqs[p] == {};
    }
    assert forall p | p in level :: Placed([level], p) by {
      forall p | p in level ensures Placed([level], p) {
        assert p in [level][0];
      }
    }
  }

  lemma PlaceKeepsPartition<P>(batches: seq<set<P>>, s: set<P>, p: P, result: seq<set<P>>, k: nat)
    requires Partitions(batches, s) && p !in s && k <= |batches|
    requires k < |batches| ==> result == batches[k := batches[k] + {p}]
    requires k == |batches| ==> result == batches + [{p}]
    ensures Partitions(result, s + {p})
  {
    if k == |batches| {
      AppendKeepsPartition(batches, s, p);
    } else {
      InsertKeepsPartition(batches, s, p, k);
    }
  }

  lemma AppendKeepsPartition<P>(batches: seq<set<P>>, s: set<P>, p: P)
    requires Partitions(batches, s) && p !in s
    ensures Partitions(batches + [{p}], s + {p})
  {
    AppendKeepsDisjoint(batches, s, p);
    AppendKeepsCover(batches, s, p);
    var result := batches + [{p}];
    forall i | 0 <= i < |result| ensures result[i] != {} && result[i] <= s + {p} {
      if i < |batches| { assert result[i] == batches[i]; }
    }
  }

  lemma AppendKeepsDisjoint<P>(batches: seq<set<P>>, s: set<P>, p: P)
    requires forall i, j | 0 <= i < j < |batches| :: batches[i] !! batches[j]
    requires forall i | 0 <= i < |batches| :: batches[i] <= s
    requires p !in s
    ensures var result := batches + [{p}];
      forall i, j | 0 <= i < j < |result| :: result[i] !! result[j]
  {
    var result := batches + [{p}];
    forall i, j | 0 <= i < j < |result| ensures result[i] !! result[j] {
      assert result[i] == batches[i] && batches[i] <= s;
      if j < |batches| { assert result[j] == batches[j]; }
    }
  }

  lemma AppendKeepsCover<P>(batches: seq<set<P>>, s: set<P>, p: P)
    requires forall q | q in s :: Placed(batches, q)
    ensures forall q | q in s + {p} :: Placed(batches + [{p}], q)
  {
    var result := batches + [{p}];
    forall q | q in s + {p} ensures Placed(result, q) {
      if q == p {
        assert p in result[|batches|];
      } else {
        var i :| 0 <= i < |batches| && q in batches[i];
        assert q in result[i];
      }
    }
  }

  lemma InsertKeepsPartition<P>(batches: seq<set<P>>, s: set<P>, p: P, k: nat)
    requires Partitions(batches, s) && p !in s && k < |batches|
    ensures Partitions(batches[k := batches[k] + {p}], s + {p})
  {
    var result := batches[k := batches[k] + {p}];
    InsertKeepsWithin(batches, s, p, k, result);
    InsertKeepsDisjoint(batches, s, p, k, result);
    InsertKeepsCover(batches, s, p, k, result);
    PartitionsIntro(result, s + {p});
  }

  lemma InsertKeepsWithin<P>(batches: seq<set<P>>, s: set<P>, p: P, k: nat, result: seq<set<P>>)
    requires forall i | 0 <= i < |batches| :: batches[i] != {} && batches[i] <= s
    requires k < |batches| && result == batches[k := batches[k] + {p}]
    ensures forall i | 0 <= i < |result| :: result[i] != {} && result[i] <= s + {p}
  {
    forall i | 0 <= i < |result| ensures result[i] != {} && result[i] <= s + {p} {
      assert result[i] == if i == k then batches[k] + {p} else batches[i];
    }
  }

  lemma InsertKeepsCover<P>(batches: seq<set<P>>, s: set<P>, p: P, k: nat, result: seq<set<P>>)
    requires forall q | q in s :: Placed(batches, q)
    requires k < |batches| && result == batches[k := batches[k] + {p}]
    ensures forall q | q in s + {p} :: Placed(result, q)
  {
    forall q | q in s + {p} ensures Placed(result, q) {
      if q == p {
        assert p in result[k];
      } else {
        var i :| 0 <= i < |batches| && q in batches[i];
        assert batches[i] <= result[i];
      }
    }
  }

  lemma InsertKeepsDisjoint<P>(batches: seq<set<P>>, s: set<P>, p: P, k: nat, result: seq<set<P>>)
    requires forall i, j | 0 <= i < j < |batches| :: batches[i] !! batches[j]
    requires forall i | 0 <= i < |batches| :: batches[i] <= s
    requires p !in s && k < |batches| && result == batches[k := batches[k] + {p}]
    ensures forall i, j | 0 <= i < j < |result| :: result[i] !! result[j]
  {
    forall i, j | 0 <= i < j < |result| ensures result[i] !! result[j] {
      assert batches[i] !! batches[j];
      assert p !in batches[i] && p !in batches[j];
      assert result[i] == if i == k then batches[k] + {p} else batches[i];
      assert result[j] == if j == k then batches[k] + {p} else batches[j];
    }
  }

  lemma PlaceKeepsConflictFree<P, R>(batches: seq<set<P>>, p: P, reqs: map<P, set<R>>, result: seq<set<P>>, k: nat)
    requires Known(batches, reqs) && p in reqs && AllConflictFree(batches, reqs) && k <= |batches|
    requires k < |batches| ==> Agreeable(batches[k], p, reqs) && result == batches[k := batches[k] + {p}]
    requires k == |batches| ==> result == batches + [{p}]
    ensures AllConflictFree(result, reqs) && Known(result, reqs)
  {
    if k < |batches| {
      assert ConflictFree(result[k], reqs) by {
        forall x, y | x in result[k] && y in result[k] && x != y ensures !Share(x, y, reqs) {
          assert ConflictFree(batches[k], reqs);
        }
      }
    }
    forall i | 0 <= i < |result| ensures ConflictFree(result[i], reqs) {
      if i < |batches| && i != k { assert result[i] == batches[i]; }
    }
  }

  lemma PlaceFounds<P, R>(batches: seq<set<P>>, founders: seq<P>, p: P, reqs: map<P, set<R>>, result: seq<set<P>>)
    requires Known(batches, reqs) && p in reqs && FoundedBy(batches, founders, reqs)
    requires forall i | 0 <= i < |batches| :: !Agreeable(batches[i], p, reqs)
    requires result == batches + [{p}]
    ensures FoundedBy(result, founders + [p], reqs)
  {
    var f := founders + [p];
    forall i | 0 <= i < |result| ensures f[i] in result[i] {
      if i < |batches| { assert f[i] == founders[i] && result[i] == batches[i]; }
    }
    forall j | 0 <= j < |batches| ensures Clashes(batches[j], p, reqs) {
    }
    forall i, j | 0 <= j < i < |result| ensures Clashes(result[j], f[i], reqs) {
      if i < |batches| {
        assert result[i] == batches[i] && result[j] == batches[j] && f[i] == founders[i];
      } else {
        assert result[j] == batches[j] && f[i] == p;
      }
    }
  }

  lemma PlaceKeepsFounders<P, R>(batches: seq<set<P>>, founders: seq<P>, p: P, reqs: map<P, set<R>>, result: seq<set<P>>, k: nat)
    requires FoundedBy(batches, founders, reqs) && k < |batches|
    requires result == batches[k := batches[k] + {p}]
    ensures FoundedBy(result, founders, reqs)
  {
    forall i | 0 <= i < |result| ensures founders[i] in result[i] {
      assert founders[i] in batches[i];
    }
    forall i, j | 0 <= j < i < |result| ensures Clashes(result[j], founders[i], reqs) {
      ClashesGrow(batches[j], result[j], founders[i], reqs);
    }
  }

  /** A batch that clashes with `f` still does after it grows. */
  lemma ClashesGrow<P, R>(batch: set<P>, bigger: set<P>, f: P, reqs: map<P, set<R>>)
    requires Clashes(batch, f, reqs) && batch <= bigger
    ensures Clashes(bigger, f, reqs)
  {
    var q :| q in batch && Share(q, f, reqs);
    assert q in bigger;
  }

  /** Every batch after the first was opened by a founder that shares a
      resource with a member of the first batch. */
  lemma LaterBatchSharer<P, R>(batches: seq<set<P>>, level: set<P>, founders: seq<P>, reqs: map<P, set<R>>, i: nat)
    requires GreedySplit(batches, level, founders, reqs) && 0 < i < |batches|
    ensures exists x, f :: x in level && f in level && x != f && Share(x, f, reqs)
  {
    var f := founders[i];
    assert f in batches[i] && Clashes(batches[0], f, reqs);
    var x :| x in batches[0] && Share(x, f, reqs);
    assert batches[0] !! batches[i];
    assert x in level && f in level && x != f;
  }

  /** A third batch was opened by a founder sharing a resource with a member
      of each of the first two batches: two different processes. */
  lemma ThirdBatchSharers<P, R>(batches: seq<set<P>>, level: set<P>, founders: seq<P>, reqs: map<P, set<R>>, i: nat)
    returns (x0: P, x1: P, f: P)
    requires GreedySplit(batches, level, founders, reqs) && 1 < i < |batches|
    ensures x0 in level && x1 in level && f in level && x0 != x1 && x0 != f && x1 != f
    ensures Share(x0, f, reqs) && Share(x1, f, reqs)
  {
    f := founders[i];
    assert f in batches[i] && Clashes(batches[0], f, reqs) && Clashes(batches[1], f, reqs);
    x0 :| x0 in batches[0] && Share(x0, f, reqs);
    x1 :| x1 in batches[1] && Share(x1, f, reqs);
    assert batches[0] !! batches[1] && batches[0] !! batches[i] && batches[1] !! batches[i];
    assert x0 in level && x1 in level && f in level;
  }

  /** When `p` and `q` share a resource but the level is conflict-free once
      either of them is taken out (so they are the only pair that shares),
      the greedy split needs exactly two batches: the pair must be parted,
      and a third batch would need a founder clashing with both of the
      first two. */
  lemma OnePairTwoBatches<P, R>(batches: seq<set<P>>, level: set<P>, founders: seq<P>, reqs: map<P, set<R>>, p: P, q: P)
    requires GreedySplit(batches, level, founders, reqs)
    requires p in level && q in level && p != q && Share(p, q, reqs)
    requires ConflictFree(level - {p}, reqs) && ConflictFree(level - {q}, reqs)
    ensures |batches| == 2
  {
    assert Placed(batches, p) && Placed(batches, q);
    var i :| 0 <= i < |batches| && p in batches[i];
    var j :| 0 <= j < |batches| && q in batches[j];
    assert i != j by {
      assert ConflictFree(batches[i], reqs);
    }
    if |batches| > 2 {
      var x0, x1, f := ThirdBatchSharers(batches, level, founders, reqs, 2);
      SharersBreakPair(level, reqs, p, q, x0, x1, f);
      assert false;
    }
  }

  /** Two different processes that both share a resource with a third
      leave a sharing pair in the level whichever `p` is taken out of it, or
      whichever `q`. */
  lemma SharersBreakPair<P, R>(level: set<P>, reqs: map<P, set<R>>, p: P, q: P, x0: P, x1: P, f: P)
    requires p != q
    requires x0 in level && x1 in level && f in level && x0 != x1 && x0 != f && x1 != f
    requires Share(x0, f, reqs) && Share(x1, f, reqs)
    ensures !ConflictFree(level - {p}, reqs) || !ConflictFree(level - {q}, reqs)
  {
    if f != p {
      var x := if x0 != p then x0 else x1;
      assert x in level - {p} && f in level - {p} && x != f && Share(x, f, reqs);
    } else {
      var x := if x0 != q then x0 else x1;
      assert x in level - {q} && f in level - {q} && x != f && Share(x, f, reqs);
    }
  }

  /** When no two members of the level share a resource, the greedy split
      keeps the level whole: a second batch would need a founder clashing
      with the first. */
  lemma NoClashOneBatch<P, R>(batches: seq<set<P>>, level: set<P>, founders: seq<P>, reqs: map<P, set<R>>)
    requires GreedySplit(batches, level, founders, reqs) && level != {}
    requires ConflictFree(level, reqs)
    ensures batches == [level]
  {
    var x :| x in level;
    assert Placed(batches, x);
    if |batches| > 1 {
      LaterBatchSharer(batches, level, founders, reqs, 1);
      assert false;
    }
    OnlyBatch(batches, level);
  }

  /** A partition into one batch is that batch. */
  lemma OnlyBatch<P>(batches: seq<set<P>>, level: set<P>)
    requires Partitions(batches, level) && |batches| == 1
    ensures batches == [level]
  {
    forall p | p in level ensures p in batches[0] {
      assert Placed(batches, p);
    }
    assert batches[0] == level;
    assert batches == [batches[0]];
  }

  /** A level none of whose members requires a resource is kept whole. */
  lemma NoResourcesOneBatch<P, R>(batches: seq<set<P>>, level: set<P>, founders: seq<P>, reqs: map<P, set<R>>)
    requires GreedySplit(batches, level, founders, reqs) && level != {}
    requires forall x | x in level :: x in reqs && reqs[x] == {}
    ensures batches == [level]
  {
    forall x, y | x in level && y in level && x != y ensures !Share(x, y, reqs) {
      assert reqs[x] == {};
    }
    NoClashOneBatch(batches, level, founders, reqs);
  }

  /** With no resource required anywhere, the greedy split keeps every
      Kahn level whole, so the sort is exactly the sequence of levels. */
  lemma NoResourcesWholeLevels<P, R>(parts: seq<seq<set<P>>>, unused: set<P>, preds: map<P, set<P>>, founders: seq<seq<P>>, reqs: map<P, set<R>>)
    requires unused <= preds.Keys && unused <= reqs.Keys
    requires forall x | x in reqs :: reqs[x] == {}
    requires SplitsLevels(parts, Levels(unused, preds).levels, reqs) && AllFoundedBy(parts, founders, reqs)
    ensures Concat(parts) == Levels(unused, preds).levels
  {
    var levels := Levels(unused, preds).levels;
    LevelsWithin(unused, preds);
    forall i | 0 <= i < |parts| ensures parts[i] == [levels[i]] {
      assert levels[i] != {} && levels[i] <= unused;
      assert GreedySplit(parts[i], levels[i], founders[i], reqs);
      NoResourcesOneBatch(parts[i], levels[i], founders[i], reqs);
    }
    ConcatWhole(parts, levels);
  }

  /** Parts that each hold one whole level concatenate to the levels. */
  lemma {:induction false} ConcatWhole<P>(parts: seq<seq<set<P>>>, levels: seq<set<P>>)
    requires |parts| == |levels| && forall i | 0 <= i < |parts| :: parts[i] == [levels[i]]
    ensures Concat(parts) == levels
    decreases |parts|
  {
    if parts != [] {
      forall i | 0 <= i < |parts[1..]| ensures parts[1..][i] == [levels[1..][i]] {
        assert parts[1..][i] == parts[i + 1];
      }
      ConcatWhole(parts[1..], levels[1..]);
      assert levels == [levels[0]] + levels[1..];
    }
  }
}
