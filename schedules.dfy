/** What a sort result must satisfy: its batches partition the processes,
    no batch holds two processes that share a resource, and every
    predecessor sits in an earlier batch than its follower. */
module Schedules {
  import opened Kahn

  /** The batches are nonempty, pairwise disjoint and together hold exactly `s`. */
  ghost predicate Partitions<P>(bs: seq<set<P>>, s: set<P>)
  {
    && (forall i | 0 <= i < |bs| :: bs[i] != {} && bs[i] <= s)
    && (forall i, j | 0 <= i < j < |bs| :: bs[i] !! bs[j])
    && (forall p | p in s :: Placed(bs, p))
  }

  /** The three parts of a partition make one. */
  lemma PartitionsIntro<P>(bs: seq<set<P>>, s: set<P>)
    requires forall i | 0 <= i < |bs| :: bs[i] != {} && bs[i] <= s
    requires forall i, j | 0 <= i < j < |bs| :: bs[i] !! bs[j]
    requires forall p | p in s :: Placed(bs, p)
    ensures Partitions(bs, s)
  {
  }

  /** `p` and `q` require a common resource. */
  ghost predicate Share<P, R>(p: P, q: P, reqs: map<P, set<R>>)
  {
    p in reqs && q in reqs && !(reqs[p] !! reqs[q])
  }

  /** No two distinct members of the batch share a resource. */
  ghost predicate ConflictFree<P, R>(batch: set<P>, reqs: map<P, set<R>>)
  {
    forall p, q | p in batch && q in batch && p != q :: !Share(p, q, reqs)
  }

  ghost predicate AllConflictFree<P, R>(bs: seq<set<P>>, reqs: map<P, set<R>>)
  {
    forall i | 0 <= i < |bs| :: ConflictFree(bs[i], reqs)
  }

  /** Whenever `p` is a predecessor of `q`, every batch holding `p` comes
      strictly before every batch holding `q`. */
  ghost predicate RespectsPrecedence<P>(bs: seq<set<P>>, preds: map<P, set<P>>)
  {
    forall i, j, p, q | 0 <= i < |bs| && 0 <= j < |bs| && p in bs[i] && q in bs[j] && q in preds && p in preds[q] :: i < j
  }

  /** A valid plan for the processes `procs`. */
  ghost predicate IsSchedule<P, R>(bs: seq<set<P>>, procs: set<P>, preds: map<P, set<P>>, reqs: map<P, set<R>>)
  {
    Partitions(bs, procs) && AllConflictFree(bs, reqs) && RespectsPrecedence(bs, preds)
  }

  /** The batches of several levels, one level after the other. */
  function Concat<X>(parts: seq<seq<X>>): seq<X>
  {
    if parts == [] then [] else parts[0] + Concat(parts[1..])
  }

  lemma {:induction false} ConcatSnoc<X>(parts: seq<seq<X>>, last: seq<X>)
    ensures Concat(parts + [last]) == Concat(parts) + last
  {
    if parts != [] {
      assert (parts + [last])[1..] == parts[1..] + [last];
      ConcatSnoc(parts[1..], last);
    }
  }
  /** Appending one more part to a sequence that already ends with the
      concatenation of `parts`. */
  lemma ConcatExtend<X>(prefix: seq<X>, parts: seq<seq<X>>, last: seq<X>)
    ensures (prefix + Concat(parts)) + last == prefix + Concat(parts + [last])
  {
    ConcatSnoc(parts, last);
    assert (prefix + Concat(parts)) + last == prefix + (Concat(parts) + last);
  }


  lemma JoinPartitions<P>(b1: seq<set<P>>, s1: set<P>, b2: seq<set<P>>, s2: set<P>)
    requires Partitions(b1, s1) && Partitions(b2, s2) && s1 !! s2
    ensures Partitions(b1 + b2, s1 + s2)
  {
    JoinWithin(b1, s1, b2, s2);
    JoinDisjoint(b1, s1, b2, s2);
    JoinCover(b1, s1, b2, s2);
  }

  lemma JoinWithin<P>(b1: seq<set<P>>, s1: set<P>, b2: seq<set<P>>, s2: set<P>)
    requires forall i | 0 <= i < |b1| :: b1[i] != {} && b1[i] <= s1
    requires forall i | 0 <= i < |b2| :: b2[i] != {} && b2[i] <= s2
    ensures var b := b1 + b2; forall i | 0 <= i < |b| :: b[i] != {} && b[i] <= s1 + s2
  {
    var b := b1 + b2;
    forall i | 0 <= i < |b| ensures b[i] != {} && b[i] <= s1 + s2 {
      if i < |b1| { assert b[i] == b1[i]; } else { assert b[i] == b2[i - |b1|]; }
    }
  }

  lemma JoinCover<P>(b1: seq<set<P>>, s1: set<P>, b2: seq<set<P>>, s2: set<P>)
    requires forall p | p in s1 :: Placed(b1, p)
    requires forall p | p in s2 :: Placed(b2, p)
    ensures forall p | p in s1 + s2 :: Placed(b1 + b2, p)
  {
    var b := b1 + b2;
    forall p | p in s1 + s2 ensures Placed(b, p) {
      if p in s1 {
        var i :| 0 <= i < |b1| && p in b1[i];
        assert b[i] == b1[i];
      } else {
        var i :| 0 <= i < |b2| && p in b2[i];
        assert b[|b1| + i] == b2[i];
      }
    }
  }

  lemma JoinDisjoint<P>(b1: seq<set<P>>, s1: set<P>, b2: seq<set<P>>, s2: set<P>)
    requires forall i | 0 <= i < |b1| :: b1[i] <= s1
    requires forall i | 0 <= i < |b2| :: b2[i] <= s2
    requires forall i, j | 0 <= i < j < |b1| :: b1[i] !! b1[j]
    requires forall i, j | 0 <= i < j < |b2| :: b2[i] !! b2[j]
    requires s1 !! s2
    ensures forall i, j | 0 <= i < j < |b1 + b2| :: (b1 + b2)[i] !! (b1 + b2)[j]
  {
    var b := b1 + b2;
    forall i, j | 0 <= i < j < |b|
      ensures b[i] !! b[j]
    {
      if j < |b1| {
        assert b[i] == b1[i] && b[j] == b1[j];
      } else if i >= |b1| {
        assert b[i] == b2[i - |b1|] && b[j] == b2[j - |b1|];
      } else {
        assert b[i] == b1[i] && b[j] == b2[j - |b1|];
      }
    }
  }

  lemma JoinPrecedence<P>(b1: seq<set<P>>, s1: set<P>, b2: seq<set<P>>, s2: set<P>, preds: map<P, set<P>>)
    requires forall i | 0 <= i < |b1| :: b1[i] <= s1
    requires forall i | 0 <= i < |b2| :: b2[i] <= s2
    requires RespectsPrecedence(b1, preds) && RespectsPrecedence(b2, preds)
    requires forall q | q in s1 && q in preds :: preds[q] !! s2
    ensures RespectsPrecedence(b1 + b2, preds)
  {
    var b := b1 + b2;
    forall i, j, p, q | 0 <= i < |b| && 0 <= j < |b| && p in b[i] && q in b[j] && q in preds && p in preds[q]
      ensures i < j
    {
      if i < |b1| && j < |b1| {
        assert b[i] == b1[i] && b[j] == b1[j];
      } else if i >= |b1| && j >= |b1| {
        assert b[i] == b2[i - |b1|] && b[j] == b2[j - |b1|];
      }
    }
  }

  /** Two plans can run one after the other when they cover disjoint sets
      and nothing in the first waits on something in the second. */
  lemma JoinSchedules<P, R>(b1: seq<set<P>>, s1: set<P>, b2: seq<set<P>>, s2: set<P>,
                            preds: map<P, set<P>>, reqs: map<P, set<R>>)
    requires IsSchedule(b1, s1, preds, reqs) && IsSchedule(b2, s2, preds, reqs)
    requires s1 !! s2
    requires forall q | q in s1 && q in preds :: preds[q] !! s2
    ensures IsSchedule(b1 + b2, s1 + s2, preds, reqs)
  {
    JoinPartitions(b1, s1, b2, s2);
    JoinPrecedence(b1, s1, b2, s2, preds);
    var b := b1 + b2;
    forall i | 0 <= i < |b| ensures ConflictFree(b[i], reqs) {
      if i < |b1| { assert b[i] == b1[i]; } else { assert b[i] == b2[i - |b1|]; }
    }
  }

  /** A level's batches keep the precedence order, because no member of a
      level is a predecessor of another member. */
  lemma LevelBatchesUnordered<P, R>(part: seq<set<P>>, unused: set<P>, preds: map<P, set<P>>, reqs: map<P, set<R>>)
    requires unused <= preds.Keys
    requires Partitions(part, Level(unused, preds)) && AllConflictFree(part, reqs)
    ensures IsSchedule(part, Level(unused, preds), preds, reqs)
  {
    var level := Level(unused, preds);
    assert forall q | q in level :: preds[q] !! unused;
  }

  /** `parts[i]` is a conflict-free split of `levels[i]`, for every `i`. */
  ghost predicate SplitsLevels<P, R>(parts: seq<seq<set<P>>>, levels: seq<set<P>>, reqs: map<P, set<R>>)
  {
    |parts| == |levels| &&
    forall i | 0 <= i < |parts| :: Partitions(parts[i], levels[i]) && AllConflictFree(parts[i], reqs)
  }

  lemma SplitsLevelsTail<P, R>(parts: seq<seq<set<P>>>, levels: seq<set<P>>, reqs: map<P, set<R>>)
    requires SplitsLevels(parts, levels, reqs) && parts != []
    ensures Partitions(parts[0], levels[0]) && AllConflictFree(parts[0], reqs)
    ensures SplitsLevels(parts[1..], levels[1..], reqs)
  {
    forall i | 0 <= i < |parts[1..]|
      ensures Partitions(parts[1..][i], levels[1..][i]) && AllConflictFree(parts[1..][i], reqs)
    {
      assert parts[1..][i] == parts[i + 1] && levels[1..][i] == levels[i + 1];
    }
  }

  /** Splitting every Kahn level into conflict-free batches and appending
      them level by level yields a valid plan for all of `unused`. */
  lemma {:induction false} LevelsSchedule<P, R>(unused: set<P>, preds: map<P, set<P>>, reqs: map<P, set<R>>,
                                                parts: seq<seq<set<P>>>)
    requires unused <= preds.Keys
    requires !Levels(unused, preds).stuck
    requires SplitsLevels(parts, Levels(unused, preds).levels, reqs)
    ensures IsSchedule(Concat(parts), unused, preds, reqs)
    decreases |unused|
  {
    LevelsUnfold(unused, preds);
    var level := Level(unused, preds);
    var rest := unused - level;
    var levels := Levels(unused, preds).levels;
    SplitsLevelsTail(parts, levels, reqs);
    assert levels[0] == level;
    LevelBatchesUnordered(parts[0], unused, preds, reqs);
    if rest == {} {
      assert |parts| == 1;
      assert Concat(parts[1..]) == [];
      assert Concat(parts) == parts[0];
    } else {
      assert levels[1..] == Levels(rest, preds).levels;
      LevelsSchedule(rest, preds, reqs, parts[1..]);
      LevelPrecedesRest(unused, preds);
      assert IsSchedule(parts[0] + Concat(parts[1..]), level + rest, preds, reqs) by {
        JoinSchedules(parts[0], level, Concat(parts[1..]), rest, preds, reqs);
      }
      assert level + rest == unused;
      assert Concat(parts) == parts[0] + Concat(parts[1..]);
    }
  }

  /** Nothing in a level waits on a process still unplaced after it. */
  lemma LevelPrecedesRest<P>(unused: set<P>, preds: map<P, set<P>>)
    requires unused <= preds.Keys
    ensures forall q | q in Level(unused, preds) && q in preds :: preds[q] !! (unused - Level(unused, preds))
  {
  }

  /** A partition of `s` has at most `|s|` batches, since each is nonempty
      and they are pairwise disjoint. */
  lemma {:induction false} PartitionBound<P>(bs: seq<set<P>>, s: set<P>)
    requires Partitions(bs, s)
    ensures |bs| <= |s|
    decreases |bs|
  {
    if bs != [] {
      var n := |bs| - 1;
      var last := bs[n];
      assert last != {} && last <= s;
      PartitionInit(bs, s);
      PartitionBound(bs[..n], s - last);
      CardinalitySplit(s, last);
    }
  }

  /** Taking a nonempty part out of a set leaves fewer members by exactly
      that part's size. */
  lemma CardinalitySplit<P>(s: set<P>, t: set<P>)
    requires t <= s
    ensures |s - t| + |t| == |s|
  {
    assert s == (s - t) + t;
    assert (s - t) !! t;
  }

  /** Dropping the last batch of a partition of `s` leaves a partition of
      the rest of `s`. */
  lemma PartitionInit<P>(bs: seq<set<P>>, s: set<P>)
    requires Partitions(bs, s) && bs != []
    ensures Partitions(bs[..|bs| - 1], s - bs[|bs| - 1])
  {
    var n := |bs| - 1;
    var init, last := bs[..n], bs[n];
    forall i | 0 <= i < n ensures init[i] != {} && init[i] <= s - last {
      assert init[i] == bs[i] && bs[i] !! bs[n];
    }
    forall i, j | 0 <= i < j < n ensures init[i] !! init[j] {
      assert init[i] == bs[i] && init[j] == bs[j];
    }
    forall p | p in s - last ensures Placed(init, p) {
      assert Placed(bs, p);
      var i :| 0 <= i < |bs| && p in bs[i];
      assert i < n && init[i] == bs[i];
    }
    PartitionsIntro(init, s - last);
  }

  /** A single process is scheduled as one batch of its own. */
  lemma SingletonPartition<P>(bs: seq<set<P>>, x: P)
    requires Partitions(bs, {x})
    ensures bs == [{x}]
  {
    assert Placed(bs, x);
    PartitionBound(bs, {x});
    assert |bs| == 1 && bs[0] != {} && bs[0] <= {x};
    assert bs[0] == {x};
    assert bs == [bs[0]];
  }

  /** Two processes that share a resource are scheduled as two batches of
      one process each, in either order. */
  lemma PairPartition<P, R>(bs: seq<set<P>>, p: P, q: P, reqs: map<P, set<R>>)
    requires Partitions(bs, {p, q}) && AllConflictFree(bs, reqs)
    requires p != q && Share(p, q, reqs)
    ensures bs == [{p}, {q}] || bs == [{q}, {p}]
  {
    assert Placed(bs, p) && Placed(bs, q);
    forall i | 0 <= i < |bs| ensures bs[i] == {p} || bs[i] == {q} {
      assert ConflictFree(bs[i], reqs);
      assert !(p in bs[i] && q in bs[i]);
    }
    var i :| 0 <= i < |bs| && p in bs[i];
    var j :| 0 <= j < |bs| && q in bs[j];
    assert i != j && bs[i] == {p} && bs[j] == {q};
    PartitionBound(bs, {p, q});
    assert |{p, q}| == 2;
    assert |bs| == 2;
    assert bs == [bs[0], bs[1]];
  }
}
