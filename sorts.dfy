/** The sort result: an ordered list of batches. The processes of one batch
    may run in any order (or together); the batches run one after the other. */
module Sorts {
  import opened Schedules
  import opened Kahn

  /** No element occurs twice. */
  ghost predicate Distinct<X>(t: seq<X>)
  {
    forall i, j | 0 <= i < j < |t| :: t[i] != t[j]
  }

  /** `t` lists the members of `b`, each once, in some order. */
  ghost predicate Enumerates<X>(b: set<X>, t: seq<X>)
  {
    |t| == |b| && Distinct(t) && (forall x | x in t :: x in b) && (forall x | x in b :: x in t)
  }

  /** How many processes the batches hold together. */
  function TotalSize<X>(bs: seq<set<X>>): nat
  {
    if bs == [] then 0 else |bs[0]| + TotalSize(bs[1..])
  }

  /** `s` is the batches' members, batch after batch: what enumerating the
      sort process by process yields. It is as long as the batches' sizes
      added up. */
  ghost predicate Flattens<X>(bs: seq<set<X>>, s: seq<X>): (r: bool)
    ensures r ==> |s| == TotalSize(bs)
    decreases |bs|
  {
    if bs == [] then s == []
    else |bs[0]| <= |s| && Enumerates(bs[0], s[..|bs[0]|]) && Flattens(bs[1..], s[|bs[0]|..])
  }

  /** Enumerates a set in an order the model leaves open. */
  method EnumerateSet<X(==)>(b: set<X>) returns (t: seq<X>)
    ensures Enumerates(b, t)
  {
    t := [];
    var rest := b;
    while rest != {}
      invariant rest <= b
      invariant |t| + |rest| == |b|
      invariant Distinct(t)
      invariant forall x | x in t :: x in b && x !in rest
      invariant forall x | x in b && x !in rest :: x in t
      decreases |rest|
    {
      var x :| x in rest;
      t := t + [x];
      rest := rest - {x};
    }
  }

  class TopologicalSort<P(==)> {
    /** The batches appended so far, in order. */
    var batches: seq<set<P>>

    /** An empty sorting solution. */
    constructor()
      ensures batches == []
    {
      batches := [];
    }

    /** Adds one batch after all the others. */
    method Append(b: set<P>)
      modifies this
      ensures batches == old(batches) + [b]
    {
      batches := batches + [b];
    }

    /** Adds the batches of `bs` one after another. */
    method AppendAll(bs: seq<set<P>>)
      modifies this
      ensures batches == old(batches) + bs
    {
      var i := 0;
      while i < |bs|
        invariant 0 <= i <= |bs|
        invariant batches == old(batches) + bs[..i]
      {
        Append(bs[i]);
        assert bs[..i + 1] == bs[..i] + [bs[i]];
        i := i + 1;
      }
      assert bs[..i] == bs;
    }

    /** The processes in an order in which they can be executed: the
        batches' members, batch after batch. */
    method Processes() returns (s: seq<P>)
      ensures Flattens(batches, s)
    {
      s := [];
      var i := 0;
      while i < |batches|
        invariant 0 <= i <= |batches|
        invariant Flattens(batches[..i], s)
      {
        var t := EnumerateSet(batches[i]);
        assert batches[..i + 1] == batches[..i] + [batches[i]];
        FlattensSnoc(batches[..i], s, batches[i], t);
        s := s + t;
        i := i + 1;
      }
      assert batches[..i] == batches;
    }
  }

  lemma {:induction false} FlattensSnoc<X>(bs: seq<set<X>>, s: seq<X>, b: set<X>, t: seq<X>)
    requires Flattens(bs, s) && Enumerates(b, t)
    ensures Flattens(bs + [b], s + t)
    decreases |bs|
  {
    if bs == [] {
      assert bs + [b] == [b];
      assert (s + t)[..|b|] == t;
      assert [b][1..] == [];
    } else {
      var n := |bs[0]|;
      assert (bs + [b])[0] == bs[0];
      assert (bs + [b])[1..] == bs[1..] + [b];
      assert (s + t)[..n] == s[..n];
      assert (s + t)[n..] == s[n..] + t;
      FlattensSnoc(bs[1..], s[n..], b, t);
    }
  }

  /** The flattened sequence holds exactly the members of the batches. */
  lemma {:induction false} FlattensMembers<X>(bs: seq<set<X>>, s: seq<X>)
    requires Flattens(bs, s)
    ensures forall k | 0 <= k < |s| :: Placed(bs, s[k])
    ensures forall i, x | 0 <= i < |bs| && x in bs[i] :: x in s
    decreases |bs|
  {
    if bs != [] {
      var n := |bs[0]|;
      FlattensMembers(bs[1..], s[n..]);
      forall k | 0 <= k < |s| ensures Placed(bs, s[k]) {
        if k < n {
          assert s[k] in s[..n];
          assert s[k] in bs[0];
        } else {
          assert s[k] == s[n..][k - n];
          var i :| 0 <= i < |bs[1..]| && s[k] in bs[1..][i];
          assert s[k] in bs[i + 1];
        }
      }
      forall i, x | 0 <= i < |bs| && x in bs[i] ensures x in s {
        if i == 0 {
          assert x in s[..n];
        } else {
          assert x in bs[1..][i - 1];
          assert x in s[n..];
        }
      }
    }
  }

  /** When the batches are pairwise disjoint, no process is listed twice. */
  lemma {:induction false} FlattensDistinct<X>(bs: seq<set<X>>, s: seq<X>)
    requires Flattens(bs, s)
    requires forall i, j | 0 <= i < j < |bs| :: bs[i] !! bs[j]
    ensures Distinct(s)
    decreases |bs|
  {
    if bs != [] {
      var n := |bs[0]|;
      var rest := bs[1..];
      assert forall i, j | 0 <= i < j < |rest| :: rest[i] !! rest[j] by {
        forall i, j | 0 <= i < j < |rest| ensures rest[i] !! rest[j] {
          assert rest[i] == bs[i + 1] && rest[j] == bs[j + 1];
        }
      }
      FlattensDistinct(rest, s[n..]);
      FlattensMembers(rest, s[n..]);
      forall k, m | 0 <= k < m < |s| ensures s[k] != s[m] {
        if m < n {
          assert s[k] == s[..n][k] && s[m] == s[..n][m];
        } else if k >= n {
          assert s[k] == s[n..][k - n] && s[m] == s[n..][m - n];
        } else {
          assert s[k] in s[..n];
          assert s[m] == s[n..][m - n];
          var i :| 0 <= i < |rest| && s[m] in rest[i];
          assert bs[0] !! bs[i + 1];
        }
      }
    }
  }

  /** Listing the batches one after the other puts every predecessor before
      its follower, when the batches respect precedence. */
  lemma {:induction false} FlattensOrder<X>(bs: seq<set<X>>, s: seq<X>, preds: map<X, set<X>>)
    requires Flattens(bs, s) && RespectsPrecedence(bs, preds)
    ensures forall k, m | 0 <= k < |s| && 0 <= m < |s| && s[m] in preds && s[k] in preds[s[m]] :: k < m
    decreases |bs|
  {
    if bs != [] {
      var n := |bs[0]|;
      var rest := bs[1..];
      assert RespectsPrecedence(rest, preds) by {
        forall i, j, p, q | 0 <= i < |rest| && 0 <= j < |rest| && p in rest[i] && q in rest[j] && q in preds && p in preds[q]
          ensures i < j
        {
          assert rest[i] == bs[i + 1] && rest[j] == bs[j + 1];
        }
      }
      FlattensOrder(rest, s[n..], preds);
      FlattensMembers(rest, s[n..]);
      assert forall k | 0 <= k < n :: s[k] in bs[0] by {
        forall k | 0 <= k < n ensures s[k] in bs[0] {
          assert s[k] in s[..n];
        }
      }
      assert forall k | n <= k < |s| :: s[k] == s[n..][k - n];
      forall k, m | 0 <= k < |s| && 0 <= m < |s| && s[m] in preds && s[k] in preds[s[m]]
        ensures k < m
      {
        var ik := if k < n then 0 else 1 + BatchOf(rest, s[n..], k - n);
        var im := if m < n then 0 else 1 + BatchOf(rest, s[n..], m - n);
        assert s[k] in bs[ik] && s[m] in bs[im];
      }
    }
  }

  /** The index of a batch that holds the `k`th listed process. */
  ghost function BatchOf<X>(bs: seq<set<X>>, s: seq<X>, k: int): (i: nat)
    requires forall k | 0 <= k < |s| :: Placed(bs, s[k])
    requires 0 <= k < |s|
    ensures i < |bs| && s[k] in bs[i]
  {
    assert Placed(bs, s[k]);
    var i :| 0 <= i < |bs| && s[k] in bs[i]; i
  }

  /** Enumerating a valid plan process by process lists every process once
      and puts each predecessor before its follower. */
  lemma ScheduleOrder<P, R>(bs: seq<set<P>>, procs: set<P>, preds: map<P, set<P>>, reqs: map<P, set<R>>, s: seq<P>)
    requires IsSchedule(bs, procs, preds, reqs) && Flattens(bs, s)
    ensures Distinct(s)
    ensures forall p | p in s :: p in procs
    ensures forall p | p in procs :: p in s
    ensures forall k, m | 0 <= k < |s| && 0 <= m < |s| && s[m] in preds && s[k] in preds[s[m]] :: k < m
  {
    FlattensDistinct(bs, s);
    FlattensMembers(bs, s);
    FlattensOrder(bs, s, preds);
    forall p | p in s ensures p in procs {
      var k :| 0 <= k < |s| && s[k] == p;
      assert Placed(bs, s[k]);
    }
    forall p | p in procs ensures p in s {
      assert Placed(bs, p);
    }
  }
}
