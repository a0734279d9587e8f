/** The ordering operations on whole sequences of processes: a sequence
    placed after or before a single process, or after or before every member
    of another sequence. Each is a loop of the single-process operations, and
    stops with the first error, as an exception would. */
module Extensions {
  import opened Results
  import opened Relations
  import opened Graphs

  /** The graphs the members of `xs` belong to. */
  function GraphsOf<T>(xs: seq<OrderedProcess<T>>): set<DependencyGraph<T>>
  {
    set x | x in xs :: x.graph
  }

  /** Every member of `xs` belongs to `g`. */
  predicate AllIn<T>(xs: seq<OrderedProcess<T>>, g: DependencyGraph<T>)
  {
    forall x | x in xs :: x.graph == g
  }

  /** Every graph of `gs` has its shape and records each ordering edge on
      both of its sides. */
  ghost predicate EdgesKept<T>(gs: set<DependencyGraph<T>>)
    reads gs
  {
    forall g | g in gs :: g.Shape() && g.EdgesSymmetric()
  }

  /** `g`'s ordering maps are `F0` and `P0` with every member of `after`
      recorded as following every member of `before`. */
  ghost predicate Recorded<T>(g: DependencyGraph<T>,
                              F0: map<OrderedProcess<T>, set<OrderedProcess<T>>>,
                              P0: map<OrderedProcess<T>, set<OrderedProcess<T>>>,
                              before: set<OrderedProcess<T>>, after: set<OrderedProcess<T>>)
    reads g`followers, g`predecessors
  {
    g.followers == Spread(F0, before, after) && g.predecessors == Spread(P0, after, before)
  }

  /** Every member of `xs` is registered with its own graph. */
  ghost predicate AllRegistered<T>(xs: seq<OrderedProcess<T>>)
    reads set x | x in xs :: x.graph
  {
    forall x | x in xs :: x.Registered()
  }

  /** The scan for a member of another graph runs to the end exactly when
      every member lies in `g`. */
  lemma FirstMismatchAll<T>(s: seq<OrderedProcess<T>>, g: DependencyGraph<T>)
    ensures FirstMismatch(s, g) == |s| <==> AllIn(s, g)
  {
    var k := FirstMismatch(s, g);
    if k < |s| {
      assert s[k] in s;
    } else {
      forall x | x in s ensures x.graph == g {
        var i :| 0 <= i < |s| && s[i] == x;
      }
    }
  }

  /** `followers` all come after `predecessor`; returns `predecessor`. */
  method AfterOne<T>(followers: seq<OrderedProcess<T>>, predecessor: OrderedProcess<T>)
    returns (r: Result<OrderedProcess<T>>)
    requires predecessor.graph.Shape() && predecessor.graph.EdgesSymmetric() && predecessor.Registered()
    requires AllRegistered(followers)
    modifies predecessor.graph`followers, predecessor.graph`predecessors
    ensures predecessor.graph.Shape() && predecessor.graph.EdgesSymmetric()
    ensures r.Ok? <==> AllIn(followers, predecessor.graph)
    ensures r.Ok? ==> r.value == predecessor
    ensures r.Err? ==> r.error == GraphMismatch
    ensures var g, k := predecessor.graph, FirstMismatch(followers, predecessor.graph);
      && g.followers == Spread(old(g.followers), {predecessor}, Elements(followers[..k]))
      && g.predecessors == Spread(old(g.predecessors), Elements(followers[..k]), {predecessor})
  {
    FirstMismatchAll(followers, predecessor.graph);
    var step := predecessor.BeforeAll(followers);
    if step.Err? {
      return Err(GraphMismatch);
    }
    r := Ok(predecessor);
  }

  /** `predecessors` all come before `follower`; returns `follower`. */
  method BeforeOne<T>(predecessors: seq<OrderedProcess<T>>, follower: OrderedProcess<T>)
    returns (r: Result<OrderedProcess<T>>)
    requires follower.graph.Shape() && follower.graph.EdgesSymmetric() && follower.Registered()
    requires AllRegistered(predecessors)
    modifies follower.graph`followers, follower.graph`predecessors
    ensures follower.graph.Shape() && follower.graph.EdgesSymmetric()
    ensures r.Ok? <==> AllIn(predecessors, follower.graph)
    ensures r.Ok? ==> r.value == follower
    ensures r.Err? ==> r.error == GraphMismatch
    ensures var g, k := follower.graph, FirstMismatch(predecessors, follower.graph);
      && g.followers == Spread(old(g.followers), Elements(predecessors[..k]), {follower})
      && g.predecessors == Spread(old(g.predecessors), {follower}, Elements(predecessors[..k]))
  {
    FirstMismatchAll(predecessors, follower.graph);
    var step := follower.AfterAll(predecessors);
    if step.Err? {
      return Err(GraphMismatch);
    }
    r := Ok(follower);
  }

  /** One turn of `AfterEach`'s loop: `followers` all come after `p`.
      `done` holds the predecessors already handled, and `F0` and `P0` the
      follower and predecessor maps the loop started from; `gs` are the
      graphs the loop touches. */
  method AfterStep<T>(followers: seq<OrderedProcess<T>>, p: OrderedProcess<T>, ghost gs: set<DependencyGraph<T>>,
                      ghost done: set<OrderedProcess<T>>,
                      ghost F0: map<OrderedProcess<T>, set<OrderedProcess<T>>>,
                      ghost P0: map<OrderedProcess<T>, set<OrderedProcess<T>>>)
    returns (ok: bool)
    requires p.graph in gs && EdgesKept(gs)
    requires p.Registered() && AllRegistered(followers) && followers != []
    requires followers[0].graph == p.graph ==> Recorded(p.graph, F0, P0, done, Elements(followers))
    modifies p.graph`followers, p.graph`predecessors
    ensures EdgesKept(gs)
    ensures ok <==> AllIn(followers, p.graph)
    ensures ok ==> Recorded(p.graph, F0, P0, done + {p}, Elements(followers))
  {
    FirstMismatchAll(followers, p.graph);
    assert followers[..|followers|] == followers;
    var step := p.BeforeAll(followers);
    forall G | G in gs ensures G.Shape() && G.EdgesSymmetric() {
      if G != p.graph {
        assert old(G.Shape() && G.EdgesSymmetric());
      }
    }
    ok := step.Ok?;
    if ok {
      assert followers[0] in followers;
      SpreadGrow(F0, done, {p}, Elements(followers));
      SpreadMerge(P0, Elements(followers), done, {p});
    }
  }

  /** One turn of `BeforeEach`'s loop: `predecessors` all come before `f`.
      `done` holds the followers already handled, and `F0` and `P0` the
      follower and predecessor maps the loop started from; `gs` are the
      graphs the loop touches. */
  method BeforeStep<T>(predecessors: seq<OrderedProcess<T>>, f: OrderedProcess<T>, ghost gs: set<DependencyGraph<T>>,
                       ghost done: set<OrderedProcess<T>>,
                       ghost F0: map<OrderedProcess<T>, set<OrderedProcess<T>>>,
                       ghost P0: map<OrderedProcess<T>, set<OrderedProcess<T>>>)
    returns (ok: bool)
    requires f.graph in gs && EdgesKept(gs)
    requires f.Registered() && AllRegistered(predecessors) && predecessors != []
    requires predecessors[0].graph == f.graph ==> Recorded(f.graph, F0, P0, Elements(predecessors), done)
    modifies f.graph`followers, f.graph`predecessors
    ensures EdgesKept(gs)
    ensures ok <==> AllIn(predecessors, f.graph)
    ensures ok ==> Recorded(f.graph, F0, P0, Elements(predecessors), done + {f})
  {
    FirstMismatchAll(predecessors, f.graph);
    assert predecessors[..|predecessors|] == predecessors;
    var step := f.AfterAll(predecessors);
    forall G | G in gs ensures G.Shape() && G.EdgesSymmetric() {
      if G != f.graph {
        assert old(G.Shape() && G.EdgesSymmetric());
      }
    }
    ok := step.Ok?;
    if ok {
      assert predecessors[0] in predecessors;
      SpreadMerge(F0, Elements(predecessors), done, {f});
      SpreadGrow(P0, done, {f}, Elements(predecessors));
    }
  }

  /** Every member of `followers` comes after every member of
      `predecessors`; returns `predecessors`. Succeeds exactly when one side
      is empty or all the processes lie in one graph, and then records each
      pair in both directions. With no followers every turn of the loop is
      a no-op that succeeds, so that case returns at once. */
  method AfterEach<T>(followers: seq<OrderedProcess<T>>, predecessors: seq<OrderedProcess<T>>)
    returns (r: Result<seq<OrderedProcess<T>>>)
    requires EdgesKept(GraphsOf(predecessors))
    requires AllRegistered(predecessors) && AllRegistered(followers)
    modifies GraphsOf(predecessors)`followers, GraphsOf(predecessors)`predecessors
    ensures EdgesKept(GraphsOf(predecessors))
    ensures r.Ok? <==>
      followers == [] || predecessors == [] ||
      (AllIn(followers, followers[0].graph) && AllIn(predecessors, followers[0].graph))
    ensures r.Ok? ==> r.value == predecessors
    ensures r.Err? ==> r.error == GraphMismatch
    ensures r.Ok? && followers != [] ==>
      var g := followers[0].graph;
      && g.followers == Spread(old(g.followers), Elements(predecessors), Elements(followers))
      && g.predecessors == Spread(old(g.predecessors), Elements(followers), Elements(predecessors))
    ensures followers == [] ==> unchanged(GraphsOf(predecessors)`followers, GraphsOf(predecessors)`predecessors)
  {
    if followers == [] {
      return Ok(predecessors);
    }
    var i := 0;
    ghost var g := followers[0].graph;
    ghost var done: set<OrderedProcess<T>> := {};
    ghost var F0, P0 := g.followers, g.predecessors;
    SpreadNothing(F0, done, Elements(followers));
    SpreadNothing(P0, Elements(followers), done);
    assert followers[0] in followers;
    assert predecessors[..|predecessors|] == predecessors;
    while i < |predecessors|
      invariant 0 <= i <= |predecessors|
      invariant done == Elements(predecessors[..i])
      invariant EdgesKept(GraphsOf(predecessors))
      invariant forall x | x in done :: x.graph == g
      invariant i > 0 ==> AllIn(followers, g)
      invariant Recorded(g, F0, P0, done, Elements(followers))
    {
      var p := predecessors[i];
      assert p in predecessors;
      var ok := AfterStep(followers, p, GraphsOf(predecessors), done, F0, P0);
      if !ok {
        return Err(GraphMismatch);
      }
      ElementsSnoc(predecessors, i);
      done := done + {p};
      i := i + 1;
    }
    r := Ok(predecessors);
  }

  /** Every member of `predecessors` comes before every member of
      `followers`; returns `followers`. The mirror image of `AfterEach`:
      both record the same pairs. With no predecessors every turn of the
      loop is a no-op that succeeds, so that case returns at once. */
  method BeforeEach<T>(predecessors: seq<OrderedProcess<T>>, followers: seq<OrderedProcess<T>>)
    returns (r: Result<seq<OrderedProcess<T>>>)
    requires EdgesKept(GraphsOf(followers))
    requires AllRegistered(predecessors) && AllRegistered(followers)
    modifies GraphsOf(followers)`followers, GraphsOf(followers)`predecessors
    ensures EdgesKept(GraphsOf(followers))
    ensures r.Ok? <==>
      followers == [] || predecessors == [] ||
      (AllIn(predecessors, predecessors[0].graph) && AllIn(followers, predecessors[0].graph))
    ensures r.Ok? ==> r.value == followers
    ensures r.Err? ==> r.error == GraphMismatch
    ensures r.Ok? && predecessors != [] ==>
      var g := predecessors[0].graph;
      && g.followers == Spread(old(g.followers), Elements(predecessors), Elements(followers))
      && g.predecessors == Spread(old(g.predecessors), Elements(followers), Elements(predecessors))
    ensures predecessors == [] ==> unchanged(GraphsOf(followers)`followers, GraphsOf(followers)`predecessors)
  {
    if predecessors == [] {
      return Ok(followers);
    }
    var i := 0;
    ghost var g := predecessors[0].graph;
    ghost var done: set<OrderedProcess<T>> := {};
    ghost var F0, P0 := g.followers, g.predecessors;
    SpreadNothing(F0, Elements(predecessors), done);
    SpreadNothing(P0, done, Elements(predecessors));
    assert predecessors[0] in predecessors;
    assert followers[..|followers|] == followers;
    while i < |followers|
      invariant 0 <= i <= |followers|
      invariant done == Elements(followers[..i])
      invariant EdgesKept(GraphsOf(followers))
      invariant forall x | x in done :: x.graph == g
      invariant i > 0 ==> AllIn(predecessors, g)
      invariant Recorded(g, F0, P0, Elements(predecessors), done)
    {
      var f := followers[i];
      assert f in followers;
      var ok := BeforeStep(predecessors, f, GraphsOf(followers), done, F0, P0);
      if !ok {
        return Err(GraphMismatch);
      }
      ElementsSnoc(followers, i);
      done := done + {f};
      i := i + 1;
    }
    r := Ok(followers);
  }
}
