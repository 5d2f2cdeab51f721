/** Which tests a change selects: the test files from which a changed file is reached through imports. */
module Lanes {
  import opened Text

  /** Each file and the files it imports. */
  type Graph = map<string, set<string>>

  /** Which paths select everything, which are documentation, and which are test files. */
  datatype Paths = Paths(everything: string -> bool, documentation: string -> bool, test: string -> bool)

  datatype Selection = AllTests | Tests(files: seq<string>)

  predicate Closed(g: Graph) { forall n | n in g :: g[n] <= g.Keys }

  /** Some path asks for every test: it selects everything, or it is no file of the graph and no
      documentation. */
  predicate AsksForAll(paths: seq<string>, g: Graph, w: Paths) {
    exists p | p in paths :: w.everything(p) || (p !in g && !w.documentation(p))
  }

  function ChangedNodes(paths: seq<string>, g: Graph): set<string> { set p | p in paths && p in g }

  // --- reaching ----------------------------------------------------------------------------------------------------

  /** Each file of it imports the next. */
  ghost predicate ImportPath(g: Graph, path: seq<string>) {
    && path != [] && (forall i | 0 <= i < |path| :: path[i] in g)
    && forall i | 0 <= i < |path| - 1 :: path[i + 1] in g[path[i]]
  }

  ghost predicate Reaches(g: Graph, from: string, to: string) {
    exists path :: ImportPath(g, path) && path[0] == from && path[|path| - 1] == to
  }

  ghost predicate Affected(g: Graph, n: string, changed: set<string>) {
    exists c :: c in changed && Reaches(g, n, c)
  }

  lemma ReachesItself(g: Graph, n: string)
    requires n in g
    ensures Reaches(g, n, n)
  {
    assert ImportPath(g, [n]);
    assert [n][0] == n && [n][|[n]| - 1] == n;
  }

  lemma ReachesOneMore(g: Graph, n: string, m: string, c: string)
    requires n in g && m in g[n] && Reaches(g, m, c)
    ensures Reaches(g, n, c)
  {
    var path :| ImportPath(g, path) && path[0] == m && path[|path| - 1] == c;
    var longer := [n] + path;
    forall i | 0 <= i < |longer| - 1 ensures longer[i + 1] in g[longer[i]] {
      if i > 0 { assert path[i] in g[path[i - 1]]; }
    }
    assert ImportPath(g, longer) && longer[|longer| - 1] == c;
  }

  lemma ImporterAffected(g: Graph, n: string, m: string, changed: set<string>)
    requires n in g && m in g[n] && Affected(g, m, changed)
    ensures Affected(g, n, changed)
  {
    var c :| c in changed && Reaches(g, m, c);
    ReachesOneMore(g, n, m, c);
  }

  /** A set that holds the importers of each of its files holds whatever reaches one of them. */
  lemma {:induction false} ClosedHoldsPath(g: Graph, reached: set<string>, path: seq<string>)
    requires ImportPath(g, path) && path[|path| - 1] in reached
    requires forall n, m | m in reached && n in g && m in g[n] :: n in reached
    ensures path[0] in reached
    decreases |path|
  {
    if |path| > 1 {
      var rest := path[1..];
      forall i | 0 <= i < |rest| - 1 ensures rest[i + 1] in g[rest[i]] {
        assert path[i + 1 + 1] in g[path[i + 1]];
      }
      ClosedHoldsPath(g, reached, rest);
      assert path[0 + 1] in g[path[0]];
    }
  }

  lemma ClosedHoldsAffected(g: Graph, reached: set<string>, changed: set<string>, n: string)
    requires changed <= reached && Affected(g, n, changed)
    requires forall n, m | m in reached && n in g && m in g[n] :: n in reached
    ensures n in reached
  {
    var c :| c in changed && Reaches(g, n, c);
    var path :| ImportPath(g, path) && path[0] == n && path[|path| - 1] == c;
    ClosedHoldsPath(g, reached, path);
  }

  // --- the selection -----------------------------------------------------------------------------------------------

  function Dependents(g: Graph): (r: Graph)
    ensures r.Keys == g.Keys
  {
    map m | m in g :: set n | n in g && m in g[n]
  }

  ghost predicate AllAffected(g: Graph, s: set<string>, changed: set<string>) {
    forall n {:trigger Affected(g, n, changed)} | n in s :: Affected(g, n, changed)
  }

  /** The importers of every file reached, but those still pending, are reached. */
  ghost predicate ClosedBut(g: Graph, reached: set<string>, pending: seq<string>) {
    forall n, m | m in reached && m !in pending && n in g && m in g[n] :: n in reached
  }

  /** Every dependent not reached yet is reached, and queued. */
  method Enter(dependents: set<string>, before: set<string>,
          queue: seq<string>) returns (reached: set<string>, queued: seq<string>)
    ensures reached == before + dependents
    ensures forall m :: m in queued <==> m in queue || (m in dependents && m !in before)
    ensures dependents <= before ==> queued == queue
  {
    reached, queued := before, queue;
    var left := dependents;
    while left != {}
      invariant left <= dependents
      invariant reached == before + (dependents - left)
      invariant forall m :: m in queued <==> m in queue || (m in dependents - left && m !in before)
      invariant dependents <= before ==> queued == queue
      decreases left
    {
      var dependent :| dependent in left;
      left := left - {dependent};
      if dependent !in reached {
        reached := reached + {dependent};
        queued := queued + [dependent];
      }
      assert dependents - left == dependents - (left + {dependent}) + {dependent};
    }
  }

  lemma EntersAffected(g: Graph, node: string, importers: set<string>, reached: set<string>, changed: set<string>)
    requires AllAffected(g, reached, changed) && node in reached
    requires forall n | n in importers :: n in g && node in g[n]
    ensures AllAffected(g, reached + importers, changed)
  {
    forall n | n in importers ensures Affected(g, n, changed) { ImporterAffected(g, n, node, changed); }
  }

  /** With a file's importers entered, it is pending no more. */
  lemma StillClosed(g: Graph, reached: set<string>, queue: seq<string>, node: string, importers: set<string>,
          queued: seq<string>)
    requires ClosedBut(g, reached, queue + [node])
    requires forall n | n in g && node in g[n] :: n in importers
    requires forall m :: m in queued <==> m in queue || (m in importers && m !in reached)
    ensures ClosedBut(g, reached + importers, queued)
  {
    forall n, m | m in reached + importers && m !in queued && n in g && m in g[n] ensures n in reached + importers {
      assert m in reached;
      if m != node { assert m !in queue + [node]; }
    }
  }

  /** The files that reach a changed one, and no other. */
  ghost predicate ExactlyAffected(g: Graph, s: set<string>, changed: set<string>) {
    forall n {:trigger Affected(g, n, changed)} {:trigger n in s} :: n in s <==> n in g && Affected(g, n, changed)
  }

  lemma ChangedAffected(g: Graph, changed: set<string>)
    requires changed <= g.Keys
    ensures AllAffected(g, changed, changed)
  {
    forall n | n in changed ensures Affected(g, n, changed) { ReachesItself(g, n); }
  }

  lemma WorklistDone(g: Graph, reached: set<string>, changed: set<string>)
    requires changed <= reached <= g.Keys && AllAffected(g, reached, changed) && ClosedBut(g, reached, [])
    ensures ExactlyAffected(g, reached, changed)
  {
    forall n | n in g && Affected(g, n, changed) ensures n in reached { ClosedHoldsAffected(g, reached, changed, n); }
  }

  method ListOf(s: set<string>) returns (r: seq<string>)
    ensures forall m :: m in r <==> m in s
  {
    r := Sorted(s);
  }

  /** The worklist: every file that reaches a changed one, each entered once. */
  method ReachedFrom(g: Graph, changed: set<string>) returns (reached: set<string>)
    requires Closed(g) && changed <= g.Keys
    ensures ExactlyAffected(g, reached, changed)
  {
    var dependents := Dependents(g);
    reached := changed;
    var queue := ListOf(changed);
    ChangedAffected(g, changed);
    while queue != []
      invariant changed <= reached <= g.Keys
      invariant AllAffected(g, reached, changed)
      invariant forall m | m in queue :: m in reached
      invariant ClosedBut(g, reached, queue)
      decreases |g.Keys - reached|, |queue|
    {
      var node := queue[|queue| - 1];
      var rest := queue[..|queue| - 1];
      assert queue == rest + [node];
      var now, queued := Enter(dependents[node], reached, rest);
      EntersAffected(g, node, dependents[node], reached, changed);
      StillClosed(g, reached, rest, node, dependents[node], queued);
      Shrinks(g.Keys - now, g.Keys - reached);
      if g.Keys - now == g.Keys - reached { assert dependents[node] <= reached; }
      reached, queue := now, queued;
    }
    WorklistDone(g, reached, changed);
  }

  lemma Shrinks(a: set<string>, b: set<string>)
    requires a <= b
    ensures |a| <= |b| && (a != b ==> |a| < |b|)
  {
    assert b == a + (b - a);
    assert |b| == |a| + |b - a|;
  }

  /** The set holds every changed file, and every file that imports one of it. */
  ghost predicate Importing(g: Graph, paths: seq<string>, s: set<string>) {
    && (forall p | p in paths && p in g :: p in s)
    && forall n, m | n in g && m in g[n] && m in s :: n in s
  }

  /** What a change affects is what every such set holds. */
  lemma AffectedIsLeast(g: Graph, n: string, paths: seq<string>)
    requires n in g && Closed(g)
    ensures Affected(g, n, ChangedNodes(paths, g)) <==> forall s | Importing(g, paths, s) :: n in s
  {
    var changed := ChangedNodes(paths, g);
    if Affected(g, n, changed) {
      forall s | Importing(g, paths, s) ensures n in s { ClosedHoldsAffected(g, s, changed, n); }
    }
    ghost var least := set k | k in g && Affected(g, k, changed);
    forall p | p in paths && p in g ensures p in least { ReachesItself(g, p); }
    forall k, m | k in g && m in g[k] && m in least ensures k in least { ImporterAffected(g, k, m, changed); }
    assert Importing(g, paths, least);
  }

  /** The tests a change selects, or every test. */
  method SelectTests(paths: seq<string>, g: Graph, w: Paths) returns (r: Selection)
    requires Closed(g)
    ensures r.AllTests? <==> AsksForAll(paths, g, w)
    ensures r.Tests? ==> Ascending(r.files)
    ensures r.Tests? ==> forall n :: n in r.files <==> n in g && w.test(n) && Affected(g, n, ChangedNodes(paths, g))
    ensures r.AllTests? <==> exists p | p in paths :: w.everything(p) || (p !in g && !w.documentation(p))
    ensures r.Tests? ==>
              forall n :: n in r.files <==> n in g && w.test(n) && forall s | Importing(g, paths, s) :: n in s
  {
    if exists p | p in paths :: w.everything(p) { return AllTests; }
    var changed: set<string> := {};
    for i := 0 to |paths|
      invariant changed == ChangedNodes(paths[..i], g)
      invariant !AsksForAll(paths[..i], g, w)
    {
      assert paths[..i + 1] == paths[..i] + [paths[i]];
      if paths[i] in g {
        changed := changed + {paths[i]};
      } else if !w.documentation(paths[i]) {
        assert paths[i] in paths;
        return AllTests;
      }
    }
    assert paths[..|paths|] == paths;
    var reached := ReachedFrom(g, changed);
    forall n | n in g
      ensures n in reached <==> forall s | Importing(g, paths, s) :: n in s
    {
      AffectedIsLeast(g, n, paths);
    }
    return Tests(Sorted(set n | n in reached && w.test(n)));
  }

  /** What the selection is, as a set of files. */
  ghost predicate Selected(paths: seq<string>, g: Graph, w: Paths, n: string) {
    n in g && w.test(n) && (AsksForAll(paths, g, w) || Affected(g, n, ChangedNodes(paths, g)))
  }

  /** More changed paths never select fewer tests. */
  lemma SelectionMonotone(paths: seq<string>, more: seq<string>, g: Graph, w: Paths, n: string)
    requires (forall p | p in paths :: p in more) && Selected(paths, g, w, n)
    ensures Selected(more, g, w, n)
  {
    if !AsksForAll(paths, g, w) {
      var c :| c in ChangedNodes(paths, g) && Reaches(g, n, c);
      assert c in ChangedNodes(more, g);
    }
  }

  /** A test that is not selected sees no change: whatever the files held before and hold now, if
      only changed paths differ, every file the test reaches holds what it held. */
  lemma UnselectedSeesNoChange<T>(paths: seq<string>, g: Graph, w: Paths, n: string, before: string -> T,
          now: string -> T, file: string)
    requires n in g && w.test(n) && !Selected(paths, g, w, n)
    requires forall f | f in g && before(f) != now(f) :: f in paths
    requires Reaches(g, n, file) && file in g
    ensures before(file) == now(file)
  {
    assert file !in ChangedNodes(paths, g);
  }
}
