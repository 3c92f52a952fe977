/** Paged skill context: splitting documents into sections, expanding and deduplicating what
    a query selects, and packing the selection into one budgeted response. */
module ContextPaging {
  import opened Prelude

  // ----- sections of one document --------------------------------------------------

  const BLOCK_LINES := 60

  predicate Heading(line: string) {
    line != "" && line[0] == '#'
  }

  /** One block of lines: at most sixty, and none but the first begins with a hash. */
  ghost predicate Block(lines: seq<string>, from: int, to: int) {
    && 0 <= from < to <= |lines| && to - from <= 60
    && forall n :: from < n < to ==> !(['#'] <= lines[n])
  }

  /** A block ends at the end, before a line that begins with a hash, or after sixty lines. */
  ghost predicate Ends(lines: seq<string>, from: int, to: int)
    requires 0 <= to <= |lines|
  {
    to == |lines| || ['#'] <= lines[to] || to - from == 60
  }

  ghost predicate Splits(lines: seq<string>, b: seq<int>) {
    && b != [] && b[0] == 0
    && forall i, j :: 0 <= i && j == i + 1 && j < |b| ==> Block(lines, b[i], b[j]) && Ends(lines, b[i], b[j])
  }

  method Boundaries(lines: seq<string>) returns (b: seq<int>)
    ensures lines == [] ==> b == [0, 0]
    ensures lines != [] ==> |b| >= 2 && Splits(lines, b) && b[|b| - 1] == |lines|
  {
    b := [0];
    for number := 0 to |lines|
      invariant Splits(lines, b) && (number == 0 ==> b == [0])
      invariant (number > 0 ==> 0 <= b[|b| - 1] < number <= b[|b| - 1] + BLOCK_LINES)
      invariant forall n :: b[|b| - 1] < n < number ==> !(['#'] <= lines[n])
    {
      assert Heading(lines[number]) <==> ['#'] <= lines[number];
      if number != 0 && (Heading(lines[number]) || number - b[|b| - 1] >= BLOCK_LINES) {
        AddBoundary(lines, b, number);
        b := b + [number];
      }
    }
    if lines != [] {
      AddBoundary(lines, b, |lines|);
    }
    b := b + [|lines|];
  }

  lemma AddBoundary(lines: seq<string>, b: seq<int>, to: int)
    requires Splits(lines, b) && Block(lines, b[|b| - 1], to) && Ends(lines, b[|b| - 1], to)
    ensures Splits(lines, b + [to])
  {
    var more := b + [to];
    forall i, j | 0 <= i && j == i + 1 && j < |more|
      ensures Block(lines, more[i], more[j]) && Ends(lines, more[i], more[j])
    {
      if j < |b| {
        assert Block(lines, b[i], b[j]);
      }
    }
  }

  lemma InRange(lines: seq<string>, b: seq<int>, k: int)
    requires Splits(lines, b) && 0 <= k < |b|
    ensures 0 <= b[k] <= |lines| && (k > 0 ==> b[k - 1] < b[k])
  {
    if k > 0 {
      assert Block(lines, b[k - 1], b[k]);
    }
  }

  /** The lines of the first `k` blocks, block by block. */
  ghost function Blocks(lines: seq<string>, b: seq<int>, k: int): seq<string>
    requires Splits(lines, b) && 0 <= k < |b|
    decreases k
  {
    if k == 0 then []
    else
      InRange(lines, b, k);
      InRange(lines, b, k - 1);
      Blocks(lines, b, k - 1) + lines[b[k - 1]..b[k]]
  }

  /** The sections partition the document: put together they are its lines, each once. */
  lemma {:induction false} BlocksAreTheLines(lines: seq<string>, b: seq<int>, k: int)
    requires Splits(lines, b) && 0 <= k < |b|
    ensures 0 <= b[k] <= |lines| && Blocks(lines, b, k) == lines[..b[k]]
    decreases k
  {
    InRange(lines, b, k);
    if k > 0 {
      InRange(lines, b, k - 1);
      BlocksAreTheLines(lines, b, k - 1);
      assert lines[..b[k]] == lines[..b[k - 1]] + lines[b[k - 1]..b[k]];
    }
  }

  lemma EndIsUnique(lines: seq<string>, from: int, x: int, y: int)
    requires Block(lines, from, x) && Ends(lines, from, x) && Block(lines, from, y) && Ends(lines, from, y)
    ensures x == y
  {
  }

  /** And there is only one such split of the whole document. */
  lemma {:induction false} SplitIsUnique(lines: seq<string>, a: seq<int>, b: seq<int>, k: int)
    requires Splits(lines, a) && Splits(lines, b) && a[|a| - 1] == |lines| && b[|b| - 1] == |lines| && 0 <= k < |a|
    ensures k < |b| && a[k] == b[k]
    decreases k
  {
    if k > 0 {
      SplitIsUnique(lines, a, b, k - 1);
      assert Block(lines, a[k - 1], a[k]) && Ends(lines, a[k - 1], a[k]);
      assert k < |b|;
      assert Block(lines, b[k - 1], b[k]) && Ends(lines, b[k - 1], b[k]);
      EndIsUnique(lines, a[k - 1], a[k], b[k]);
    }
  }

  // ----- expanding along relationships ---------------------------------------------

  datatype Edge = Edge(origin: string, target: string, relation: string)

  function Cap(broad: bool): nat {
    if broad then 64 else 16
  }

  function Targets(edges: seq<Edge>): (r: seq<string>)
    ensures |r| == |edges| && forall i :: 0 <= i < |edges| ==> r[i] == edges[i].target
  {
    seq(|edges|, (i: int) requires 0 <= i < |edges| => edges[i].target)
  }

  /** The graph: each key's relationships in order, and the keys that may be expanded to. */
  datatype Graph = Graph(edges: map<string, seq<(string, string)>>, usable: set<string>)

  function Out(g: Graph, key: string): seq<(string, string)> {
    if key in g.edges then g.edges[key] else []
  }

  /** Every expanded edge is a relationship to a usable key, expanded once, from a seed or
      from one of the first `depth1` expanded targets; all of it within the cap. */
  ghost predicate Expansion(g: Graph, seeds: seq<string>, broad: bool, expanded: seq<Edge>, visited: set<string>,
                            depth1: int) {
    Steps(g, seeds, broad, expanded, visited) && TwoLevels(seeds, expanded, depth1)
  }

  /** The parts of an expansion that do not depend on where its two levels meet. */
  ghost predicate Steps(g: Graph, seeds: seq<string>, broad: bool, expanded: seq<Edge>, visited: set<string>) {
    && |visited| <= Cap(broad)
    && (forall x :: x in visited <==> x in seeds || x in Targets(expanded))
    && Distinct(Targets(expanded)) && (forall e :: e in expanded ==> e.target !in seeds)
    && (forall i :: 0 <= i < |expanded| ==>
         expanded[i].target in g.usable && (expanded[i].target, expanded[i].relation) in Out(g, expanded[i].origin))
  }

  lemma AddStep(g: Graph, seeds: seq<string>, broad: bool, expanded: seq<Edge>, visited: set<string>, e: Edge)
    requires Steps(g, seeds, broad, expanded, visited) && |visited| < Cap(broad) && e.target !in visited
    requires e.target in g.usable && (e.target, e.relation) in Out(g, e.origin)
    ensures Steps(g, seeds, broad, expanded + [e], visited + {e.target})
  {
    var more := expanded + [e];
    assert Targets(more) == Targets(expanded) + [e.target];
    assert forall i :: 0 <= i < |expanded| ==> more[i] == expanded[i];
    assert forall x :: x in more <==> x in expanded || x == e;
  }

  /** Where the origins come from: seeds first, then targets of those. */
  ghost predicate TwoLevels(seeds: seq<string>, expanded: seq<Edge>, depth1: int) {
    && 0 <= depth1 <= |expanded|
    && (forall i :: 0 <= i < depth1 ==> expanded[i].origin in seeds)
    && (forall i :: depth1 <= i < |expanded| ==>
         exists j :: 0 <= j < depth1 && expanded[j].target == expanded[i].origin)
  }

  lemma AddFirstLevel(seeds: seq<string>, expanded: seq<Edge>, e: Edge)
    requires TwoLevels(seeds, expanded, |expanded|) && e.origin in seeds
    ensures TwoLevels(seeds, expanded + [e], |expanded| + 1)
  {
    var more := expanded + [e];
    assert |more| == |expanded| + 1;
    forall i | 0 <= i < |expanded| + 1
      ensures more[i].origin in seeds
    {
      if i < |expanded| {
        assert more[i] == expanded[i];
      }
    }
    assert TwoLevels(seeds, more, |expanded| + 1);
  }

  lemma AddSecondLevel(seeds: seq<string>, expanded: seq<Edge>, depth1: int, e: Edge)
    requires TwoLevels(seeds, expanded, depth1) && exists j :: 0 <= j < depth1 && expanded[j].target == e.origin
    ensures TwoLevels(seeds, expanded + [e], depth1)
  {
    var more := expanded + [e];
    forall i | depth1 <= i < |more|
      ensures exists j :: 0 <= j < depth1 && more[j].target == more[i].origin
    {
      if i < |expanded| {
        var j :| 0 <= j < depth1 && expanded[j].target == expanded[i].origin;
        assert more[j].target == more[i].origin;
      } else {
        var j :| 0 <= j < depth1 && expanded[j].target == e.origin;
        assert more[j].target == more[i].origin;
      }
    }
    assert forall i :: 0 <= i < depth1 ==> more[i].origin in seeds;
    assert TwoLevels(seeds, more, depth1);
  }

  lemma VisitOne(g: Graph, seeds: seq<string>, broad: bool, expanded: seq<Edge>, visited: set<string>, depth1: int,
                 e: Edge)
    requires Expansion(g, seeds, broad, expanded, visited, depth1) && |visited| < Cap(broad) && e.target !in visited
    requires e.target in g.usable && (e.target, e.relation) in Out(g, e.origin)
    requires e.origin in seeds || (exists j :: 0 <= j < depth1 && expanded[j].target == e.origin)
    ensures e.origin in seeds && depth1 == |expanded| ==>
      Expansion(g, seeds, broad, expanded + [e], visited + {e.target}, depth1 + 1)
    ensures (exists j :: 0 <= j < depth1 && expanded[j].target == e.origin) ==>
      Expansion(g, seeds, broad, expanded + [e], visited + {e.target}, depth1)
  {
    hide Steps;
    AddStep(g, seeds, broad, expanded, visited, e);
    if e.origin in seeds && depth1 == |expanded| {
      AddFirstLevel(seeds, expanded, e);
    }
    if exists j :: 0 <= j < depth1 && expanded[j].target == e.origin {
      AddSecondLevel(seeds, expanded, depth1, e);
    }
  }

  /** How many expansions have a seed as their origin, while `first` tells the level. */
  ghost function Depth1(first: bool, expanded: seq<Edge>, depth0: int): int {
    if first then |expanded| else depth0
  }

  /** The relationships of some keys, one key after the other, each in its order. */
  ghost function Candidates(g: Graph, keys: seq<string>): seq<Edge> {
    if keys == [] then [] else Candidates(g, keys[..|keys| - 1]) + Relationships(g, keys[|keys| - 1])
  }

  ghost function Relationships(g: Graph, key: string): (r: seq<Edge>)
    ensures |r| == if key in g.edges then |g.edges[key]| else 0
    ensures forall i :: 0 <= i < |r| ==> r[i] == Edge(key, g.edges[key][i].0, g.edges[key][i].1)
  {
    if key in g.edges
    then seq(|g.edges[key]|,
      (i: int) requires 0 <= i < |g.edges[key]| => Edge(key, g.edges[key][i].0, g.edges[key][i].1))
    else []
  }

  lemma RelationshipsAre(g: Graph, key: string)
    ensures var r, out := Relationships(g, key), Out(g, key);
      |r| == |out| && forall i :: 0 <= i < |r| ==> r[i] == Edge(key, out[i].0, out[i].1)
  {
  }

  /** The candidates that are followed: each leads to a usable key that nothing before it
      reached, as long as there is room. */
  ghost function Followed(candidates: seq<Edge>, usable: set<string>, visited: set<string>, cap: int): (r: seq<Edge>)
    ensures |r| <= |candidates|
  {
    if candidates == [] then []
    else
      var earlier, e := Followed(candidates[..|candidates| - 1], usable, visited, cap), candidates[|candidates| - 1];
      if e.target in usable && e.target !in visited && e.target !in Targets(earlier) && |visited| + |earlier| < cap
      then earlier + [e] else earlier
  }

  ghost function Reached(visited: set<string>, edges: seq<Edge>): set<string> {
    visited + SetOf(Targets(edges))
  }

  lemma {:induction false} ReachedSize(candidates: seq<Edge>, usable: set<string>, visited: set<string>, cap: int)
    ensures var r := Followed(candidates, usable, visited, cap); |Reached(visited, r)| == |visited| + |r|
    decreases |candidates|
  {
    if candidates == [] {
      assert Reached(visited, []) == visited;
    } else {
      var earlier, e := Followed(candidates[..|candidates| - 1], usable, visited, cap), candidates[|candidates| - 1];
      ReachedSize(candidates[..|candidates| - 1], usable, visited, cap);
      assert Targets(earlier + [e]) == Targets(earlier) + [e.target];
      assert Reached(visited, earlier + [e]) == Reached(visited, earlier) + {e.target};
    }
  }

  lemma FollowOne(candidates: seq<Edge>, m: int, usable: set<string>, visited: set<string>, cap: int)
    requires 0 <= m < |candidates|
    ensures var r, e := Followed(candidates[..m], usable, visited, cap), candidates[m];
      var reached := Reached(visited, r);
      && Followed(candidates[..m + 1], usable, visited, cap) ==
           (if e.target in usable && e.target !in reached && |reached| < cap then r + [e] else r)
      && Reached(visited, r + [e]) == reached + {e.target}
  {
    var r, e := Followed(candidates[..m], usable, visited, cap), candidates[m];
    ReachedSize(candidates[..m], usable, visited, cap);
    assert candidates[..m + 1][..m] == candidates[..m];
    assert Targets(r + [e]) == Targets(r) + [e.target];
  }

  lemma {:induction false} FollowedAppends(a: seq<Edge>, b: seq<Edge>, usable: set<string>, visited: set<string>,
                                           cap: int)
    ensures var r := Followed(a, usable, visited, cap);
      Followed(a + b, usable, visited, cap) == r + Followed(b, usable, Reached(visited, r), cap)
    decreases |b|
  {
    var r := Followed(a, usable, visited, cap);
    if b == [] {
      assert a + b == a;
      assert r + [] == r;
    } else {
      var init, e := b[..|b| - 1], b[|b| - 1];
      assert (a + b)[..|a + b| - 1] == a + init && (a + b)[|a + b| - 1] == e;
      FollowedAppends(a, init, usable, visited, cap);
      ReachedSize(a, usable, visited, cap);
      var q := Followed(init, usable, Reached(visited, r), cap);
      assert Targets(r + q) == Targets(r) + Targets(q);
      assert r + (q + [e]) == (r + q) + [e];
    }
  }

  /** The relationships of one key, while there is room. */
  method ExpandFrom(g: Graph, seeds: seq<string>, broad: bool, origin: string, expanded0: seq<Edge>,
                    visited0: set<string>,
                    ghost depth0: int, first: bool)
    returns (expanded: seq<Edge>, visited: set<string>)
    requires Expansion(g, seeds, broad, expanded0, visited0, Depth1(first, expanded0, depth0))
    requires if first then origin in seeds
             else exists j :: 0 <= j < depth0 && j < |expanded0| && expanded0[j].target == origin
    ensures Expansion(g, seeds, broad, expanded, visited, Depth1(first, expanded, depth0))
    ensures expanded0 <= expanded && visited0 <= visited
    ensures |visited| < Cap(broad) ==> forall t :: t in Out(g, origin) && t.0 in g.usable ==> t.0 in visited
    ensures ghost var followed := Followed(Relationships(g, origin), g.usable, visited0, if broad then 64 else 16);
      expanded == expanded0 + followed && visited == Reached(visited0, followed)
  {
    hide Expansion, Followed, Reached, Relationships, Targets;
    expanded, visited := expanded0, visited0;
    var out := Out(g, origin);
    RelationshipsAre(g, origin);
    NothingFollowed(g.usable, visited0, if broad then 64 else 16);
    ghost var candidates, cap := Relationships(g, origin), if broad then 64 else 16;
    for m := 0 to |out|
      invariant expanded == expanded0 + Followed(candidates[..m], g.usable, visited0, cap)
      invariant visited == Reached(visited0, Followed(candidates[..m], g.usable, visited0, cap))
      invariant Expansion(g, seeds, broad, expanded, visited, Depth1(first, expanded, depth0))
      invariant expanded0 <= expanded && visited0 <= visited
      invariant |visited| < Cap(broad) ==> forall j :: 0 <= j < m && out[j].0 in g.usable ==> out[j].0 in visited
    {
      var target := out[m].0;
      FollowOne(candidates, m, g.usable, visited0, cap);
      if target !in visited && target in g.usable && |visited| < Cap(broad) {
        var e := Edge(origin, target, out[m].1);
        assert (e.target, e.relation) == out[m];
        if !first {
          ghost var j :| 0 <= j < depth0 && j < |expanded0| && expanded0[j].target == origin;
          assert expanded[j] == expanded0[j];
        }
        VisitOne(g, seeds, broad, expanded, visited, Depth1(first, expanded, depth0), e);
        expanded, visited := expanded + [e], visited + {target};
      }
    }
    assert candidates[..|out|] == candidates;
  }

  lemma NothingFollowed(usable: set<string>, visited: set<string>, cap: int)
    ensures Followed([], usable, visited, cap) == [] && Reached(visited, []) == visited
  {
  }

  /** One level: every usable, unvisited target of the frontier while there is room. */
  method ExpandLevel(g: Graph, seeds: seq<string>, broad: bool, frontier: seq<string>, expanded0: seq<Edge>,
                     visited0: set<string>,
                     ghost depth0: int, first: bool)
    returns (expanded: seq<Edge>, visited: set<string>, next: seq<string>)
    requires Expansion(g, seeds, broad, expanded0, visited0, Depth1(first, expanded0, depth0))
    requires first ==> forall f :: f in frontier ==> f in seeds
    requires !first ==> depth0 == |expanded0| && forall f :: f in frontier ==> f in Targets(expanded0)
    ensures Expansion(g, seeds, broad, expanded, visited, Depth1(first, expanded, depth0))
    ensures expanded0 <= expanded && visited0 <= visited && next == Targets(expanded[|expanded0|..])
    ensures |visited| < Cap(broad) ==>
      forall f, t :: f in frontier && t in Out(g, f) && t.0 in g.usable ==> t.0 in visited
    ensures ghost var followed := Followed(Candidates(g, frontier), g.usable, visited0, if broad then 64 else 16);
      expanded == expanded0 + followed && visited == Reached(visited0, followed)
  {
    hide Expansion, Followed, Reached, Relationships, Candidates;
    expanded, visited := expanded0, visited0;
    ghost var cap := if broad then 64 else 16;
    NothingFollowed(g.usable, visited0, cap);
    NoCandidates(g);
    for k := 0 to |frontier|
      invariant Expansion(g, seeds, broad, expanded, visited, Depth1(first, expanded, depth0))
      invariant expanded0 <= expanded && visited0 <= visited
      invariant |visited| < Cap(broad) ==> forall f, t :: f in frontier[..k] && t in Out(g, f) && t.0 in g.usable ==>
        t.0 in visited
      invariant expanded == expanded0 + Followed(Candidates(g, frontier[..k]), g.usable, visited0, cap)
      invariant visited == Reached(visited0, Followed(Candidates(g, frontier[..k]), g.usable, visited0, cap))
    {
      assert frontier[..k + 1] == frontier[..k] + [frontier[k]];
      FollowKey(g, frontier, k, visited0, cap, expanded0);
      assert frontier[k] in frontier;
      if !first {
        OriginExpanded(expanded0, expanded, depth0, frontier[k]);
      }
      ghost var visited1 := visited;
      expanded, visited := ExpandFrom(g, seeds, broad, frontier[k], expanded, visited, depth0, first);
      SubsetSize(visited1, visited);
    }
    assert frontier[..|frontier|] == frontier;
    next := Targets(expanded[|expanded0|..]);
  }

  lemma NoCandidates(g: Graph)
    ensures Candidates(g, []) == []
  {
  }

  lemma FollowKey(g: Graph, frontier: seq<string>, k: int, visited: set<string>, cap: int, before: seq<Edge>)
    requires 0 <= k < |frontier|
    ensures var r := Followed(Candidates(g, frontier[..k]), g.usable, visited, cap);
      var more := Followed(Relationships(g, frontier[k]), g.usable, Reached(visited, r), cap);
      var all := Followed(Candidates(g, frontier[..k + 1]), g.usable, visited, cap);
      && before + all == before + r + more && Reached(visited, all) == Reached(Reached(visited, r), more)
  {
    CandidatesNext(g, frontier, k);
    var a, b := Candidates(g, frontier[..k]), Relationships(g, frontier[k]);
    FollowedAppends(a, b, g.usable, visited, cap);
    var r := Followed(a, g.usable, visited, cap);
    var more := Followed(b, g.usable, Reached(visited, r), cap);
    ReachedTwice(visited, r, more);
    hide *;
    assert before + (r + more) == before + r + more;
  }

  lemma CandidatesNext(g: Graph, frontier: seq<string>, k: int)
    requires 0 <= k < |frontier|
    ensures Candidates(g, frontier[..k + 1]) == Candidates(g, frontier[..k]) + Relationships(g, frontier[k])
  {
    hide Relationships;
    assert frontier[..k + 1][..k] == frontier[..k];
  }

  lemma ReachedTwice(visited: set<string>, r: seq<Edge>, more: seq<Edge>)
    ensures Reached(visited, r + more) == Reached(Reached(visited, r), more)
  {
    assert Targets(r + more) == Targets(r) + Targets(more);
    hide Targets;
  }

  lemma OriginExpanded(expanded0: seq<Edge>, expanded: seq<Edge>, depth0: int, origin: string)
    requires expanded0 <= expanded && depth0 == |expanded0| && origin in Targets(expanded0)
    ensures exists j :: 0 <= j < depth0 && j < |expanded| && expanded[j].target == origin
  {
    var j :| 0 <= j < |expanded0| && Targets(expanded0)[j] == origin;
    assert expanded[j] == expanded0[j];
  }

  /** Every usable target of a seed or of a first-level target was visited. */
  ghost predicate NothingLeftOut(g: Graph, seeds: seq<string>, expanded: seq<Edge>, visited: set<string>, depth1: int) {
    && (forall f, t :: f in seeds && t in Out(g, f) && t.0 in g.usable ==> t.0 in visited)
    && (forall j, t :: 0 <= j < depth1 && j < |expanded| && t in Out(g, expanded[j].target) && t.0 in g.usable ==>
         t.0 in visited)
  }

  /** The seeds' relationships are followed first, then those of what that reached, in the order
      in which it was reached, and no further. */
  ghost predicate TwoSweeps(g: Graph, seeds: seq<string>, cap: int, expanded: seq<Edge>, visited: set<string>) {
    var first := Followed(Candidates(g, seeds), g.usable, SetOf(seeds), cap);
    var reached := Reached(SetOf(seeds), first);
    var second := Followed(Candidates(g, Targets(first)), g.usable, reached, cap);
    expanded == first + second && visited == Reached(reached, second)
  }

  lemma SweptTwice(g: Graph, seeds: seq<string>, cap: int, level1: seq<Edge>, expanded: seq<Edge>, visited: set<string>)
    requires level1 == [] + Followed(Candidates(g, seeds), g.usable, SetOf(seeds), cap)
    requires var reached := Reached(SetOf(seeds), level1);
      var second := Followed(Candidates(g, Targets(level1)), g.usable, reached, cap);
      expanded == level1 + second && visited == Reached(reached, second)
    ensures TwoSweeps(g, seeds, cap, expanded, visited)
  {
    hide Followed, Candidates, Reached;
    var first := Followed(Candidates(g, seeds), g.usable, SetOf(seeds), cap);
    assert [] + first == first;
  }

  /** Two levels from the seeds. With room to spare, nothing usable is left out. */
  method Expand(g: Graph, seeds: seq<string>, broad: bool) returns (expanded: seq<Edge>, visited: set<string>)
    requires |seeds| <= if broad then 64 else 8
    ensures TwoSweeps(g, seeds, if broad then 64 else 16, expanded, visited)
    ensures exists depth1 ::
      && Expansion(g, seeds, broad, expanded, visited, depth1)
      && (|visited| < Cap(broad) ==> NothingLeftOut(g, seeds, expanded, visited, depth1))
  {
    hide Followed, Candidates, Reached, TwoSweeps;
    var start := SetOf(seeds);
    SeedsFit(seeds, start);
    var next: seq<string>;
    expanded, visited, next := ExpandLevel(g, seeds, broad, seeds, [], start, 0, true);
    ghost var depth1 := |expanded|;
    ghost var level1, visited1 := expanded, visited;
    assert expanded[0..] == expanded;
    expanded, visited, next := ExpandLevel(g, seeds, broad, next, expanded, visited, depth1, false);
    assert [] + level1 == level1;
    SweptTwice(g, seeds, if broad then 64 else 16, level1, expanded, visited);
    if |visited| < Cap(broad) {
      SubsetSize(visited1, visited);
      forall j, t | 0 <= j < depth1 && t in Out(g, expanded[j].target) && t.0 in g.usable
        ensures t.0 in visited
      {
        assert Targets(level1)[j] == expanded[j].target;
        assert expanded[j].target in Targets(level1);
      }
    }
  }

  lemma SeedsFit(seeds: seq<string>, start: set<string>)
    requires start == SetOf(seeds)
    ensures |start| <= |seeds|
    decreases |seeds|
  {
    if seeds == [] {
      assert start == {};
    } else {
      var init, last := seeds[..|seeds| - 1], seeds[|seeds| - 1];
      assert seeds == init + [last];
      var smaller := SetOf(init);
      SeedsFit(init, smaller);
      assert start == smaller + {last};
    }
  }

  // ----- deduplicating by text -----------------------------------------------------

  /** A section as retrieval sees it; `rank` is its place in priority order. */
  datatype Section = Section(text: string, canonical: bool, rank: int)

  predicate Better(a: Section, b: Section) {
    (a.canonical && !b.canonical) || (a.canonical == b.canonical && a.rank <= b.rank)
  }

  /** A canonical section comes before any other, and of the same kind the one that was ranked
      earlier. */
  ghost predicate Outranks(a: Section, b: Section) {
    if a.canonical != b.canonical then a.canonical else a.rank <= b.rank
  }

  /** The best section with one text, among all sections with it. */
  method Winner(sections: seq<Section>, text: string) returns (w: int)
    requires exists i :: 0 <= i < |sections| && sections[i].text == text
    ensures 0 <= w < |sections| && sections[w].text == text
    ensures forall i :: 0 <= i < |sections| && sections[i].text == text ==> Outranks(sections[w], sections[i])
  {
    w := -1;
    for i := 0 to |sections|
      invariant -1 <= w < i && (w >= 0 ==> sections[w].text == text)
      invariant w == -1 ==> forall j :: 0 <= j < i ==> sections[j].text != text
      invariant w >= 0 ==> forall j :: 0 <= j < i && sections[j].text == text ==> Better(sections[w], sections[j])
    {
      if sections[i].text == text && (w == -1 || !Better(sections[w], sections[i])) {
        w := i;
      }
    }
  }

  /** The texts of the sections at some positions. */
  function TextsAt(sections: seq<Section>, at: seq<int>): (r: set<string>)
    requires forall m :: 0 <= m < |at| ==> 0 <= at[m] < |sections|
    ensures forall t :: t in r <==> exists m :: 0 <= m < |at| && sections[at[m]].text == t
  {
    if at == [] then {} else TextsAt(sections, at[..|at| - 1]) + {sections[at[|at| - 1]].text}
  }

  lemma TextsGrow(sections: seq<Section>, at: seq<int>, next: int)
    requires (forall m :: 0 <= m < |at| ==> 0 <= at[m] < |sections|) && 0 <= next < |sections|
    ensures TextsAt(sections, at + [next]) == TextsAt(sections, at) + {sections[next].text}
  {
    assert (at + [next])[..|at|] == at;
  }

  /** One section for each distinct selected text. `sections` lists every section of the
      corpus, and `selected` the positions of those the query selected. */
  method Deduplicate(sections: seq<Section>, selected: seq<int>) returns (kept: seq<int>)
    requires forall m :: 0 <= m < |selected| ==> 0 <= selected[m] < |sections|
    ensures Winners(sections, kept)
    ensures forall k :: 0 <= k < |kept| ==> 0 <= kept[k] < |sections|
    ensures TextsAt(sections, kept) == TextsAt(sections, selected)
    ensures CanonicalKept(sections, kept)
  {
    hide Winners, Outranks, TextsAt;
    kept := [];
    NoWinners(sections);
    var texts: set<string> := {};
    for n := 0 to |selected|
      invariant forall k :: 0 <= k < |kept| ==> 0 <= kept[k] < |sections|
      invariant Winners(sections, kept) && texts == TextsAt(sections, kept) == TextsAt(sections, selected[..n])
    {
      assert selected[..n + 1] == selected[..n] + [selected[n]];
      TextsGrow(sections, selected[..n], selected[n]);
      var text := sections[selected[n]].text;
      if text !in texts {
        var w := Winner(sections, text);
        AddWinner(sections, kept, w);
        TextsGrow(sections, kept, w);
        kept := kept + [w];
        texts := texts + {text};
      } else {
        assert texts + {text} == texts;
      }
    }
    assert selected[..|selected|] == selected;
    CanonicalWins(sections, kept);
  }

  lemma NoWinners(sections: seq<Section>)
    ensures Winners(sections, []) && TextsAt(sections, []) == {}
  {
  }

  /** Distinct texts, and of each text the best section there is. */
  ghost predicate Winners(sections: seq<Section>, kept: seq<int>) {
    && (forall k :: 0 <= k < |kept| ==> 0 <= kept[k] < |sections|)
    && (forall j, k :: 0 <= j < k < |kept| ==> sections[kept[j]].text != sections[kept[k]].text)
    && (forall k, i :: 0 <= k < |kept| && 0 <= i < |sections| && sections[i].text == sections[kept[k]].text ==>
          Outranks(sections[kept[k]], sections[i]))
  }

  lemma AddWinner(sections: seq<Section>, kept: seq<int>, w: int)
    requires Winners(sections, kept) && 0 <= w < |sections| && sections[w].text !in TextsAt(sections, kept)
    requires forall i :: 0 <= i < |sections| && sections[i].text == sections[w].text ==>
      Outranks(sections[w], sections[i])
    ensures Winners(sections, kept + [w])
  {
  }

  /** What is kept is canonical whenever the corpus has a canonical section with that text. */
  ghost predicate CanonicalKept(sections: seq<Section>, kept: seq<int>)
    requires forall k :: 0 <= k < |kept| ==> 0 <= kept[k] < |sections|
  {
    forall k, i :: 0 <= k < |kept| && 0 <= i < |sections| && SameText(sections, kept[k], i) && sections[i].canonical ==>
      sections[kept[k]].canonical
  }

  predicate SameText(sections: seq<Section>, a: int, b: int)
    requires 0 <= a < |sections| && 0 <= b < |sections|
  {
    sections[a].text == sections[b].text
  }

  /** So a canonical section wins whenever the corpus has one with that text. */
  lemma CanonicalWins(sections: seq<Section>, kept: seq<int>)
    requires Winners(sections, kept)
    ensures CanonicalKept(sections, kept)
  {
    hide Outranks;
    forall k, i | 0 <= k < |kept| && 0 <= i < |sections| && SameText(sections, kept[k], i) && sections[i].canonical
      ensures sections[kept[k]].canonical
    {
      assert Outranks(sections[kept[k]], sections[i]);
      OutranksCanonical(sections[kept[k]], sections[i]);
    }
  }

  lemma OutranksCanonical(a: Section, b: Section)
    requires Outranks(a, b) && b.canonical
    ensures a.canonical
  {
  }

  // ----- one page ------------------------------------------------------------------

  datatype Route = Direct | Indexed | Machine

  datatype Item = Item(section: int, cut: bool)
  datatype Answer = Answer(ok: bool, cited: seq<int>)

  /** What the encoder measures, and what the caller receives. */
  datatype Response = Response(
    evidence: seq<Item>, summaries: seq<bool>, warnings: nat, relationships: bool, cursor: Option<int>)

  /** The selection's size, the byte budget, the encoders and the analysis backend. */
  datatype Setting = Setting(
    total: int, offset: int, budget: int, route: Route,
    encoded: Response -> int, packetBytes: seq<Item> -> int, analyze: (int, int) -> Answer)

  ghost predicate Sane(s: Setting) {
    0 <= s.offset <= s.total && 2048 <= s.budget <= 65536
  }

  /** The evidence is exactly the sections from `from` up to `to`, in order. */
  ghost predicate Lists(evidence: seq<Item>, from: int, to: int) {
    |evidence| == to - from && forall k :: 0 <= k < |evidence| ==> evidence[k].section == from + k
  }

  /** Whether the response takes the next section whole. */
  ghost predicate Takes(s: Setting, response: Response, evidence: seq<Item>, next: int) {
    s.encoded(response.(evidence := evidence + [Item(next, false)])) + 768 <= s.budget
  }

  /** Whole sections, each of which was taken after the ones before it. */
  ghost predicate Taken(s: Setting, response: Response, evidence: seq<Item>) {
    forall k :: 0 <= k < |evidence| ==> !evidence[k].cut && Takes(s, response, evidence[..k], s.offset + k)
  }

  lemma TakeNext(s: Setting, response: Response, evidence: seq<Item>, next: int)
    requires Taken(s, response, evidence) && Takes(s, response, evidence, next) && next == s.offset + |evidence|
    ensures Taken(s, response, evidence + [Item(next, false)])
  {
    hide Takes;
    var more := evidence + [Item(next, false)];
    forall k | 0 <= k < |more|
      ensures !more[k].cut && Takes(s, response, more[..k], s.offset + k)
    {
      assert more[..k] == if k < |evidence| then evidence[..k] else evidence;
    }
  }

  /** The evidence of the direct and indexed routes: as many whole sections as fit, or, when
      not even the first one does, that one cut. */
  ghost predicate Packed(s: Setting, response: Response, evidence: seq<Item>, consumed: int) {
    if s.offset == s.total then evidence == [] && consumed == s.offset
    else if !Takes(s, response, [], s.offset) then evidence == [Item(s.offset, true)] && consumed == s.offset + 1
    else
      && s.offset < consumed <= s.total && Lists(evidence, s.offset, consumed) && Taken(s, response, evidence)
      && (consumed < s.total ==> !Takes(s, response, evidence, consumed))
  }

  /** Direct and indexed routes. */
  method Pack(s: Setting, response: Response) returns (r: Response, consumed: int)
    requires Sane(s) && response.evidence == []
    ensures r == response.(evidence := r.evidence)
    ensures Packed(s, response, r.evidence, consumed)
    ensures s.offset <= consumed <= s.total && Lists(r.evidence, s.offset, consumed)
  {
    hide Taken;
    r, consumed := response, s.offset;
    assert Taken(s, response, []) by { TakenNothing(s, response); }
    while consumed < s.total
      invariant r == response.(evidence := r.evidence)
      invariant s.offset <= consumed <= s.total && Lists(r.evidence, s.offset, consumed)
      invariant Taken(s, response, r.evidence) && (r.evidence != [] ==> Takes(s, response, [], s.offset))
    {
      var trial := r.(evidence := r.evidence + [Item(consumed, false)]);
      assert s.encoded(trial) <= s.budget - 768 <==> Takes(s, response, r.evidence, consumed);
      if s.encoded(trial) > s.budget - 768 {
        if r.evidence == [] {
          r := r.(evidence := [Item(consumed, true)]);
          consumed := consumed + 1;
        }
        return;
      }
      TakeNext(s, response, r.evidence, consumed);
      r := trial;
      consumed := consumed + 1;
    }
  }

  lemma TakenNothing(s: Setting, response: Response)
    ensures Taken(s, response, [])
  {
  }

  // ----- the machine route ---------------------------------------------------------

  const PACKET_BYTES := 48 * 1024

  ghost predicate Packs(s: Setting, packet: seq<Item>, next: int) {
    s.packetBytes(packet + [Item(next, false)]) <= 49152
  }

  /** The packet begun at `start`: consecutive sections, whole ones but for a first one that
      is too large, until the next one does not fit, sixty-four are in it, or none is left. */
  ghost predicate IsPacket(s: Setting, packet: seq<Item>, start: int, end: int) {
    && start <= end <= s.total && Lists(packet, start, end) && |packet| <= 64
    && (forall k :: 0 <= k < |packet| ==> (packet[k].cut <==> !Packs(s, packet[..k], start + k)))
    && (forall k :: 0 <= k < |packet| && packet[k].cut ==> k == 0)
    && (end < s.total && |packet| < 64 ==> packet != [] && !Packs(s, packet, end))
  }

  /** One analysis packet. */
  method FillPacket(s: Setting, start: int) returns (packet: seq<Item>, end: int)
    requires 0 <= start <= s.total
    ensures IsPacket(s, packet, start, end)
    ensures start < s.total ==> start < end
  {
    packet, end := [], start;
    while end < s.total && |packet| < 64
      invariant start <= end <= s.total && Lists(packet, start, end) && |packet| <= 64
      invariant forall k :: 0 <= k < |packet| ==> (packet[k].cut <==> !Packs(s, packet[..k], start + k))
      invariant forall k :: 0 <= k < |packet| && packet[k].cut ==> k == 0
    {
      assert forall i: Item, k :: 0 <= k < |packet| ==> (packet + [i])[..k] == packet[..k];
      assert forall i: Item :: (packet + [i])[..|packet|] == packet;
      if s.packetBytes(packet + [Item(end, false)]) > PACKET_BYTES {
        if packet != [] {
          break;
        }
        packet := packet + [Item(end, true)];
      } else {
        packet := packet + [Item(end, false)];
      }
      end := end + 1;
    }
  }

  predicate Valid(a: Answer, start: int, end: int) {
    a.ok && a.cited != [] && forall c :: c in a.cited ==> start <= c < end
  }

  /** The summaries' ranges follow each other from the offset; only the last one can have
      failed, and what was consumed is what the successful ones cover. */
  ghost predicate Tiles(offset: int, ranges: seq<(int, int)>, summaries: seq<bool>, consumed: int) {
    && |ranges| == |summaries|
    && (forall k :: 0 <= k < |ranges| ==> ranges[k].0 < ranges[k].1)
    && (ranges != [] ==> ranges[0].0 == offset)
    && (forall j, k :: 0 <= j && k == j + 1 && k < |ranges| ==> ranges[k].0 == ranges[j].1)
    && (forall k :: 0 <= k < |summaries| - 1 ==> summaries[k])
    && consumed == (if |ranges| == 0 then offset
                    else if summaries[|summaries| - 1] then ranges[|ranges| - 1].1 else ranges[|ranges| - 1].0)
  }

  lemma TilesBack(offset: int, ranges: seq<(int, int)>, summaries: seq<bool>, consumed: int)
    requires Tiles(offset, ranges, summaries, consumed) && ranges != []
    ensures var start := ranges[|ranges| - 1].0;
      Tiles(offset, ranges[..|ranges| - 1], summaries[..|summaries| - 1], if start < consumed then start else consumed)
  {
    var n := |ranges|;
    var start := ranges[n - 1].0;
    assert (if start < consumed then start else consumed) == start;
    if n > 1 {
      assert ranges[n - 1].0 == ranges[n - 2].1 && summaries[n - 2];
      assert ranges[..n - 1][n - 2] == ranges[n - 2];
    }
  }

  lemma TilesNext(offset: int, ranges: seq<(int, int)>, summaries: seq<bool>, consumed: int, end: int, ok: bool)
    requires Tiles(offset, ranges, summaries, consumed) && consumed < end && forall k :: 0 <= k < |summaries| ==>
      summaries[k]
    ensures Tiles(offset, ranges + [(consumed, end)], summaries + [ok], if ok then end else consumed)
  {
    var more := ranges + [(consumed, end)];
    forall j, k | 0 <= j && k == j + 1 && k < |more|
      ensures more[k].0 == more[j].1
    {
      if k < |ranges| {
        assert ranges[k].0 == ranges[j].1;
      }
    }
  }

  lemma TilesFrom(offset: int, ranges: seq<(int, int)>, summaries: seq<bool>, consumed: int)
    requires Tiles(offset, ranges, summaries, consumed)
    ensures offset <= consumed
    decreases |ranges|
  {
    if ranges != [] {
      TilesBack(offset, ranges, summaries, consumed);
      var start := ranges[|ranges| - 1].0;
      TilesFrom(offset, ranges[..|ranges| - 1], summaries[..|summaries| - 1], start);
    }
  }

  /** The cited sections from `start` up to `end`, in order. */
  function CitedItems(cited: seq<int>, start: int, end: int): seq<Item>
    decreases end - start
  {
    if end <= start then []
    else CitedItems(cited, start, end - 1) + (if end - 1 in cited then [Item(end - 1, false)] else [])
  }

  /** Add items while there are fewer than eight. */
  function UpToEight(evidence: seq<Item>, more: seq<Item>): seq<Item> {
    if |evidence| >= 8 || more == [] then evidence
    else if |evidence| + |more| <= 8 then evidence + more
    else evidence + more[..8 - |evidence|]
  }

  /** Excerpts for the sections a packet's answer cites, up to eight in all. */
  method Cite(response: Response, answer: Answer, start: int, end: int) returns (r: Response)
    requires start <= end
    ensures r == response.(evidence := UpToEight(response.evidence, CitedItems(answer.cited, start, end)))
  {
    r := response;
    for c := start to end
      invariant r == response.(evidence := UpToEight(response.evidence, CitedItems(answer.cited, start, c)))
    {
      if c in answer.cited && |r.evidence| < 8 {
        r := r.(evidence := r.evidence + [Item(c, false)]);
      }
    }
  }

  /** The range is one packet, and its summary succeeded exactly if the answer to it is valid. */
  ghost predicate RangeAnalyzed(s: Setting, start: int, end: int, ok: bool) {
    && (exists packet :: IsPacket(s, packet, start, end))
    && ok == Answers(s.analyze(start, end), start, end)
  }

  /** The backend succeeded and cites something, and nothing but sections of the range. */
  ghost predicate Answers(a: Answer, start: int, end: int) {
    a.ok && |a.cited| > 0 && forall k :: 0 <= k < |a.cited| ==> start <= a.cited[k] && a.cited[k] < end
  }

  lemma ValidAnswers(a: Answer, start: int, end: int)
    ensures Valid(a, start, end) <==> Answers(a, start, end)
  {
    assert Valid(a, start, end) ==> forall k :: 0 <= k < |a.cited| ==> a.cited[k] in a.cited;
    if Answers(a, start, end) {
      forall c | c in a.cited
        ensures start <= c < end
      {
        var k :| 0 <= k < |a.cited| && a.cited[k] == c;
      }
    }
  }

  ghost predicate Analyzed(s: Setting, ranges: seq<(int, int)>, summaries: seq<bool>) {
    && |ranges| == |summaries|
    && forall k :: 0 <= k < |ranges| ==> RangeAnalyzed(s, ranges[k].0, ranges[k].1, summaries[k])
  }

  lemma PacketSpans(s: Setting, packet: seq<Item>, start: int, end: int)
    requires IsPacket(s, packet, start, end)
    ensures start <= end <= s.total && (packet == [] <==> start == end)
  {
  }

  lemma AnalyzedNext(s: Setting, ranges: seq<(int, int)>, summaries: seq<bool>, packet: seq<Item>, start: int, end: int)
    requires Analyzed(s, ranges, summaries) && IsPacket(s, packet, start, end)
    ensures Analyzed(s, ranges + [(start, end)], summaries + [Valid(s.analyze(start, end), start, end)])
  {
    ValidAnswers(s.analyze(start, end), start, end);
    assert RangeAnalyzed(s, start, end, Valid(s.analyze(start, end), start, end));
    hide IsPacket, Valid, RangeAnalyzed;
  }

  lemma NothingAnalyzed(s: Setting)
    ensures Analyzed(s, [], []) && Tiles(s.offset, [], [], s.offset)
  {
  }

  /** A section that the answer to a successful packet of its own cites. */
  ghost predicate Quotable(s: Setting, ranges: seq<(int, int)>, summaries: seq<bool>, c: int) {
    exists j :: 0 <= j < |ranges| && j < |summaries| && summaries[j] && QuotedIn(s, ranges[j], c)
  }

  ghost predicate QuotedIn(s: Setting, range: (int, int), c: int) {
    range.0 <= c < range.1 && c in s.analyze(range.0, range.1).cited
  }

  /** The first eight quotable sections, in order, as excerpts. */
  ghost predicate Quotes(s: Setting, ranges: seq<(int, int)>, summaries: seq<bool>, evidence: seq<Item>) {
    && |evidence| <= 8
    && (forall k :: 0 <= k < |evidence| ==> !evidence[k].cut && Quotable(s, ranges, summaries, evidence[k].section))
    && (forall j, k :: 0 <= j < k < |evidence| ==> evidence[j].section < evidence[k].section)
    && forall c :: Quotable(s, ranges, summaries, c) ==>
         Item(c, false) in evidence || (|evidence| == 8 && evidence[7].section < c)
  }

  /** What the machine route shows: quotes, or, if the first packet with nothing to quote failed,
      its first two sections. */
  ghost predicate Shows(s: Setting, ranges: seq<(int, int)>, summaries: seq<bool>, evidence: seq<Item>) {
    if |ranges| == |summaries| > 0 && !summaries[|summaries| - 1] && Quotes(s, ranges, summaries, []) then
      var (start, end) := ranges[|ranges| - 1];
      evidence == if start + 1 < end then [Item(start, true), Item(start + 1, true)] else [Item(start, true)]
    else Quotes(s, ranges, summaries, evidence)
  }

  /** Before every packet but the first, what was gathered left room. */
  ghost predicate LeftRoom(s: Setting, response: Response, ranges: seq<(int, int)>, summaries: seq<bool>) {
    |ranges| == |summaries| && forall n :: 0 < n < |ranges| ==> RoomAfter(s, response, ranges, summaries, n)
  }

  ghost predicate RoomAfter(s: Setting, response: Response, ranges: seq<(int, int)>, summaries: seq<bool>, n: int)
    requires 0 <= n <= |ranges| == |summaries|
  {
    exists evidence :: Quotes(s, ranges[..n], summaries[..n], evidence)
                       && s.encoded(response.(evidence := evidence, summaries := summaries[..n])) + 1024 <= s.budget
  }

  /** The cited sections of a range, as excerpts, in order. */
  ghost predicate CitedList(cited: seq<int>, start: int, end: int, items: seq<Item>) {
    && (forall k :: 0 <= k < |items| ==> !items[k].cut && start <= items[k].section < end && items[k].section in cited)
    && (forall j, k :: 0 <= j < k < |items| ==> items[j].section < items[k].section)
    && forall c :: start <= c < end && c in cited ==> Item(c, false) in items
  }

  lemma {:induction false} CitedAre(cited: seq<int>, start: int, end: int)
    ensures CitedList(cited, start, end, CitedItems(cited, start, end))
    decreases end - start
  {
    if start < end {
      CitedAre(cited, start, end - 1);
      hide CitedList;
      var earlier := CitedItems(cited, start, end - 1);
      assert earlier + [] == earlier;
      if end - 1 in cited {
        CitedNext(cited, start, end, earlier);
      } else {
        NotCitedNext(cited, start, end, earlier);
      }
    }
  }

  lemma CitedNext(cited: seq<int>, start: int, end: int, earlier: seq<Item>)
    requires start < end && CitedList(cited, start, end - 1, earlier) && end - 1 in cited
    ensures CitedList(cited, start, end, earlier + [Item(end - 1, false)])
  {
    var items := earlier + [Item(end - 1, false)];
    assert forall k :: 0 <= k < |earlier| ==> items[k] == earlier[k];
    forall c | start <= c < end && c in cited
      ensures Item(c, false) in items
    {
      if c < end - 1 {
        assert Item(c, false) in earlier;
      } else {
        assert items[|earlier|] == Item(c, false);
      }
    }
  }

  lemma NotCitedNext(cited: seq<int>, start: int, end: int, earlier: seq<Item>)
    requires start < end && CitedList(cited, start, end - 1, earlier) && end - 1 !in cited
    ensures CitedList(cited, start, end, earlier)
  {
    assert forall c :: start <= c < end && c in cited ==> c < end - 1;
  }

  /** Nothing before the packet is cited by a valid answer to it. */
  lemma {:induction false} CitedFrom(cited: seq<int>, offset: int, start: int, end: int)
    requires offset <= start <= end && forall c :: c in cited ==> start <= c < end
    ensures CitedItems(cited, offset, end) == CitedItems(cited, start, end)
    decreases end - offset
  {
    CitedNothing(cited, offset, start);
    CitedSplits(cited, offset, start, end);
    assert [] + CitedItems(cited, start, end) == CitedItems(cited, start, end);
  }

  lemma {:induction false} CitedNothing(cited: seq<int>, offset: int, start: int)
    requires forall c :: c in cited ==> start <= c
    ensures CitedItems(cited, offset, start) == []
    decreases start - offset
  {
    if offset < start {
      CitedNothing(cited, offset, start - 1);
    }
  }

  lemma {:induction false} CitedSplits(cited: seq<int>, offset: int, start: int, end: int)
    requires offset <= start <= end
    ensures CitedItems(cited, offset, end) == CitedItems(cited, offset, start) + CitedItems(cited, start, end)
    decreases end - start
  {
    if start < end {
      CitedSplits(cited, offset, start, end - 1);
    } else {
      assert CitedItems(cited, offset, start) + [] == CitedItems(cited, offset, start);
    }
  }

  lemma QuotesNothing(s: Setting)
    ensures Quotes(s, [], [], [])
  {
  }

  lemma QuotableNext(s: Setting, ranges: seq<(int, int)>, summaries: seq<bool>, range: (int, int), ok: bool, c: int)
    requires |ranges| == |summaries|
    ensures Quotable(s, ranges + [range], summaries + [ok], c) <==>
      Quotable(s, ranges, summaries, c) || (ok && QuotedIn(s, range, c))
  {
    var more, told := ranges + [range], summaries + [ok];
    if j :| 0 <= j < |ranges| && summaries[j] && QuotedIn(s, ranges[j], c) {
      assert told[j] && QuotedIn(s, more[j], c);
    }
    if ok && QuotedIn(s, range, c) {
      assert told[|ranges|] && QuotedIn(s, more[|ranges|], c);
    }
    if j :| 0 <= j < |more| && told[j] && QuotedIn(s, more[j], c) {
      if j < |ranges| {
        assert summaries[j] && QuotedIn(s, ranges[j], c);
      }
    }
  }

  lemma QuotesFailed(s: Setting, ranges: seq<(int, int)>, summaries: seq<bool>, range: (int, int), evidence: seq<Item>)
    requires |ranges| == |summaries| && Quotes(s, ranges, summaries, evidence)
    ensures Quotes(s, ranges + [range], summaries + [false], evidence)
  {
    hide Quotable;
    forall c
      ensures Quotable(s, ranges + [range], summaries + [false], c) <==> Quotable(s, ranges, summaries, c)
    {
      QuotableNext(s, ranges, summaries, range, false, c);
    }
  }

  /** Every quotable section comes before the next packet. */
  lemma QuotableBefore(s: Setting, offset: int, ranges: seq<(int, int)>, summaries: seq<bool>, consumed: int, c: int)
    requires Tiles(offset, ranges, summaries, consumed) && Quotable(s, ranges, summaries, c)
    ensures c < consumed
  {
    var j :| 0 <= j < |ranges| && summaries[j] && QuotedIn(s, ranges[j], c);
    RangeBefore(offset, ranges, summaries, consumed, j);
  }

  lemma RangeBefore(offset: int, ranges: seq<(int, int)>, summaries: seq<bool>, consumed: int, j: int)
    requires Tiles(offset, ranges, summaries, consumed) && 0 <= j < |ranges| && summaries[j]
    ensures ranges[j].1 <= consumed
    decreases |ranges| - j
  {
    if j + 1 < |ranges| {
      assert ranges[j + 1].0 == ranges[j].1;
      if summaries[j + 1] {
        RangeBefore(offset, ranges, summaries, consumed, j + 1);
      }
    }
  }

  lemma QuotesNext(s: Setting, offset: int, ranges: seq<(int, int)>, summaries: seq<bool>, start: int, end: int,
                   evidence: seq<Item>)
    requires Tiles(offset, ranges, summaries, start) && Quotes(s, ranges, summaries, evidence) && start <= end
    ensures Quotes(s, ranges + [(start, end)], summaries + [true],
                   UpToEight(evidence, CitedItems(s.analyze(start, end).cited, start, end)))
  {
    var cited := s.analyze(start, end).cited;
    var items := CitedItems(cited, start, end);
    CitedAre(cited, start, end);
    forall c
      ensures Quotable(s, ranges + [(start, end)], summaries + [true], c) <==>
        Quotable(s, ranges, summaries, c) || Item(c, false) in items
    {
      QuotableNext(s, ranges, summaries, (start, end), true, c);
    }
    forall c | Quotable(s, ranges, summaries, c)
      ensures c < start
    {
      QuotableBefore(s, offset, ranges, summaries, start, c);
    }
    hide Quotable, CitedItems, Tiles;
    FirstEight(s, ranges, summaries, ranges + [(start, end)], summaries + [true], evidence, items, start);
  }

  lemma FirstEight(s: Setting, ranges: seq<(int, int)>, summaries: seq<bool>, more: seq<(int, int)>, told: seq<bool>,
                   evidence: seq<Item>, items: seq<Item>, start: int)
    requires Quotes(s, ranges, summaries, evidence)
    requires forall c :: Quotable(s, more, told, c) <==> Quotable(s, ranges, summaries, c) || Item(c, false) in items
    requires forall c :: Quotable(s, ranges, summaries, c) ==> c < start
    requires forall k :: 0 <= k < |items| ==> items[k] == Item(items[k].section, false) && start <= items[k].section
    requires forall j, k :: 0 <= j < k < |items| ==> items[j].section < items[k].section
    ensures Quotes(s, more, told, UpToEight(evidence, items))
  {
    UpToEightIs(evidence, items);
    var all := UpToEight(evidence, items);
    hide Quotable, UpToEight;
    FirstEightQuotable(s, ranges, summaries, more, told, evidence, items, all);
    FirstEightInOrder(s, ranges, summaries, evidence, items, all, start);
    forall c | Quotable(s, more, told, c)
      ensures Item(c, false) in all || (|all| == 8 && all[7].section < c)
    {
      FirstEightComplete(s, ranges, summaries, more, told, evidence, items, all, start, c);
    }
    hide *;
    assert |all| <= 8;
    QuotesOf(s, more, told, all);
  }

  lemma QuotesOf(s: Setting, ranges: seq<(int, int)>, summaries: seq<bool>, evidence: seq<Item>)
    requires |evidence| <= 8
    requires forall k :: 0 <= k < |evidence| ==> !evidence[k].cut && Quotable(s, ranges, summaries, evidence[k].section)
    requires forall j, k :: 0 <= j < k < |evidence| ==> evidence[j].section < evidence[k].section
    requires forall c :: Quotable(s, ranges, summaries, c) ==>
      Item(c, false) in evidence || (|evidence| == 8 && evidence[7].section < c)
    ensures Quotes(s, ranges, summaries, evidence)
  {
    hide Quotable;
  }

  /** Items are added after the evidence there was, as far as there is room. */
  ghost predicate Added(evidence: seq<Item>, items: seq<Item>, all: seq<Item>) {
    var n := |all| - |evidence|;
    |all| <= 8 && 0 <= n <= |items| && all == evidence + items[..n] && (n < |items| ==> |all| == 8)
  }

  lemma FirstEightQuotable(s: Setting, ranges: seq<(int, int)>, summaries: seq<bool>, more: seq<(int, int)>,
                           told: seq<bool>, evidence: seq<Item>, items: seq<Item>, all: seq<Item>)
    requires Added(evidence, items, all) && Quotes(s, ranges, summaries, evidence)
    requires forall c :: Quotable(s, more, told, c) <==> Quotable(s, ranges, summaries, c) || Item(c, false) in items
    requires forall k :: 0 <= k < |items| ==> items[k] == Item(items[k].section, false)
    ensures forall k :: 0 <= k < |all| ==> !all[k].cut && Quotable(s, more, told, all[k].section)
  {
    hide Quotable;
    forall k | 0 <= k < |all|
      ensures !all[k].cut && Quotable(s, more, told, all[k].section)
    {
      if k < |evidence| {
        assert all[k] == evidence[k] && Quotable(s, ranges, summaries, evidence[k].section);
      } else {
        assert all[k] == items[k - |evidence|] && items[k - |evidence|] in items;
      }
    }
  }

  lemma FirstEightInOrder(s: Setting, ranges: seq<(int, int)>, summaries: seq<bool>, evidence: seq<Item>,
                          items: seq<Item>, all: seq<Item>, start: int)
    requires Added(evidence, items, all) && Quotes(s, ranges, summaries, evidence)
    requires forall c :: Quotable(s, ranges, summaries, c) ==> c < start
    requires forall k :: 0 <= k < |items| ==> start <= items[k].section
    requires forall j, k :: 0 <= j < k < |items| ==> items[j].section < items[k].section
    ensures forall j, k :: 0 <= j < k < |all| ==> all[j].section < all[k].section
  {
    hide Quotable;
    forall j, k | 0 <= j < k < |all|
      ensures all[j].section < all[k].section
    {
      if j < |evidence| <= k {
        assert Quotable(s, ranges, summaries, evidence[j].section);
        assert all[k] == items[k - |evidence|];
      } else if |evidence| <= j {
        assert all[j] == items[j - |evidence|] && all[k] == items[k - |evidence|];
      }
    }
  }

  lemma FirstEightComplete(s: Setting, ranges: seq<(int, int)>, summaries: seq<bool>, more: seq<(int, int)>,
                           told: seq<bool>, evidence: seq<Item>, items: seq<Item>, all: seq<Item>, start: int, c: int)
    requires Added(evidence, items, all) && Quotes(s, ranges, summaries, evidence)
    requires Quotable(s, ranges, summaries, c) || Item(c, false) in items
    requires forall x :: Quotable(s, ranges, summaries, x) ==> x < start
    requires forall k :: 0 <= k < |items| ==> start <= items[k].section
    requires forall j, k :: 0 <= j < k < |items| ==> items[j].section < items[k].section
    ensures Item(c, false) in all || (|all| == 8 && all[7].section < c)
  {
    hide Quotable;
    if Item(c, false) in items {
      forall k | 0 <= k < |evidence|
        ensures evidence[k].section < start
      {
        assert Quotable(s, ranges, summaries, evidence[k].section);
      }
      var i :| 0 <= i < |items| && items[i] == Item(c, false);
      hide Quotes;
      TakenOrLater(evidence, items, all, |all| - |evidence|, c, start);
    } else if Item(c, false) in evidence {
      var k :| 0 <= k < |evidence| && evidence[k] == Item(c, false);
      assert all[k] == evidence[k];
    }
  }

  lemma UpToEightIs(evidence: seq<Item>, items: seq<Item>)
    requires |evidence| <= 8
    ensures Added(evidence, items, UpToEight(evidence, items))
  {
    assert items[..|items|] == items;
  }

  /** An item is taken, or the eight that are come before it. */
  lemma TakenOrLater(evidence: seq<Item>, items: seq<Item>, all: seq<Item>, n: int, c: int, start: int)
    requires 0 <= n <= |items| && all == evidence + items[..n] && (n < |items| ==> |all| == 8)
    requires Item(c, false) in items && start <= c
    requires forall k :: 0 <= k < |evidence| ==> evidence[k].section < start
    requires forall j, k :: 0 <= j < k < |items| ==> items[j].section < items[k].section
    ensures Item(c, false) in all || (|all| == 8 && all[7].section < c)
  {
    var k :| 0 <= k < |items| && items[k] == Item(c, false);
    if k < n {
      assert all[|evidence| + k] == items[k];
    } else if n > 0 {
      assert all[7] == items[n - 1];
    } else {
      assert all == evidence;
    }
  }

  lemma NoRoomNeeded(s: Setting, response: Response)
    ensures LeftRoom(s, response, [], [])
  {
  }

  lemma ShowsQuotes(s: Setting, ranges: seq<(int, int)>, summaries: seq<bool>, evidence: seq<Item>)
    requires Quotes(s, ranges, summaries, evidence) && |ranges| == |summaries|
    requires summaries != [] ==> summaries[|summaries| - 1]
    ensures Shows(s, ranges, summaries, evidence)
  {
    hide Quotes;
  }

  lemma RoomForNext(s: Setting, response: Response, ranges: seq<(int, int)>, summaries: seq<bool>, evidence: seq<Item>,
                    range: (int, int), ok: bool)
    requires LeftRoom(s, response, ranges, summaries) && Quotes(s, ranges, summaries, evidence)
    requires ranges != [] ==> s.encoded(response.(evidence := evidence, summaries := summaries)) <= s.budget - 1024
    ensures LeftRoom(s, response, ranges + [range], summaries + [ok])
  {
    hide Quotes;
    var more, told := ranges + [range], summaries + [ok];
    forall n | 0 < n < |more|
      ensures RoomAfter(s, response, more, told, n)
    {
      assert more[..n] == ranges[..n] && told[..n] == summaries[..n];
      if n < |ranges| {
        assert RoomAfter(s, response, ranges, summaries, n);
      } else {
        assert ranges[..n] == ranges && summaries[..n] == summaries;
      }
    }
  }

  lemma FailedShows(s: Setting, ranges: seq<(int, int)>, summaries: seq<bool>, start: int, end: int,
                    quotes: seq<Item>, evidence: seq<Item>)
    requires |ranges| == |summaries| && Quotes(s, ranges, summaries, quotes)
    requires evidence == if quotes == [] then [Item(start, true)] + (if start + 1 < end then [Item(start + 1, true)]
      else [])
                         else quotes
    ensures Shows(s, ranges + [(start, end)], summaries + [false], evidence)
  {
    hide Quotes;
    var more, told := ranges + [(start, end)], summaries + [false];
    QuotesFailed(s, ranges, summaries, (start, end), quotes);
    if quotes != [] {
      QuoteThere(s, more, told, quotes);
    }
  }

  lemma QuoteThere(s: Setting, ranges: seq<(int, int)>, summaries: seq<bool>, quotes: seq<Item>)
    requires Quotes(s, ranges, summaries, quotes) && quotes != []
    ensures !Quotes(s, ranges, summaries, [])
  {
    hide Quotable;
    assert Quotable(s, ranges, summaries, quotes[0].section);
  }

  lemma QuotesPacket(s: Setting, ranges: seq<(int, int)>, summaries: seq<bool>, start: int, end: int,
                     before: seq<Item>, after: seq<Item>)
    requires Tiles(s.offset, ranges, summaries, start) && Quotes(s, ranges, summaries, before) && start <= end
    requires Valid(s.analyze(start, end), start, end)
    requires after == UpToEight(before, CitedItems(s.analyze(start, end).cited, s.offset, end))
    ensures Quotes(s, ranges + [(start, end)], summaries + [true], after)
  {
    TilesFrom(s.offset, ranges, summaries, start);
    CitedFrom(s.analyze(start, end).cited, s.offset, start, end);
    QuotesNext(s, s.offset, ranges, summaries, start, end, before);
    hide *;
  }

  /** Up to four packets through the backend; a failed one is handed back to the next page. */
  method Summarize(s: Setting, response: Response) returns (r: Response, consumed: int, ranges: seq<(int, int)>)
    requires Sane(s) && response.evidence == [] && response.summaries == []
    ensures r == response.(evidence := r.evidence, summaries := r.summaries)
    ensures Tiles(s.offset, ranges, r.summaries, consumed) && s.offset <= consumed <= s.total && |ranges| <= 4
    ensures Analyzed(s, ranges, r.summaries)
    ensures Shows(s, ranges, r.summaries, r.evidence) && LeftRoom(s, response, ranges, r.summaries)
    ensures |ranges| < 4 && (forall k :: 0 <= k < |r.summaries| ==> r.summaries[k]) ==>
      consumed == s.total || s.encoded(r) > s.budget - 1024
  {
    hide IsPacket, Tiles, Analyzed, Valid, UpToEight, CitedItems, Quotes, Shows, LeftRoom;
    r, consumed, ranges := response, s.offset, [];
    NothingAnalyzed(s);
    QuotesNothing(s);
    NoRoomNeeded(s, response);
    ShowsQuotes(s, ranges, r.summaries, r.evidence);
    for round := 0 to 4
      invariant r == response.(evidence := r.evidence, summaries := r.summaries)
      invariant Tiles(s.offset, ranges, r.summaries, consumed) && s.offset <= consumed <= s.total && |ranges| == round
      invariant forall k :: 0 <= k < |r.summaries| ==> r.summaries[k]
      invariant Analyzed(s, ranges, r.summaries)
      invariant Quotes(s, ranges, r.summaries, r.evidence) && Shows(s, ranges, r.summaries, r.evidence)
      invariant LeftRoom(s, response, ranges, r.summaries)
      invariant ranges != [] ==> s.encoded(r) <= s.budget - 1024
    {
      var start := consumed;
      var packet, end := FillPacket(s, start);
      PacketSpans(s, packet, start, end);
      if packet == [] {
        break;
      }
      var answer := s.analyze(start, end);
      TilesNext(s.offset, ranges, r.summaries, start, end, Valid(answer, start, end));
      AnalyzedNext(s, ranges, r.summaries, packet, start, end);
      RoomForNext(s, response, ranges, r.summaries, r.evidence, (start, end), Valid(answer, start, end));
      ghost var before := r;
      if !Valid(answer, start, end) {
        r := r.(summaries := r.summaries + [false]);
        if r.evidence == [] {
          r := r.(evidence := [Item(start, true)] + (if start + 1 < end then [Item(start + 1, true)] else []));
        }
        FailedShows(s, ranges, before.summaries, start, end, before.evidence, r.evidence);
        ranges := ranges + [(start, end)];
        break;
      }
      r := r.(summaries := r.summaries + [true]);
      consumed := end;
      r := Cite(r, answer, s.offset, consumed);
      QuotesPacket(s, ranges, before.summaries, start, end, before.evidence, r.evidence);
      ranges := ranges + [(start, end)];
      ShowsQuotes(s, ranges, r.summaries, r.evidence);
      if consumed >= s.total || s.encoded(r) > s.budget - 1024 {
        break;
      }
    }
  }

  // ----- trimming to the budget ----------------------------------------------------

  function Progress(s: Setting, r: Response, consumed: int): Response {
    r.(cursor := if consumed < s.total then Some(consumed) else None)
  }

  /** A page on its way: the response, what it consumed, and the ranges of its summaries. */
  datatype Page = Page(r: Response, consumed: int, ranges: seq<(int, int)>)

  /** The page with the next thing given up: the relationships, then the last warning, then
      the last summary, then the last evidence; given up sections are not consumed. */
  function Smaller(s: Setting, p: Page): (q: Page)
    requires |p.ranges| == |p.r.summaries|
    ensures |q.ranges| == |q.r.summaries|
  {
    if p.r.relationships then p.(r := p.r.(relationships := false))
    else if p.r.warnings > 0 then p.(r := p.r.(warnings := p.r.warnings - 1))
    else if p.r.summaries != [] then
      var start := p.ranges[|p.ranges| - 1].0;
      var consumed := if start < p.consumed then start else p.consumed;
      Page(Progress(s, p.r.(summaries := p.r.summaries[..|p.r.summaries| - 1]), consumed), consumed,
        p.ranges[..|p.ranges| - 1])
    else if p.r.evidence != [] then
      var consumed := if s.route.Machine? then p.consumed else p.consumed - 1;
      Page(Progress(s, p.r.(evidence := p.r.evidence[..|p.r.evidence| - 1]), consumed), consumed, p.ranges)
    else p
  }

  function Things(r: Response): nat {
    (if r.relationships then 1 else 0) + r.warnings + |r.summaries| + |r.evidence|
  }

  /** Give up one thing after another until the page fits. */
  function Fitting(s: Setting, p: Page): Page
    requires |p.ranges| == |p.r.summaries|
    decreases Things(p.r)
  {
    if s.encoded(p.r) <= s.budget || Things(p.r) == 0 then p else Fitting(s, Smaller(s, p))
  }

  ghost function AtMost(x: int, limit: int): int {
    if x < 0 then 0 else if x < limit then x else limit
  }

  /** The page after `k` things were given up, all at once: the relationships are the first
      thing, then the warnings, the summaries and the evidence, each from the back; the cursor
      goes back to the first section that is not shown, or not analysed, any more. */
  ghost function GivenUp(s: Setting, w: Page, k: int): Page
    requires |w.ranges| == |w.r.summaries|
  {
    var later := k - if w.r.relationships then 1 else 0;
    var warnings := w.r.warnings - AtMost(later, w.r.warnings);
    var summaries := |w.r.summaries| - AtMost(later - w.r.warnings, |w.r.summaries|);
    var evidence := |w.r.evidence| - AtMost(later - w.r.warnings - |w.r.summaries|, |w.r.evidence|);
    var consumed :=
      if s.route == Machine then (if summaries < |w.ranges| then w.ranges[summaries].0 else w.consumed)
      else w.consumed - (|w.r.evidence| - evidence);
    Page(Response(w.r.evidence[..evidence], w.r.summaries[..summaries], warnings, w.r.relationships && k <= 0,
                  if consumed < s.total then Some(consumed) else None),
         consumed, w.ranges[..summaries])
  }

  ghost function AllThings(w: Page): nat {
    (if w.r.relationships then 1 else 0) + w.r.warnings + |w.r.summaries| + |w.r.evidence|
  }

  /** Exactly so much is given up that the page fits, or everything. */
  ghost predicate JustFits(s: Setting, w: Page, k: int)
    requires |w.ranges| == |w.r.summaries|
  {
    && 0 <= k <= AllThings(w) && (forall j :: 0 <= j < k ==> s.encoded(GivenUp(s, w, j).r) > s.budget)
    && (k < AllThings(w) ==> s.encoded(GivenUp(s, w, k).r) <= s.budget)
  }

  /** A page as it is before trimming, as far as trimming depends on it. */
  ghost predicate Whole(s: Setting, w: Page) {
    && |w.ranges| == |w.r.summaries| && w.r.cursor == (if w.consumed < s.total then Some(w.consumed) else None)
    && (if s.route.Machine? then Tiles(s.offset, w.ranges, w.r.summaries, w.consumed) else w.r.summaries == [])
  }

  lemma NothingGivenUp(s: Setting, w: Page)
    requires Whole(s, w)
    ensures GivenUp(s, w, 0) == w
  {
    assert w.r.evidence[..|w.r.evidence|] == w.r.evidence && w.r.summaries[..|w.r.summaries|] == w.r.summaries;
    assert w.ranges[..|w.ranges|] == w.ranges;
  }

  /** The ranges' starts only go up to where the page ends. */
  lemma StartsBefore(offset: int, ranges: seq<(int, int)>, summaries: seq<bool>, consumed: int, k: int)
    requires Tiles(offset, ranges, summaries, consumed) && 0 <= k < |ranges|
    ensures ranges[k].0 <= consumed && (k + 1 < |ranges| ==> ranges[k].0 < ranges[k + 1].0)
    decreases |ranges| - k
  {
    if k + 1 < |ranges| {
      assert ranges[k + 1].0 == ranges[k].1;
      StartsBefore(offset, ranges, summaries, consumed, k + 1);
    }
  }

  /** Giving up the next thing is giving up one more. */
  lemma OneMoreGivenUp(s: Setting, w: Page, k: int)
    requires Whole(s, w) && 0 <= k < AllThings(w)
    ensures Smaller(s, GivenUp(s, w, k)) == GivenUp(s, w, k + 1)
    ensures Things(GivenUp(s, w, k).r) == AllThings(w) - k
  {
    var later := k - if w.r.relationships then 1 else 0;
    ThingsLeft(s, w, k) by { hide Tiles, Smaller; }
    if later < w.r.warnings {
      NextMetadata(s, w, k) by { hide Tiles; }
    } else if later - w.r.warnings < |w.r.summaries| {
      NextSummary(s, w, k) by { hide Tiles; }
    } else {
      NextEvidence(s, w, k) by { hide Tiles; }
    }
    hide *;
  }

  lemma ThingsLeft(s: Setting, w: Page, k: int)
    requires |w.ranges| == |w.r.summaries| && 0 <= k < AllThings(w)
    ensures Things(GivenUp(s, w, k).r) == AllThings(w) - k
  {
  }

  lemma NextMetadata(s: Setting, w: Page, k: int)
    requires Whole(s, w) && 0 <= k && k - (if w.r.relationships then 1 else 0) < w.r.warnings
    ensures Smaller(s, GivenUp(s, w, k)) == GivenUp(s, w, k + 1)
  {
    hide Tiles;
  }

  lemma NextSummary(s: Setting, w: Page, k: int)
    requires Whole(s, w) && 0 <= k
    requires 0 <= k - (if w.r.relationships then 1 else 0) - w.r.warnings < |w.r.summaries|
    ensures Smaller(s, GivenUp(s, w, k)) == GivenUp(s, w, k + 1)
  {
    var n := |w.r.summaries| - (k - (if w.r.relationships then 1 else 0) - w.r.warnings);
    if s.route.Machine? {
      StartsBefore(s.offset, w.ranges, w.r.summaries, w.consumed, n - 1);
    }
    hide Tiles;
    assert w.r.summaries[..n][..n - 1] == w.r.summaries[..n - 1];
    assert w.ranges[..n][..n - 1] == w.ranges[..n - 1];
  }

  lemma NextEvidence(s: Setting, w: Page, k: int)
    requires Whole(s, w) && 0 <= k
    requires 0 <= k - (if w.r.relationships then 1 else 0) - w.r.warnings - |w.r.summaries| < |w.r.evidence|
    ensures Smaller(s, GivenUp(s, w, k)) == GivenUp(s, w, k + 1)
  {
    var n := |w.r.evidence| - (k - (if w.r.relationships then 1 else 0) - w.r.warnings - |w.r.summaries|);
    hide Tiles;
    assert w.r.evidence[..n][..n - 1] == w.r.evidence[..n - 1];
  }

  lemma {:induction false} FittingGivesUp(s: Setting, w: Page, k: int) returns (n: int)
    requires Whole(s, w) && 0 <= k <= AllThings(w)
    requires forall j :: 0 <= j < k ==> s.encoded(GivenUp(s, w, j).r) > s.budget
    ensures JustFits(s, w, n) && Fitting(s, GivenUp(s, w, k)) == GivenUp(s, w, n)
    decreases AllThings(w) - k
  {
    assert |w.ranges| == |w.r.summaries|;
    hide Smaller, Whole, GivenUp;
    var p := GivenUp(s, w, k);
    if k == AllThings(w) {
      EverythingGivenUp(s, w);
      n := k;
    } else {
      OneMoreGivenUp(s, w, k);
      if s.encoded(p.r) <= s.budget {
        n := k;
      } else {
        n := FittingGivesUp(s, w, k + 1);
      }
    }
  }

  lemma EverythingGivenUp(s: Setting, w: Page)
    requires |w.ranges| == |w.r.summaries|
    ensures Things(GivenUp(s, w, AllThings(w)).r) == 0
  {
  }

  /** What a page gathers before it is trimmed. */
  ghost predicate Gathered(s: Setting, warnings: nat, p: Page) {
    && p.r == Progress(s, Response(p.r.evidence, p.r.summaries, warnings, true, None), p.consumed)
    && s.offset <= p.consumed <= s.total && |p.ranges| == |p.r.summaries|
    && (if s.route.Machine? then Tiles(s.offset, p.ranges, p.r.summaries, p.consumed)
        && Analyzed(s, p.ranges, p.r.summaries) && Shows(s, p.ranges, p.r.summaries, p.r.evidence)
        && LeftRoom(s, Response([], [], warnings, true, None), p.ranges, p.r.summaries)
        else p.r.summaries == [] && Lists(p.r.evidence, s.offset, p.consumed)
             && Packed(s, Response([], [], warnings, true, None), p.r.evidence, p.consumed))
  }

  /** What every trimming step keeps: the cursor is where the page ends, and what the page
      shows still covers the selection from the offset to there. */
  ghost predicate Tidy(s: Setting, r: Response, consumed: int, ranges: seq<(int, int)>) {
    && s.offset <= consumed <= s.total && |ranges| == |r.summaries|
    && r.cursor == (if consumed < s.total then Some(consumed) else None)
    && (if s.route.Machine? then Tiles(s.offset, ranges, r.summaries, consumed)
        else r.summaries == [] && Lists(r.evidence, s.offset, consumed))
  }

  lemma Trimmable(s: Setting, p: Page)
    requires exists warnings: nat :: Gathered(s, warnings, p)
    ensures Tidy(s, p.r, p.consumed, p.ranges)
  {
  }

  lemma SummaryGivenUp(s: Setting, r: Response, consumed: int, ranges: seq<(int, int)>)
    requires Tidy(s, r, consumed, ranges) && r.summaries != []
    ensures var start := ranges[|ranges| - 1].0;
      var back := if start < consumed then start else consumed;
      Tidy(s, Progress(s, r.(summaries := r.summaries[..|r.summaries| - 1]), back), back, ranges[..|ranges| - 1])
  {
    TilesBack(s.offset, ranges, r.summaries, consumed);
    var start := ranges[|ranges| - 1].0;
    TilesFrom(s.offset, ranges[..|ranges| - 1], r.summaries[..|r.summaries| - 1],
      if start < consumed then start else consumed);
  }

  lemma EvidenceGivenUp(s: Setting, r: Response, consumed: int, ranges: seq<(int, int)>)
    requires Tidy(s, r, consumed, ranges) && r.evidence != []
    ensures var back := if s.route.Machine? then consumed else consumed - 1;
      Tidy(s, Progress(s, r.(evidence := r.evidence[..|r.evidence| - 1]), back), back, ranges)
  {
  }

  lemma TidyMeans(s: Setting, r: Response, consumed: int, ranges: seq<(int, int)>)
    requires Tidy(s, r, consumed, ranges)
    ensures s.offset <= consumed <= s.total
    ensures r.cursor == if consumed < s.total then Some(consumed) else None
    ensures !s.route.Machine? ==> r.summaries == [] && Lists(r.evidence, s.offset, consumed)
    ensures s.route.Machine? ==> Tiles(s.offset, ranges, r.summaries, consumed)
    ensures r.summaries == [] && r.evidence == [] ==> consumed == s.offset
  {
  }

  lemma FittingOnce(s: Setting, p: Page)
    requires |p.ranges| == |p.r.summaries| && s.encoded(p.r) > s.budget && Things(p.r) > 0
    ensures Fitting(s, p) == Fitting(s, Smaller(s, p))
  {
    hide Smaller, Things;
  }

  lemma GiveUpRelationships(s: Setting, r: Response, consumed: int, ranges: seq<(int, int)>)
    requires |ranges| == |r.summaries| && s.encoded(r) > s.budget
    ensures Fitting(s, Page(r, consumed, ranges)) == Fitting(s, Page(r.(relationships := false), consumed, ranges))
  {
    hide Fitting;
    if r.relationships {
      FittingOnce(s, Page(r, consumed, ranges));
    } else {
      assert r.(relationships := false) == r;
    }
  }

  lemma GiveUpWarning(s: Setting, r: Response, consumed: int, ranges: seq<(int, int)>)
    requires |ranges| == |r.summaries| && s.encoded(r) > s.budget && !r.relationships && r.warnings > 0
    ensures Fitting(s, Page(r, consumed, ranges)) == Fitting(s, Page(r.(warnings := r.warnings - 1), consumed, ranges))
  {
    hide Fitting;
    assert Things(r) > 0;
    hide Things;
    FittingOnce(s, Page(r, consumed, ranges));
  }

  lemma GiveUpSummary(s: Setting, r: Response, consumed: int, ranges: seq<(int, int)>)
    requires |ranges| == |r.summaries| && s.encoded(r) > s.budget && !r.relationships && r.warnings == 0
    requires r.summaries != []
    ensures var start := ranges[|ranges| - 1].0;
      var back := if start < consumed then start else consumed;
      Fitting(s, Page(r, consumed, ranges)) ==
        Fitting(s, Page(Progress(s, r.(summaries := r.summaries[..|r.summaries| - 1]), back), back,
          ranges[..|ranges| - 1]))
  {
    hide Fitting;
    assert Things(r) > 0;
    hide Things;
    FittingOnce(s, Page(r, consumed, ranges));
  }

  lemma GiveUpEvidence(s: Setting, r: Response, consumed: int, ranges: seq<(int, int)>)
    requires |ranges| == |r.summaries| && s.encoded(r) > s.budget && !r.relationships && r.warnings == 0
    requires r.summaries == []
    requires r.evidence != []
    ensures var back := if s.route.Machine? then consumed else consumed - 1;
      Fitting(s, Page(r, consumed, ranges)) ==
        Fitting(s, Page(Progress(s, r.(evidence := r.evidence[..|r.evidence| - 1]), back), back, ranges))
  {
    hide Fitting;
    assert Things(r) > 0;
    hide Things;
    FittingOnce(s, Page(r, consumed, ranges));
  }

  lemma Fits(s: Setting, r: Response, consumed: int, ranges: seq<(int, int)>)
    requires |ranges| == |r.summaries|
    requires s.encoded(r) <= s.budget || (!r.relationships && r.warnings == 0 && r.summaries == [] && r.evidence == [])
    ensures Fitting(s, Page(r, consumed, ranges)) == Page(r, consumed, ranges)
  {
  }

  lemma TidySizes(s: Setting, r: Response, consumed: int, ranges: seq<(int, int)>)
    requires Tidy(s, r, consumed, ranges)
    ensures |ranges| == |r.summaries|
  {
  }

  lemma TidyAside(s: Setting, r: Response, consumed: int, ranges: seq<(int, int)>, relationships: bool, warnings: nat)
    requires Tidy(s, r, consumed, ranges)
    ensures Tidy(s, r.(relationships := relationships, warnings := warnings), consumed, ranges)
  {
  }

  /** The untrimmed page of either route. */
  method Gather(s: Setting, warnings: nat) returns (r: Response, consumed: int, ranges: seq<(int, int)>)
    requires Sane(s)
    ensures Gathered(s, warnings, Page(r, consumed, ranges))
  {
    hide Analyzed, Tiles, Lists, Packed, Shows, LeftRoom;
    r := Response([], [], warnings, true, None);
    if s.route.Machine? {
      r, consumed, ranges := Summarize(s, r);
      TilesSizes(s.offset, ranges, r.summaries, consumed);
    } else {
      r, consumed := Pack(s, r);
      ranges := [];
    }
    r := Progress(s, r, consumed);
  }

  lemma TilesSizes(offset: int, ranges: seq<(int, int)>, summaries: seq<bool>, consumed: int)
    requires Tiles(offset, ranges, summaries, consumed)
    ensures |ranges| == |summaries|
  {
  }

  /** The page that was gathered, with just as much given up as makes it fit. */
  ghost predicate TrimmedFrom(s: Setting, warnings: nat, whole: Page, k: int, p: Page) {
    && |whole.ranges| == |whole.r.summaries| && Gathered(s, warnings, whole)
    && JustFits(s, whole, k) && p == GivenUp(s, whole, k)
  }

  lemma TrimmedAtOnce(s: Setting, warnings: nat, w: Page) returns (k: int)
    requires Gathered(s, warnings, w)
    ensures |w.ranges| == |w.r.summaries| && JustFits(s, w, k) && Fitting(s, w) == GivenUp(s, w, k)
  {
    assert Whole(s, w) by { hide Analyzed, Shows, LeftRoom, Packed, Lists, Tiles; }
    hide Gathered, Whole, Fitting, JustFits, GivenUp;
    assert |w.ranges| == |w.r.summaries| by { WholeSizes(s, w); }
    NothingGivenUp(s, w);
    k := FittingGivesUp(s, w, 0);
  }

  lemma WholeSizes(s: Setting, w: Page)
    requires Whole(s, w)
    ensures |w.ranges| == |w.r.summaries|
  {
    hide Tiles;
  }

  /** One page: pack or summarize, then trim metadata, warnings, summaries and evidence, in
      that order and only until the page fits, giving back what is trimmed. */
  method Context(s: Setting, warnings: nat) returns (r: Response, consumed: int, ranges: seq<(int, int)>)
    requires Sane(s)
    ensures exists whole, k :: TrimmedFrom(s, warnings, whole, k, Page(r, consumed, ranges))
    ensures s.offset <= consumed <= s.total
    ensures r.cursor == if consumed < s.total then Some(consumed) else None
    ensures !s.route.Machine? ==> r.summaries == [] && Lists(r.evidence, s.offset, consumed)
    ensures s.route.Machine? ==> Tiles(s.offset, ranges, r.summaries, consumed)
    ensures s.encoded(r) > s.budget ==>
      r.evidence == [] && r.summaries == [] && r.warnings == 0 && !r.relationships && consumed == s.offset
  {
    hide Gathered, Tidy, Fitting, Smaller, GivenUp, JustFits;
    r, consumed, ranges := Gather(s, warnings);
    ghost var whole := Page(r, consumed, ranges);
    ghost var given := TrimmedAtOnce(s, warnings, whole);
    Trimmable(s, Page(r, consumed, ranges));
    TidySizes(s, r, consumed, ranges);
    if s.encoded(r) > s.budget {
      TidyAside(s, r, consumed, ranges, false, r.warnings);
      GiveUpRelationships(s, r, consumed, ranges);
      r := r.(relationships := false);
    }
    while s.encoded(r) > s.budget && r.warnings > 0
      invariant Tidy(s, r, consumed, ranges) && |ranges| == |r.summaries|
      invariant Fitting(s, Page(r, consumed, ranges)) == Fitting(s, whole)
      invariant s.encoded(r) > s.budget ==> !r.relationships
      decreases r.warnings
    {
      TidyAside(s, r, consumed, ranges, r.relationships, r.warnings - 1);
      GiveUpWarning(s, r, consumed, ranges);
      r := r.(warnings := r.warnings - 1);
    }
    while s.encoded(r) > s.budget && r.summaries != []
      invariant Tidy(s, r, consumed, ranges) && |ranges| == |r.summaries|
      invariant Fitting(s, Page(r, consumed, ranges)) == Fitting(s, whole)
      invariant s.encoded(r) > s.budget ==> !r.relationships && r.warnings == 0
      decreases |r.summaries|
    {
      SummaryGivenUp(s, r, consumed, ranges);
      GiveUpSummary(s, r, consumed, ranges);
      var start := ranges[|ranges| - 1].0;
      consumed := if start < consumed then start else consumed;
      r := Progress(s, r.(summaries := r.summaries[..|r.summaries| - 1]), consumed);
      ranges := ranges[..|ranges| - 1];
    }
    while s.encoded(r) > s.budget && r.evidence != []
      invariant Tidy(s, r, consumed, ranges) && |ranges| == |r.summaries|
      invariant Fitting(s, Page(r, consumed, ranges)) == Fitting(s, whole)
      invariant s.encoded(r) > s.budget ==> !r.relationships && r.warnings == 0 && r.summaries == []
      decreases |r.evidence|
    {
      EvidenceGivenUp(s, r, consumed, ranges);
      GiveUpEvidence(s, r, consumed, ranges);
      if !s.route.Machine? {
        consumed := consumed - 1;
      }
      r := Progress(s, r.(evidence := r.evidence[..|r.evidence| - 1]), consumed);
    }
    Fits(s, r, consumed, ranges);
    assert TrimmedFrom(s, warnings, whole, given, Page(r, consumed, ranges));
    hide TrimmedFrom;
    TidyMeans(s, r, consumed, ranges);
  }

  // ----- following the cursor ------------------------------------------------------

  /** Pages that each begin where the previous one ended, from the start up to `upto`. */
  ghost predicate Chained(upto: int, pages: seq<(int, int)>) {
    && (if pages == [] then upto == 0 else pages[0].0 == 0 && pages[|pages| - 1].1 == upto)
    && (forall k :: 0 <= k < |pages| ==> pages[k].0 <= pages[k].1)
    && (forall j, k :: 0 <= j && k == j + 1 && k < |pages| ==> pages[k].0 == pages[j].1)
  }

  ghost function Together(evidence: seq<seq<Item>>): seq<Item> {
    if evidence == [] then [] else Together(evidence[..|evidence| - 1]) + evidence[|evidence| - 1]
  }

  lemma ChainedPrefix(upto: int, pages: seq<(int, int)>)
    requires Chained(upto, pages) && pages != []
    ensures Chained(pages[|pages| - 1].0, pages[..|pages| - 1]) && 0 <= pages[|pages| - 1].0 <= upto
    decreases |pages|
  {
    var init := pages[..|pages| - 1];
    if init != [] {
      assert pages[|pages| - 1].0 == init[|init| - 1].1;
      ChainedPrefix(pages[|pages| - 1].0, init);
    }
  }

  /** Following cursors shows every selected section up to the last cursor exactly once, in
      order. */
  lemma {:induction false} ChainedPagesAreTheSelection(upto: int, pages: seq<(int, int)>, evidence: seq<seq<Item>>)
    requires Chained(upto, pages) && |evidence| == |pages|
    requires forall i :: 0 <= i < |pages| ==> Lists(evidence[i], pages[i].0, pages[i].1)
    ensures Lists(Together(evidence), 0, upto)
    decreases |pages|
  {
    if pages != [] {
      var n := |pages| - 1;
      ChainedPrefix(upto, pages);
      assert forall i :: 0 <= i < n ==> evidence[..n][i] == evidence[i] && pages[..n][i] == pages[i];
      ChainedPagesAreTheSelection(pages[n].0, pages[..n], evidence[..n]);
    }
  }

  /** A page's ranges without a failed last one. */
  function Successful(ranges: seq<(int, int)>, summaries: seq<bool>): seq<(int, int)>
    requires |ranges| == |summaries|
  {
    if ranges != [] && !summaries[|summaries| - 1] then ranges[..|ranges| - 1] else ranges
  }

  /** Non-empty ranges that follow each other from `from` to `to`. */
  ghost predicate Covers(ranges: seq<(int, int)>, from: int, to: int) {
    && (if ranges == [] then from == to else ranges[0].0 == from && ranges[|ranges| - 1].1 == to)
    && (forall k :: 0 <= k < |ranges| ==> ranges[k].0 < ranges[k].1)
    && (forall j, k :: 0 <= j && k == j + 1 && k < |ranges| ==> ranges[k].0 == ranges[j].1)
  }

  lemma TilesCover(offset: int, ranges: seq<(int, int)>, summaries: seq<bool>, consumed: int)
    requires Tiles(offset, ranges, summaries, consumed)
    ensures |ranges| == |summaries| && Covers(Successful(ranges, summaries), offset, consumed)
  {
    var n := |ranges| - 1;
    if n > 0 && !summaries[n] {
      assert ranges[n].0 == ranges[n - 1].1 && ranges[..n][n - 1] == ranges[n - 1];
    }
  }

  lemma CoversTogether(a: seq<(int, int)>, b: seq<(int, int)>, from: int, middle: int, to: int)
    requires Covers(a, from, middle) && Covers(b, middle, to)
    ensures Covers(a + b, from, to)
  {
    var c := a + b;
    if a != [] && b != [] {
      assert c[0] == a[0] && c[|c| - 1] == b[|b| - 1];
    } else {
      assert a == [] ==> c == b;
      assert b == [] ==> c == a;
    }
    forall j, k | 0 <= j && k == j + 1 && k < |c|
      ensures c[k].0 == c[j].1
    {
      if k < |a| {
        assert a[k].0 == a[j].1;
      } else if j >= |a| {
        assert b[k - |a|].0 == b[j - |a|].1;
      }
    }
  }

  /** What stays the same while a reader follows cursors: the selection and its route. Budget,
      encoders, backend and warnings may be different for every page. */
  ghost predicate SameSelection(settings: seq<Setting>, total: int, route: Route) {
    forall k :: 0 <= k < |settings| ==>
      settings[k].total == total && settings[k].route == route && 2048 <= settings[k].budget <= 65536
  }

  /** The pages read so far. */
  ghost predicate ReadSoFar(route: Route, pages: seq<(int, int)>, evidence: seq<seq<Item>>, ranges: seq<(int, int)>,
                            upto: int) {
    && |evidence| == |pages| && Chained(upto, pages)
    && (if route.Machine? then Covers(ranges, 0, upto)
        else forall i :: 0 <= i < |pages| ==> Lists(evidence[i], pages[i].0, pages[i].1))
  }

  lemma ReadNext(route: Route, pages: seq<(int, int)>, evidence: seq<seq<Item>>, ranges: seq<(int, int)>, upto: int,
                 page: seq<Item>, more: seq<(int, int)>, to: int)
    requires ReadSoFar(route, pages, evidence, ranges, upto) && upto <= to
    requires if route.Machine? then Covers(more, upto, to) else Lists(page, upto, to)
    ensures ReadSoFar(route, pages + [(upto, to)], evidence + [page], ranges + more, to)
  {
    hide Covers, Lists;
    var longer := pages + [(upto, to)];
    assert Chained(to, longer) by {
      forall j, k | 0 <= j && k == j + 1 && k < |longer|
        ensures longer[k].0 == longer[j].1
      {
        if k < |pages| {
          assert pages[k].0 == pages[j].1;
        }
      }
    }
    if route.Machine? {
      CoversTogether(ranges, more, 0, upto, to);
    }
  }

  lemma NothingRead(route: Route)
    ensures ReadSoFar(route, [], [], [], 0)
  {
  }

  /** Read page after page, each from the previous one's cursor, until there is no cursor or
      the reader stops. The pages' evidence put together is the selection up to the last
      cursor, each section once and in order; on the machine route the successful ranges of
      all pages follow each other up to there; and without a cursor that is everything. */
  method FollowPages(total: int, route: Route, settings: seq<Setting>, warnings: seq<nat>)
    returns (pages: seq<(int, int)>, evidence: seq<seq<Item>>, ranges: seq<(int, int)>, cursor: Option<int>)
    requires 0 <= total && SameSelection(settings, total, route) && |warnings| == |settings|
    ensures |pages| <= |settings| && (cursor.Some? ==> |pages| == |settings|)
    ensures var upto := if cursor.Some? then cursor.value else total;
      && 0 <= upto <= total && (cursor.Some? && pages != [] ==> upto < total)
      && ReadSoFar(route, pages, evidence, ranges, upto)
      && (if route.Machine? then Covers(ranges, 0, upto) else Lists(Together(evidence), 0, upto))
  {
    hide Tiles, Lists, Covers, ReadSoFar, Gathered, Fitting, Together;
    pages, evidence, ranges, cursor := [], [], [], Some(0);
    NothingRead(route);
    for k := 0 to |settings|
      invariant cursor.Some? && 0 <= cursor.value <= total && |pages| == k && (k > 0 ==> cursor.value < total)
      invariant ReadSoFar(route, pages, evidence, ranges, cursor.value)
    {
      var s := settings[k].(offset := cursor.value);
      var r, consumed, found := Context(s, warnings[k]);
      if route.Machine? {
        TilesCover(s.offset, found, r.summaries, consumed);
        ReadNext(route, pages, evidence, ranges, s.offset, r.evidence, Successful(found, r.summaries), consumed);
        ranges := ranges + Successful(found, r.summaries);
      } else {
        ReadNext(route, pages, evidence, ranges, s.offset, r.evidence, [], consumed);
        assert ranges + [] == ranges;
      }
      pages, evidence, cursor := pages + [(s.offset, consumed)], evidence + [r.evidence], r.cursor;
      if cursor.None? {
        ReadMeans(route, pages, evidence, ranges, total);
        return;
      }
    }
    ReadMeans(route, pages, evidence, ranges, cursor.value);
  }

  lemma ReadMeans(route: Route, pages: seq<(int, int)>, evidence: seq<seq<Item>>, ranges: seq<(int, int)>, upto: int)
    requires ReadSoFar(route, pages, evidence, ranges, upto)
    ensures if route.Machine? then Covers(ranges, 0, upto) else Lists(Together(evidence), 0, upto)
  {
    hide Covers, Lists, Together;
    if !route.Machine? {
      ChainedPagesAreTheSelection(upto, pages, evidence);
    }
  }
}
