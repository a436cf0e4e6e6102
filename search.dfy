/** The pairwise neighbour search both managers run, as a value: which pairs a search
    links, and what each boid's neighbour list holds part way through and after a pass
    over all pairs `i < j` in row order. */
module NeighbourSearch {
  import opened Agents

  /** Every neighbour index names a boid of the flock. */
  predicate IndicesIn(f: seq<AgentState>)
  {
    forall k, t :: 0 <= k < |f| && 0 <= t < |f[k].neighbours| ==> f[k].neighbours[t] < |f|
  }

  /** Which pairs `i < j` a search links. */
  type Links = (nat, nat) -> bool

  /** Whether boids `k` and `m` are linked, whichever of the two comes first. */
  function Linked(links: Links, k: nat, m: nat): bool
  {
    if m < k then links(m, k) else links(k, m)
  }

  /** The boids below `hi`, other than `k`, linked with `k`, in ascending order: what a
      search over all pairs in row order appends to boid `k`'s list. */
  function Found(links: Links, k: nat, hi: nat): seq<nat>
  {
    if hi == 0 then []
    else Found(links, k, hi - 1) + (if hi - 1 != k && Linked(links, k, hi - 1) then [hi - 1] else [])
  }

  /** `Found` holds exactly the partners of `k` below the bound, each once, ascending. */
  lemma {:induction false} FoundSpec(links: Links, k: nat, hi: nat)
    ensures var r := Found(links, k, hi);
      (forall m: nat :: m in r <==> m < hi && m != k && Linked(links, k, m)) &&
      (forall s :: 0 <= s < |r| ==> r[s] < hi) &&
      (forall s, t :: 0 <= s < t < |r| ==> r[s] < r[t])
  {
    if hi > 0 {
      FoundSpec(links, k, hi - 1);
    }
  }

  /** The flock after a full search: each boid's list extended by what the search finds. */
  function Search(f: seq<AgentState>, links: Links): seq<AgentState>
  {
    seq(|f|, k requires 0 <= k < |f| => f[k].(neighbours := f[k].neighbours + Found(links, k, |f|)))
  }

  /** How far the search has got for boid `k` once it has handled every pair of the rows
      before `i` and the pairs `(i, i + 1) .. (i, j - 1)` of row `i`: the bound below
      which `k`'s partners have been appended. */
  function Progress(n: nat, i: nat, j: nat, k: nat): nat
  {
    if k < i then n else if k == i then j else if k < j then i + 1 else i
  }

  /** Boid `k` part way through the search. */
  function SearchedBoid(f: seq<AgentState>, links: Links, i: nat, j: nat, k: nat): AgentState
    requires k < |f|
  {
    f[k].(neighbours := f[k].neighbours + Found(links, k, Progress(|f|, i, j, k)))
  }

  /** The search starts with nothing appended. */
  lemma SearchStart(f: seq<AgentState>, links: Links, k: nat)
    requires k < |f|
    ensures SearchedBoid(f, links, 0, 1, k) == f[k]
  {
    if k == 0 {
      assert Found(links, 0, 1) == Found(links, 0, 0);
    }
  }

  /** At the end of a row, the search stands where the next row starts: boid `i + 1` has
      all its partners below `i + 1`, and the bound may step over the boid itself. */
  lemma RowDone(f: seq<AgentState>, links: Links, i: nat, k: nat)
    requires i < |f| && k < |f|
    ensures SearchedBoid(f, links, i, |f|, k) == SearchedBoid(f, links, i + 1, i + 2, k)
  {
    if k == i + 1 {
      assert Found(links, k, i + 2) == Found(links, k, i + 1);
    }
  }

  /** After the last row the search is complete. */
  lemma SearchEnd(f: seq<AgentState>, links: Links, k: nat)
    requires k < |f|
    ensures SearchedBoid(f, links, |f|, |f| + 1, k) == Search(f, links)[k]
  {
  }

  /** Whether the pair `(a, b)` comes at or after the pair `(i, j)` in row order. */
  predicate AtOrAfter(i: nat, j: nat, a: nat, b: nat)
  {
    i < a || (i == a && j <= b)
  }

  /** Raising the bound over boids not linked with `k` finds nothing more. */
  lemma {:induction false} FoundStable(links: Links, k: nat, lo: nat, hi: nat)
    requires lo <= hi
    requires forall m: nat :: lo <= m < hi && m != k ==> !Linked(links, k, m)
    ensures Found(links, k, hi) == Found(links, k, lo)
    decreases hi
  {
    if lo < hi {
      FoundStable(links, k, lo, hi - 1);
      assert !(hi - 1 != k && Linked(links, k, hi - 1));
    }
  }

  /** A search that stops at the pair `(i, j)` leaves the flock complete when no pair from
      there on is linked. */
  lemma NothingLeft(f: seq<AgentState>, links: Links, i: nat, j: nat, k: nat)
    requires i < j <= |f| && k < |f|
    requires forall a: nat, b: nat :: a < b < |f| && AtOrAfter(i, j, a, b) ==> !links(a, b)
    ensures SearchedBoid(f, links, i, j, k) == Search(f, links)[k]
  {
    var lo := Progress(|f|, i, j, k);
    forall m: nat | lo <= m < |f| && m != k
      ensures !Linked(links, k, m)
    {
      if m < k {
        assert AtOrAfter(i, j, m, k);
      } else {
        assert AtOrAfter(i, j, k, m);
      }
    }
    FoundStable(links, k, lo, |f|);
  }

  /** Handling the linked pair `(i, j)` appends `j` to boid `i`'s list. */
  lemma PairStepRow(f: seq<AgentState>, links: Links, i: nat, j: nat)
    requires i < j < |f|
    ensures SearchedBoid(f, links, i, j + 1, i).neighbours ==
      SearchedBoid(f, links, i, j, i).neighbours + (if links(i, j) then [j] else [])
  {
    var a, found := f[i].neighbours, Found(links, i, j);
    assert Found(links, i, j + 1) == found + (if links(i, j) then [j] else []);
    assert a + (found + (if links(i, j) then [j] else [])) == (a + found) + (if links(i, j) then [j] else []);
  }

  /** Handling the linked pair `(i, j)` appends `i` to boid `j`'s list. */
  lemma PairStepColumn(f: seq<AgentState>, links: Links, i: nat, j: nat)
    requires i < j < |f|
    ensures SearchedBoid(f, links, i, j + 1, j).neighbours ==
      SearchedBoid(f, links, i, j, j).neighbours + (if links(i, j) then [i] else [])
  {
    var a, found := f[j].neighbours, Found(links, j, i);
    assert Found(links, j, i + 1) == found + (if links(i, j) then [i] else []);
    assert a + (found + (if links(i, j) then [i] else [])) == (a + found) + (if links(i, j) then [i] else []);
  }

  /** Handling the pair `(i, j)` leaves every other boid where it was. */
  lemma PairStepOther(f: seq<AgentState>, links: Links, i: nat, j: nat, k: nat)
    requires i < j < |f| && k < |f| && k != i && k != j
    ensures SearchedBoid(f, links, i, j + 1, k) == SearchedBoid(f, links, i, j, k)
  {
  }

  /** A search that starts from empty lists links exactly the pairs the relation links, in
      both directions, never a boid with itself, and never a pair twice. */
  lemma SearchRelation(f: seq<AgentState>, links: Links, i: nat, j: nat)
    requires forall k :: 0 <= k < |f| ==> f[k].neighbours == []
    requires i < |f| && j < |f|
    ensures var r := Search(f, links);
      (j in r[i].neighbours <==> i in r[j].neighbours) &&
      (j in r[i].neighbours <==> i != j && Linked(links, i, j)) &&
      i !in r[i].neighbours &&
      forall s, t :: 0 <= s < t < |r[i].neighbours| ==> r[i].neighbours[s] != r[i].neighbours[t]
  {
    var r := Search(f, links);
    FoundSpec(links, i, |f|);
    FoundSpec(links, j, |f|);
    assert r[i].neighbours == Found(links, i, |f|);
    assert r[j].neighbours == Found(links, j, |f|);
  }

  /** The search keeps every neighbour index inside the flock. */
  lemma SearchIndicesIn(f: seq<AgentState>, links: Links)
    requires IndicesIn(f)
    ensures IndicesIn(Search(f, links)) && |Search(f, links)| == |f|
  {
    var r := Search(f, links);
    forall k, t | 0 <= k < |r| && 0 <= t < |r[k].neighbours|
      ensures r[k].neighbours[t] < |r|
    {
      var old_ := f[k].neighbours;
      if t >= |old_| {
        FoundSpec(links, k, |f|);
        assert r[k].neighbours[t] in Found(links, k, |f|);
      }
    }
  }

  // ------------------------------------------------------------ the whole flock

  /** The whole flock part way through the search. */
  function SearchedFlock(f: seq<AgentState>, links: Links, i: nat, j: nat): (g: seq<AgentState>)
    ensures |g| == |f|
  {
    seq(|f|, k requires 0 <= k < |f| => SearchedBoid(f, links, i, j, k))
  }

  /** Before the first pair the flock is untouched. */
  lemma SearchedFlockStart(f: seq<AgentState>, links: Links)
    ensures SearchedFlock(f, links, 0, 1) == f
  {
    forall k | 0 <= k < |f|
      ensures SearchedFlock(f, links, 0, 1)[k] == f[k]
    {
      SearchStart(f, links, k);
    }
  }

  /** The end of row `i` is the start of row `i + 1`. */
  lemma SearchedFlockRow(f: seq<AgentState>, links: Links, i: nat)
    requires i < |f|
    ensures SearchedFlock(f, links, i, |f|) == SearchedFlock(f, links, i + 1, i + 2)
  {
    forall k | 0 <= k < |f|
      ensures SearchedFlock(f, links, i, |f|)[k] == SearchedFlock(f, links, i + 1, i + 2)[k]
    {
      RowDone(f, links, i, k);
    }
  }

  /** After the last row the flock is the full search. */
  lemma SearchedFlockEnd(f: seq<AgentState>, links: Links)
    ensures SearchedFlock(f, links, |f|, |f| + 1) == Search(f, links)
  {
    forall k | 0 <= k < |f|
      ensures SearchedFlock(f, links, |f|, |f| + 1)[k] == Search(f, links)[k]
    {
      SearchEnd(f, links, k);
    }
  }

  /** A search stopped at `(i, j)` is complete when no pair from there on is linked. */
  lemma SearchedFlockStop(f: seq<AgentState>, links: Links, i: nat, j: nat)
    requires i < j <= |f|
    requires forall a: nat, b: nat :: a < b < |f| && AtOrAfter(i, j, a, b) ==> !links(a, b)
    ensures SearchedFlock(f, links, i, j) == Search(f, links)
  {
    forall k | 0 <= k < |f|
      ensures SearchedFlock(f, links, i, j)[k] == Search(f, links)[k]
    {
      NothingLeft(f, links, i, j, k);
    }
  }

  /** The flock after handling pair `(i, j)`: when the pair is linked, boid `i`'s list
      gains `j` and boid `j`'s gains `i`; otherwise nothing changes. */
  function LinkedPair(g: seq<AgentState>, i: nat, j: nat, linked: bool): seq<AgentState>
    requires i < |g| && j < |g|
  {
    if linked then
      g[i := g[i].(neighbours := g[i].neighbours + [j])][j := g[j].(neighbours := g[j].neighbours + [i])]
    else g
  }

  /** Handling pair `(i, j)` moves the search one pair on. */
  lemma SearchedFlockPair(f: seq<AgentState>, links: Links, i: nat, j: nat)
    requires i < j < |f|
    ensures SearchedFlock(f, links, i, j + 1) == LinkedPair(SearchedFlock(f, links, i, j), i, j, links(i, j))
  {
    var g, h := SearchedFlock(f, links, i, j), SearchedFlock(f, links, i, j + 1);
    var r := LinkedPair(g, i, j, links(i, j));
    forall k | 0 <= k < |f|
      ensures h[k] == r[k]
    {
      if k == i {
        PairStepRow(f, links, i, j);
      } else if k == j {
        PairStepColumn(f, links, i, j);
      } else {
        PairStepOther(f, links, i, j, k);
      }
    }
  }
}
