/**
 Cycle detection over the static dependsOn graph: a three-colour depth-first
 search whose path is the set of gray nodes.
 */
module DependsOn {
  import opened Base

  datatype DepNode = DepNode(slug: string, deps: seq<string>)

  type Graph = map<string, seq<string>>

  /** The graph a configuration declares; a later node of the same slug wins. */
  function GraphOf(nodes: seq<DepNode>): Graph {
    if nodes == [] then map[]
    else GraphOf(nodes[..|nodes| - 1])[nodes[|nodes| - 1].slug := nodes[|nodes| - 1].deps]
  }

  /** a depends on b, and b is a declared monitor. */
  predicate Edge(g: Graph, a: string, b: string) {
    a in g && b in g[a] && b in g
  }

  predicate EdgeAt(g: Graph, w: seq<string>, i: nat)
    requires i + 1 < |w|
  {
    Edge(g, w[i], w[i + 1])
  }

  ghost predicate Walk(g: Graph, w: seq<string>) {
    forall i: nat :: i + 1 < |w| ==> EdgeAt(g, w, i)
  }

  ghost predicate ClosedWalk(g: Graph, w: seq<string>) {
    |w| >= 2 && w[0] == w[|w| - 1] && Walk(g, w)
  }

  ghost predicate Cyclic(g: Graph) {
    exists w :: ClosedWalk(g, w)
  }

  /** Everything a listed node depends on was listed before it. */
  ghost predicate Settled(g: Graph, done: seq<string>) {
    && Distinct(done)
    && forall i, b :: 0 <= i < |done| && Edge(g, done[i], b) ==> b in done[..i]
  }

  lemma WalkExtends(g: Graph, w: seq<string>, x: string)
    requires Walk(g, w) && (w != [] ==> Edge(g, w[|w| - 1], x))
    ensures Walk(g, w + [x])
  {
    var v := w + [x];
    forall i: nat | i + 1 < |v| ensures EdgeAt(g, v, i) {
      if i + 1 < |w| { assert EdgeAt(g, w, i); }
    }
  }

  lemma WalkSuffix(g: Graph, w: seq<string>, k: nat)
    requires Walk(g, w) && k <= |w|
    ensures Walk(g, w[k..])
  {
    forall i: nat | i + 1 < |w[k..]| ensures EdgeAt(g, w[k..], i) {
      assert EdgeAt(g, w, k + i);
    }
  }

  lemma WalkPrefix(g: Graph, w: seq<string>, k: nat)
    requires Walk(g, w) && k <= |w|
    ensures Walk(g, w[..k])
  {
    forall i: nat | i + 1 < |w[..k]| ensures EdgeAt(g, w[..k], i) {
      assert EdgeAt(g, w, i);
    }
  }

  /** Along a walk that starts in a settled list, positions go down. */
  lemma {:induction false} WalkDescends(g: Graph, done: seq<string>, w: seq<string>, i: nat)
    requires Settled(g, done) && |w| >= 2 && Walk(g, w) && i < |done| && done[i] == w[0]
    ensures w[|w| - 1] in done[..i]
  {
    assert EdgeAt(g, w, 0);
    assert w[1] in done[..i];
    if |w| > 2 {
      var j :| 0 <= j < i && done[..i][j] == w[1];
      WalkSuffix(g, w, 1);
      WalkDescends(g, done, w[1..], j);
      assert done[..j] <= done[..i];
    }
  }

  /** A graph whose nodes all settle has no cycle. */
  lemma SettledIsAcyclic(g: Graph, done: seq<string>)
    requires Settled(g, done) && forall x :: x in g ==> x in done
    ensures !Cyclic(g)
  {
    if w :| ClosedWalk(g, w) {
      assert EdgeAt(g, w, 0);
      var i :| 0 <= i < |done| && done[i] == w[0];
      WalkDescends(g, done, w, i);
      assert false;
    }
  }

  datatype Color = White | Gray | Black

  class Search {
    const parents: Graph
    var color: map<string, Color>
    var path: seq<string>
    ghost var done: seq<string>

    ghost function Whites(): set<string>
      reads this
    {
      set x | x in color && color[x] == White
    }

    /** The path is exactly the gray nodes and a walk of edges; the black nodes are settled. */
    ghost predicate Valid()
      reads this
    {
      && color.Keys == parents.Keys
      && (forall x :: x in path <==> x in color && color[x] == Gray) && Walk(parents, path)
      && (forall x :: x in done <==> x in color && color[x] == Black) && Settled(parents, done)
    }

    constructor (g: Graph)
      ensures Valid() && parents == g && path == [] && forall x :: x in g ==> color[x] == White
    {
      parents, color, path, done := g, map x | x in g :: White, [], [];
    }

    /** Visit every node that is still white, up to the first cycle. */
    method Run(nodes: seq<DepNode>) returns (cycle: seq<string>)
      requires Valid() && path == [] && forall n :: n in nodes ==> n.slug in parents
      modifies this
      ensures cycle != [] ==> ClosedWalk(parents, cycle)
      ensures cycle == [] ==> Valid() && forall n :: n in nodes ==> color[n.slug] == Black
    {
      for i := 0 to |nodes|
        invariant Valid() && path == []
        invariant forall j :: 0 <= j < i ==> nodes[j].slug in color && color[nodes[j].slug] == Black
      {
        assert nodes[i] in nodes && nodes[i].slug !in path;
        if color[nodes[i].slug] == White {
          cycle := Dfs(nodes[i].slug);
          if cycle != [] {
            return;
          }
        }
      }
      cycle := [];
    }

    /** Visit one node; the answer is empty, or a closed walk of dependsOn edges. */
    method Dfs(node: string) returns (cycle: seq<string>)
      requires Valid() && node in color && (path != [] ==> Edge(parents, path[|path| - 1], node))
      modifies this
      decreases |Whites()|, 0
      ensures cycle != [] ==> ClosedWalk(parents, cycle)
      ensures cycle == [] ==> Valid() && color[node] == Black && path == old(path) && Whites() <= old(Whites())
      ensures cycle == [] ==> forall x :: x in old(color) && old(color)[x] == Black ==> color[x] == Black
    {
      match color[node] {
        case Gray =>
          cycle := CloseAt(node);
          return;
        case Black =>
          return [];
        case White =>
      }
      Enter(node);
      cycle := VisitDeps(node);
      if cycle == [] {
        Finish(node);
      }
    }

    /** Visit every known dependency of the node at the end of the path; unknown slugs are skipped. */
    method VisitDeps(node: string) returns (cycle: seq<string>)
      requires Valid() && path != [] && path[|path| - 1] == node
      modifies this
      decreases |Whites()|, 1
      ensures cycle != [] ==> ClosedWalk(parents, cycle)
      ensures cycle == [] ==> Valid() && path == old(path) && Whites() <= old(Whites())
      ensures cycle == [] ==>
                forall j :: 0 <= j < |parents[node]| && parents[node][j] in parents ==> color[parents[node][j]] == Black
      ensures cycle == [] ==> forall x :: x in old(color) && old(color)[x] == Black ==> color[x] == Black
    {
      assert node in path;
      var deps := parents[node];
      var i := 0;
      while i < |deps|
        invariant 0 <= i <= |deps| && Valid() && path == old(path)
        invariant Whites() <= old(Whites())
        invariant forall j :: 0 <= j < i && deps[j] in parents ==> color[deps[j]] == Black
        invariant forall x :: x in old(color) && old(color)[x] == Black ==> color[x] == Black
      {
        if deps[i] in color {
          SubsetSize(Whites(), old(Whites()));
          cycle := Dfs(deps[i]);
          if cycle != [] {
            return;
          }
        }
        i := i + 1;
      }
      cycle := [];
    }

    /** A white node turns gray at the end of the path. */
    method Enter(node: string)
      requires Valid() && node in color && color[node] == White
      requires path != [] ==> Edge(parents, path[|path| - 1], node)
      modifies this
      ensures Valid() && path == old(path) + [node] && color == old(color)[node := Gray] && node !in old(path)
      ensures Whites() == old(Whites()) - {node} && |Whites()| < |old(Whites())|
    {
      WalkExtends(parents, path, node);
      assert node in Whites();
      color := color[node := Gray];
      path := path + [node];
      assert Whites() == old(Whites()) - {node};
      assert old(Whites()) == Whites() + {node};
    }

    /** A back edge: the path from the node's own position, closed by the node. Being gray, it is on the path. */
    method CloseAt(node: string) returns (cycle: seq<string>)
      requires Valid() && node in color && color[node] == Gray && path != [] && Edge(parents, path[|path| - 1], node)
      ensures ClosedWalk(parents, cycle)
    {
      assert node in path;
      var i := 0;
      while path[i] != node
        invariant 0 <= i < |path| && node in path[i..]
        decreases |path| - i
      {
        i := i + 1;
      }
      WalkSuffix(parents, path, i);
      WalkExtends(parents, path[i..], node);
      cycle := path[i..] + [node];
    }

    /** Everything the last node of the path depends on is settled, so it settles too. */
    method Finish(node: string)
      requires Valid() && path != [] && path[|path| - 1] == node && node !in path[..|path| - 1]
      requires forall j :: 0 <= j < |parents[node]| && parents[node][j] in parents ==> color[parents[node][j]] == Black
      modifies this
      ensures Valid() && color == old(color)[node := Black] && path == old(path)[..|old(path)| - 1]
    {
      assert node in path && color[node] == Gray;
      assert path == path[..|path| - 1] + [node];
      WalkPrefix(parents, path, |path| - 1);
      SettlesNext(parents, done, node);
      path := path[..|path| - 1];
      color := color[node := Black];
      done := done + [node];
    }
  }

  lemma SettlesNext(g: Graph, done: seq<string>, x: string)
    requires Settled(g, done) && x !in done && forall b :: Edge(g, x, b) ==> b in done
    ensures Settled(g, done + [x])
  {
    var more := done + [x];
    forall i, b | 0 <= i < |more| && Edge(g, more[i], b) ensures b in more[..i] {
      assert more[..i] == done[..i];
      assert i == |done| ==> done[..i] == done;
    }
  }

  lemma {:induction false} GraphOfKeys(nodes: seq<DepNode>)
    ensures GraphOf(nodes).Keys == set n | n in nodes :: n.slug
  {
    if nodes != [] {
      var k := |nodes| - 1;
      assert nodes == nodes[..k] + [nodes[k]];
      GraphOfKeys(nodes[..k]);
    }
  }

  method BuildGraph(nodes: seq<DepNode>) returns (parents: Graph)
    ensures parents == GraphOf(nodes) && parents.Keys == set n | n in nodes :: n.slug
  {
    parents := map[];
    for i := 0 to |nodes|
      invariant parents == GraphOf(nodes[..i])
    {
      assert nodes[..i + 1][..i] == nodes[..i];
      parents := parents[nodes[i].slug := nodes[i].deps];
    }
    assert nodes[..|nodes|] == nodes;
    GraphOfKeys(nodes);
  }

  /** Exact: a cycle is reported iff the declared graph has one, and the report is a real closed walk. */
  method DetectCycle(nodes: seq<DepNode>) returns (cycle: seq<string>)
    ensures cycle != [] ==> ClosedWalk(GraphOf(nodes), cycle)
    ensures cycle == [] <==> !Cyclic(GraphOf(nodes))
  {
    var parents := BuildGraph(nodes);
    var search := new Search(parents);
    cycle := search.Run(nodes);
    if cycle == [] {
      forall x | x in parents ensures x in search.done {
        var n :| n in nodes && n.slug == x;
      }
      SettledIsAcyclic(parents, search.done);
    }
  }
}
