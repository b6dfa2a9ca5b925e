/** Printing the graph of expression nodes, depth first. */
module IrGraph {
  import opened Options

  datatype Kind = ListOf(items: seq<nat>) | VariableOf(source: Option<nat>) | ForkOrItem | Other

  datatype GraphNode = GraphNode(prev: Option<nat>, kind: Kind, shown: string)

  /** Nodes by their ids; `prev`, list members and variable sources refer to other nodes. */
  type Graph = map<nat, GraphNode>

  /** A printed line: the node, the previous node it names, and its own text. */
  datatype Line = Line(id: nat, after: Option<nat>, shown: string)

  function Listed(o: Option<nat>): seq<nat> { if o.Some? then [o.value] else [] }

  /** What must be printed before a node, in the order in which it is visited. */
  function Deps(node: GraphNode): seq<nat> {
    Listed(node.prev) +
    match node.kind
    case ListOf(items) => items
    case VariableOf(source) => Listed(source)
    case _ => []
  }

  function LineOf(id: nat, node: GraphNode): Line {
    Line(id, if node.kind.ForkOrItem? then None else node.prev, node.shown)
  }

  ghost predicate WholeGraph(g: Graph) {
    forall x, d :: x in g && d in Deps(g[x]) ==> d in g
  }

  predicate Edge(g: Graph, x: nat, d: nat) { x in g && d in Deps(g[x]) }

  predicate IsPath(g: Graph, p: seq<nat>) {
    |p| >= 1 && forall i :: 0 <= i < |p| - 1 ==> Edge(g, p[i], p[i + 1])
  }

  /** There is a path of at least one edge. */
  ghost predicate Leads(g: Graph, x: nat, y: nat) {
    exists p :: IsPath(g, p) && |p| >= 2 && p[0] == x && p[|p| - 1] == y
  }

  /** None of these nodes leads back to itself. */
  ghost predicate Acyclic(g: Graph, ids: seq<nat>) {
    forall x :: x in ids ==> !Leads(g, x, x)
  }

  lemma EdgeLeads(g: Graph, x: nat, d: nat)
    requires Edge(g, x, d)
    ensures Leads(g, x, d)
  {
    var p := [x, d];
    assert IsPath(g, p) && p[|p| - 1] == d;
  }

  lemma LeadsOneMore(g: Graph, x: nat, y: nat, d: nat)
    requires Leads(g, x, y) && Edge(g, y, d)
    ensures Leads(g, x, d)
  {
    var p :| IsPath(g, p) && |p| >= 2 && p[0] == x && p[|p| - 1] == y;
    var q := p + [d];
    assert IsPath(g, q) && q[|q| - 1] == d;
  }

  lemma LeadsFromEdge(g: Graph, x: nat, d: nat, y: nat)
    requires Edge(g, x, d) && Leads(g, d, y)
    ensures Leads(g, x, y)
  {
    var p :| IsPath(g, p) && |p| >= 2 && p[0] == d && p[|p| - 1] == y;
    var q := [x] + p;
    assert IsPath(g, q) && q[|q| - 1] == y;
  }

  /** A set that contains the start and all dependencies of its members contains everything on a path. */
  lemma {:induction false} ClosedUnderPaths(g: Graph, s: set<nat>, p: seq<nat>)
    requires IsPath(g, p) && p[0] in s
    requires forall x, d :: x in s && Edge(g, x, d) ==> d in s
    ensures p[|p| - 1] in s
    decreases |p|
  {
    if |p| > 1 {
      assert Edge(g, p[0], p[1]);
      PathTail(g, p);
      ClosedUnderPaths(g, s, p[1..]);
    }
  }

  function Ids(lines: seq<Line>): seq<nat> {
    seq(|lines|, i requires 0 <= i < |lines| => lines[i].id)
  }

  predicate Distinct(s: seq<nat>) {
    forall i, j :: 0 <= i < j < |s| ==> s[i] != s[j]
  }

  /** Every node comes after all it depends on. */
  ghost predicate Topological(g: Graph, ids: seq<nat>) {
    forall k, d :: 0 <= k < |ids| && Edge(g, ids[k], d) ==> d in ids[..k]
  }

  class GraphPrinter {
    const g: Graph
    var visited: set<nat>
    var lines: seq<Line>

    constructor (g: Graph)
      ensures this.g == g && visited == {} && lines == []
    {
      this.g := g;
      visited, lines := {}, [];
    }

    /** The nodes in `open` were visited and are not printed yet. */
    ghost predicate Inv(open: set<nat>)
      reads this
    {
      && visited <= g.Keys
      && Distinct(Ids(lines))
      && open <= visited
      && (forall v :: v in Ids(lines) <==> v in visited && v !in open)
      && (forall l :: l in lines ==> l.id in g && l == LineOf(l.id, g[l.id]))
      && (forall v, d :: v in Ids(lines) && Edge(g, v, d) ==> d in visited)
      && (Acyclic(g, Ids(lines)) ==> Topological(g, Ids(lines)))
    }

    /** Only `x` and nodes that it leads to were visited since. */
    twostate predicate VisitsFrom(x: nat)
      reads this
    {
      && old(visited) <= visited
      && forall v :: v in visited && v !in old(visited) ==> v == x || Leads(g, x, v)
    }

    /** Only nodes that `x` leads to were visited since. */
    twostate predicate LedTo(x: nat)
      reads this
    {
      && old(visited) <= visited
      && forall v :: v in visited && v !in old(visited) ==> Leads(g, x, v)
    }

    method DfsPrint(x: nat, ghost open: set<nat>)
      requires WholeGraph(g) && x in g && Inv(open)
      requires forall v :: v in open ==> Leads(g, v, x)
      modifies this
      ensures Inv(open) && x in visited && VisitsFrom(x)
      decreases g.Keys - visited, 0
    {
      if x in visited {
        return;
      }
      visited := visited + {x};
      ghost var opening := open + {x};
      var node := g[x];
      if node.prev.Some? {
        VisitDep(x, node.prev.value, opening, open);
      }
      match node.kind {
        case ListOf(items) =>
          VisitItems(x, items, opening, open);
        case VariableOf(source) =>
          if source.Some? {
            VisitDep(x, source.value, opening, open);
          }
        case _ =>
      }
      PrintNode(x, open);
    }

    method VisitItems(x: nat, items: seq<nat>, ghost opening: set<nat>, ghost open: set<nat>)
      requires WholeGraph(g) && x in g && g[x].kind == ListOf(items) && opening == open + {x} && Inv(opening)
      requires forall v :: v in open ==> Leads(g, v, x)
      modifies this
      ensures Inv(opening) && (forall d :: d in items ==> d in visited) && LedTo(x)
      decreases g.Keys - visited, 2
    {
      for i := 0 to |items|
        invariant Inv(opening) && LedTo(x)
        invariant forall d :: d in items[..i] ==> d in visited
      {
        assert items[..i + 1] == items[..i] + [items[i]];
        VisitDep(x, items[i], opening, open);
      }
      assert items[..|items|] == items;
    }

    /** Visiting a dependency of the open node `x`. */
    method VisitDep(x: nat, d: nat, ghost opening: set<nat>, ghost open: set<nat>)
      requires WholeGraph(g) && Edge(g, x, d) && opening == open + {x} && Inv(opening)
      requires forall v :: v in open ==> Leads(g, v, x)
      modifies this
      ensures Inv(opening) && d in visited && LedTo(x)
      decreases g.Keys - visited, 1
    {
      forall v | v in opening
        ensures Leads(g, v, d)
      {
        if v == x {
          EdgeLeads(g, x, d);
        } else {
          LeadsOneMore(g, v, x, d);
        }
      }
      DfsPrint(d, opening);
      forall v | v in visited && v !in old(visited)
        ensures Leads(g, x, v)
      {
        if v == d {
          EdgeLeads(g, x, d);
        } else {
          LeadsFromEdge(g, x, d, v);
        }
      }
    }

    /** Printing `x` once all it depends on was visited: without cycles none of that is still open. */
    method PrintNode(x: nat, ghost open: set<nat>)
      requires x in g && x in visited && x !in open && Inv(open + {x})
      requires forall d :: Edge(g, x, d) ==> d in visited
      requires forall v :: v in open ==> Leads(g, v, x)
      modifies this`lines
      ensures Inv(open)
    {
      ghost var ids := Ids(lines);
      lines := lines + [LineOf(x, g[x])];
      assert Ids(lines) == ids + [x];
      if Acyclic(g, Ids(lines)) {
        assert Acyclic(g, ids) && x in Ids(lines);
        forall d | Edge(g, x, d)
          ensures d in ids
        {
          if d == x {
            EdgeLeads(g, x, d);
          } else if d in open {
            LeadsFromEdge(g, x, d, x);
          }
        }
        TopologicalSnoc(g, ids, x);
      }
    }

    /** The whole print. */
    method PrintGraph(root: nat)
      requires WholeGraph(g) && root in g && visited == {} && lines == []
      modifies this
      ensures Distinct(Ids(lines))
      ensures forall v :: v in Ids(lines) <==> v == root || Leads(g, root, v)
      ensures Topological(g, Ids(lines)) <==> Acyclic(g, Ids(lines))
      ensures forall l :: l in lines ==>
                l.id in g && l.shown == g[l.id].shown && l.after == if g[l.id].kind.ForkOrItem? then None else g[l.id].prev
    {
      DfsPrint(root, {});
      forall v | Leads(g, root, v)
        ensures v in visited
      {
        var p :| IsPath(g, p) && |p| >= 2 && p[0] == root && p[|p| - 1] == v;
        ClosedUnderPaths(g, visited, p);
      }
      if Topological(g, Ids(lines)) {
        forall v | v in Ids(lines)
          ensures !Leads(g, v, v)
        {
          TopologicalHasNoCycle(g, Ids(lines), v);
        }
      }
    }
  }

  /** Along a path of printed nodes, each is printed before the one it comes from. */
  lemma {:induction false} PathGoesBack(g: Graph, ids: seq<nat>, p: seq<nat>, k: nat) returns (last: nat)
    requires Topological(g, ids) && IsPath(g, p) && k < |ids| && ids[k] == p[0]
    ensures last <= k && ids[last] == p[|p| - 1] && (|p| > 1 ==> last < k)
    decreases |p|
  {
    last := k;
    if |p| > 1 {
      assert Edge(g, p[0], p[1]);
      var next :| 0 <= next < k && ids[next] == p[1];
      PathTail(g, p);
      last := PathGoesBack(g, ids, p[1..], next);
    }
  }

  lemma PathTail(g: Graph, p: seq<nat>)
    requires IsPath(g, p) && |p| > 1
    ensures IsPath(g, p[1..])
  {
    var rest := p[1..];
    forall i | 0 <= i < |rest| - 1
      ensures Edge(g, rest[i], rest[i + 1])
    {
      var j := i + 1;
      assert Edge(g, p[j], p[j + 1]);
    }
  }

  lemma TopologicalHasNoCycle(g: Graph, ids: seq<nat>, v: nat)
    requires Topological(g, ids) && Distinct(ids) && v in ids
    ensures !Leads(g, v, v)
  {
    if Leads(g, v, v) {
      var p :| IsPath(g, p) && |p| >= 2 && p[0] == v && p[|p| - 1] == v;
      var k: nat :| k < |ids| && ids[k] == v;
      var last := PathGoesBack(g, ids, p, k);
      assert false;
    }
  }

  lemma TopologicalSnoc(g: Graph, ids: seq<nat>, x: nat)
    requires Topological(g, ids) && forall d :: Edge(g, x, d) ==> d in ids
    ensures Topological(g, ids + [x])
  {
    var more := ids + [x];
    forall k, d | 0 <= k < |more| && Edge(g, more[k], d)
      ensures d in more[..k]
    {
      assert more[..k] == ids[..k];
      if k == |ids| {
        assert ids[..k] == ids;
      }
    }
  }
}
