/** The walk over the nodes of the documentation search page. */
module SearchTree {
  import opened Options

  datatype Node = Node(nodeName: string, className: string, children: seq<Node>) {
    predicate IsDiv() {
      nodeName == "DIV"
    }

    predicate IsTarget() {
      IsDiv() && className == "SRChildren"
    }
  }

  /** The nodes of a forest that are reached through DIVs only, in document order. */
  function DocumentOrder(forest: seq<Node>): seq<Node>
    decreases forest
  {
    if forest == [] then []
    else
      [forest[0]] + (if forest[0].IsDiv() then DocumentOrder(forest[0].children) else []) + DocumentOrder(forest[1..])
  }

  /** What is left of the walk once the nodes before the cursor are done: the siblings from the cursor
      on, then those that follow each ancestor below the parent element, innermost first. */
  function Ahead(here: seq<Node>, up: seq<seq<Node>>): seq<Node>
    decreases |up|
  {
    DocumentOrder(here) + if up == [] then [] else Ahead(up[0], up[1..])
  }

  lemma AheadDescend(here: seq<Node>, up: seq<seq<Node>>)
    requires here != [] && here[0].IsDiv()
    ensures Ahead(here, up) == [here[0]] + Ahead(here[0].children, [here[1..]] + up)
  {
    var stack := [here[1..]] + up;
    assert stack[0] == here[1..] && stack[1..] == up;
    var below, beside := DocumentOrder(here[0].children), DocumentOrder(here[1..]);
    var above := if up == [] then [] else Ahead(up[0], up[1..]);
    assert DocumentOrder(here) == [here[0]] + below + beside;
    assert Ahead(here[1..], up) == beside + above;
    assert Ahead(here[0].children, stack) == below + (beside + above);
    Regroup([here[0]], below, beside, above);
  }

  lemma Regroup(a: seq<Node>, b: seq<Node>, c: seq<Node>, d: seq<Node>)
    ensures a + b + c + d == a + (b + (c + d))
  {
  }

  lemma AheadNext(here: seq<Node>, up: seq<seq<Node>>)
    requires here != [] && (here[0].IsDiv() ==> here[0].children == [])
    ensures Ahead(here, up) == [here[0]] + Ahead(here[1..], up)
  {
    var beside := DocumentOrder(here[1..]);
    var above := if up == [] then [] else Ahead(up[0], up[1..]);
    assert DocumentOrder(here) == [here[0]] + [] + beside;
    assert Ahead(here[1..], up) == beside + above;
    Regroup([here[0]], [], beside, above);
    assert [] + (beside + above) == beside + above;
  }

  /** The first target of a sequence, if there is one. */
  ghost predicate IsFirstTarget(nodes: seq<Node>, found: Option<Node>) {
    match found
    case None => forall k :: 0 <= k < |nodes| ==> !nodes[k].IsTarget()
    case Some(node) =>
      exists k ::
        && 0 <= k < |nodes| && nodes[k] == node && node.IsTarget()
        && forall j :: 0 <= j < k ==> !nodes[j].IsTarget()
  }

  /** From an element without next sibling: up to the nearest ancestor that has one and on to it, or to the
      parent element. */
  method Climb(siblings: seq<seq<Node>>) returns (here: seq<Node>, up: seq<seq<Node>>)
    ensures Ahead(here, up) == Ahead([], siblings)
    ensures here == [] ==> up == []
  {
    here, up := [], siblings;
    while here == [] && up != []
      invariant Ahead(here, up) == Ahead([], siblings)
      decreases |up|
    {
      here, up := up[0], up[1..];
    }
  }

  lemma OneFurther(before: seq<Node>, element: Node, rest: seq<Node>)
    ensures before + ([element] + rest) == before + [element] + rest
  {
  }

  lemma FoundHere(before: seq<Node>, ahead: seq<Node>)
    requires ahead != [] && ahead[0].IsTarget() && forall k :: 0 <= k < |before| ==> !before[k].IsTarget()
    ensures IsFirstTarget(before + ahead, Some(ahead[0])) && before + [ahead[0]] <= before + ahead
  {
    var order := before + ahead;
    assert order[|before|] == ahead[0] && forall j :: 0 <= j < |before| ==> order[j] == before[j];
  }

  /** Finds the first SRChildren DIV below the parent element in document order, looking only through
      DIVs, and ends whatever the tree.  The nodes looked at are an initial part of the document order,
      each taken once. */
  method FindChildElement(parentElement: Node) returns (found: Option<Node>, visited: seq<Node>)
    ensures IsFirstTarget(DocumentOrder(parentElement.children), found)
    ensures visited <= DocumentOrder(parentElement.children)
    ensures found.None? ==> visited == DocumentOrder(parentElement.children)
    ensures found.Some? ==> visited != [] && visited[|visited| - 1] == found.value
  {
    ghost var order := DocumentOrder(parentElement.children);
    visited := [];
    // The element is here[0]; the walk is back at the parent element when here is empty.
    var here, up: seq<seq<Node>> := parentElement.children, [];
    assert Ahead(here, up) == order;
    while here != []
      invariant visited + Ahead(here, up) == order
      invariant here == [] ==> up == []
      invariant forall k :: 0 <= k < |visited| ==> !visited[k].IsTarget()
      decreases |Ahead(here, up)|
    {
      var element := here[0];
      ghost var before, ahead := visited, Ahead(here, up);
      assert ahead[0] == element;
      visited := visited + [element];
      if element.IsTarget() {
        found := Some(element);
        FoundHere(before, ahead);
        return;
      }
      if element.IsDiv() && element.children != [] {
        AheadDescend(here, up);
        here, up := element.children, [here[1..]] + up;
      } else {
        AheadNext(here, up);
        if |here| > 1 {
          here := here[1..];
        } else {
          here, up := Climb(up);
        }
      }
      assert ahead == [element] + Ahead(here, up);
      OneFurther(before, element, Ahead(here, up));
    }
    found := None;
    assert Ahead(here, up) == [];
    assert visited == order;
  }

  // ---- Document order by positions ----

  /** A position in a forest: the index of a tree, then of a child, and so on. */
  type Path = seq<nat>

  /** Leads to a node, and through DIVs only. */
  predicate Reaches(forest: seq<Node>, path: Path) {
    && path != [] && path[0] < |forest|
    && (|path| == 1 || (forest[path[0]].nodeName == "DIV" && Reaches(forest[path[0]].children, path[1..])))
  }

  function At(forest: seq<Node>, path: Path): Node
    requires Reaches(forest, path)
  {
    if |path| == 1 then forest[path[0]] else At(forest[path[0]].children, path[1..])
  }

  /** An element comes before what it contains, and that before the next sibling. */
  predicate Earlier(p: Path, q: Path) {
    q != [] && (p == [] || p[0] < q[0] || (p[0] == q[0] && Earlier(p[1..], q[1..])))
  }

  function Below(paths: seq<Path>): seq<Path> {
    seq(|paths|, i requires 0 <= i < |paths| => [0] + paths[i])
  }

  function Beside(paths: seq<Path>): seq<Path>
    requires forall p :: p in paths ==> p != []
  {
    seq(|paths|, i requires 0 <= i < |paths| => assert paths[i] in paths; [paths[i][0] + 1] + paths[i][1..])
  }

  /** The positions listed are those of the nodes listed. */
  ghost predicate Located(forest: seq<Node>, paths: seq<Path>, nodes: seq<Node>) {
    |paths| == |nodes| && forall k :: 0 <= k < |paths| ==> Reaches(forest, paths[k]) && At(forest, paths[k]) == nodes[k]
  }

  ghost predicate InOrder(paths: seq<Path>) {
    forall j, k :: 0 <= j < k < |paths| ==> Earlier(paths[j], paths[k])
  }

  ghost predicate Complete(forest: seq<Node>, paths: seq<Path>) {
    forall p :: Reaches(forest, p) ==> p in paths
  }

  lemma LocatedBelow(forest: seq<Node>, paths: seq<Path>, nodes: seq<Node>)
    requires forest != [] && forest[0].nodeName == "DIV" && Located(forest[0].children, paths, nodes)
    requires InOrder(paths)
    ensures Located(forest, Below(paths), nodes) && InOrder(Below(paths))
  {
    forall k | 0 <= k < |paths| ensures Reaches(forest, Below(paths)[k]) && At(forest, Below(paths)[k]) == nodes[k] {
      assert Below(paths)[k][1..] == paths[k];
    }
    forall j, k | 0 <= j < k < |paths| ensures Earlier(Below(paths)[j], Below(paths)[k]) {
      assert Below(paths)[j][1..] == paths[j] && Below(paths)[k][1..] == paths[k];
    }
  }

  lemma LocatedBeside(forest: seq<Node>, paths: seq<Path>, nodes: seq<Node>)
    requires forest != [] && Located(forest[1..], paths, nodes) && InOrder(paths)
    requires forall p :: p in paths ==> p != []
    ensures Located(forest, Beside(paths), nodes) && InOrder(Beside(paths))
  {
    forall k | 0 <= k < |paths| ensures Reaches(forest, Beside(paths)[k]) && At(forest, Beside(paths)[k]) == nodes[k] {
      assert paths[k] in paths && Reaches(forest[1..], paths[k]);
      assert Beside(paths)[k][1..] == paths[k][1..];
      assert forest[1..][paths[k][0]] == forest[paths[k][0] + 1];
    }
    forall j, k | 0 <= j < k < |paths| ensures Earlier(Beside(paths)[j], Beside(paths)[k]) {
      assert Earlier(paths[j], paths[k]);
      assert Beside(paths)[j][1..] == paths[j][1..] && Beside(paths)[k][1..] == paths[k][1..];
    }
  }

  lemma LocatedJoin(forest: seq<Node>, p: seq<Path>, m: seq<Node>, q: seq<Path>, n: seq<Node>)
    requires Located(forest, p, m) && Located(forest, q, n) && InOrder(p) && InOrder(q)
    requires forall j, k :: 0 <= j < |p| && 0 <= k < |q| ==> Earlier(p[j], q[k])
    ensures Located(forest, p + q, m + n) && InOrder(p + q)
  {
  }

  lemma PathsNotEmpty(forest: seq<Node>, paths: seq<Path>, nodes: seq<Node>)
    requires Located(forest, paths, nodes)
    ensures forall p :: p in paths ==> p != []
  {
  }

  /** DocumentOrder lists the nodes at all positions that are reached through DIVs, each once, from the
      earliest to the last. */
  lemma {:induction false} DocumentOrderByPosition(forest: seq<Node>) returns (paths: seq<Path>)
    ensures Located(forest, paths, DocumentOrder(forest)) && InOrder(paths) && Complete(forest, paths)
    decreases forest
  {
    if forest == [] {
      paths := [];
    } else {
      var below: seq<Path> := [];
      var inside := [];
      if forest[0].IsDiv() {
        below := DocumentOrderByPosition(forest[0].children);
        inside := DocumentOrder(forest[0].children);
        LocatedBelow(forest, below, inside);
      }
      var beside := DocumentOrderByPosition(forest[1..]);
      PathsNotEmpty(forest[1..], beside, DocumentOrder(forest[1..]));
      LocatedBeside(forest, beside, DocumentOrder(forest[1..]));
      LocatedJoin(forest, [[0]], [forest[0]], Below(below), inside);
      LocatedJoin(forest, [[0]] + Below(below), [forest[0]] + inside, Beside(beside), DocumentOrder(forest[1..]));
      paths := [[0]] + Below(below) + Beside(beside);
      forall p | Reaches(forest, p) ensures p in paths {
        ListsAll(forest, below, beside, p);
      }
    }
  }

  lemma ListsAll(forest: seq<Node>, below: seq<Path>, beside: seq<Path>, p: Path)
    requires forest != [] && Reaches(forest, p)
    requires forest[0].nodeName == "DIV" ==> Complete(forest[0].children, below)
    requires Complete(forest[1..], beside) && forall q :: q in beside ==> q != []
    ensures p in [[0]] + Below(below) + Beside(beside)
  {
    if p[0] > 0 {
      ListsBeside(forest, beside, p);
    } else if |p| > 1 {
      ListsBelow(forest, below, p);
    } else {
      assert p == [0];
    }
  }

  lemma ListsBeside(forest: seq<Node>, beside: seq<Path>, p: Path)
    requires forest != [] && Reaches(forest, p) && p[0] > 0
    requires Complete(forest[1..], beside) && forall q :: q in beside ==> q != []
    ensures p in Beside(beside)
  {
    var q := [p[0] - 1] + p[1..];
    assert q[1..] == p[1..];
    assert forest[1..][q[0]] == forest[p[0]];
    assert Reaches(forest[1..], q);
    var k :| 0 <= k < |beside| && beside[k] == q;
    assert p == [p[0]] + p[1..];
    assert Beside(beside)[k] == p;
  }

  lemma ListsBelow(forest: seq<Node>, below: seq<Path>, p: Path)
    requires forest != [] && Reaches(forest, p) && p[0] == 0 && |p| > 1
    requires Complete(forest[0].children, below)
    ensures p in Below(below)
  {
    var k :| 0 <= k < |below| && below[k] == p[1..];
    assert p == [0] + p[1..];
    assert Below(below)[k] == p;
  }

  ghost predicate IsTargetAt(forest: seq<Node>, p: Path) {
    Reaches(forest, p) && At(forest, p).nodeName == "DIV" && At(forest, p).className == "SRChildren"
  }

  /** What FindChildElement finds, by positions: the SRChildren DIV at the earliest position that is reached
      through DIVs, or nothing exactly when there is no such position. */
  lemma FirstTargetByPosition(forest: seq<Node>, found: Option<Node>)
    requires IsFirstTarget(DocumentOrder(forest), found)
    ensures found.None? <==> forall p :: !IsTargetAt(forest, p)
    ensures found.Some? ==>
              exists p ::
                && IsTargetAt(forest, p) && At(forest, p) == found.value
                && forall q :: IsTargetAt(forest, q) ==> q == p || Earlier(p, q)
  {
    var nodes := DocumentOrder(forest);
    var paths := DocumentOrderByPosition(forest);
    if found.Some? {
      var k :| 0 <= k < |nodes| && nodes[k] == found.value && nodes[k].IsTarget() &&
               forall j :: 0 <= j < k ==> !nodes[j].IsTarget();
      assert IsTargetAt(forest, paths[k]);
      forall q | IsTargetAt(forest, q) ensures q == paths[k] || Earlier(paths[k], q) {
        var j :| 0 <= j < |paths| && paths[j] == q;
        assert nodes[j].IsTarget();
      }
    } else {
      forall p | Reaches(forest, p) ensures !IsTargetAt(forest, p) {
        var j :| 0 <= j < |paths| && paths[j] == p;
      }
    }
  }
}
