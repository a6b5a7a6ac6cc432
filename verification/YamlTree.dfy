/** YAML documents as trees, with the path operations of the configuration layer. */
module YamlTree {
  import opened Options

  /** Mapping keys are unique, as the decoder enforces before any transformation. */
  datatype Node = Scalar(tag: string, value: string) | Sequence(items: seq<Node>) | Mapping(fields: map<string, Node>)

  type Path = seq<string>

  predicate IsNull(n: Node) {
    n.Scalar? && n.tag == "!!null"
  }

  const BLANK := Scalar("!!str", "")

  function Get(root: Node, path: Path): Option<Node> {
    if path == [] then Some(root)
    else if root.Mapping? && path[0] in root.fields then Get(root.fields[path[0]], path[1..])
    else None
  }

  /** Creates missing parents and turns a non-mapping parent into a mapping. */
  function Set(root: Node, path: Path, value: Node): Node
    decreases path
  {
    if path == [] then value
    else
      var fields := if root.Mapping? then root.fields else map[];
      var child := if path[0] in fields then fields[path[0]] else BLANK;
      Mapping(fields[path[0] := Set(child, path[1..], value)])
  }

  /** Removes the value at `path` and every parent mapping this empties, except the root. */
  function Delete(root: Node, path: Path): Node {
    if path == [] || Get(root, path).None? then root
    else if |path| == 1 then Mapping(root.fields - {path[0]})
    else
      var child := Delete(root.fields[path[0]], path[1..]);
      if child == Mapping(map[]) then Mapping(root.fields - {path[0]}) else Mapping(root.fields[path[0] := child])
  }

  /** The loop of yamlPath. */
  method YamlPath(root: Node, path: Path) returns (found: Option<Node>)
    ensures found == Get(root, path)
  {
    var node := root;
    for i := 0 to |path|
      invariant Get(root, path) == Get(node, path[i..])
    {
      if !node.Mapping? || path[i] !in node.fields {
        return None;
      }
      node := node.fields[path[i]];
      assert path[i..][1..] == path[i + 1..];
    }
    return Some(node);
  }

  predicate Independent(p: Path, q: Path) {
    !(p <= q) && !(q <= p)
  }

  lemma {:induction false} GetBelow(root: Node, p: Path, q: Path)
    ensures Get(root, p + q) == (match Get(root, p) case Some(n) => Get(n, q) case None => None)
  {
    if p == [] {
      assert p + q == q;
    } else {
      assert (p + q)[1..] == p[1..] + q;
      if root.Mapping? && p[0] in root.fields {
        GetBelow(root.fields[p[0]], p[1..], q);
      }
    }
  }

  lemma {:induction false} SetThenGet(root: Node, p: Path, v: Node)
    ensures Get(Set(root, p, v), p) == Some(v)
    decreases p
  {
    if p != [] {
      var fields := if root.Mapping? then root.fields else map[];
      SetThenGet(if p[0] in fields then fields[p[0]] else BLANK, p[1..], v);
    }
  }

  /** Away from its path, a write changes nothing but may turn a scalar parent into a mapping. */
  lemma {:induction false} SetElsewhere(root: Node, p: Path, v: Node, q: Path)
    requires !(p <= q)
    ensures Independent(p, q) ==> Get(Set(root, p, v), q) == Get(root, q)
    ensures q <= p ==> Get(Set(root, p, v), q).Some? && Get(Set(root, p, v), q).value.Mapping?
    decreases p
  {
    if q != [] && p[0] == q[0] {
      var fields := if root.Mapping? then root.fields else map[];
      var child := if p[0] in fields then fields[p[0]] else BLANK;
      assert p == [p[0]] + p[1..] && q == [q[0]] + q[1..];
      SetElsewhere(child, p[1..], v, q[1..]);
    }
  }

  lemma {:induction false} DeleteThenGet(root: Node, p: Path, q: Path)
    requires p != []
    ensures Get(Delete(root, p), p + q) == None
  {
    assert (p + q)[1..] == p[1..] + q;
    GetBelow(root, p, q);
    if Get(root, p).Some? && |p| > 1 {
      DeleteThenGet(root.fields[p[0]], p[1..], q);
    }
  }

  /** A removal leaves independent paths alone; a parent of the path stays, loses the child, or goes. */
  lemma {:induction false} DeleteElsewhere(root: Node, p: Path, q: Path)
    requires !(p <= q)
    ensures Independent(p, q) ==> Get(Delete(root, p), q) == Get(root, q)
    ensures q <= p ==> Get(Delete(root, p), q) == Get(root, q) || Get(Delete(root, p), q) == None || Get(Delete(root, p), q).value.Mapping?
  {
    if q != [] && p[0] == q[0] && Get(root, p).Some? {
      assert p == [p[0]] + p[1..] && q == [q[0]] + q[1..];
      DeleteElsewhere(root.fields[p[0]], p[1..], q[1..]);
    }
  }
}
