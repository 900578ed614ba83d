/**
 * The HTML-tree helpers of the server: a one-level search among a node's
 * children (`BFS`, which despite its name looks at direct children only), a
 * path of such searches (`Traverse`), and the first-attribute and
 * first-text lookups. The tree is a parsed document; parsing is not modelled.
 */
module Html {
  import opened Wrappers
  import opened Text

  datatype NodeType = ErrorNode | TextNode | DocumentNode | ElementNode | CommentNode | DoctypeNode | RawNode

  datatype Attribute = Attribute(key: string, val: string)

  /** A parsed node: its type, its tag name or text, its attributes and its children in sibling order. */
  datatype Node = Node(kind: NodeType, data: string, attrs: seq<Attribute>, children: seq<Node>)

  /** One step of a path: a tag, and optionally an attribute whose value must contain `val`. */
  datatype Step = Step(tag: string, attr: string, val: string)

  const NodeNotFound: string := "node not found"
  const AttributeNotFound: string := "attribute not found"
  const TextNotFound: string := "text not found"

  /** Index of the first element of `s` satisfying `p`, or -1 when there is none. */
  function First<T>(s: seq<T>, p: T -> bool): (r: int)
    ensures -1 <= r < |s|
    ensures r < 0 <==> forall i :: 0 <= i < |s| ==> !p(s[i])
    ensures 0 <= r ==> p(s[r]) && forall i :: 0 <= i < r ==> !p(s[i])
    decreases |s|
  {
    if |s| == 0 then -1
    else if p(s[0]) then 0
    else
      var k := First(s[1..], p);
      if k < 0 then -1 else k + 1
  }

  /** Some attribute has key `key` and a value containing `target`. */
  predicate HasMatchingAttr(attrs: seq<Attribute>, key: string, target: string) {
    exists i :: 0 <= i < |attrs| && attrs[i].key == key && Contains(attrs[i].val, target)
  }

  /** A child satisfies a step: an element with that tag and, unless the step names no attribute, a matching attribute. */
  predicate StepMatches(c: Node, s: Step) {
    c.kind == ElementNode && c.data == s.tag && (s.attr == "" || HasMatchingAttr(c.attrs, s.attr, s.val))
  }

  /** The first direct child of `n` satisfying the step, or "node not found". */
  function BFS(n: Node, s: Step): (r: Result<Node, string>)
    ensures r.Err? <==> forall i :: 0 <= i < |n.children| ==> !StepMatches(n.children[i], s)
    ensures r.Err? ==> r.error == NodeNotFound
    ensures r.Ok? ==> StepMatches(r.value, s)
    ensures r.Ok? ==> exists k :: 0 <= k < |n.children| && n.children[k] == r.value
                          && forall i :: 0 <= i < k ==> !StepMatches(n.children[i], s)
  {
    var k := First(n.children, c => StepMatches(c, s));
    if k < 0 then Err(NodeNotFound) else Ok(n.children[k])
  }

  /** Follows a path of steps from `n`, failing at the first step that finds nothing. */
  function Traverse(n: Node, path: seq<Step>): (r: Result<Node, string>)
    ensures path == [] ==> r == Ok(n)
    ensures r.Err? ==> r.error == NodeNotFound
    ensures r.Ok? && path != [] ==> StepMatches(r.value, path[|path| - 1])
    decreases |path|
  {
    if path == [] then Ok(n)
    else
      match BFS(n, path[0])
      case Err(e) => Err(e)
      case Ok(c) =>
        var r := Traverse(c, path[1..]);
        assert path[1..] != [] ==> path[1..][|path[1..]| - 1] == path[|path| - 1];
        r
  }

  /** Traversing `p + q` is traversing `p` and then, from where it ends, `q`. */
  lemma {:induction false} TraverseAppend(n: Node, p: seq<Step>, q: seq<Step>)
    ensures Traverse(n, p + q) == if Traverse(n, p).Ok? then Traverse(Traverse(n, p).value, q) else Traverse(n, p)
    decreases |p|
  {
    if p == [] {
      assert p + q == q;
    } else {
      assert (p + q)[0] == p[0] && (p + q)[1..] == p[1..] + q;
      if BFS(n, p[0]).Ok? {
        TraverseAppend(BFS(n, p[0]).value, p[1..], q);
      }
    }
  }

  /** A one-step path is a single BFS. */
  lemma TraverseOne(n: Node, s: Step)
    ensures Traverse(n, [s]) == BFS(n, s)
  {
    assert [s][1..] == [];
  }

  /** Once a prefix of the path fails, the whole path fails. */
  lemma TraverseStopsAtFailure(n: Node, p: seq<Step>, q: seq<Step>)
    requires Traverse(n, p).Err?
    ensures Traverse(n, p + q) == Traverse(n, p)
  {
    TraverseAppend(n, p, q);
  }

  /** An empty target value matches any value, so the step only needs some attribute with that key. */
  lemma EmptyTargetMatchesAnyValue(c: Node, tag: string, key: string)
    ensures StepMatches(c, Step(tag, key, "")) <==>
              c.kind == ElementNode && c.data == tag
              && (key == "" || exists i :: 0 <= i < |c.attrs| && c.attrs[i].key == key)
  {
    if c.kind == ElementNode && c.data == tag && key != "" {
      if exists i :: 0 <= i < |c.attrs| && c.attrs[i].key == key {
        var i :| 0 <= i < |c.attrs| && c.attrs[i].key == key;
        assert IsPrefix("", c.attrs[i].val);
      }
    }
  }

  /** The value of the first attribute named `key`, or "attribute not found". */
  function GetAttr(n: Node, key: string): (r: Result<string, string>)
    ensures r.Err? <==> forall i :: 0 <= i < |n.attrs| ==> n.attrs[i].key != key
    ensures r.Err? ==> r.error == AttributeNotFound
    ensures r.Ok? ==> exists k :: 0 <= k < |n.attrs| && n.attrs[k] == Attribute(key, r.value)
                          && forall i :: 0 <= i < k ==> n.attrs[i].key != key
  {
    var k := First(n.attrs, (a: Attribute) => a.key == key);
    if k < 0 then Err(AttributeNotFound) else Ok(n.attrs[k].val)
  }

  /** The data of the first text child, or "text not found". */
  function GetTextContent(n: Node): (r: Result<string, string>)
    ensures r.Err? <==> forall i :: 0 <= i < |n.children| ==> n.children[i].kind != TextNode
    ensures r.Err? ==> r.error == TextNotFound
    ensures r.Ok? ==> exists k :: 0 <= k < |n.children| && n.children[k].kind == TextNode && n.children[k].data == r.value
                          && forall i :: 0 <= i < k ==> n.children[i].kind != TextNode
  {
    var k := First(n.children, (c: Node) => c.kind == TextNode);
    if k < 0 then Err(TextNotFound) else Ok(n.children[k].data)
  }
}
