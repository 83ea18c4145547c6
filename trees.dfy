/** The two syntax trees of the transform: hast (HTML/SVG nodes whose
    properties are loosely typed JavaScript values) going in, xast (XML nodes
    whose attributes are strings) coming out, plus the values, errors and
    JavaScript truthiness the transform relies on. */
module Trees {

  datatype Option<+T> = None | Some(value: T) {
    /** The value when present, the default otherwise (a missing string
        field read with a fallback). */
    function GetOr(default: T): T {
      match this
      case Some(v) => v
      case None => default
    }
  }

  /** The outcome of a call that may throw: the whole tree, or the first error. */
  datatype Result<+T> = Ok(value: T) | Err(error: Error)

  /** A unist point and position span; copied verbatim from input to output. */
  datatype Point = Point(line: int, column: int, offset: Option<int>)
  datatype Position = Position(start: Point, end: Point)

  /** A JavaScript number, kept opaque: only NaN-ness and zero matter here. */
  datatype Number = NaN | Finite(v: real) | Infinite(negative: bool)

  /** An item of an array-valued property. */
  datatype Token = TStr(s: string) | TNum(n: Number)

  /** A hast property value. */
  datatype Value =
    | Undefined
    | Null
    | Bool(b: bool)
    | Num(n: Number)
    | Str(s: string)
    | Arr(items: seq<Token>)

  /** JavaScript's `!!value`: false, 0, NaN, '', null and undefined are falsy,
      every array (even an empty one) is truthy. */
  predicate Truthy(v: Value) {
    match v
    case Undefined => false
    case Null => false
    case Bool(b) => b
    case Num(n) => !(n.NaN? || n == Finite(0.0))
    case Str(s) => s != ""
    case Arr(_) => true
  }

  /** The own keys of a JavaScript object are distinct. */
  predicate DistinctKeys(ps: seq<(string, Value)>) {
    forall i, j :: 0 <= i < j < |ps| ==> ps[i].0 != ps[j].0
  }

  /** An element's `properties` object, in `for…in` order; a missing
      `properties` object is the empty sequence. */
  type Properties = ps: seq<(string, Value)> | DistinctKeys(ps) witness []

  /** The node types with a handler. */
  const HandledTypes: set<string> := {"root", "element", "text", "comment", "doctype"}

  /** A `type` field no handler exists for. */
  type UnknownType = t: string | t !in HandledTypes witness "raw"

  /** The `children` field of a hast root or element, which may be missing. */
  datatype Children = Missing | Present(nodes: seq<HastNode>)

  /** A hast node. A `content` field that is missing (or falsy) is `None`; `NotANode` is a value in the tree that is not a node at all
      (undefined, or an object without `type`), carrying its string form. */
  datatype HastNode =
    | HRoot(children: Children, position: Option<Position>)
    | HElement(tagName: string, properties: Properties, children: Children,
               content: Option<HastNode>, position: Option<Position>)
    | HText(value: Option<string>, position: Option<Position>)
    | HComment(value: Option<string>, position: Option<Position>)
    | HDoctype(name: Option<string>, publicId: Option<string>, systemId: Option<string>,
               position: Option<Position>)
    | HOther(nodeType: UnknownType, position: Option<Position>)
    | NotANode(shown: string)

  /** An xast node; `children` is `None` when the field is not set at all. */
  datatype XastNode =
    | XRoot(children: Option<seq<XastNode>>, position: Option<Position>)
    | XElement(name: string, attributes: map<string, string>, children: Option<seq<XastNode>>,
               position: Option<Position>)
    | XText(value: string, position: Option<Position>)
    | XComment(value: string, position: Option<Position>)
    | XDoctype(name: string, publicId: Option<string>, systemId: Option<string>,
               position: Option<Position>)

  /** The errors the transform throws. `TypeError` is the runtime error of
      reading a property of `undefined` (a missing `children` array or
      template `content`). */
  datatype Error =
    | ExpectedNode(shown: string)
    | CannotTransform(nodeType: string)
    | TypeError

  /** The message of the thrown `Error`. */
  function Message(e: Error): string {
    match e
    case ExpectedNode(shown) => "Expected node, not `" + shown + "`"
    case CannotTransform(t) => "Cannot transform node of type `" + t + "`"
    case TypeError => "Cannot read properties of undefined"
  }

  /** The messages of the transform's own two errors name their culprit
      unambiguously: equal messages mean the same error. */
  lemma MessageIdentifiesError(e: Error, f: Error)
    requires !e.TypeError? && !f.TypeError?
    ensures Message(e) == Message(f) <==> e == f
  {
    if e.ExpectedNode? != f.ExpectedNode? {
      // one message starts with 'E', the other with 'C'
      assert Message(e)[0] != Message(f)[0];
    } else if Message(e) == Message(f) {
      if e.ExpectedNode? {
        QuotedPayload("Expected node, not `", e.shown, f.shown);
      } else {
        QuotedPayload("Cannot transform node of type `", e.nodeType, f.nodeType);
      }
    }
  }

  /** A fixed prefix and a closing backtick around two strings: equal
      results only for equal strings. */
  lemma QuotedPayload(prefix: string, s: string, t: string)
    requires prefix + s + "`" == prefix + t + "`"
    ensures s == t
  {
    var m := prefix + s + "`";
    assert |s| == |t|;
    forall i | 0 <= i < |s| ensures s[i] == t[i] {
      assert m[|prefix| + i] == s[i];
      assert (prefix + t + "`")[|prefix| + i] == t[i];
    }
  }

  /** `node.position`; a non-node has none. */
  function PositionOf(n: HastNode): Option<Position> {
    if n.NotANode? then None else n.position
  }

  /** `node.children`; only roots and elements carry it. */
  function ChildrenOf(n: HastNode): Children {
    if n.HRoot? || n.HElement? then n.children else Missing
  }

  /** Does the output node have the kind of the input node? */
  predicate SameKind(n: HastNode, x: XastNode) {
    (n.HRoot? <==> x.XRoot?) && (n.HElement? <==> x.XElement?) && (n.HText? <==> x.XText?)
    && (n.HComment? <==> x.XComment?) && (n.HDoctype? <==> x.XDoctype?)
  }

  /** The origin's position, when it has one, copied onto the output node;
      nothing else about the node changes. */
  function Patched(origin: HastNode, x: XastNode): (r: XastNode)
    ensures r.position == if PositionOf(origin).Some? then PositionOf(origin) else x.position
    ensures (r.XRoot? <==> x.XRoot?) && (r.XElement? <==> x.XElement?) && (r.XText? <==> x.XText?)
      && (r.XComment? <==> x.XComment?) && (r.XDoctype? <==> x.XDoctype?)
    ensures (x.XRoot? || x.XElement?) ==> r.children == x.children
    ensures x.XElement? ==> r.name == x.name && r.attributes == x.attributes
    ensures (x.XText? || x.XComment?) ==> r.value == x.value
    ensures x.XDoctype? ==> r.name == x.name && r.publicId == x.publicId && r.systemId == x.systemId
  {
    if PositionOf(origin).Some? then x.(position := PositionOf(origin)) else x
  }

  /** Sets `children` on an output root or element. */
  function WithChildren(x: XastNode, cs: Option<seq<XastNode>>): XastNode {
    match x
    case XRoot(_, p) => XRoot(cs, p)
    case XElement(name, attrs, _, p) => XElement(name, attrs, cs, p)
    case _ => x
  }
}
