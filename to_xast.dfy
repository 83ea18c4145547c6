/** The current transform (lib/index.js): a recursive dispatch over the five
    hast node types that threads the schema/namespace state down the tree.

    The `Converted…` functions say what each handler produces; the methods
    `ToXast`, `One`, `Root`, `Element` and `All` are the handlers as the
    source writes them (loops that fill `attributes` and `children`) and are
    proved to produce exactly that. */
module ToXast {
  import opened Trees
  import opened Schemas
  import opened Attributes

  /** The schema is SVG exactly when the options object's `space` is
      `'svg'` (a bare string has no `space`), and no namespace is in effect
      yet. */
  function InitialState(options: Options): (st: State)
    ensures st.schema == Svg <==> options == Config(Some("svg"))
    ensures st.ns.None?
  {
    var space := if options.Config? then options.space else None;
    State(if space == Some("svg") then Svg else Html, None)
  }

  // ---------------------------------------------------------------------
  // What each handler produces

  /** `text`: the value, `''` when missing. */
  function Text(node: HastNode): (r: XastNode)
    requires node.HText?
    ensures r.XText? && r.position == node.position
    ensures r.value == "" <==> node.value.None? || node.value == Some("")
    ensures node.value.Some? ==> r.value == node.value.value
  {
    Patched(node, XText(node.value.GetOr(""), None))
  }

  /** `comment`: the value, `''` when missing. */
  function Comment(node: HastNode): (r: XastNode)
    requires node.HComment?
    ensures r.XComment? && r.position == node.position
    ensures r.value == "" <==> node.value.None? || node.value == Some("")
    ensures node.value.Some? ==> r.value == node.value.value
  {
    Patched(node, XComment(node.value.GetOr(""), None))
  }

  /** `doctype`: always the HTML doctype, whatever the input carries. */
  function Doctype(node: HastNode): (r: XastNode)
    requires node.HDoctype?
    ensures r.XDoctype? && r.position == node.position
    ensures r.name == "html" && r.publicId.None? && r.systemId.None?
  {
    Patched(node, XDoctype("html", None, None, None))
  }

  /** `one`: the dispatch on `type`. A non-node is invalid, an unknown type
      is unknown; either throws. */
  function Converted(env: Env, n: HastNode, st: State): (r: Result<XastNode>)
    decreases n, 2
    ensures r.Ok? ==> SameKind(n, r.value) && r.value.position == PositionOf(n)
    ensures r.Ok? && n.HElement? ==> r.value.name == n.tagName && r.value.children.Some?
    ensures r.Ok? && n.HRoot? ==> r.value.children.Some?
  {
    match n
    case NotANode(shown) => Err(ExpectedNode(shown))
    case HOther(t, _) => Err(CannotTransform(t))
    case HRoot(_, _) => RootOf(env, n, st)
    case HElement(_, _, _, _, _) => ElementOf(env, n, st)
    case HText(_, _) => Ok(Text(n))
    case HComment(_, _) => Ok(Comment(n))
    case HDoctype(_, _, _, _) => Ok(Doctype(n))
  }

  /** The children of a root or element, one output per input, in order,
      or the error of the first child that fails. */
  function ConvertedChildren(env: Env, cs: seq<HastNode>, st: State): (r: Result<seq<XastNode>>)
    decreases cs
    ensures r.Ok? <==> forall i :: 0 <= i < |cs| ==> Converted(env, cs[i], st).Ok?
    ensures r.Ok? ==> |r.value| == |cs| && forall i :: 0 <= i < |cs| ==> Converted(env, cs[i], st) == Ok(r.value[i])
    ensures r.Err? ==> exists i :: 0 <= i < |cs| && Converted(env, cs[i], st) == Err(r.error)
                                && forall j :: 0 <= j < i ==> Converted(env, cs[j], st).Ok?
  {
    if cs == [] then Ok([])
    else
      match Converted(env, cs[0], st)
      case Err(e) => Err(e)
      case Ok(x) =>
        match ConvertedChildren(env, cs[1..], st)
        case Err(e) => Err(e)
        case Ok(xs) => Ok([x] + xs)
  }

  /** `root`: the transformed `node.children`; reading the children of a node
      without them throws. Used for roots and for template contents. */
  function RootOf(env: Env, node: HastNode, st: State): (r: Result<XastNode>)
    decreases node, 1
    ensures r.Ok? ==> r.value.XRoot? && r.value.children.Some?
    ensures ChildrenOf(node).Missing? ==> r == Err(TypeError)
    ensures ChildrenOf(node).Present? ==>
      (r.Ok? <==> forall i :: 0 <= i < |node.children.nodes| ==> Converted(env, node.children.nodes[i], st).Ok?)
    ensures r.Ok? ==>
      && ChildrenOf(node).Present? && |r.value.children.value| == |node.children.nodes|
      && forall i :: 0 <= i < |node.children.nodes| ==> Converted(env, node.children.nodes[i], st) == Ok(r.value.children.value[i])
  {
    if !(node.HRoot? || node.HElement?) || node.children.Missing? then Err(TypeError)
    else
      match ConvertedChildren(env, node.children.nodes, st)
      case Err(e) => Err(e)
      case Ok(xs) => Ok(Patched(node, XRoot(Some(xs), None)))
  }

  /** The attributes of an element converted under `st`: the namespace
      declaration, then each property in order. */
  function AttributesOf(env: Env, node: HastNode, st: State): map<string, string>
    requires node.HElement?
  {
    var child := ChildState(st, node.properties, node.tagName);
    Apply(env, child.schema, node.properties, DeclaredNamespace(st, child))
  }

  /** Is this an HTML `template` whose children come from its content? */
  predicate SplicesContent(node: HastNode, child: State) {
    node.HElement? && child.schema == Html && node.tagName == "template" && node.content.Some?
  }

  /** `element`: name, attributes and children under the child state. */
  function ElementOf(env: Env, node: HastNode, st: State): (r: Result<XastNode>)
    requires node.HElement?
    decreases node, 1
    ensures r.Ok? ==>
      && r.value.XElement? && r.value.name == node.tagName && r.value.position == node.position
      && r.value.attributes == AttributesOf(env, node, st) && r.value.children.Some?
    ensures node.children.Missing? && !SplicesContent(node, ChildState(st, node.properties, node.tagName))
      ==> r == Err(TypeError)
  {
    var child := ChildState(st, node.properties, node.tagName);
    var children :=
      if SplicesContent(node, child) then
        match RootOf(env, node.content.value, child)
        case Err(e) => Err(e)
        case Ok(x) => Ok(x.children.value)
      else if node.children.Missing? then Err(TypeError)
      else ConvertedChildren(env, node.children.nodes, child);
    match children
    case Err(e) => Err(e)
    case Ok(xs) => Ok(Patched(node, XElement(node.tagName, AttributesOf(env, node, st), Some(xs), None)))
  }

  // ---------------------------------------------------------------------
  // The handlers as the source writes them

  /** `toXast(tree, options)` */
  method ToXast(env: Env, tree: HastNode, options: Options) returns (r: Result<XastNode>)
    ensures r == Converted(env, tree, InitialState(options))
  {
    var settings := if options.Config? then options.space else None;
    var st := State(if settings == Some("svg") then Svg else Html, None);
    r := One(env, tree, st);
  }

  /** `one` */
  method One(env: Env, n: HastNode, st: State) returns (r: Result<XastNode>)
    decreases n, 2
    ensures r == Converted(env, n, st)
  {
    match n {
      case NotANode(shown) => r := Err(ExpectedNode(shown));
      case HOther(t, _) => r := Err(CannotTransform(t));
      case HRoot(_, _) => r := Root(env, n, st);
      case HElement(_, _, _, _, _) => r := Element(env, n, st);
      case HText(_, _) => r := Ok(Text(n));
      case HComment(_, _) => r := Ok(Comment(n));
      case HDoctype(_, _, _, _) => r := Ok(Doctype(n));
    }
  }

  /** The children loop of `root` and `element`: each child converted under
      the same state and stored at its own index. */
  method All(env: Env, cs: seq<HastNode>, st: State) returns (r: Result<seq<XastNode>>)
    decreases cs
    ensures r == ConvertedChildren(env, cs, st)
  {
    var children: seq<XastNode> := [];
    var index := 0;
    while index < |cs|
      invariant 0 <= index <= |cs| && |children| == index
      invariant forall j :: 0 <= j < index ==> Converted(env, cs[j], st) == Ok(children[j])
    {
      var result := One(env, cs[index], st);
      if result.Err? {
        return Err(result.error);
      }
      children := children + [result.value];
      index := index + 1;
    }
    assert ConvertedChildren(env, cs, st).value == children;
    return Ok(children);
  }

  /** `root` */
  method Root(env: Env, node: HastNode, st: State) returns (r: Result<XastNode>)
    decreases node, 1
    ensures r == RootOf(env, node, st)
  {
    if !(node.HRoot? || node.HElement?) || node.children.Missing? {
      return Err(TypeError);
    }
    var children := All(env, node.children.nodes, st);
    if children.Err? {
      return Err(children.error);
    }
    r := Ok(Patched(node, XRoot(Some(children.value), None)));
  }

  /** `element` */
  method Element(env: Env, node: HastNode, st: State) returns (r: Result<XastNode>)
    requires node.HElement?
    decreases node, 1
    ensures r == ElementOf(env, node, st)
  {
    var props := node.properties;
    var schema := st.schema;
    var xmlns := Lookup(props, "xmlns");
    if xmlns == Str(HtmlNs) {
      schema := Html;
    } else if xmlns == Str(SvgNs) {
      schema := Svg;
    } else if Truthy(xmlns) {
      // a namespace other than HTML and SVG: stay in the same schema
    } else if schema == Html && node.tagName == "svg" {
      schema := Svg;
    }
    var childState := State(schema, Some(Uri(schema)));
    assert childState == ChildState(st, props, node.tagName);

    var attributes: map<string, string> := map[];
    if st.ns != childState.ns {
      attributes := attributes["xmlns" := Uri(schema)];
    }
    ghost var declared := attributes;
    var i := 0;
    while i < |props|
      invariant 0 <= i <= |props|
      invariant attributes == Apply(env, schema, props[..i], declared)
    {
      ApplyStep(env, schema, props, declared, i);
      var (key, value) := props[i];
      var info := env.find(schema, key);
      if Drops(value, info) {
        i := i + 1;
        continue;
      }
      var s: string;
      if value == Bool(true) || info.boolean {
        s := "";
      } else if value.Arr? {
        s := if info.commaSeparated then env.commas(value.items) else env.spaces(value.items);
      } else if !value.Str? {
        s := env.numberToString(value.n);
      } else {
        s := value.s;
      }
      attributes := attributes[info.attribute := s];
      i := i + 1;
    }
    assert props[..|props|] == props;
    assert attributes == AttributesOf(env, node, st);

    var children: seq<XastNode> := [];
    if schema == Html && node.tagName == "template" && node.content.Some? {
      var results := Root(env, node.content.value, childState);
      if results.Err? {
        return Err(results.error);
      }
      children := children + results.value.children.value;
      assert children == results.value.children.value;
    } else {
      if node.children.Missing? {
        return Err(TypeError);
      }
      var results := All(env, node.children.nodes, childState);
      if results.Err? {
        return Err(results.error);
      }
      children := results.value;
    }
    r := Ok(Patched(node, XElement(node.tagName, attributes, Some(children), None)));
  }

  // ---------------------------------------------------------------------
  // Properties of the transform

  /** Leaves: text and comment keep their value (`''` when missing); a
      doctype always becomes `<!doctype html>` without identifiers; a
      non-node and an unknown type throw, naming the value or the type. */
  lemma Leaves(env: Env, n: HastNode, st: State)
    ensures n.HText? ==> Converted(env, n, st) == Ok(XText(n.value.GetOr(""), n.position))
    ensures n.HComment? ==> Converted(env, n, st) == Ok(XComment(n.value.GetOr(""), n.position))
    ensures n.HDoctype? ==> Converted(env, n, st) == Ok(XDoctype("html", None, None, n.position))
    ensures n.NotANode? ==> Converted(env, n, st) == Err(ExpectedNode(n.shown))
    ensures n.HOther? ==> Converted(env, n, st) == Err(CannotTransform(n.nodeType))
  {
  }

  /** A node that makes its handler throw `e`. */
  predicate Culprit(n: HastNode, e: Error) {
    match e
    case ExpectedNode(s) => n == NotANode(s)
    case CannotTransform(t) => n.HOther? && n.nodeType == t
    case TypeError =>
      || ((n.HRoot? || n.HElement?) && n.children.Missing?)
      || (n.HElement? && n.content.Some? && ChildrenOf(n.content.value).Missing?)
  }

  /** Some node of the tree, at any depth (template contents included), is a
      culprit for `e`. */
  predicate Mentions(n: HastNode, e: Error)
    decreases n
  {
    || Culprit(n, e)
    || ((n.HRoot? || n.HElement?) && n.children.Present?
        && exists i :: 0 <= i < |n.children.nodes| && Mentions(n.children.nodes[i], e))
    || (n.HElement? && n.content.Some? && Mentions(n.content.value, e))
  }

  /** A tree as hast's types describe it: only known nodes, every root and
      element with `children`, every template content a root. */
  predicate HastTree(n: HastNode)
    decreases n
  {
    match n
    case HRoot(cs, _) => cs.Present? && forall i :: 0 <= i < |cs.nodes| ==> HastTree(cs.nodes[i])
    case HElement(_, _, cs, content, _) =>
      && cs.Present? && (forall i :: 0 <= i < |cs.nodes| ==> HastTree(cs.nodes[i]))
      && (content.Some? ==> content.value.HRoot? && HastTree(content.value))
    case HText(_, _) => true
    case HComment(_, _) => true
    case HDoctype(_, _, _, _) => true
    case HOther(_, _) => false
    case NotANode(_) => false
  }

  /** Errors are not invented: a missing node names a non-node of the tree,
      an unknown type names a node of that type, at whatever depth. */
  lemma {:induction false} ErrorsComeFromTheTree(env: Env, n: HastNode, st: State)
    requires Converted(env, n, st).Err?
    ensures Mentions(n, Converted(env, n, st).error)
    decreases n
  {
    var e := Converted(env, n, st).error;
    if n.HRoot? && n.children.Present? {
      var cs := n.children.nodes;
      var i :| 0 <= i < |cs| && Converted(env, cs[i], st) == Err(e);
      ErrorsComeFromTheTree(env, cs[i], st);
    } else if n.HElement? {
      var child := ChildState(st, n.properties, n.tagName);
      if SplicesContent(n, child) {
        var c := n.content.value;
        assert RootOf(env, c, child) == Err(e);
        if (c.HRoot? || c.HElement?) && c.children.Present? {
          var cs := c.children.nodes;
          assert ConvertedChildren(env, cs, child) == Err(e);
          var i :| 0 <= i < |cs| && Converted(env, cs[i], child) == Err(e);
          ErrorsComeFromTheTree(env, cs[i], child);
          assert 0 <= i < |c.children.nodes| && Mentions(c.children.nodes[i], e);
          assert Mentions(c, e);
        } else {
          assert Culprit(n, e);
        }
      } else if n.children.Present? {
        var cs := n.children.nodes;
        var i :| 0 <= i < |cs| && Converted(env, cs[i], child) == Err(e);
        ErrorsComeFromTheTree(env, cs[i], child);
      }
    }
  }

  /** A tree that hast's types describe converts without throwing, under any
      state. */
  lemma {:induction false} HastTreesConvert(env: Env, n: HastNode, st: State)
    requires HastTree(n)
    ensures Converted(env, n, st).Ok?
    decreases n
  {
    match n {
      case HRoot(cs, _) =>
        forall i | 0 <= i < |cs.nodes| ensures Converted(env, cs.nodes[i], st).Ok? {
          HastTreesConvert(env, cs.nodes[i], st);
        }
      case HElement(_, _, cs, content, _) =>
        var child := ChildState(st, n.properties, n.tagName);
        if SplicesContent(n, child) {
          var ks := content.value.children.nodes;
          forall i | 0 <= i < |ks| ensures Converted(env, ks[i], child).Ok? {
            HastTreesConvert(env, ks[i], child);
          }
          assert RootOf(env, content.value, child).Ok?;
        } else {
          forall i | 0 <= i < |cs.nodes| ensures Converted(env, cs.nodes[i], child).Ok? {
            HastTreesConvert(env, cs.nodes[i], child);
          }
        }
      case _ =>
    }
  }

  /** An element's attributes: the `xmlns` declaration when its namespace URI
      differs from its parent's, then every surviving property under its
      canonical name, the last property to write a name winning (so an
      explicit `xmlns` property, MathML's for one, replaces the declaration). */
  lemma ElementAttributes(env: Env, n: HastNode, st: State, k: string)
    requires n.HElement? && Converted(env, n, st).Ok?
    ensures var attrs := Converted(env, n, st).value.attributes;
      var child := ChildState(st, n.properties, n.tagName);
      var ps := n.properties;
      && (k in attrs <==> (k == "xmlns" && st.ns != child.ns)
                          || exists i :: 0 <= i < |ps| && Writes(env, child.schema, ps[i], k))
      && ((k == "xmlns" && st.ns != child.ns && (forall i :: 0 <= i < |ps| ==> !Writes(env, child.schema, ps[i], k)))
          ==> attrs[k] == Uri(child.schema))
      && (forall i :: 0 <= i < |ps| && Writes(env, child.schema, ps[i], k)
            && (forall j :: i < j < |ps| ==> !Writes(env, child.schema, ps[j], k))
            ==> attrs[k] == Emitted(env, child.schema, ps[i]).value.1)
  {
    var child := ChildState(st, n.properties, n.tagName);
    var ps := n.properties;
    var declared := DeclaredNamespace(st, child);
    ApplyKeys(env, child.schema, ps, declared, k);
    if forall i :: 0 <= i < |ps| ==> !Writes(env, child.schema, ps[i], k) {
      Untouched(env, child.schema, ps, declared, k);
    }
    forall i | 0 <= i < |ps| && Writes(env, child.schema, ps[i], k)
        && (forall j :: i < j < |ps| ==> !Writes(env, child.schema, ps[j], k))
      ensures Converted(env, n, st).value.attributes[k] == Emitted(env, child.schema, ps[i]).value.1
    {
      LastWriteWins(env, child.schema, ps, declared, i);
    }
  }

  /** The outermost element always declares its namespace (the initial state
      has none); below it, the state is consistent and an element without an
      `xmlns`-writing property declares one exactly when its schema differs
      from its parent's. */
  lemma NamespaceDeclaration(env: Env, n: HastNode, st: State)
    requires n.HElement? && Converted(env, n, st).Ok?
    ensures st.ns.None? ==> "xmlns" in Converted(env, n, st).value.attributes
    ensures var child := ChildState(st, n.properties, n.tagName);
      Consistent(st) && (forall i :: 0 <= i < |n.properties| ==> !Writes(env, child.schema, n.properties[i], "xmlns"))
      ==> ("xmlns" in Converted(env, n, st).value.attributes <==> child.schema != st.schema)
  {
    ElementAttributes(env, n, st, "xmlns");
  }

  /** The children an element's output is made from: its content's children
      for an HTML `template` with content, its own otherwise. */
  function SourceChildren(n: HastNode, child: State): Children
    requires n.HElement?
  {
    if SplicesContent(n, child) then ChildrenOf(n.content.value) else n.children
  }

  /** An element's children are converted one to one, in order, under the
      element's own state; an HTML `template` takes them from its content. */
  lemma ElementChildren(env: Env, n: HastNode, st: State)
    requires n.HElement? && Converted(env, n, st).Ok?
    ensures var child := ChildState(st, n.properties, n.tagName);
      var out := Converted(env, n, st).value.children.value;
      && SourceChildren(n, child).Present?
      && |out| == |SourceChildren(n, child).nodes|
      && forall i :: 0 <= i < |out| ==> Converted(env, SourceChildren(n, child).nodes[i], child) == Ok(out[i])
  {
    var child := ChildState(st, n.properties, n.tagName);
    if SplicesContent(n, child) {
      var root := RootOf(env, n.content.value, child);
      assert root.Ok? && Converted(env, n, st).value.children == root.value.children;
      assert ConvertedChildren(env, ChildrenOf(n.content.value).nodes, child).Ok?;
    } else {
      assert ConvertedChildren(env, n.children.nodes, child).Ok?;
    }
  }

  /** An HTML `template` with content ignores its literal children. */
  lemma TemplateIgnoresLiteralChildren(env: Env, n: HastNode, st: State, other: Children)
    requires n.HElement? && SplicesContent(n, ChildState(st, n.properties, n.tagName))
    ensures Converted(env, n, st) == Converted(env, HElement(n.tagName, n.properties, other, n.content, n.position), st)
  {
    var m := HElement(n.tagName, n.properties, other, n.content, n.position);
    assert ChildState(st, m.properties, m.tagName) == ChildState(st, n.properties, n.tagName);
  }
}
