/** The older transform (index.js). Its element logic is the current one's;
    it differs in taking a bare-string option, copying doctype fields, and
    in `patch`, which fills `children` for every root and element that has
    them (none otherwise) and takes an HTML template's children from
    `root(content)` whether or not `content` exists.

    As in ToXast, the `…Of` and `Converted…` functions say what each handler
    produces and the methods are the handlers as the source writes them. */
module LegacyToXast {
  import opened Trees
  import opened Schemas
  import opened Attributes

  /** The space is the option itself when it is a string, else the `space`
      of the options object; the schema is SVG exactly for `'svg'`, and no
      namespace is in effect yet. */
  function InitialState(options: Options): (st: State)
    ensures st.schema == Svg <==> options == Bare("svg") || options == Config(Some("svg"))
    ensures st.ns.None?
  {
    var space :=
      match options
      case Bare(s) => Some(s)
      case Config(sp) => sp
      case NoOptions => None;
    State(if space == Some("svg") then Svg else Html, None)
  }

  // ---------------------------------------------------------------------
  // What each handler produces

  /** `one`: the dispatch on `type`; every handler builds a node literal and
      hands it to `patch`. */
  function Converted(env: Env, n: HastNode, cfg: State): (r: Result<XastNode>)
    decreases n, 2
    ensures r.Ok? ==> SameKind(n, r.value) && r.value.position == PositionOf(n)
  {
    match n
    case NotANode(shown) => Err(ExpectedNode(shown))
    case HOther(t, _) => Err(CannotTransform(t))
    case HRoot(_, _) => RootOf(env, n, cfg)
    case HElement(_, _, _, _, _) => ElementOf(env, n, cfg)
    case HText(v, _) => PatchOf(env, n, XText(v.GetOr(""), None), cfg)
    case HComment(v, _) => PatchOf(env, n, XComment(v.GetOr(""), None), cfg)
    case HDoctype(name, p, s, _) => PatchOf(env, n, XDoctype(name.GetOr(""), p, s, None), cfg)
  }

  /** Each child converted under the same configuration, stored at its own
      index, or the error of the first child that fails. */
  function ConvertedChildren(env: Env, cs: seq<HastNode>, cfg: State): (r: Result<seq<XastNode>>)
    decreases cs
    ensures r.Ok? <==> forall i :: 0 <= i < |cs| ==> Converted(env, cs[i], cfg).Ok?
    ensures r.Ok? ==> |r.value| == |cs| && forall i :: 0 <= i < |cs| ==> Converted(env, cs[i], cfg) == Ok(r.value[i])
    ensures r.Err? ==> exists i :: 0 <= i < |cs| && Converted(env, cs[i], cfg) == Err(r.error)
                                && forall j :: 0 <= j < i ==> Converted(env, cs[j], cfg).Ok?
  {
    if cs == [] then Ok([])
    else
      match Converted(env, cs[0], cfg)
      case Err(e) => Err(e)
      case Ok(x) =>
        match ConvertedChildren(env, cs[1..], cfg)
        case Err(e) => Err(e)
        case Ok(xs) => Ok([x] + xs)
  }

  /** `root`: an empty root patched from the node. */
  function RootOf(env: Env, n: HastNode, cfg: State): (r: Result<XastNode>)
    decreases n, 1
    ensures r.Ok? ==> r.value.XRoot?
  {
    PatchOf(env, n, XRoot(None, None), cfg)
  }

  /** `element`: the element literal (name and attributes) patched under the
      element's own state. */
  function ElementOf(env: Env, n: HastNode, parent: State): (r: Result<XastNode>)
    requires n.HElement?
    decreases n, 1
    ensures var config := ChildState(parent, n.properties, n.tagName);
      r.Ok? ==>
        && r.value.XElement? && r.value.name == n.tagName && r.value.position == n.position
        && r.value.attributes == Apply(env, config.schema, n.properties, DeclaredNamespace(parent, config))
  {
    var config := ChildState(parent, n.properties, n.tagName);
    var attributes := Apply(env, config.schema, n.properties, DeclaredNamespace(parent, config));
    PatchOf(env, n, XElement(n.tagName, attributes, None, None), config)
  }

  /** Is `origin` an HTML `template`, whose children come from `content`? */
  predicate TakesContent(origin: HastNode, config: State) {
    config.schema == Html && origin.HElement? && origin.tagName == "template"
  }

  /** `patch`: children from the template's content root, or from the
      origin's own children when it is a root or element that has them (no
      `children` field otherwise); then the position. */
  function PatchOf(env: Env, origin: HastNode, node: XastNode, config: State): (r: Result<XastNode>)
    decreases origin, 0
    ensures r.Ok? ==> r.value.position == if PositionOf(origin).Some? then PositionOf(origin) else node.position
    ensures r.Ok? ==>
      && (r.value.XRoot? <==> node.XRoot?) && (r.value.XElement? <==> node.XElement?)
      && (r.value.XText? <==> node.XText?) && (r.value.XComment? <==> node.XComment?)
      && (r.value.XDoctype? <==> node.XDoctype?)
  {
    if TakesContent(origin, config) then
      match origin.content
      case None => Err(TypeError)
      case Some(c) =>
        match RootOf(env, c, config)
        case Err(e) => Err(e)
        case Ok(x) => Ok(Patched(origin, WithChildren(node, x.children)))
    else if (origin.HRoot? || origin.HElement?) && origin.children.Present? then
      match ConvertedChildren(env, origin.children.nodes, config)
      case Err(e) => Err(e)
      case Ok(xs) => Ok(Patched(origin, WithChildren(node, Some(xs))))
    else Ok(Patched(origin, node))
  }

  // ---------------------------------------------------------------------
  // The handlers as the source writes them

  /** `toXast(tree, options)` */
  method ToXast(env: Env, tree: HastNode, options: Options) returns (r: Result<XastNode>)
    ensures r == Converted(env, tree, InitialState(options))
  {
    var space := if options.Bare? then Some(options.s) else if options.Config? then options.space else None;
    r := One(env, tree, State(if space == Some("svg") then Svg else Html, None));
  }

  /** `one` */
  method One(env: Env, n: HastNode, cfg: State) returns (r: Result<XastNode>)
    decreases n, 2
    ensures r == Converted(env, n, cfg)
  {
    match n {
      case NotANode(shown) => r := Err(ExpectedNode(shown));
      case HOther(t, _) => r := Err(CannotTransform(t));
      case HRoot(_, _) => r := Root(env, n, cfg);
      case HElement(_, _, _, _, _) => r := Element(env, n, cfg);
      case HText(_, _) => r := Text(env, n, cfg);
      case HComment(_, _) => r := Comment(env, n, cfg);
      case HDoctype(_, _, _, _) => r := Doctype(env, n, cfg);
    }
  }

  /** `root` */
  method Root(env: Env, n: HastNode, cfg: State) returns (r: Result<XastNode>)
    decreases n, 1
    ensures r == RootOf(env, n, cfg)
  {
    r := Patch(env, n, XRoot(None, None), cfg);
  }

  /** `text` */
  method Text(env: Env, n: HastNode, cfg: State) returns (r: Result<XastNode>)
    requires n.HText?
    decreases n, 1
    ensures r == Converted(env, n, cfg)
  {
    r := Patch(env, n, XText(n.value.GetOr(""), None), cfg);
  }

  /** `comment` */
  method Comment(env: Env, n: HastNode, cfg: State) returns (r: Result<XastNode>)
    requires n.HComment?
    decreases n, 1
    ensures r == Converted(env, n, cfg)
  {
    r := Patch(env, n, XComment(n.value.GetOr(""), None), cfg);
  }

  /** `doctype` */
  method Doctype(env: Env, n: HastNode, cfg: State) returns (r: Result<XastNode>)
    requires n.HDoctype?
    decreases n, 1
    ensures r == Converted(env, n, cfg)
  {
    r := Patch(env, n, XDoctype(n.name.GetOr(""), n.publicId, n.systemId, None), cfg);
  }

  /** `element` */
  method Element(env: Env, n: HastNode, parentConfig: State) returns (r: Result<XastNode>)
    requires n.HElement?
    decreases n, 1
    ensures r == ElementOf(env, n, parentConfig)
  {
    var props := n.properties;
    var schema := parentConfig.schema;
    var xmlns := Lookup(props, "xmlns");
    if xmlns == Str(HtmlNs) {
      schema := Html;
    } else if xmlns == Str(SvgNs) {
      schema := Svg;
    } else if Truthy(xmlns) {
      // a namespace other than HTML and SVG: stay in the same schema
    } else if schema == Html && n.tagName == "svg" {
      schema := Svg;
    }
    var config := State(schema, Some(Uri(schema)));
    assert config == ChildState(parentConfig, props, n.tagName);

    var attributes: map<string, string> := map[];
    if parentConfig.ns != config.ns {
      attributes := attributes["xmlns" := Uri(schema)];
    }
    ghost var declared := attributes;
    var i := 0;
    while i < |props|
      invariant 0 <= i <= |props|
      invariant attributes == Apply(env, schema, props[..i], declared)
    {
      ApplyStep(env, schema, props, declared, i);
      var (key, value) := props[i];
      var info := env.find(schema, key);
      LegacyDropsAgree(value, info);
      if LegacyDrops(value, info) {
        i := i + 1;
        continue;
      }
      var s: string;
      if value == Bool(true) || info.boolean {
        s := "";
      } else if value.Arr? {
        s := if info.commaSeparated then env.commas(value.items) else env.spaces(value.items);
      } else if !value.Str? {
        s := env.numberToString(value.n);
      } else {
        s := value.s;
      }
      attributes := attributes[info.attribute := s];
      i := i + 1;
    }
    assert props[..|props|] == props;
    r := Patch(env, n, XElement(n.tagName, attributes, None, None), config);
  }

  /** `patch` */
  method Patch(env: Env, origin: HastNode, node: XastNode, config: State) returns (r: Result<XastNode>)
    decreases origin, 0
    ensures r == PatchOf(env, origin, node, config)
  {
    var result := node;
    if config.schema == Html && origin.HElement? && origin.tagName == "template" {
      if origin.content.None? {
        return Err(TypeError);
      }
      var content := Root(env, origin.content.value, config);
      if content.Err? {
        return Err(content.error);
      }
      result := WithChildren(result, content.value.children);
    } else if (origin.HRoot? || origin.HElement?) && origin.children.Present? {
      var cs := origin.children.nodes;
      var children: seq<XastNode> := [];
      var index := 0;
      while index < |cs|
        invariant 0 <= index <= |cs| && |children| == index
        invariant forall j :: 0 <= j < index ==> Converted(env, cs[j], config) == Ok(children[j])
      {
        var x := One(env, cs[index], config);
        if x.Err? {
          return Err(x.error);
        }
        children := children + [x.value];
        index := index + 1;
      }
      assert ConvertedChildren(env, cs, config).value == children;
      result := WithChildren(result, Some(children));
    }
    r := Ok(Patched(origin, result));
  }

  // ---------------------------------------------------------------------
  // Properties of the older transform

  /** Leaves: text and comment keep their value (`''` when missing); a
      doctype keeps its name (`''` when missing) and its public and system
      identifiers as they are. */
  lemma Leaves(env: Env, n: HastNode, cfg: State)
    ensures n.HText? ==> Converted(env, n, cfg) == Ok(XText(n.value.GetOr(""), n.position))
    ensures n.HComment? ==> Converted(env, n, cfg) == Ok(XComment(n.value.GetOr(""), n.position))
    ensures n.HDoctype? ==>
      Converted(env, n, cfg) == Ok(XDoctype(n.name.GetOr(""), n.publicId, n.systemId, n.position))
    ensures n.NotANode? ==> Converted(env, n, cfg) == Err(ExpectedNode(n.shown))
    ensures n.HOther? ==> Converted(env, n, cfg) == Err(CannotTransform(n.nodeType))
  {
  }

  /** A root or element without `children` gets no `children` field (an
      HTML template aside), rather than an error. */
  lemma ChildrenOmitted(env: Env, n: HastNode, cfg: State)
    requires (n.HRoot? || n.HElement?) && n.children.Missing?
    requires n.HElement? ==> !TakesContent(n, ChildState(cfg, n.properties, n.tagName))
    ensures Converted(env, n, cfg).Ok? && Converted(env, n, cfg).value.children.None?
  {
    if n.HElement? {
      var config := ChildState(cfg, n.properties, n.tagName);
      var attributes := Apply(env, config.schema, n.properties, DeclaredNamespace(cfg, config));
      var node := XElement(n.tagName, attributes, None, None);
      assert Converted(env, n, cfg) == PatchOf(env, n, node, config) == Ok(Patched(n, node));
    } else {
      assert Converted(env, n, cfg) == PatchOf(env, n, XRoot(None, None), cfg) == Ok(Patched(n, XRoot(None, None)));
    }
  }

  /** An HTML template always reads its `content`: without one the
      transform throws, whatever its literal children. */
  lemma TemplateNeedsContent(env: Env, n: HastNode, cfg: State)
    requires n.HElement? && n.tagName == "template" && n.content.None?
    requires ChildState(cfg, n.properties, n.tagName).schema == Html
    ensures Converted(env, n, cfg) == Err(TypeError)
  {
    var config := ChildState(cfg, n.properties, n.tagName);
    var attributes := Apply(env, config.schema, n.properties, DeclaredNamespace(cfg, config));
    assert Converted(env, n, cfg) == PatchOf(env, n, XElement(n.tagName, attributes, None, None), config);
  }

  /** An HTML template with `content` takes its children, whatever they
      are (none included), from `root(content)`, ignoring its own. */
  lemma TemplateTakesContent(env: Env, n: HastNode, cfg: State)
    requires n.HElement? && n.content.Some? && TakesContent(n, ChildState(cfg, n.properties, n.tagName))
    requires Converted(env, n, cfg).Ok?
    ensures var child := ChildState(cfg, n.properties, n.tagName);
      && RootOf(env, n.content.value, child).Ok?
      && Converted(env, n, cfg).value.children == RootOf(env, n.content.value, child).value.children
  {
    var child := ChildState(cfg, n.properties, n.tagName);
    var node := XElement(n.tagName, Apply(env, child.schema, n.properties, DeclaredNamespace(cfg, child)), None, None);
    assert Converted(env, n, cfg) == PatchOf(env, n, node, child);
  }

  /** Every root and element that has `children` maps them one to one, in
      order, under its own state (an HTML template takes its content
      root's instead). */
  lemma ChildrenOneToOne(env: Env, n: HastNode, cfg: State)
    requires (n.HRoot? || n.HElement?) && n.children.Present? && Converted(env, n, cfg).Ok?
    ensures var inner := if n.HElement? then ChildState(cfg, n.properties, n.tagName) else cfg;
      var out := Converted(env, n, cfg).value.children;
      !TakesContent(n, inner) ==>
        && out.Some? && |out.value| == |n.children.nodes|
        && forall i :: 0 <= i < |out.value| ==> Converted(env, n.children.nodes[i], inner) == Ok(out.value[i])
  {
    var inner := if n.HElement? then ChildState(cfg, n.properties, n.tagName) else cfg;
    if !TakesContent(n, inner) {
      var node := if n.HElement? then
          XElement(n.tagName, Apply(env, inner.schema, n.properties, DeclaredNamespace(cfg, inner)), None, None)
        else XRoot(None, None);
      assert Converted(env, n, cfg) == PatchOf(env, n, node, inner);
      assert ConvertedChildren(env, n.children.nodes, inner).Ok?;
    }
  }
}
