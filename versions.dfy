/** How the older transform (index.js) and the current one (lib/index.js)
    relate: where they differ, each difference on a witness, and that they
    agree, errors included, on canonical trees: children everywhere, every
    `template` with a root as `content`, doctypes `html`. */
module Versions {
  import opened Trees
  import opened Schemas
  import opened Attributes
  import Current = ToXast
  import Legacy = LegacyToXast

  /** Options that are absent or an object start both versions in the same
      state; a bare string is ignored by the current version, so `'svg'`
      starts the older one in SVG and the current one in HTML. */
  lemma OptionsAgree(options: Options)
    ensures !options.Bare? ==> Current.InitialState(options) == Legacy.InitialState(options)
    ensures options.Bare? ==>
      && Current.InitialState(options) == State(Html, None)
      && (Legacy.InitialState(options) == State(Html, None) <==> options.s != "svg")
  {
  }

  /** The current version always emits `<!doctype html>`; the older one copies
      the name (`''` when missing) and both identifiers. The two agree exactly
      on a doctype named `html` without identifiers. */
  lemma DoctypeDiffers(env: Env, n: HastNode, st: State)
    requires n.HDoctype?
    ensures Current.Converted(env, n, st) == Ok(XDoctype("html", None, None, n.position))
    ensures Legacy.Converted(env, n, st) == Ok(XDoctype(n.name.GetOr(""), n.publicId, n.systemId, n.position))
    ensures Current.Converted(env, n, st) == Legacy.Converted(env, n, st) <==>
      n.name == Some("html") && n.publicId.None? && n.systemId.None?
  {
    Current.Leaves(env, n, st);
    Legacy.Leaves(env, n, st);
  }

  /** An HTML `template` without `content`: the current version falls back to
      the element's own children, the older one throws. */
  lemma TemplateWithoutContent(env: Env, n: HastNode, st: State)
    requires n.HElement? && n.tagName == "template" && n.content.None? && n.children.Present?
    requires ChildState(st, n.properties, n.tagName).schema == Html
    ensures Legacy.Converted(env, n, st) == Err(TypeError)
    ensures var child := ChildState(st, n.properties, n.tagName);
      Current.ConvertedChildren(env, n.children.nodes, child).Ok? ==>
        && Current.Converted(env, n, st).Ok?
        && Current.Converted(env, n, st).value.children
           == Some(Current.ConvertedChildren(env, n.children.nodes, child).value)
  {
    Legacy.TemplateNeedsContent(env, n, st);
    var child := ChildState(st, n.properties, n.tagName);
    assert !Current.SplicesContent(n, child);
  }

  /** A root or (non-template) element without `children`: the current
      version throws reading them, the older one leaves `children` out. */
  lemma MissingChildren(env: Env, n: HastNode, st: State)
    requires (n.HRoot? || n.HElement?) && n.children.Missing?
    requires n.HElement? ==> !Legacy.TakesContent(n, ChildState(st, n.properties, n.tagName))
    ensures Current.Converted(env, n, st) == Err(TypeError)
    ensures Legacy.Converted(env, n, st).Ok? && Legacy.Converted(env, n, st).value.children.None?
  {
    Legacy.ChildrenOmitted(env, n, st);
    if n.HElement? {
      assert !Current.SplicesContent(n, ChildState(st, n.properties, n.tagName));
    }
  }

  /** An HTML `template` whose `content` is neither a root nor an element:
      the current version throws reading the content's children, the older
      one gets no `children` from it. */
  lemma TemplateContentNotARoot(env: Env, n: HastNode, st: State)
    requires n.HElement? && n.tagName == "template" && n.content.Some?
    requires !(n.content.value.HRoot? || n.content.value.HElement?)
    requires ChildState(st, n.properties, n.tagName).schema == Html
    ensures Current.Converted(env, n, st) == Err(TypeError)
    ensures Legacy.Converted(env, n, st).Ok? && Legacy.Converted(env, n, st).value.children.None?
  {
    var child := ChildState(st, n.properties, n.tagName);
    var c := n.content.value;
    var node := XElement(n.tagName, Apply(env, child.schema, n.properties, DeclaredNamespace(st, child)), None, None);
    assert Legacy.RootOf(env, c, child) == Legacy.PatchOf(env, c, XRoot(None, None), child) == Ok(Patched(c, XRoot(None, None)));
    assert Legacy.Converted(env, n, st) == Legacy.PatchOf(env, n, node, child) == Ok(Patched(n, WithChildren(node, None)));
  }

  /** Both versions share the element logic: every element the older
      version converts (with or without `children`, whatever its template
      content) gets its tag as name and exactly the attributes the current
      version computes, which that version gives it whenever it succeeds. */
  lemma ElementLogicShared(env: Env, n: HastNode, st: State)
    requires n.HElement? && Legacy.Converted(env, n, st).Ok?
    ensures Legacy.Converted(env, n, st).value.XElement?
    ensures Legacy.Converted(env, n, st).value.name == n.tagName
    ensures Legacy.Converted(env, n, st).value.attributes == Current.AttributesOf(env, n, st)
    ensures Current.Converted(env, n, st).Ok? ==>
      Current.Converted(env, n, st).value.attributes == Current.AttributesOf(env, n, st)
  {
    assert Legacy.Converted(env, n, st) == Legacy.ElementOf(env, n, st);
  }

  /** Trees on which the differences above cannot show: every root and
      element has `children`, every `template` has a root as `content`, and
      every doctype is `<!doctype html>`. Non-nodes and unknown types are
      allowed: both versions reject them the same way. The condition does not
      depend on the schema, so it also excludes some trees on which both
      versions agree (an SVG-space `template` without `content`, say). */
  predicate Canonical(n: HastNode)
    decreases n
  {
    match n
    case HRoot(cs, _) => cs.Present? && forall i :: 0 <= i < |cs.nodes| ==> Canonical(cs.nodes[i])
    case HElement(name, _, cs, content, _) =>
      && cs.Present? && (forall i :: 0 <= i < |cs.nodes| ==> Canonical(cs.nodes[i]))
      && (name == "template" ==> content.Some? && content.value.HRoot? && Canonical(content.value))
    case HDoctype(name, publicId, systemId, _) => name == Some("html") && publicId.None? && systemId.None?
    case HText(_, _) => true
    case HComment(_, _) => true
    case HOther(_, _) => true
    case NotANode(_) => true
  }

  /** On a canonical tree the two versions produce the same result under any
      state: the same output tree, or the same first error. */
  lemma {:induction false} VersionsAgree(env: Env, n: HastNode, st: State)
    requires Canonical(n)
    ensures Current.Converted(env, n, st) == Legacy.Converted(env, n, st)
    decreases n, 1
  {
    match n {
      case HRoot(cs, _) =>
        ChildrenAgree(env, cs.nodes, st);
        assert Legacy.Converted(env, n, st) == Legacy.PatchOf(env, n, XRoot(None, None), st);
      case HElement(name, props, cs, content, _) =>
        var child := ChildState(st, props, name);
        var node := XElement(name, Apply(env, child.schema, props, DeclaredNamespace(st, child)), None, None);
        assert Legacy.Converted(env, n, st) == Legacy.PatchOf(env, n, node, child);
        if Current.SplicesContent(n, child) {
          var c := content.value;
          ChildrenAgree(env, c.children.nodes, child);
          assert Legacy.RootOf(env, c, child) == Legacy.PatchOf(env, c, XRoot(None, None), child);
          match Current.ConvertedChildren(env, c.children.nodes, child) {
            case Err(e) =>
              assert Current.RootOf(env, c, child) == Err(e) == Legacy.RootOf(env, c, child);
            case Ok(xs) =>
              assert Current.RootOf(env, c, child) == Ok(Patched(c, XRoot(Some(xs), None)));
              assert Legacy.RootOf(env, c, child) == Ok(Patched(c, XRoot(Some(xs), None)));
              assert Legacy.PatchOf(env, n, node, child) == Ok(Patched(n, WithChildren(node, Some(xs))));
          }
        } else {
          ChildrenAgree(env, cs.nodes, child);
        }
      case HDoctype(_, _, _, _) =>
        DoctypeDiffers(env, n, st);
      case _ =>
    }
  }

  /** The children loops agree on a sequence of canonical nodes. */
  lemma {:induction false} ChildrenAgree(env: Env, cs: seq<HastNode>, st: State)
    requires forall i :: 0 <= i < |cs| ==> Canonical(cs[i])
    ensures Current.ConvertedChildren(env, cs, st) == Legacy.ConvertedChildren(env, cs, st)
    decreases cs, 0
  {
    if cs != [] {
      VersionsAgree(env, cs[0], st);
      ChildrenAgree(env, cs[1..], st);
    }
  }
}
