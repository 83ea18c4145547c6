/** The schema and namespace state each element is converted under, and the
    collaborators the transform consults but does not implement. */
module Schemas {
  import opened Trees

  /** The two schemas (`html`, `svg` of property-information). */
  datatype Space = Html | Svg

  /** What `find(schema, key)` returns: the canonical attribute name and
      whether the attribute is boolean-typed or comma-separated. */
  datatype Info = Info(attribute: string, boolean: bool, commaSeparated: bool)

  /** The external services, injected so that every result below holds for
      any lookup table and any stringifier: `find` of property-information,
      `stringify` of comma-separated-tokens and of space-separated-tokens,
      and JavaScript's `String(number)`. All are total. */
  datatype Env = Env(
    find: (Space, string) -> Info,
    commas: seq<Token> -> string,
    spaces: seq<Token> -> string,
    numberToString: Number -> string)

  /** The web namespace URIs of HTML and SVG. */
  const HtmlNs: string := "http://www.w3.org/1999/xhtml"
  const SvgNs: string := "http://www.w3.org/2000/svg"

  /** The web-namespace URI of a schema. */
  function Uri(s: Space): (r: string)
    ensures r == HtmlNs <==> s == Html
    ensures r == SvgNs <==> s == Svg
  {
    match s
    case Html => HtmlNs
    case Svg => SvgNs
  }

  /** The second argument of `toXast`: absent (or null), a bare string, or a
      configuration object whose `space` may be missing. */
  datatype Options = NoOptions | Bare(s: string) | Config(space: Option<string>)

  /** The state passed down the tree: the current schema and the namespace
      URI in effect (`None` above the outermost element). */
  datatype State = State(schema: Space, ns: Option<string>)

  /** The state handed to an element's children: its namespace URI is the
      one its schema names. Every state below the outermost element is one. */
  predicate Consistent(st: State) {
    st.ns == Some(Uri(st.schema))
  }

  /** `props[key]`, `undefined` for a missing key. */
  function Lookup(ps: Properties, key: string): (r: Value)
    ensures r != Undefined ==> exists i :: 0 <= i < |ps| && ps[i] == (key, r)
    ensures forall i :: 0 <= i < |ps| && ps[i].0 == key ==> r == ps[i].1
  {
    if ps == [] then Undefined
    else if ps[0].0 == key then ps[0].1
    else Lookup(ps[1..], key)
  }

  /** The schema an element's subtree is in, from its `xmlns` property, its
      tag name and the inherited schema (an explicit HTML or SVG URI wins,
      another truthy `xmlns` keeps the inherited schema, and otherwise `svg`
      in HTML enters SVG). */
  function ResolveSchema(xmlns: Value, tagName: string, inherited: Space): (r: Space)
    // a change of schema is always to the one `xmlns` names, or into SVG by the tag
    ensures r != inherited ==> xmlns == Str(Uri(r)) || (r == Svg && tagName == "svg" && !Truthy(xmlns))
    ensures xmlns == Str(Uri(r)) || !Truthy(xmlns) || r == inherited
  {
    if xmlns == Str(HtmlNs) then Html
    else if xmlns == Str(SvgNs) then Svg
    else if Truthy(xmlns) then inherited
    else if inherited == Html && tagName == "svg" then Svg
    else inherited
  }

  /** The state of an element's subtree: the resolved schema and its URI. */
  function ChildState(st: State, props: Properties, tagName: string): (r: State)
    ensures Consistent(r)
  {
    var schema := ResolveSchema(Lookup(props, "xmlns"), tagName, st.schema);
    State(schema, Some(Uri(schema)))
  }

  /** The attributes an element starts with: an `xmlns` declaration exactly
      when its namespace URI differs from its parent's. */
  function DeclaredNamespace(parent: State, child: State): (r: map<string, string>)
    ensures r.Keys <= {"xmlns"}
    ensures "xmlns" in r <==> parent.ns != child.ns && child.ns.Some?
    ensures "xmlns" in r ==> Some(r["xmlns"]) == child.ns
  {
    if parent.ns != child.ns && child.ns.Some? then map["xmlns" := child.ns.value] else map[]
  }

  /** The schema changes only by entering the other schema's URI explicitly,
      or by an `svg` element in HTML without a truthy `xmlns`. */
  lemma SchemaSwitch(xmlns: Value, tagName: string, inherited: Space)
    ensures ResolveSchema(xmlns, tagName, inherited) != inherited <==>
      if inherited == Html then xmlns == Str(SvgNs) || (!Truthy(xmlns) && tagName == "svg")
      else xmlns == Str(HtmlNs)
  {
  }

  /** An explicit HTML or SVG `xmlns` decides the schema whatever the tag and
      the inherited schema; any other truthy `xmlns` (MathML, say) is not
      supported and leaves the schema as it was, even on `svg`. */
  lemma ExplicitNamespaceWins(xmlns: Value, tagName: string, inherited: Space)
    ensures xmlns == Str(HtmlNs) ==> ResolveSchema(xmlns, tagName, inherited) == Html
    ensures xmlns == Str(SvgNs) ==> ResolveSchema(xmlns, tagName, inherited) == Svg
    ensures Truthy(xmlns) && xmlns != Str(HtmlNs) && xmlns != Str(SvgNs) ==>
      ResolveSchema(xmlns, tagName, inherited) == inherited
  {
  }

  /** Under a consistent parent state an element declares `xmlns` exactly
      when its schema differs from its parent's; above the outermost element
      it always does. */
  lemma DeclarationIffSchemaChanges(parent: State, props: Properties, tagName: string)
    ensures var child := ChildState(parent, props, tagName);
      && (Consistent(parent) ==> ("xmlns" in DeclaredNamespace(parent, child) <==> child.schema != parent.schema))
      && (parent.ns.None? ==> DeclaredNamespace(parent, child) == map["xmlns" := Uri(child.schema)])
  {
  }
}
