# hast-util-to-xast in Dafny

A model of hast-util-to-xast, the transform that turns a hast tree into a
new xast tree. A hast tree holds HTML or SVG nodes whose element properties
are loosely typed JavaScript values. An xast tree holds XML nodes whose
attributes are strings. Two versions of the transform are modelled:

- the current one, `lib/index.js`, in module `ToXast`;
- the older one, `index.js`, in module `LegacyToXast`.

Both share the namespace state machine (`Schemas`) and the attribute
normalisation (`Attributes`). Module `Versions` proves where the two
versions differ, and proves that they agree, errors included, on
canonical trees: every root and element has `children`, every `template`
has a root as `content`, and every doctype is `<!doctype html>`.

Files:

- `trees.dfy` (module `Trees`) defines both node types, the property
  values, JavaScript truthiness, the errors and `patch`'s position copy.
- `schemas.dfy` (module `Schemas`) resolves each element's schema (HTML or
  SVG) and namespace URI, and decides the `xmlns` declaration. Namespace
  defaulting follows section 6.2 of Namespaces in XML 1.0.
- `attributes.dfy` (module `Attributes`) decides which property values are
  dropped and what string the others become. `Apply` is the attribute loop
  as a fold over the properties in order.
- `to_xast.dfy` (module `ToXast`) and `legacy_to_xast.dfy` (module
  `LegacyToXast`) each hold two layers:
  - functions (`Converted`, `ConvertedChildren`, `RootOf`, `ElementOf`,
    `PatchOf`) that say what each handler produces;
  - methods (`ToXast`, `One`, `Root`, `Element`, `All`, `Patch`, …) that
    are the handlers as the source writes them. Their `while` loops fill
    `attributes` and `children`, and each method is proved to return
    exactly its function's result.
- `versions.dfy` (module `Versions`) relates the two versions.

A thrown error is a `Result` error. Children are converted in order and
the first error wins, so no partial tree is ever returned. Several things
are parameters of `Env`, so every result holds for any of them:

- `find` of property-information;
- the comma and space stringifiers;
- `String(number)`.

## Model

| member | source | states |
|---|---|---|
| Schemas.Uri | lib/index.js:219-224 | the namespace URI of a schema is the HTML URI exactly for HTML and the SVG URI exactly for SVG |
| Schemas.Lookup | lib/index.js:209-215 | `props.xmlns` is the value of the property with that key, `undefined` when there is none |
| Schemas.ChildState | lib/index.js:219-224 | the state handed to an element's children always carries the URI of its resolved schema |
| Schemas.ResolveSchema | lib/index.js:209-217 | an element's schema differs from the inherited one only when `xmlns` names it, or when an `svg` tag without a truthy `xmlns` enters SVG; a truthy `xmlns` that names neither schema keeps the inherited one |
| Schemas.DeclaredNamespace | lib/index.js:226-228 | the attributes start with `xmlns` alone, holding the child's URI, exactly when the child's URI differs from the parent's |
| Schemas.SchemaSwitch | lib/index.js:209-217 | the schema changes only when the other schema's URI is given explicitly, or for `svg` in HTML without a truthy `xmlns` |
| Schemas.ExplicitNamespaceWins | lib/index.js:209-214 | an HTML or SVG `xmlns` decides the schema whatever the tag; any other truthy `xmlns` keeps the inherited schema, even on `svg` |
| Schemas.DeclarationIffSchemaChanges | lib/index.js:226-228 | below the outermost element, the implicit `xmlns` declaration is made exactly when the schema differs from the parent's; the outermost element always makes it (a property can still write `xmlns` afterwards) |
| Attributes.AttributeValue | lib/index.js:238-261 | a value is dropped exactly when it is falsy, unless it is `''` or `0` on a non-boolean attribute; `true` and boolean attributes give `''`; arrays are comma- or space-joined; numbers go through `String`; strings are kept |
| Attributes.Apply | lib/index.js:233-265 | the attribute loop only adds or overwrites attributes: every initial attribute stays present |
| Attributes.ApplyKeys | lib/index.js:233-265 | an attribute is present exactly when it was declared or some surviving property writes it |
| Attributes.LastWriteWins | lib/index.js:263 | an attribute holds the string of the last property that writes it |
| Attributes.Untouched | lib/index.js:226-265 | an attribute no property writes keeps its declared value, or stays absent |
| Attributes.LegacyDropsAgree | index.js:94-102 | the older drop test (nullish, false, unequal to itself, falsy on a boolean attribute) skips exactly the values the current one skips |
| Trees.Patched | lib/index.js:307-309 | `patch` sets the position exactly when the origin has one and changes nothing else about the node |
| Trees.MessageIdentifiesError | lib/index.js:92-107 | the "Expected node" and "Cannot transform node of type" messages identify their error: equal messages only for equal errors |
| ToXast.InitialState | lib/index.js:75-82 | the initial schema is SVG exactly for `{space: 'svg'}` (a bare string is ignored); the initial namespace is unset |
| ToXast.ToXast | lib/index.js:75-82 | `toXast` is `one` under the initial state |
| ToXast.Converted | lib/index.js:59-63 | the dispatch keeps the node kind, copies the position exactly when present, and keeps an element's `tagName` as its `name` |
| ToXast.One | lib/index.js:59-63 | the dispatch method returns exactly `Converted` |
| ToXast.ConvertedChildren | lib/index.js:122-128 | children succeed exactly when every child does, one output per input in order; otherwise the error is the first failing child's |
| ToXast.All | lib/index.js:281-285 | the children loop returns exactly `ConvertedChildren` |
| ToXast.RootOf | lib/index.js:119-134 | a root's output is a root whose children are the node's `children` converted one to one, in order, under the same state; it succeeds exactly when every child does, and a node without `children` throws |
| ToXast.Text | lib/index.js:146-151 | a text node keeps its value, which is `''` exactly when it is missing or empty, and its position |
| ToXast.Comment | lib/index.js:163-168 | a comment keeps its value, which is `''` exactly when it is missing or empty, and its position |
| ToXast.Doctype | lib/index.js:180-190 | a doctype always becomes `html` without public or system identifiers, keeping its position |
| ToXast.ElementOf | lib/index.js:203-297 | a converted element has its tag as name, the computed attributes, children and its position; one without `children` that does not splice a template's content throws |
| ToXast.Root | lib/index.js:119-134 | the `root` handler returns exactly `RootOf` |
| ToXast.Element | lib/index.js:203-297 | the `element` handler (schema resolution, attribute loop, template splicing) returns exactly `ElementOf` |
| ToXast.Leaves | lib/index.js:146-190 | text and comment keep their value (`''` when missing); a doctype always becomes `html` without identifiers; a non-node and an unknown type throw their messages |
| ToXast.ErrorsComeFromTheTree | lib/index.js:92-107 | every error names a culprit somewhere in the tree, at any depth, template contents included |
| ToXast.HastTreesConvert | lib/index.js:59-63 | a tree as hast's types describe it never makes the transform throw |
| ToXast.ElementAttributes | lib/index.js:226-263 | an element's attributes are the `xmlns` declaration plus what the properties write, the last writer winning, so an explicit `xmlns` replaces the declaration |
| ToXast.NamespaceDeclaration | lib/index.js:226-228 | the outermost element always declares `xmlns`; below it, when no property writes `xmlns`, an element declares it exactly when its schema changes |
| ToXast.ElementChildren | lib/index.js:267-286 | an element's children map one to one, in order, under its own state, taken from the content root for an HTML template with content |
| ToXast.TemplateIgnoresLiteralChildren | lib/index.js:271-279 | an HTML template with content ignores its own children |
| LegacyToXast.InitialState | index.js:35-38 | the initial schema is SVG exactly for `'svg'` or `{space: 'svg'}`; the initial namespace is unset |
| LegacyToXast.ToXast | index.js:35-38 | `toXast` is `one` under the initial state |
| LegacyToXast.Converted | index.js:15-25 | the dispatch keeps the node kind and copies the position exactly when present |
| LegacyToXast.One | index.js:15-33 | the dispatch method returns exactly `Converted` |
| LegacyToXast.ConvertedChildren | index.js:143-148 | children succeed exactly when every child does, one output per input in order; otherwise the error is the first failing child's |
| LegacyToXast.RootOf | index.js:40-42 | a root's output is a root |
| LegacyToXast.ElementOf | index.js:65-128 | a converted element has its tag as name, its position, and the attributes of the shared namespace declaration and attribute fold |
| LegacyToXast.PatchOf | index.js:130-156 | `patch` keeps the node's kind and sets the position exactly when the origin has one |
| LegacyToXast.Root | index.js:40-42 | the `root` handler returns exactly `RootOf` |
| LegacyToXast.Text | index.js:44-46 | the `text` handler returns exactly `Converted` |
| LegacyToXast.Comment | index.js:48-50 | the `comment` handler returns exactly `Converted` |
| LegacyToXast.Doctype | index.js:52-63 | the `doctype` handler returns exactly `Converted` |
| LegacyToXast.Element | index.js:65-128 | the `element` handler (schema resolution, attribute loop) returns exactly `ElementOf` |
| LegacyToXast.Patch | index.js:130-156 | the `patch` method (template, children loop, position) returns exactly `PatchOf` |
| LegacyToXast.Leaves | index.js:44-63 | text and comment default to `''`; a doctype copies its name (`''` when missing) and both identifiers; non-nodes and unknown types throw |
| LegacyToXast.ChildrenOmitted | index.js:139-149 | a root or non-template element without `children` gets no `children` field instead of an error |
| LegacyToXast.TemplateNeedsContent | index.js:133-138 | an HTML template without `content` throws, whatever its own children |
| LegacyToXast.TemplateTakesContent | index.js:133-138 | an HTML template with `content` takes exactly the children of `root(content)`, ignoring its own |
| LegacyToXast.ChildrenOneToOne | index.js:139-149 | a root or non-template element with `children` maps them one to one, in order, under its own state |
| Versions.OptionsAgree | index.js:35-38 | absent and object options start both versions alike; a bare `'svg'` starts only the older one in SVG |
| Versions.DoctypeDiffers | index.js:52-63 | the two doctypes agree exactly on `html` without identifiers |
| Versions.TemplateWithoutContent | index.js:133-138 | an HTML template without content throws in the older version and uses its own children in the current one |
| Versions.MissingChildren | index.js:139-149 | a root, or an element other than an HTML `template`, without children throws in the current version and gets no `children` in the older one |
| Versions.TemplateContentNotARoot | index.js:133-138 | an HTML template whose content is neither a root nor an element throws in the current version and gets no `children` in the older one |
| Versions.ElementLogicShared | index.js:65-128 | every element the older version converts, with or without `children`, gets its tag as name and exactly the attributes the current version computes, which the current version gives it whenever it succeeds |
| Versions.VersionsAgree | index.js:130-156 | on canonical trees the two versions give the same result under any state, the same first error included |
| Versions.ChildrenAgree | index.js:143-148 | the two children loops agree on canonical children |

## Left out

- property-information's `find` and its HTML and SVG tables are a foreign library. They are a parameter of `Env`, and only totality is assumed.
- comma-separated-tokens, space-separated-tokens and `String(number)` are foreign or floating-point code. They are parameters of `Env`. Only whether a number is NaN or zero is interpreted; `String(number)` is uninterpreted.
- zwitch is reduced to the dispatch it produces. A value without a `type` is `NotANode`, carrying the string form that `invalid`'s message shows.
- unist-util-position is treated as a verbatim copy of an optional span.
- The text of a runtime `TypeError` depends on the JavaScript engine. `Message` gives a representative one.
- JavaScript object mechanics are not modelled:
  - `for…in` also visiting inherited keys in the older version (`hasOwnProperty` in the current one);
  - integer-like keys enumerating first;
  - the insertion order of the output attributes, which is a `map` here.

  Properties are a sequence of distinct keys in enumeration order.
- A missing `properties` object is the empty sequence. `ns: undefined` (current) and `ns: null` (older) are both `None`, since both are only compared with a URI string.
- The older version tests for an array with `typeof value === 'object' && 'length' in value`. Arrays are the only objects among the modelled property values, so this is the same test as `Array.isArray`.
- The older `patch` writes `children` onto the node literal it receives, and both versions assign `position` in place. Each literal is fresh and never shared, so these updates are modelled on values. Aliasing is not captured.
- A template's `content` is either absent (`None`) or a node. A falsy `content` that is not `null` or `undefined` (`false`, `0`, `''`) is modelled as absent. The current version treats such a value as absent too. The older one does not: it reads the value's missing `type` and returns a root without children instead of throwing. `LegacyToXast.TemplateNeedsContent` and `Versions.TemplateWithoutContent` therefore do not cover those values.
- Only roots and elements carry `children`. A `content` of another type, or an object without `type`, that has a `children` array cannot be represented. The current version would iterate such an array. `Versions.TemplateContentNotARoot` is stated for contents without `children`.
- Versions.VersionsAgree: is stated only on canonical trees. That condition does not look at the schema, so it also leaves out trees on which both versions agree, such as an SVG-space `template` without `content`. An HTML `template` whose `content` is an element is left out too; there the older version runs that element's own `patch`.
