# rdf-utils-namespace: namespace mapping of RDF terms and quads

A Dafny model of `map.js`, which moves RDF IRIs from one namespace to
another. The whole module is built on one string operation, `mapTerm`.
If a NamedNode's IRI starts with the `from` namespace, `mapTerm` replaces that
prefix by the `to` namespace and keeps the local part verbatim. It returns
every other term as it is. Three functions are built on `mapTerm`:

- `mapQuad` applies it to the subject, predicate, object and graph of a quad.
  It hands back the original quad when none of the four positions changed.
- `mapDataset` builds a fresh dataset from the mapped quads.
- `mapStream` is an object-mode transform that maps each incoming quad to one
  outgoing quad.

Files:

- `rdf.dfy` (module `Rdf`): terms, quads and the three shapes a namespace
  argument can take: an rdf-ext NamedNode, a `URL` object or a plain string.
  `Norm` is the `x.value || x.toString()` normalisation.
- `map.dfy` (module `NamespaceMap`): `MapTerm`, `MapQuad`, `MapDataset` and
  the `MapStream` transform.
- `properties.dfy` (module `NamespaceProperties`): the lemmas that relate the
  operations to each other. They cover three things:
  - the round trip back through the reverse mapping;
  - mapping a namespace onto itself;
  - dataset size, and agreement between the stream and the dataset.
- `test_cases.dfy` (module `NamespaceScenarios`): the concrete scenarios of the
  repository's test suite, stated over the model.

Object identity (`===`) is modelled as follows. `factory.namedNode` always
allocates a new node, so `mapTerm(t) === t` holds exactly when `t` is not
rewritten. The predicate `NamespaceMap.Rewrites` says when a term is rewritten.
`mapQuad` returns its argument object exactly when `NamespaceMap.Untouched`
holds, and `MapQuad` takes the same branch.

The test suite calls a curried rule-set form, `mapTerm(map)(term)` with a
`Map` of pairs (test/map.test.js:15-18, 259, 343). `map.js` has only the
positional single-rule signature `(term, from, to, options)` (map.js:30).
This model follows `map.js` and states no tie-break between overlapping
prefixes.

## Model

| member | source | states |
|---|---|---|
| Rdf.NormRepresentationsAgree | map.js:39-45 | The `value \|\| toString()` normalisation gives the same text for a NamedNode, a URL and a string with that text. |
| NamespaceMap.MapTerm | map.js:30-48 | Absent terms, non-NamedNode terms and NamedNodes outside `from` come back unchanged. A term stays a NamedNode exactly when it was one. A rewritten IRI starts with `to` and keeps the local part after `from` verbatim. Its length is `\|to\| + \|iri\| - \|from\|`. |
| NamespaceMap.MapQuad | map.js:8-19 | Each position of the result is the term mapping of the same position of the input. The input quad itself is returned when no position is rewritten. |
| NamespaceMap.MapDataset | map.js:4-6 | The new dataset holds the mapping of every input quad. Every quad in it is the mapping of some input quad. |
| NamespaceMap.MapStream | map.js:21-28 | There is one output per input. The i-th output is the mapping of the i-th input, so arrival order is kept. |
| NamespaceProperties.TermRoundTrip | map.js:39-47 | Mapping `to -> from` after `from -> to` restores a term if and only if the term was rewritten or lies outside `to`. |
| NamespaceProperties.RewrittenTermComesBack | map.js:41-47 | A rewritten NamedNode comes back from the reverse mapping with its original IRI. |
| NamespaceProperties.TermInjective | map.js:41-47 | Two reversible terms that map to the same term are equal. |
| NamespaceProperties.SameNamespaceTermIdentity | map.js:39-47 | When `from` and `to` normalise to the same text, every term maps to itself. |
| NamespaceProperties.QuadRoundTrip | map.js:8-19 | The reverse mapping restores a quad if and only if all four of its positions are reversible. |
| NamespaceProperties.SameNamespaceQuadIdentity | map.js:8-19 | When `from` and `to` normalise to the same text, every quad maps to itself. |
| NamespaceProperties.DatasetNeverGrows | map.js:4-6 | The mapped dataset has at most as many quads as the input. |
| NamespaceProperties.DatasetRoundTripKeeps | map.js:4-6 | Every quad of a reversible dataset is still there after mapping forth and back. |
| NamespaceProperties.DatasetRoundTripAddsNothing | map.js:4-6 | Mapping a reversible dataset forth and back adds no quad. |
| NamespaceProperties.DatasetRoundTrip | map.js:4-6 | The reverse mapping restores a dataset all of whose quads are reversible. |
| NamespaceProperties.DatasetKeepsSize | map.js:4-6 | No two quads of a reversible dataset collapse, so the size is kept. |
| NamespaceProperties.SameNamespaceDatasetIdentity | map.js:4-6 | When `from` and `to` normalise to the same text, the dataset maps to itself. |
| NamespaceProperties.StreamAgreesWithDataset | map.js:21-26 | The stream's outputs, taken as a set, are exactly the mapped dataset of its inputs. |
| NamespaceProperties.RepresentationsRewriteAlike | map.js:39-47 | Giving `from` and `to` as a NamedNode, a URL or a string with the same text yields the same rewritten term. |
| NamespaceScenarios.IgnoresOtherKinds | test/map.test.js:256-278 | Absent terms, blank nodes and literals pass through. |
| NamespaceScenarios.RewritesAbcNamespace | test/map.test.js:280-338 | `http://abc.com/test` becomes `http://abc.org/test` whatever the representation of `from` or `to`. An IRI in another namespace is left alone. |
| NamespaceScenarios.MapsQuadSubject | test/map.test.js:115-126 | A quad with only its subject in `from` gets exactly that position moved. |
| NamespaceScenarios.KeepsUntouchedQuad | test/map.test.js:102-113 | A quad with nothing in `from` comes back as it was. |

## Left out

- The `factory` option and the rdf-ext constructors `namedNode`, `quad` and `dataset` are not modelled. Construction is by the datatype constructors.
- The `readable-stream` runtime is not modelled: object mode, callbacks, backpressure and error propagation. `MapStream` models only the per-item `mapQuad` call, over the finite sequence of quads pushed in.
- The curried rule-set call form and multi-rule maps used by the test suite are left out, because `map.js` does not define them. For the same reason no tie-break between overlapping prefixes is stated.
- Dataset internals are left out: canonicalisation, iteration order and the identity of the new dataset object. A dataset is a `set<Quad>`, so duplicate elimination is set semantics.
- NamespaceMap.MapQuad: a new quad with the same four terms cannot be told apart from the original, because Dafny values have no identity. `Untouched` marks the branch where `map.js` returns the same object.
- JavaScript truthiness: `Absent` stands for every falsy term (`null`, `undefined`). Non-string `from`/`to` values that have neither a string `value` nor a meaningful `toString()` are not representable.
- `URL` parsing is left out. `Url(href)` holds the already serialised href, which is what `toString()` returns.
- Strings are sequences of Dafny `char`, which are Unicode scalar values, so lengths in the model count scalar values. In `map.js`, `.length` and `slice` (map.js:47) count UTF-16 code units instead. The two agree on well-formed strings. A `from` that ends in half of a surrogate pair, which `startsWith`/`slice` would split, cannot be represented. No Unicode normalisation takes place.
- Quoted triples (RDF-star terms) are not modelled. Like every non-NamedNode term, `mapTerm` would pass them through.
