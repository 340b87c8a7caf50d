/**
 Namespace rewriting of RDF terms and quads (map.js): the term rewrite
 primitive and its three delivery shapes, for a single quad, for a dataset
 and for a stream of quads.
 */
module NamespaceMap {
  import opened Rdf

  /** True when `mapTerm` builds a new NamedNode for `term`: the term is a
      NamedNode whose IRI starts with the normalised `from` namespace.
      In every other case `mapTerm` returns its argument object itself, so
      `mapTerm(term) === term` holds exactly when this predicate is false
      (the factory always allocates a fresh NamedNode). */
  predicate Rewrites(term: Term, fromStr: string) {
    term.NamedNode? && fromStr <= term.value
  }

  /** `mapTerm`: replace the `from` namespace of a NamedNode IRI by `to`.
      Absent terms, terms of any other kind, and NamedNodes outside the
      `from` namespace are returned unchanged. A rewritten IRI starts with
      `to`, keeps the local part after `from` verbatim, and its length
      changes by the difference of the two namespaces' lengths. */
  function MapTerm(term: Term, from: RuleValue, to: RuleValue): (r: Term)
    ensures !Rewrites(term, Norm(from)) ==> r == term
    ensures r.NamedNode? <==> term.NamedNode?
    ensures Rewrites(term, Norm(from)) ==>
              && Norm(to) <= r.value
              && r.value[|Norm(to)|..] == term.value[|Norm(from)|..]
              && |r.value| == |Norm(to)| + |term.value| - |Norm(from)|
  {
    if term.Absent? then term
    else if !term.NamedNode? then term
    else
      var fromStr := Norm(from);
      if !(fromStr <= term.value) then term
      else
        var toStr := Norm(to);
        NamedNode(toStr + term.value[|fromStr|..])
  }

  /** True when `mapQuad` hands back its argument quad object: none of the
      four positions is rewritten (each `mapTerm` result is `===` its input). */
  predicate Untouched(q: Quad, fromStr: string) {
    && !Rewrites(q.subj, fromStr)
    && !Rewrites(q.pred, fromStr)
    && !Rewrites(q.obj, fromStr)
    && !Rewrites(q.graph, fromStr)
  }

  /** `mapQuad`: rewrite the four positions independently; return the input
      quad itself when no position changed, otherwise a new quad. */
  function MapQuad(q: Quad, from: RuleValue, to: RuleValue): (r: Quad)
    ensures r.subj == MapTerm(q.subj, from, to)
    ensures r.pred == MapTerm(q.pred, from, to)
    ensures r.obj == MapTerm(q.obj, from, to)
    ensures r.graph == MapTerm(q.graph, from, to)
    ensures Untouched(q, Norm(from)) ==> r == q
  {
    var subj := MapTerm(q.subj, from, to);
    var pred := MapTerm(q.pred, from, to);
    var obj := MapTerm(q.obj, from, to);
    var graph := MapTerm(q.graph, from, to);
    if Untouched(q, Norm(from)) then q
    else Quad(subj, pred, obj, graph)
  }

  /** `mapDataset`: a fresh dataset holding the mapped image of every quad.
      Datasets are sets, so quads that map to the same quad collapse. */
  function MapDataset(dataset: set<Quad>, from: RuleValue, to: RuleValue): (r: set<Quad>)
    ensures forall q :: q in dataset ==> MapQuad(q, from, to) in r
    ensures forall q' :: q' in r ==> exists q :: q in dataset && MapQuad(q, from, to) == q'
  {
    set q | q in dataset :: MapQuad(q, from, to)
  }

  /** `mapStream`'s transform: every quad pushed in produces exactly one
      mapped quad out, in arrival order. */
  method MapStream(input: seq<Quad>, from: RuleValue, to: RuleValue) returns (output: seq<Quad>)
    ensures |output| == |input|
    ensures forall i :: 0 <= i < |input| ==> output[i] == MapQuad(input[i], from, to)
  {
    output := [];
    var i := 0;
    while i < |input|
      invariant 0 <= i <= |input|
      invariant |output| == i
      invariant forall k :: 0 <= k < i ==> output[k] == MapQuad(input[k], from, to)
    {
      output := output + [MapQuad(input[i], from, to)];
      i := i + 1;
    }
  }
}
