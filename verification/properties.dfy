/**
 Properties of the namespace mapper: the reverse mapping undoes a rewrite,
 mapping a namespace onto itself changes nothing, a dataset never grows and
 keeps its size when the mapping is reversible, and the stream transform
 emits exactly the dataset image of what it receives.
 */
module NamespaceProperties {
  import opened Rdf
  import opened NamespaceMap

  /** A term the reverse mapping `to -> from` restores: either it is rewritten
      by `from -> to`, or it is left alone by both directions. The only terms
      lost are NamedNodes already inside `to` but outside `from`: they stay
      put going forward and are then pulled into `from` going back. */
  predicate Reversible(term: Term, fromStr: string, toStr: string) {
    Rewrites(term, fromStr) || !Rewrites(term, toStr)
  }

  predicate QuadReversible(q: Quad, fromStr: string, toStr: string) {
    && Reversible(q.subj, fromStr, toStr)
    && Reversible(q.pred, fromStr, toStr)
    && Reversible(q.obj, fromStr, toStr)
    && Reversible(q.graph, fromStr, toStr)
  }

  /** Putting a namespace back in front of the local part it was cut from
      gives the IRI back. */
  lemma PrefixSliceJoin(prefix: string, iri: string)
    requires prefix <= iri
    ensures prefix + iri[|prefix|..] == iri
  {
    assert iri == iri[..|prefix|] + iri[|prefix|..];
  }

  /** Mapping `from -> to` and then `to -> from` gives the term back exactly
      when the term is reversible; in particular a rewritten NamedNode comes
      back with its original IRI. */
  lemma TermRoundTrip(term: Term, from: RuleValue, to: RuleValue)
    ensures MapTerm(MapTerm(term, from, to), to, from) == term
            <==> Reversible(term, Norm(from), Norm(to))
  {
    var f, t := Norm(from), Norm(to);
    var mapped := MapTerm(term, from, to);
    if Rewrites(term, f) {
      assert Rewrites(mapped, t);
      var back := MapTerm(mapped, to, from);
      assert back.value[|f|..] == term.value[|f|..];
      PrefixSliceJoin(f, back.value);
      PrefixSliceJoin(f, term.value);
      assert back.value == term.value;
    } else if Rewrites(term, t) {
      var back := MapTerm(mapped, to, from);
      assert f <= back.value;
      assert back != term;
    }
  }

  /** A term `mapTerm` rebuilt comes back from the reverse mapping as a
      NamedNode with its original IRI. */
  lemma RewrittenTermComesBack(term: Term, from: RuleValue, to: RuleValue)
    requires Rewrites(term, Norm(from))
    ensures MapTerm(MapTerm(term, from, to), to, from) == NamedNode(term.value)
  {
    TermRoundTrip(term, from, to);
  }

  /** On reversible terms the mapping is injective: two different terms never
      map to the same term. */
  lemma TermInjective(t1: Term, t2: Term, from: RuleValue, to: RuleValue)
    requires Reversible(t1, Norm(from), Norm(to))
    requires Reversible(t2, Norm(from), Norm(to))
    requires MapTerm(t1, from, to) == MapTerm(t2, from, to)
    ensures t1 == t2
  {
    TermRoundTrip(t1, from, to);
    TermRoundTrip(t2, from, to);
  }

  /** Mapping a namespace onto itself leaves every term as it was. */
  lemma SameNamespaceTermIdentity(term: Term, from: RuleValue, to: RuleValue)
    requires Norm(from) == Norm(to)
    ensures MapTerm(term, from, to) == term
  {
    if Rewrites(term, Norm(from)) {
      PrefixSliceJoin(Norm(from), term.value);
    }
  }

  /** The quad-level round trip: reversing the mapping restores a quad exactly
      when all four of its positions are reversible. */
  lemma QuadRoundTrip(q: Quad, from: RuleValue, to: RuleValue)
    ensures MapQuad(MapQuad(q, from, to), to, from) == q
            <==> QuadReversible(q, Norm(from), Norm(to))
  {
    TermRoundTrip(q.subj, from, to);
    TermRoundTrip(q.pred, from, to);
    TermRoundTrip(q.obj, from, to);
    TermRoundTrip(q.graph, from, to);
  }

  /** Mapping a namespace onto itself leaves every quad as it was. */
  lemma SameNamespaceQuadIdentity(q: Quad, from: RuleValue, to: RuleValue)
    requires Norm(from) == Norm(to)
    ensures MapQuad(q, from, to) == q
  {
    SameNamespaceTermIdentity(q.subj, from, to);
    SameNamespaceTermIdentity(q.pred, from, to);
    SameNamespaceTermIdentity(q.obj, from, to);
    SameNamespaceTermIdentity(q.graph, from, to);
  }

  /** A subset is no larger than its superset. */
  lemma SubsetNoLarger(a: set<Quad>, b: set<Quad>)
    requires a <= b
    ensures |a| <= |b|
  {
    assert b == a + (b - a);
  }

  /** Mapping a dataset never adds quads: at most one output per input quad. */
  lemma {:induction false} DatasetNeverGrows(dataset: set<Quad>, from: RuleValue, to: RuleValue)
    ensures |MapDataset(dataset, from, to)| <= |dataset|
    decreases |dataset|
  {
    if dataset != {} {
      var q :| q in dataset;
      var rest := dataset - {q};
      DatasetNeverGrows(rest, from, to);
      var image := MapDataset(dataset, from, to);
      var restImage := MapDataset(rest, from, to);
      forall x | x in image
        ensures x in restImage + {MapQuad(q, from, to)}
      {
        var p :| p in dataset && MapQuad(p, from, to) == x;
        if p != q {
          assert p in rest;
        }
      }
      SubsetNoLarger(image, restImage + {MapQuad(q, from, to)});
    }
  }

  /** Every quad of a reversible dataset survives the round trip. */
  lemma DatasetRoundTripKeeps(dataset: set<Quad>, from: RuleValue, to: RuleValue)
    requires forall q :: q in dataset ==> QuadReversible(q, Norm(from), Norm(to))
    ensures dataset <= MapDataset(MapDataset(dataset, from, to), to, from)
  {
    forall q | q in dataset
      ensures q in MapDataset(MapDataset(dataset, from, to), to, from)
    {
      assert MapQuad(q, from, to) in MapDataset(dataset, from, to);
      QuadRoundTrip(q, from, to);
    }
  }

  /** Nothing outside a reversible dataset appears after the round trip. */
  lemma DatasetRoundTripAddsNothing(dataset: set<Quad>, from: RuleValue, to: RuleValue)
    requires forall q :: q in dataset ==> QuadReversible(q, Norm(from), Norm(to))
    ensures MapDataset(MapDataset(dataset, from, to), to, from) <= dataset
  {
    var there := MapDataset(dataset, from, to);
    forall q' | q' in MapDataset(there, to, from)
      ensures q' in dataset
    {
      var m :| m in there && MapQuad(m, to, from) == q';
      var q :| q in dataset && MapQuad(q, from, to) == m;
      QuadRoundTrip(q, from, to);
    }
  }

  /** The reverse mapping restores a dataset all of whose quads are reversible. */
  lemma DatasetRoundTrip(dataset: set<Quad>, from: RuleValue, to: RuleValue)
    requires forall q :: q in dataset ==> QuadReversible(q, Norm(from), Norm(to))
    ensures MapDataset(MapDataset(dataset, from, to), to, from) == dataset
  {
    DatasetRoundTripKeeps(dataset, from, to);
    DatasetRoundTripAddsNothing(dataset, from, to);
  }

  /** No two quads of a reversible dataset collapse: the mapped dataset has
      exactly as many quads as the input. */
  lemma DatasetKeepsSize(dataset: set<Quad>, from: RuleValue, to: RuleValue)
    requires forall q :: q in dataset ==> QuadReversible(q, Norm(from), Norm(to))
    ensures |MapDataset(dataset, from, to)| == |dataset|
  {
    var there := MapDataset(dataset, from, to);
    DatasetRoundTrip(dataset, from, to);
    DatasetNeverGrows(dataset, from, to);
    DatasetNeverGrows(there, to, from);
  }

  /** Mapping a namespace onto itself leaves every dataset as it was. */
  lemma SameNamespaceDatasetIdentity(dataset: set<Quad>, from: RuleValue, to: RuleValue)
    requires Norm(from) == Norm(to)
    ensures MapDataset(dataset, from, to) == dataset
  {
    forall q | q in dataset
      ensures MapQuad(q, from, to) == q
    {
      SameNamespaceQuadIdentity(q, from, to);
    }
  }

  /** What the stream transform emits, taken as a collection, is the mapped
      dataset of what it received: the two delivery shapes agree. */
  lemma StreamAgreesWithDataset(input: seq<Quad>, output: seq<Quad>, from: RuleValue, to: RuleValue)
    requires |output| == |input|
    requires forall i :: 0 <= i < |input| ==> output[i] == MapQuad(input[i], from, to)
    ensures (set q | q in output) == MapDataset((set q | q in input), from, to)
  {
    var image := MapDataset((set q | q in input), from, to);
    forall q' | q' in output
      ensures q' in image
    {
      var i :| 0 <= i < |output| && output[i] == q';
      assert input[i] in input;
    }
    forall q' | q' in image
      ensures q' in output
    {
      var q :| q in input && MapQuad(q, from, to) == q';
      var i :| 0 <= i < |input| && input[i] == q;
      assert output[i] == q';
    }
  }

  /** Rewriting the same IRI under a namespace given as a NamedNode, a URL or
      a string yields one and the same term. */
  lemma RepresentationsRewriteAlike(term: Term, fromText: string, toText: string, from: RuleValue, to: RuleValue)
    requires from in {NN(fromText), Url(fromText), Str(fromText)}
    requires to in {NN(toText), Url(toText), Str(toText)}
    ensures MapTerm(term, from, to) == MapTerm(term, NN(fromText), NN(toText))
  {
  }
}
