/**
 The slice of the RDF/JS data model that the namespace mapper touches: terms,
 quads, and the three shapes a `from`/`to` namespace argument may take.
 Construction by the rdf-ext factory is modelled by the datatype constructors.
 */
module Rdf {

  /** An RDF/JS term, or the absence of one (`null`/`undefined` in a quad slot).
      Every present term carries its string `value`, as in RDF/JS. */
  datatype Term =
    | Absent
    | NamedNode(value: string)
    | BlankNode(value: string)
    | Literal(value: string, language: string, datatypeIri: string)
    | Variable(value: string)
    | DefaultGraph

  /** A quad: subject (`subj`), predicate (`pred`), object (`obj`) and graph. */
  datatype Quad = Quad(subj: Term, pred: Term, obj: Term, graph: Term)

  /** A namespace argument: an rdf-ext NamedNode, a WHATWG `URL` object, or a plain string. */
  datatype RuleValue = NN(iri: string) | Url(href: string) | Str(s: string)

  /** JavaScript's `a || b` where `a` is a string or `undefined` (written as ""):
      `a` unless it is falsy. */
  function OrElse(a: string, b: string): string {
    if a != "" then a else b
  }

  /** The `x.value || x.toString()` normalisation of a namespace argument.
      A NamedNode's `value` is its IRI, and its `toString()` returns the IRI as well;
      a `URL` and a string have no `value` property, so `toString()` decides:
      the serialised href, or the string itself. */
  function Norm(x: RuleValue): string {
    match x
    case NN(iri) => OrElse(iri, iri)
    case Url(href) => OrElse("", href)
    case Str(s) => OrElse("", s)
  }

  /** The three representations of one namespace normalise to the same string,
      and that string is the namespace text itself. */
  lemma NormRepresentationsAgree(text: string)
    ensures Norm(NN(text)) == text
    ensures Norm(Url(text)) == text
    ensures Norm(Str(text)) == text
  {
  }
}
