/**
 The concrete scenarios of the repository's test suite, restated over the
 model with the namespaces it uses.
 */
module NamespaceScenarios {
  import opened Rdf
  import opened NamespaceMap

  const abcCom := "http://abc.com/"
  const abcOrg := "http://abc.org/"

  /** Blank nodes, literals and absent terms pass through. */
  lemma IgnoresOtherKinds()
    ensures MapTerm(Absent, NN(abcCom), NN(abcOrg)) == Absent
    ensures MapTerm(BlankNode("b0"), NN(abcCom), NN(abcOrg)) == BlankNode("b0")
    ensures MapTerm(Literal("test", "", "http://www.w3.org/2001/XMLSchema#string"), NN(abcCom), NN(abcOrg))
            == Literal("test", "", "http://www.w3.org/2001/XMLSchema#string")
  {
  }

  /** An IRI in another namespace is left alone; one in `from` is moved to
      `to`, whichever representation the namespaces are given in. */
  lemma RewritesAbcNamespace()
    ensures MapTerm(NamedNode("http://def.comtest"), NN(abcCom), NN(abcOrg)) == NamedNode("http://def.comtest")
    ensures MapTerm(NamedNode(abcCom + "test"), NN(abcCom), NN(abcOrg)) == NamedNode(abcOrg + "test")
    ensures MapTerm(NamedNode(abcCom + "test"), Url(abcCom), NN(abcOrg)) == NamedNode(abcOrg + "test")
    ensures MapTerm(NamedNode(abcCom + "test"), Str(abcCom), NN(abcOrg)) == NamedNode(abcOrg + "test")
    ensures MapTerm(NamedNode(abcCom + "test"), NN(abcCom), Url(abcOrg)) == NamedNode(abcOrg + "test")
    ensures MapTerm(NamedNode(abcCom + "test"), NN(abcCom), Str(abcOrg)) == NamedNode(abcOrg + "test")
  {
    assert abcCom[7] != "http://def.comtest"[7];
    ComMovesToOrg("test");
  }

  /** IRIs already in `http://abc.org/` are outside `http://abc.com/`. */
  lemma OrgIsNotCom(local: string)
    ensures !Rewrites(NamedNode(abcOrg + local), abcCom)
  {
    assert (abcOrg + local)[12] != abcCom[12];
  }

  /** An IRI in `http://abc.com/` moves to `http://abc.org/` with the same local part. */
  lemma ComMovesToOrg(local: string)
    ensures MapTerm(NamedNode(abcCom + local), NN(abcCom), NN(abcOrg)) == NamedNode(abcOrg + local)
  {
    assert (abcCom + local)[|abcCom|..] == local;
  }

  /** A quad with only its subject in `from` gets exactly that position moved. */
  lemma MapsQuadSubject()
    ensures MapQuad(Quad(NamedNode(abcCom + "subject"), NamedNode(abcOrg + "predicate"),
                         NamedNode(abcOrg + "object"), NamedNode(abcOrg + "graph")),
                    NN(abcCom), NN(abcOrg))
            == Quad(NamedNode(abcOrg + "subject"), NamedNode(abcOrg + "predicate"),
                    NamedNode(abcOrg + "object"), NamedNode(abcOrg + "graph"))
  {
    ComMovesToOrg("subject");
    OrgIsNotCom("predicate");
    OrgIsNotCom("object");
    OrgIsNotCom("graph");
  }

  /** A quad with nothing in `from` comes back as it was. */
  lemma KeepsUntouchedQuad()
    ensures MapQuad(Quad(NamedNode(abcOrg + "subject"), NamedNode(abcOrg + "predicate"),
                         NamedNode(abcOrg + "object"), NamedNode(abcOrg + "graph")),
                    NN(abcCom), NN(abcOrg))
            == Quad(NamedNode(abcOrg + "subject"), NamedNode(abcOrg + "predicate"),
                    NamedNode(abcOrg + "object"), NamedNode(abcOrg + "graph"))
  {
    OrgIsNotCom("subject");
    OrgIsNotCom("predicate");
    OrgIsNotCom("object");
    OrgIsNotCom("graph");
  }
}
