/** RDF terms and triples as the translator builds them with rdflib: a graph is a set of
    triples. Vocabulary terms (rdf:type, rdfs:label, dcterms:created and the `xbrl:` words)
    are an enumeration, so that telling two predicates apart is a constructor comparison. */
module Rdf {

  /** The namespaces terms are minted in (xbrl_to_rdf.py:36-45 and rdflib's RDF, RDFS,
      DCTERMS). XBRL and XBRLI share one URI. */
  datatype Namespace =
    | XbrlNs | CompanyNs | ConceptNs | FactNs | ContextNs | RelNs | TaxonomyNs
    | RdfNs | RdfsNs | DctermsNs

  function NamespaceUri(ns: Namespace): string {
    match ns
    case XbrlNs => "http://www.xbrl.org/2003/instance#"
    case CompanyNs => "http://example.com/company/"
    case ConceptNs => "http://example.com/concepts/"
    case FactNs => "http://example.com/facts/"
    case ContextNs => "http://example.com/contexts/"
    case RelNs => "http://example.com/relationships/"
    case TaxonomyNs => "http://example.com/taxonomy/"
    case RdfNs => "http://www.w3.org/1999/02/22-rdf-syntax-ns#"
    case RdfsNs => "http://www.w3.org/2000/01/rdf-schema#"
    case DctermsNs => "http://purl.org/dc/terms/"
  }

  /** The fixed vocabulary: classes and properties the translator uses. */
  datatype Word =
    | RdfType | RdfsLabel | DctermsCreated
    // classes in the xbrl namespace
    | InstanceClass | ConceptClass | ContextClass | EntityClass | PeriodClass
    | SegmentClass | FactClass | UnitClass | FootnoteClass | RelationshipClass
    // properties of concepts
    | StandardLabel | TypeName | PeriodType | Balance | Abstract | SubstitutionGroup
    // properties of contexts
    | Id | HasEntity | Identifier | Scheme | HasPeriod | Instant | StartDate | EndDate
    | HasSegment | Dimension | Member | TypedValue
    // properties of facts
    | HasFact | HasConcept | HasContext | Value | HasUnit | Measure | Precision | Decimals
    | HasFootnote | Text
    // properties of relationships
    | HasRelationship | Arcrole | Linkrole | Source | Target | Order | Weight | PreferredLabel

  function WordNamespace(w: Word): Namespace {
    match w
    case RdfType => RdfNs
    case RdfsLabel => RdfsNs
    case DctermsCreated => DctermsNs
    case _ => XbrlNs
  }

  /** The local name each word has in its namespace. */
  function LocalName(w: Word): string {
    match w
    case RdfType => "type"
    case RdfsLabel => "label"
    case DctermsCreated => "created"
    case InstanceClass => "Instance"
    case ConceptClass => "Concept"
    case ContextClass => "Context"
    case EntityClass => "Entity"
    case PeriodClass => "Period"
    case SegmentClass => "Segment"
    case FactClass => "Fact"
    case UnitClass => "Unit"
    case FootnoteClass => "Footnote"
    case RelationshipClass => "Relationship"
    case StandardLabel => "standardLabel"
    case TypeName => "type"
    case PeriodType => "periodType"
    case Balance => "balance"
    case Abstract => "abstract"
    case SubstitutionGroup => "substitutionGroup"
    case Id => "id"
    case HasEntity => "entity"
    case Identifier => "identifier"
    case Scheme => "scheme"
    case HasPeriod => "period"
    case Instant => "instant"
    case StartDate => "startDate"
    case EndDate => "endDate"
    case HasSegment => "segment"
    case Dimension => "dimension"
    case Member => "member"
    case TypedValue => "typedValue"
    case HasFact => "hasFact"
    case HasConcept => "concept"
    case HasContext => "context"
    case Value => "value"
    case HasUnit => "unit"
    case Measure => "measure"
    case Precision => "precision"
    case Decimals => "decimals"
    case HasFootnote => "footnote"
    case Text => "text"
    case HasRelationship => "hasRelationship"
    case Arcrole => "arcrole"
    case Linkrole => "linkrole"
    case Source => "source"
    case Target => "target"
    case Order => "order"
    case Weight => "weight"
    case PreferredLabel => "preferredLabel"
  }

  /** The literal datatypes the translator uses; `Plain` is a literal without a datatype. */
  datatype LiteralKind = Plain | XsdDecimal | XsdDateTime | XsdBoolean

  /** An RDF term. `Minted` is a URI whose local part is a fresh identifier (`uuid4()`),
      `Blank` a fresh blank node (`BNode()`); both draw `id` from one supply. */
  datatype Term =
    | Vocab(word: Word)
    | Iri(ns: Namespace, local: string)
    | Minted(ns: Namespace, id: nat)
    | Blank(id: nat)
    | Lit(lexical: string, kind: LiteralKind)

  datatype Triple = Triple(s: Term, p: Term, o: Term)

  function Str(s: string): Term {
    Lit(s, Plain)
  }

  /** `g` holds the triple `(s, p, o)`. */
  predicate Has(g: set<Triple>, s: Term, p: Word, o: Term) {
    Triple(s, Vocab(p), o) in g
  }

  /** The objects of the triples with subject `s` and predicate `p`. */
  function Objects(g: set<Triple>, s: Term, p: Word): set<Term> {
    set t | t in g && t.s == s && t.p == Vocab(p) :: t.o
  }

  /** The subjects of the triples with predicate `p` and object `o`. */
  function Subjects(g: set<Triple>, p: Word, o: Term): set<Term> {
    set t | t in g && t.p == Vocab(p) && t.o == o :: t.s
  }

  /** The subjects typed `c` by `rdf:type`. */
  function Instances(g: set<Triple>, c: Word): set<Term> {
    Subjects(g, RdfType, Vocab(c))
  }

  /** No triple of `g` uses a predicate outside `words`. */
  ghost predicate PredicatesIn(g: set<Triple>, words: set<Word>) {
    forall s, p, o :: Has(g, s, p, o) ==> p in words
  }

  /** Every triple of `g` about `s` uses a predicate in `words`. */
  ghost predicate SubjectWords(g: set<Triple>, s: Term, words: set<Word>) {
    forall p, o :: Has(g, s, p, o) ==> p in words
  }

  /** No subject carries a `p1` triple in `a` and a `p2` triple in `b`. */
  ghost predicate Apart(a: set<Triple>, b: set<Triple>, p1: Word, p2: Word) {
    forall s, o1, o2 :: Has(a, s, p1, o1) ==> !Has(b, s, p2, o2)
  }

  /** No subject of `g` carries both a `p1` and a `p2` triple. */
  ghost predicate Exclusive(g: set<Triple>, p1: Word, p2: Word) {
    Apart(g, g, p1, p2)
  }

  /** A term drawn from the fresh-identifier supply. */
  predicate IsFresh(x: Term) {
    x.Minted? || x.Blank?
  }

  /** Every subject of a `p` triple of `g` is fresh, with identifier in [lo, lo + count). */
  ghost predicate FreshSubjectsIn(g: set<Triple>, p: Word, lo: nat, count: nat) {
    forall s, o :: Has(g, s, p, o) ==> IsFresh(s) && lo <= s.id < lo + count
  }

  lemma InObjects(g: set<Triple>, s: Term, p: Word, o: Term)
    ensures o in Objects(g, s, p) <==> Has(g, s, p, o)
  {
    if Has(g, s, p, o) {
      assert Triple(s, Vocab(p), o) in g;
    }
  }

  lemma InSubjects(g: set<Triple>, p: Word, o: Term, s: Term)
    ensures s in Subjects(g, p, o) <==> Has(g, s, p, o)
  {
    if Has(g, s, p, o) {
      assert Triple(s, Vocab(p), o) in g;
    }
  }

  lemma ObjectsOfUnion(a: set<Triple>, b: set<Triple>, s: Term, p: Word)
    ensures Objects(a + b, s, p) == Objects(a, s, p) + Objects(b, s, p)
  {
  }

  lemma ObjectsOfParts(a: set<Triple>, b: set<Triple>, c: set<Triple>, d: set<Triple>, e: set<Triple>, s: Term, p: Word)
    ensures Objects(a + b + c + d + e, s, p) == Objects(a, s, p) + Objects(b, s, p) + Objects(c, s, p) + Objects(d, s, p) + Objects(e, s, p)
  {
    ObjectsOfUnion(a, b, s, p);
    ObjectsOfUnion(a + b, c, s, p);
    ObjectsOfUnion(a + b + c, d, s, p);
    ObjectsOfUnion(a + b + c + d, e, s, p);
  }

  lemma SubjectsOfUnion(a: set<Triple>, b: set<Triple>, p: Word, o: Term)
    ensures Subjects(a + b, p, o) == Subjects(a, p, o) + Subjects(b, p, o)
  {
  }

  lemma PredicatesInUnion(a: set<Triple>, b: set<Triple>, words: set<Word>)
    requires PredicatesIn(a, words) && PredicatesIn(b, words)
    ensures PredicatesIn(a + b, words)
  {
    forall s, p, o | Has(a + b, s, p, o)
      ensures p in words
    {
      assert Has(a, s, p, o) || Has(b, s, p, o);
    }
  }

  lemma SubjectWordsUnion(a: set<Triple>, b: set<Triple>, s: Term, words: set<Word>)
    requires SubjectWords(a, s, words) && SubjectWords(b, s, words)
    ensures SubjectWords(a + b, s, words)
  {
    forall p, o | Has(a + b, s, p, o)
      ensures p in words
    {
      assert Has(a, s, p, o) || Has(b, s, p, o);
    }
  }

  /** A subject whose triples use only `words` has no objects under any other predicate. */
  lemma NoObjects(g: set<Triple>, s: Term, words: set<Word>, p: Word)
    requires SubjectWords(g, s, words) && p !in words
    ensures Objects(g, s, p) == {}
  {
    forall o | o in Objects(g, s, p)
      ensures false
    {
      InObjects(g, s, p, o);
    }
  }

  /** Two graphs whose `p1`/`p2` subjects come from disjoint ranges of the supply are apart. */
  lemma ApartByRange(a: set<Triple>, b: set<Triple>, p1: Word, p2: Word, lo: nat, n: nat, mid: nat, m: nat)
    requires lo + n <= mid
    requires FreshSubjectsIn(a, p1, lo, n) && FreshSubjectsIn(a, p2, lo, n)
    requires FreshSubjectsIn(b, p1, mid, m) && FreshSubjectsIn(b, p2, mid, m)
    ensures Apart(a, b, p1, p2) && Apart(b, a, p1, p2)
  {
  }

  lemma ExclusiveUnion(a: set<Triple>, b: set<Triple>, p1: Word, p2: Word)
    requires Exclusive(a, p1, p2) && Exclusive(b, p1, p2)
    requires Apart(a, b, p1, p2) && Apart(b, a, p1, p2)
    ensures Exclusive(a + b, p1, p2)
  {
    forall s, o1, o2 | Has(a + b, s, p1, o1)
      ensures !Has(a + b, s, p2, o2)
    {
      if Has(a, s, p1, o1) {
        assert !Has(a, s, p2, o2) && !Has(b, s, p2, o2);
      } else {
        assert Has(b, s, p1, o1);
        assert !Has(a, s, p2, o2) && !Has(b, s, p2, o2);
      }
    }
  }

  lemma FreshSubjectsInUnion(a: set<Triple>, b: set<Triple>, p: Word, lo: nat, n: nat, mid: nat, m: nat)
    requires mid == lo + n
    requires FreshSubjectsIn(a, p, lo, n) && FreshSubjectsIn(b, p, mid, m)
    ensures FreshSubjectsIn(a + b, p, lo, n + m)
  {
    forall s, o | Has(a + b, s, p, o)
      ensures IsFresh(s) && lo <= s.id < lo + (n + m)
    {
      assert Has(a, s, p, o) || Has(b, s, p, o);
    }
  }

  /** Decimal digits of a natural number, used to render fresh identifiers. */
  function NatText(n: nat): string
    decreases n
  {
    var digit := "0123456789"[n % 10];
    if n < 10 then [digit] else NatText(n / 10) + [digit]
  }

  /** `str(term)` as rdflib renders it: the full URI, the blank-node id, or the lexical form. */
  function Show(x: Term): string {
    match x
    case Vocab(w) => NamespaceUri(WordNamespace(w)) + LocalName(w)
    case Iri(ns, local) => NamespaceUri(ns) + local
    case Minted(ns, id) => NamespaceUri(ns) + NatText(id)
    case Blank(id) => "N" + NatText(id)
    case Lit(lexical, _) => lexical
  }
}
