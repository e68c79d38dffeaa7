/** The XBRL-to-RDF translation of `XBRLToRDF` (xbrl_to_rdf.py): a loaded filing becomes a
    set of triples, pass by pass (concepts, contexts, facts, relationships, taxonomy).
    Fresh URIs and blank nodes draw consecutive identifiers from a supply that starts at an
    injected seed: an item that starts at identifier `next` uses the identifiers from `next`
    on, as many as its cost function says. */
module XbrlToRdf {
  import opened Wrappers
  import opened Seqs
  import opened Rdf
  import opened XbrlModel

  // ---------------------------------------------------------------- vocabulary per pass

  const ConceptWords: set<Word> :=
    {RdfType, RdfsLabel, StandardLabel, TypeName, PeriodType, Balance, Abstract, SubstitutionGroup}
  const ContextWords: set<Word> :=
    {RdfType, Id, HasEntity, Identifier, Scheme, HasPeriod, Instant, StartDate, EndDate,
     HasSegment, Dimension, Member, TypedValue}
  const FactWords: set<Word> :=
    {RdfType, HasFact, HasConcept, HasContext, Value, HasUnit, Measure, Precision, Decimals,
     HasFootnote, Text}
  const RelationshipWords: set<Word> :=
    {RdfType, HasRelationship, Arcrole, Linkrole, Source, Target, Order, Weight, PreferredLabel}

  // ---------------------------------------------------------------- terms

  /** The root subject `COMPANY["document"]`. */
  const Document: Term := Iri(CompanyNs, "document")

  /** A concept's subject: keyed by local name only (xbrl_to_rdf.py:69). */
  function ConceptIri(localName: string): Term {
    Iri(ConceptNs, localName)
  }

  /** A context's subject, keyed by its id (xbrl_to_rdf.py:106). */
  function ContextIri(id: string): Term {
    Iri(ContextNs, id)
  }

  /** The triple `(s, p, o)` when `o` is present, nothing otherwise. */
  function Emit(s: Term, p: Word, o: Option<Term>): set<Triple> {
    if o.Some? then {Triple(s, Vocab(p), o.value)} else {}
  }

  /** One optional `g.add((u, p, value))` per field, in order: a field whose value is
      absent adds nothing. */
  function EmitAll(u: Term, fields: seq<(Word, Option<Term>)>): set<Triple> {
    if |fields| == 0 then {} else Emit(u, fields[0].0, fields[0].1) + EmitAll(u, fields[1..])
  }

  /** The triples of `EmitAll` are the present fields, about `u`. */
  lemma {:induction false} EmitAllAt(u: Term, fields: seq<(Word, Option<Term>)>, s: Term, p: Word, o: Term)
    ensures Has(EmitAll(u, fields), s, p, o) <==> s == u && (p, Some(o)) in fields
  {
    if |fields| > 0 {
      EmitAllAt(u, fields[1..], s, p, o);
      assert fields == [fields[0]] + fields[1..];
    }
  }

  /** A plain literal of a string that is present and non-empty (Python truthiness). */
  function TruthyText(o: Option<string>): Option<Term> {
    if o.Some? && |o.value| > 0 then Some(Str(o.value)) else None
  }

  function PlainText(o: Option<string>): Option<Term> {
    if o.Some? then Some(Str(o.value)) else None
  }

  function DecimalText(o: Option<string>): Option<Term> {
    if o.Some? then Some(Lit(o.value, XsdDecimal)) else None
  }

  function LocalNameText(q: Option<QName>): Option<Term> {
    if q.Some? then Some(Str(q.value.localName)) else None
  }

  function ConceptRef(q: Option<QName>): Option<Term> {
    if q.Some? then Some(ConceptIri(q.value.localName)) else None
  }


  // ---------------------------------------------------------------- concepts

  /** The optional attributes of a concept, in the order the source adds them. */
  function ConceptFields(c: Concept): seq<(Word, Option<Term>)> {
    [(StandardLabel, TruthyText(c.labelText)),
     (TypeName, LocalNameText(c.typeName)),
     (PeriodType, PlainText(c.periodType)),
     (Balance, TruthyText(c.balance)),
     (Abstract, AbstractFlag(c)),
     (SubstitutionGroup, LocalNameText(c.substitutionGroup))]
  }

  /** The triples of one concept (xbrl_to_rdf.py:69-97), all about the concept's subject. */
  function ConceptTriples(c: Concept): set<Triple> {
    var u := ConceptIri(c.qname.localName);
    {Triple(u, Vocab(RdfType), Vocab(ConceptClass)), Triple(u, Vocab(RdfsLabel), Str(c.qname.localName))}
    + EmitAll(u, ConceptFields(c))
  }

  /** `isAbstract` as an `xsd:boolean` literal, when the concept has the attribute. */
  function AbstractFlag(c: Concept): Option<Term> {
    if c.isAbstract.Some? then Some(Lit(if c.isAbstract.value then "true" else "false", XsdBoolean)) else None
  }

  /** What a concept's subject carries under each predicate: its type, its local name as
      label, and each optional attribute only when present (the label and the balance only
      when also non-empty). */
  function ConceptAttribute(c: Concept, p: Word): set<Term> {
    match p
    case RdfType => {Vocab(ConceptClass)}
    case RdfsLabel => {Str(c.qname.localName)}
    case StandardLabel => if c.labelText.Some? && |c.labelText.value| > 0 then {Str(c.labelText.value)} else {}
    case TypeName => if c.typeName.Some? then {Str(c.typeName.value.localName)} else {}
    case PeriodType => if c.periodType.Some? then {Str(c.periodType.value)} else {}
    case Balance => if c.balance.Some? && |c.balance.value| > 0 then {Str(c.balance.value)} else {}
    case Abstract => if c.isAbstract.Some? then {Lit(if c.isAbstract.value then "true" else "false", XsdBoolean)} else {}
    case SubstitutionGroup => if c.substitutionGroup.Some? then {Str(c.substitutionGroup.value.localName)} else {}
    case _ => {}
  }

  lemma ConceptTripleParts(c: Concept, s: Term, p: Word, o: Term)
    requires Has(ConceptTriples(c), s, p, o)
    ensures s == ConceptIri(c.qname.localName)
    ensures || (p == RdfType && o == Vocab(ConceptClass))
            || (p == RdfsLabel && o == Str(c.qname.localName))
            || (p, Some(o)) in ConceptFields(c)
  {
    EmitAllAt(ConceptIri(c.qname.localName), ConceptFields(c), s, p, o);
  }

  lemma ConceptTripleFromParts(c: Concept, p: Word, o: Term)
    requires || (p == RdfType && o == Vocab(ConceptClass))
             || (p == RdfsLabel && o == Str(c.qname.localName))
             || (p, Some(o)) in ConceptFields(c)
    ensures Has(ConceptTriples(c), ConceptIri(c.qname.localName), p, o)
  {
    EmitAllAt(ConceptIri(c.qname.localName), ConceptFields(c), ConceptIri(c.qname.localName), p, o);
  }

  /** Each field of a concept, when present, is an entry of its table. */
  lemma ConceptFieldEntries(c: Concept, p: Word, o: Term)
    ensures p == StandardLabel && TruthyText(c.labelText) == Some(o) ==> o in ConceptAttribute(c, p)
    ensures p == TypeName && LocalNameText(c.typeName) == Some(o) ==> o in ConceptAttribute(c, p)
    ensures p == PeriodType && PlainText(c.periodType) == Some(o) ==> o in ConceptAttribute(c, p)
    ensures p == Balance && TruthyText(c.balance) == Some(o) ==> o in ConceptAttribute(c, p)
    ensures p == Abstract && AbstractFlag(c) == Some(o) ==> o in ConceptAttribute(c, p)
    ensures p == SubstitutionGroup && LocalNameText(c.substitutionGroup) == Some(o) ==> o in ConceptAttribute(c, p)
  {
  }

  lemma ConceptTripleSound(c: Concept, s: Term, p: Word, o: Term)
    requires Has(ConceptTriples(c), s, p, o)
    ensures s == ConceptIri(c.qname.localName) && o in ConceptAttribute(c, p)
  {
    ConceptTripleParts(c, s, p, o);
    ConceptFieldEntries(c, p, o);
  }

  /** Every triple of a concept is about the concept's subject and is in its table. */
  lemma ConceptTriplesSound(c: Concept)
    ensures forall s, p, o :: Has(ConceptTriples(c), s, p, o) ==>
      s == ConceptIri(c.qname.localName) && o in ConceptAttribute(c, p)
  {
    forall s, p, o | Has(ConceptTriples(c), s, p, o)
      ensures s == ConceptIri(c.qname.localName) && o in ConceptAttribute(c, p)
    {
      ConceptTripleSound(c, s, p, o);
    }
  }

  /** Every entry of a concept's table is a triple of the concept. */
  lemma ConceptTriplesComplete(c: Concept)
    ensures forall p, o :: o in ConceptAttribute(c, p) ==> Has(ConceptTriples(c), ConceptIri(c.qname.localName), p, o)
  {
    forall p, o | o in ConceptAttribute(c, p)
      ensures Has(ConceptTriples(c), ConceptIri(c.qname.localName), p, o)
    {
      ConceptTripleFromParts(c, p, o);
    }
  }

  /** A concept's triples are exactly its attribute table, about its subject: an absent
      attribute adds nothing (xbrl_to_rdf.py:69-97). */
  lemma ConceptTriplesContent(c: Concept)
    ensures forall s, p, o :: Has(ConceptTriples(c), s, p, o) <==>
      s == ConceptIri(c.qname.localName) && o in ConceptAttribute(c, p)
  {
    ConceptTriplesSound(c);
    ConceptTriplesComplete(c);
  }

  // ---------------------------------------------------------------- contexts

  /** What a period node carries: its type and, by the period's shape, one `instant`, or a
      `startDate` and an `endDate`, or nothing more (xbrl_to_rdf.py:126-132). */
  function PeriodAttribute(shape: PeriodShape, p: Word): set<Term> {
    match p
    case RdfType => {Vocab(PeriodClass)}
    case Instant => if shape.InstantPeriod? then {Lit(shape.instantDatetime, XsdDateTime)} else {}
    case StartDate => if shape.StartEndPeriod? then {Lit(shape.startDatetime, XsdDateTime)} else {}
    case EndDate => if shape.StartEndPeriod? then {Lit(shape.endDatetime, XsdDateTime)} else {}
    case _ => {}
  }

  /** What an entity node carries: its type and, when the identifier is truthy, the
      identifier and the scheme (xbrl_to_rdf.py:116-120). */
  function EntityAttribute(ctx: Context, p: Word): set<Term> {
    match p
    case RdfType => {Vocab(EntityClass)}
    case Identifier => if ctx.entity.Truthy? then {Str(ctx.entityIdentifier.1)} else {}
    case Scheme => if ctx.entity.Truthy? then {Str(ctx.entityIdentifier.0)} else {}
    case _ => {}
  }

  /** What a segment node carries: its type, the dimension, and then the explicit member,
      or else the typed value, or neither (xbrl_to_rdf.py:139-145). */
  function SegmentAttribute(d: QualifiedDimension, p: Word): set<Term> {
    match p
    case RdfType => {Vocab(SegmentClass)}
    case Dimension => {ConceptIri(d.dimension.localName)}
    case Member => if d.value.member.Given? then {ConceptIri(d.value.member.value.localName)} else {}
    case TypedValue => if !d.value.member.Given? && d.value.typedMember.Some? then {Str(d.value.typedMember.value)} else {}
    case _ => {}
  }

  function ShapeTriples(pn: Term, shape: PeriodShape): set<Triple> {
    match shape
    case InstantPeriod(_, at) => {Triple(pn, Vocab(Instant), Lit(at, XsdDateTime))}
    case StartEndPeriod(start, end) =>
      {Triple(pn, Vocab(StartDate), Lit(start, XsdDateTime)), Triple(pn, Vocab(EndDate), Lit(end, XsdDateTime))}
    case ForeverPeriod => {}
  }

  function SegmentTriples(u: Term, b: Term, d: QualifiedDimension): set<Triple> {
    {Triple(u, Vocab(HasSegment), b), Triple(b, Vocab(RdfType), Vocab(SegmentClass)),
     Triple(b, Vocab(Dimension), ConceptIri(d.dimension.localName))}
    + (if d.value.member.Given? then {Triple(b, Vocab(Member), ConceptIri(d.value.member.value.localName))}
       else if d.value.typedMember.Some? then {Triple(b, Vocab(TypedValue), Str(d.value.typedMember.value))}
       else {})
  }

  /** The triples of one dimension: `u` links to the node `b`, which carries the attributes. */
  lemma SegmentTriplesContent(u: Term, b: Term, d: QualifiedDimension)
    ensures forall s, p, o :: Has(SegmentTriples(u, b, d), s, p, o) <==>
      (s == u && p == HasSegment && o == b) || (s == b && o in SegmentAttribute(d, p))
  {
    forall s, p, o
      ensures Has(SegmentTriples(u, b, d), s, p, o) <==>
        (s == u && p == HasSegment && o == b) || (s == b && o in SegmentAttribute(d, p))
    {
    }
  }

  /** One segment node per dimension, each a fresh blank node. */
  function SegmentsOf(u: Term, ds: seq<QualifiedDimension>, next: nat): set<Triple> {
    if |ds| == 0 then {}
    else SegmentTriples(u, Blank(next), ds[0]) + SegmentsOf(u, ds[1..], next + 1)
  }

  /** `s` is one of the segment nodes [next, next + count). */
  predicate IsNodeIn(s: Term, next: nat, count: nat) {
    s.Blank? && next <= s.id < next + count
  }

  /** `u` links to each segment node [next, next + |ds|), and the node for `ds[i]` carries
      that dimension's attributes. */
  predicate SegmentsHave(u: Term, ds: seq<QualifiedDimension>, next: nat, s: Term, p: Word, o: Term) {
    || (s == u && p == HasSegment && IsNodeIn(o, next, |ds|))
    || (IsNodeIn(s, next, |ds|) && o in SegmentAttribute(ds[s.id - next], p))
  }

  /** The segment triples are: `u` linked to each segment node, and each node's attributes. */
  lemma {:induction false} SegmentsContent(u: Term, ds: seq<QualifiedDimension>, next: nat)
    ensures forall s, p, o :: Has(SegmentsOf(u, ds, next), s, p, o) <==> SegmentsHave(u, ds, next, s, p, o)
  {
    if |ds| > 0 {
      SegmentsContent(u, ds[1..], next + 1);
      SegmentTriplesContent(u, Blank(next), ds[0]);
      var g := SegmentsOf(u, ds, next);
      var rest := SegmentsOf(u, ds[1..], next + 1);
      assert g == SegmentTriples(u, Blank(next), ds[0]) + rest;
      forall s, p, o
        ensures Has(g, s, p, o) <==> SegmentsHave(u, ds, next, s, p, o)
      {
        assert Has(g, s, p, o) <==> Has(SegmentTriples(u, Blank(next), ds[0]), s, p, o) || Has(rest, s, p, o);
        if IsNodeIn(s, next + 1, |ds| - 1) {
          assert ds[s.id - next] == ds[1..][s.id - (next + 1)];
        }
      }
    }
  }

  /** The fresh nodes a context needs before its segments: an entity node and a period node
      when the context has those attributes. */
  function EntityCost(ctx: Context): nat {
    if ctx.entity.Absent? then 0 else 1
  }

  function PeriodCost(ctx: Context): nat {
    if ctx.period.Absent? then 0 else 1
  }

  /** The period node of a context whose identifiers start at `next`: after its entity node. */
  function PeriodNode(ctx: Context, next: nat): Term {
    Blank(next + EntityCost(ctx))
  }

  /** The first segment node's identifier: after the entity and period nodes. */
  function SegmentsStart(ctx: Context, next: nat): nat {
    next + EntityCost(ctx) + PeriodCost(ctx)
  }

  /** The dimensions the translator walks: none unless `qnameDims` exists and is non-empty. */
  function DimensionsOf(ctx: Context): seq<QualifiedDimension> {
    if ctx.dimensions.Some? then ctx.dimensions.value else []
  }

  function EntityTriples(u: Term, e: Term, ctx: Context): set<Triple> {
    if ctx.entity.Absent? then {}
    else
      {Triple(u, Vocab(HasEntity), e), Triple(e, Vocab(RdfType), Vocab(EntityClass))}
      + (if ctx.entity.Truthy? then
           {Triple(e, Vocab(Identifier), Str(ctx.entityIdentifier.1)),
            Triple(e, Vocab(Scheme), Str(ctx.entityIdentifier.0))}
         else {})
  }

  /** When the context has an entity: `u` links to the entity node `e`, which carries the
      entity's attributes. */
  predicate EntityHas(u: Term, e: Term, ctx: Context, s: Term, p: Word, o: Term) {
    !ctx.entity.Absent? && ((s == u && p == HasEntity && o == e) || (s == e && o in EntityAttribute(ctx, p)))
  }

  lemma EntityTriplesContent(u: Term, e: Term, ctx: Context)
    ensures forall s, p, o :: Has(EntityTriples(u, e, ctx), s, p, o) <==> EntityHas(u, e, ctx, s, p, o)
  {
    forall s, p, o
      ensures Has(EntityTriples(u, e, ctx), s, p, o) <==> EntityHas(u, e, ctx, s, p, o)
    {
    }
  }

  function PeriodTriples(u: Term, pn: Term, ctx: Context): set<Triple> {
    if ctx.period.Absent? then {}
    else
      {Triple(u, Vocab(HasPeriod), pn), Triple(pn, Vocab(RdfType), Vocab(PeriodClass))}
      + ShapeTriples(pn, ctx.periodShape)
  }

  /** When the context has a period: `u` links to the period node `pn`, which carries the
      period's attributes. */
  predicate PeriodHas(u: Term, pn: Term, ctx: Context, s: Term, p: Word, o: Term) {
    !ctx.period.Absent? && ((s == u && p == HasPeriod && o == pn) || (s == pn && o in PeriodAttribute(ctx.periodShape, p)))
  }

  lemma PeriodTriplesContent(u: Term, pn: Term, ctx: Context)
    ensures forall s, p, o :: Has(PeriodTriples(u, pn, ctx), s, p, o) <==> PeriodHas(u, pn, ctx, s, p, o)
  {
    forall s, p, o
      ensures Has(PeriodTriples(u, pn, ctx), s, p, o) <==> PeriodHas(u, pn, ctx, s, p, o)
    {
    }
  }

  /** The triples of one context (xbrl_to_rdf.py:106-145): its subject keyed by the id, an
      entity node, a period node and one segment node per dimension. */
  function ContextTriples(ctx: Context, next: nat): set<Triple> {
    var u := ContextIri(ctx.id);
    var entityNode := Blank(next);
    var periodNode := PeriodNode(ctx, next);
    var segments := SegmentsOf(u, DimensionsOf(ctx), SegmentsStart(ctx, next));
    var entity := EntityTriples(u, entityNode, ctx);
    var period := PeriodTriples(u, periodNode, ctx);
    {Triple(u, Vocab(RdfType), Vocab(ContextClass)), Triple(u, Vocab(Id), Str(ctx.id))}
    + entity + period + segments
  }

  /** Which triples a context yields, node by node: its subject's type and id; when the
      context has an entity, the link to the entity node and that node's attributes; the same
      for the period; and for each dimension the link to its segment node and that node's
      attributes. */
  predicate ContextHas(ctx: Context, next: nat, s: Term, p: Word, o: Term) {
    ContextHasAt(ctx, Blank(next), PeriodNode(ctx, next), SegmentsStart(ctx, next), s, p, o)
  }

  /** `ContextHas` with the entity node `e`, the period node `pn` and the first segment
      identifier `first` given. */
  predicate ContextHasAt(ctx: Context, e: Term, pn: Term, first: nat, s: Term, p: Word, o: Term) {
    var u := ContextIri(ctx.id);
    || (s == u && ((p == RdfType && o == Vocab(ContextClass)) || (p == Id && o == Str(ctx.id))))
    || EntityHas(u, e, ctx, s, p, o)
    || PeriodHas(u, pn, ctx, s, p, o)
    || SegmentsHave(u, DimensionsOf(ctx), first, s, p, o)
  }

  /** Every triple of a context belongs to its subject or to one of its nodes. */
  lemma ContextTripleParts(ctx: Context, next: nat, s: Term, p: Word, o: Term)
    requires Has(ContextTriples(ctx, next), s, p, o)
    ensures
      var u := ContextIri(ctx.id);
      || (s == u && ((p == RdfType && o == Vocab(ContextClass)) || (p == Id && o == Str(ctx.id))))
      || Has(EntityTriples(u, Blank(next), ctx), s, p, o)
      || Has(PeriodTriples(u, PeriodNode(ctx, next), ctx), s, p, o)
      || Has(SegmentsOf(u, DimensionsOf(ctx), SegmentsStart(ctx, next)), s, p, o)
  {
  }

  lemma ContextTripleSound(ctx: Context, next: nat, s: Term, p: Word, o: Term)
    requires Has(ContextTriples(ctx, next), s, p, o)
    ensures ContextHas(ctx, next, s, p, o)
  {
    var u := ContextIri(ctx.id);
    ContextTripleParts(ctx, next, s, p, o);
    if Has(EntityTriples(u, Blank(next), ctx), s, p, o) {
      EntityTripleAt(u, Blank(next), ctx, s, p, o);
    } else if Has(PeriodTriples(u, PeriodNode(ctx, next), ctx), s, p, o) {
      PeriodTripleAt(u, PeriodNode(ctx, next), ctx, s, p, o);
    } else if Has(SegmentsOf(u, DimensionsOf(ctx), SegmentsStart(ctx, next)), s, p, o) {
      SegmentTripleAt(u, DimensionsOf(ctx), SegmentsStart(ctx, next), s, p, o);
    }
  }

  /** Every triple of a context's parts is a triple of the context. */
  lemma ContextTripleFromParts(ctx: Context, next: nat, s: Term, p: Word, o: Term)
    requires
      var u := ContextIri(ctx.id);
      || (s == u && ((p == RdfType && o == Vocab(ContextClass)) || (p == Id && o == Str(ctx.id))))
      || Has(EntityTriples(u, Blank(next), ctx), s, p, o)
      || Has(PeriodTriples(u, PeriodNode(ctx, next), ctx), s, p, o)
      || Has(SegmentsOf(u, DimensionsOf(ctx), SegmentsStart(ctx, next)), s, p, o)
    ensures Has(ContextTriples(ctx, next), s, p, o)
  {
  }

  lemma ContextTripleComplete(ctx: Context, next: nat, s: Term, p: Word, o: Term)
    requires ContextHas(ctx, next, s, p, o)
    ensures Has(ContextTriples(ctx, next), s, p, o)
  {
    var u := ContextIri(ctx.id);
    EntityTripleAt(u, Blank(next), ctx, s, p, o);
    PeriodTripleAt(u, PeriodNode(ctx, next), ctx, s, p, o);
    SegmentTripleAt(u, DimensionsOf(ctx), SegmentsStart(ctx, next), s, p, o);
    ContextTripleFromParts(ctx, next, s, p, o);
  }

  lemma ContextTripleAt(ctx: Context, next: nat, s: Term, p: Word, o: Term)
    ensures Has(ContextTriples(ctx, next), s, p, o) <==> ContextHas(ctx, next, s, p, o)
  {
    if Has(ContextTriples(ctx, next), s, p, o) {
      ContextTripleSound(ctx, next, s, p, o);
    }
    if ContextHas(ctx, next, s, p, o) {
      ContextTripleComplete(ctx, next, s, p, o);
    }
  }

  lemma EntityTripleAt(u: Term, e: Term, ctx: Context, s: Term, p: Word, o: Term)
    ensures Has(EntityTriples(u, e, ctx), s, p, o) <==> EntityHas(u, e, ctx, s, p, o)
  {
    EntityTriplesContent(u, e, ctx);
  }

  lemma PeriodTripleAt(u: Term, pn: Term, ctx: Context, s: Term, p: Word, o: Term)
    ensures Has(PeriodTriples(u, pn, ctx), s, p, o) <==> PeriodHas(u, pn, ctx, s, p, o)
  {
    PeriodTriplesContent(u, pn, ctx);
  }

  lemma SegmentTripleAt(u: Term, ds: seq<QualifiedDimension>, first: nat, s: Term, p: Word, o: Term)
    ensures Has(SegmentsOf(u, ds, first), s, p, o) <==> SegmentsHave(u, ds, first, s, p, o)
  {
    SegmentsContent(u, ds, first);
  }

  /** A context's triples are exactly: its subject's attributes, the entity node's, the
      period node's and each segment node's (xbrl_to_rdf.py:106-145). */
  lemma ContextContent(ctx: Context, next: nat)
    ensures forall s, p, o :: Has(ContextTriples(ctx, next), s, p, o) <==> ContextHas(ctx, next, s, p, o)
  {
    forall s, p, o
      ensures Has(ContextTriples(ctx, next), s, p, o) <==> ContextHas(ctx, next, s, p, o)
    {
      if Has(ContextTriples(ctx, next), s, p, o) {
        ContextTripleSound(ctx, next, s, p, o);
      }
      if ContextHas(ctx, next, s, p, o) {
        ContextTripleComplete(ctx, next, s, p, o);
      }
    }
  }

  // ---------------------------------------------------------------- facts

  /** The fact's value runs the numeric branch: it is not None and the fact is numeric. */
  predicate NumericValue(f: Fact) {
    f.value.Some? && f.isNumeric
  }

  /** A value that is not None: `xsd:decimal` for a numeric fact, a plain literal otherwise. */
  function ValueTerm(f: Fact): Option<Term> {
    if f.value.None? then None
    else if f.isNumeric then Some(Lit(f.value.value, XsdDecimal))
    else Some(Str(f.value.value))
  }

  /** Precision, when not None, wins; decimals are emitted only when precision is None. */
  function PrecisionTerm(f: Fact): Option<Term> {
    if NumericValue(f) then PlainText(f.precision) else None
  }

  function DecimalsTerm(f: Fact): Option<Term> {
    if NumericValue(f) && f.precision.None? then PlainText(f.decimals) else None
  }

  function ContextRef(x: Option<Context>): Option<Term> {
    if x.Some? then Some(ContextIri(x.value.id)) else None
  }

  /** The optional attributes of a fact's subject, in the order the source adds them. */
  function FactFields(f: Fact): seq<(Word, Option<Term>)> {
    [(HasConcept, ConceptRef(f.concept)),
     (HasContext, ContextRef(f.context)),
     (Value, ValueTerm(f)),
     (Precision, PrecisionTerm(f)),
     (Decimals, DecimalsTerm(f))]
  }

  /** A unit node is made for a numeric value with a truthy unit. */
  function UnitCost(f: Fact): nat {
    if NumericValue(f) && f.unit.Some? then 1 else 0
  }

  /** The unit's measures, numerator list first, flattened into one list. */
  function MeasuresOf(f: Fact): seq<QName> {
    if f.unit.Some? then Flatten(f.unit.value.measures) else []
  }

  function MeasureTriples(b: Term, ms: seq<QName>): set<Triple> {
    set m | m in ms :: Triple(b, Vocab(Measure), Str(m.localName))
  }

  function UnitTriples(u: Term, b: Term, f: Fact): set<Triple> {
    if UnitCost(f) == 0 then {}
    else {Triple(u, Vocab(HasUnit), b), Triple(b, Vocab(RdfType), Vocab(UnitClass))} + MeasureTriples(b, MeasuresOf(f))
  }

  function FootnoteTriples(u: Term, b: Term, n: Footnote): set<Triple> {
    {Triple(u, Vocab(HasFootnote), b), Triple(b, Vocab(RdfType), Vocab(FootnoteClass))}
    + Emit(b, Text, PlainText(n.text))
  }

  /** One footnote node per footnote, each a fresh blank node. */
  function FootnotesOf(u: Term, ns: seq<Footnote>, next: nat): set<Triple> {
    if |ns| == 0 then {}
    else FootnoteTriples(u, Blank(next), ns[0]) + FootnotesOf(u, ns[1..], next + 1)
  }

  /** The unit node of a fact whose identifiers start at `next`: right after its URI. */
  function UnitNode(next: nat): Term {
    Blank(next + 1)
  }

  /** The first footnote node's identifier: after the fact's URI and its unit node. */
  function FootnotesStart(f: Fact, next: nat): nat {
    next + 1 + UnitCost(f)
  }

  /** The identifiers one fact draws: its URI, its unit node, one node per footnote. */
  function FactCost(f: Fact): nat {
    1 + UnitCost(f) + |f.footnotes|
  }

  /** The triples of one fact (xbrl_to_rdf.py:154-204): a fresh subject linked from the
      document, its attributes, a unit node and footnote nodes. */
  function FactTriples(f: Fact, next: nat): set<Triple> {
    var u := Minted(FactNs, next);
    {Triple(u, Vocab(RdfType), Vocab(FactClass)), Triple(Document, Vocab(HasFact), u)}
    + EmitAll(u, FactFields(f))
    + UnitTriples(u, UnitNode(next), f)
    + FootnotesOf(u, f.footnotes, FootnotesStart(f, next))
  }

  /** What a fact's subject carries: its type, the concept and context links when set, the
      value when not None, and, for a numeric value only, the unit node and then precision
      or else decimals. */
  function FactAttribute(f: Fact, next: nat, p: Word): set<Term> {
    match p
    case RdfType => {Vocab(FactClass)}
    case HasConcept => if f.concept.Some? then {ConceptIri(f.concept.value.localName)} else {}
    case HasContext => if f.context.Some? then {ContextIri(f.context.value.id)} else {}
    case Value =>
      if f.value.None? then {}
      else if f.isNumeric then {Lit(f.value.value, XsdDecimal)}
      else {Str(f.value.value)}
    case HasUnit => if f.value.Some? && f.isNumeric && f.unit.Some? then {UnitNode(next)} else {}
    case Precision => if f.value.Some? && f.isNumeric && f.precision.Some? then {Str(f.precision.value)} else {}
    case Decimals =>
      if f.value.Some? && f.isNumeric && f.precision.None? && f.decimals.Some? then {Str(f.decimals.value)} else {}
    case _ => {}
  }

  /** What a unit node carries: its type and the local name of every measure of every
      measure list. */
  function UnitAttribute(f: Fact, p: Word): set<Term> {
    match p
    case RdfType => {Vocab(UnitClass)}
    case Measure =>
      if f.unit.Some? then set ms, m | ms in f.unit.value.measures && m in ms :: Str(m.localName) else {}
    case _ => {}
  }

  /** What a footnote node carries: its type and its text when it has one. */
  function FootnoteAttribute(n: Footnote, p: Word): set<Term> {
    match p
    case RdfType => {Vocab(FootnoteClass)}
    case Text => if n.text.Some? then {Str(n.text.value)} else {}
    case _ => {}
  }

  /** A measure triple of a unit node names a measure of one of the unit's lists. */
  lemma MeasureSound(f: Fact, b: Term, s: Term, p: Word, o: Term)
    requires Has(MeasureTriples(b, MeasuresOf(f)), s, p, o)
    ensures s == b && p == Measure && o in UnitAttribute(f, Measure)
  {
    var mss := f.unit.value.measures;
    var m: QName :| m in Flatten(mss) && o == Str(m.localName);
    InFlatten(mss, m);
    var i :| 0 <= i < |mss| && m in mss[i];
    assert mss[i] in mss;
  }

  /** Every measure of every list of the unit is a measure triple of the unit node. */
  lemma MeasureComplete(f: Fact, b: Term, o: Term)
    requires o in UnitAttribute(f, Measure)
    ensures Has(MeasureTriples(b, MeasuresOf(f)), b, Measure, o)
  {
    var mss := f.unit.value.measures;
    var ms, m :| ms in mss && m in ms && o == Str(m.localName);
    var i :| 0 <= i < |mss| && mss[i] == ms;
    InFlatten(mss, m);
    assert Triple(b, Vocab(Measure), Str(m.localName)) in MeasureTriples(b, MeasuresOf(f));
  }

  lemma MeasureAt(f: Fact, b: Term, s: Term, p: Word, o: Term)
    ensures Has(MeasureTriples(b, MeasuresOf(f)), s, p, o) <==> s == b && p == Measure && o in UnitAttribute(f, Measure)
  {
    if Has(MeasureTriples(b, MeasuresOf(f)), s, p, o) {
      MeasureSound(f, b, s, p, o);
    }
    if s == b && p == Measure && o in UnitAttribute(f, Measure) {
      MeasureComplete(f, b, o);
    }
  }

  /** When the fact has a unit node `b`: `u` links to it, and it carries the unit's attributes. */
  predicate UnitHas(u: Term, b: Term, f: Fact, s: Term, p: Word, o: Term) {
    UnitCost(f) == 1 && ((s == u && p == HasUnit && o == b) || (s == b && o in UnitAttribute(f, p)))
  }

  lemma UnitTripleAt(u: Term, b: Term, f: Fact, s: Term, p: Word, o: Term)
    ensures Has(UnitTriples(u, b, f), s, p, o) <==> UnitHas(u, b, f, s, p, o)
  {
    MeasureAt(f, b, s, p, o);
  }

  /** The triples of one footnote: `u` links to the node `b`, which carries the attributes. */
  lemma FootnoteTriplesContent(u: Term, b: Term, n: Footnote)
    ensures forall s, p, o :: Has(FootnoteTriples(u, b, n), s, p, o) <==>
      (s == u && p == HasFootnote && o == b) || (s == b && o in FootnoteAttribute(n, p))
  {
    forall s, p, o
      ensures Has(FootnoteTriples(u, b, n), s, p, o) <==>
        (s == u && p == HasFootnote && o == b) || (s == b && o in FootnoteAttribute(n, p))
    {
    }
  }

  /** `u` links to each footnote node [next, next + |ns|), and the node for `ns[i]` carries
      that footnote's attributes. */
  predicate FootnotesHave(u: Term, ns: seq<Footnote>, next: nat, s: Term, p: Word, o: Term) {
    || (s == u && p == HasFootnote && IsNodeIn(o, next, |ns|))
    || (IsNodeIn(s, next, |ns|) && o in FootnoteAttribute(ns[s.id - next], p))
  }

  lemma {:induction false} FootnotesContent(u: Term, ns: seq<Footnote>, next: nat)
    ensures forall s, p, o :: Has(FootnotesOf(u, ns, next), s, p, o) <==> FootnotesHave(u, ns, next, s, p, o)
  {
    if |ns| > 0 {
      FootnotesContent(u, ns[1..], next + 1);
      FootnoteTriplesContent(u, Blank(next), ns[0]);
      var g := FootnotesOf(u, ns, next);
      var rest := FootnotesOf(u, ns[1..], next + 1);
      assert g == FootnoteTriples(u, Blank(next), ns[0]) + rest;
      forall s, p, o
        ensures Has(g, s, p, o) <==> FootnotesHave(u, ns, next, s, p, o)
      {
        assert Has(g, s, p, o) <==> Has(FootnoteTriples(u, Blank(next), ns[0]), s, p, o) || Has(rest, s, p, o);
        if IsNodeIn(s, next + 1, |ns| - 1) {
          assert ns[s.id - next] == ns[1..][s.id - (next + 1)];
        }
      }
    }
  }

  lemma FootnoteTripleAt(u: Term, ns: seq<Footnote>, first: nat, s: Term, p: Word, o: Term)
    ensures Has(FootnotesOf(u, ns, first), s, p, o) <==> FootnotesHave(u, ns, first, s, p, o)
  {
    FootnotesContent(u, ns, first);
  }

  /** Each field of a fact, when present, is an entry of its subject's table. */
  lemma FactFieldEntries(f: Fact, next: nat, p: Word, o: Term)
    ensures p == HasConcept && ConceptRef(f.concept) == Some(o) ==> o in FactAttribute(f, next, p)
    ensures p == HasContext && ContextRef(f.context) == Some(o) ==> o in FactAttribute(f, next, p)
  {
  }

  lemma FactValueEntries(f: Fact, next: nat, p: Word, o: Term)
    ensures p == Value && ValueTerm(f) == Some(o) ==> o in FactAttribute(f, next, p)
    ensures p == Precision && PrecisionTerm(f) == Some(o) ==> o in FactAttribute(f, next, p)
    ensures p == Decimals && DecimalsTerm(f) == Some(o) ==> o in FactAttribute(f, next, p)
  {
  }

  lemma FactFieldIn(f: Fact, next: nat, p: Word, o: Term)
    requires (p, Some(o)) in FactFields(f)
    ensures p != RdfType && p != HasUnit && o in FactAttribute(f, next, p)
  {
    FactFieldEntries(f, next, p, o);
    FactValueEntries(f, next, p, o);
  }

  /** Each entry of a fact's table other than the type and the unit link is a present field. */
  lemma FactFieldOf(f: Fact, next: nat, p: Word, o: Term)
    requires p != RdfType && p != HasUnit && o in FactAttribute(f, next, p)
    ensures (p, Some(o)) in FactFields(f)
  {
  }

  lemma FactFieldAt(f: Fact, next: nat, p: Word, o: Term)
    ensures (p, Some(o)) in FactFields(f) <==> p != RdfType && p != HasUnit && o in FactAttribute(f, next, p)
  {
    if (p, Some(o)) in FactFields(f) {
      FactFieldIn(f, next, p, o);
    }
    if p != RdfType && p != HasUnit && o in FactAttribute(f, next, p) {
      FactFieldOf(f, next, p, o);
    }
  }

  /** Which triples a fact yields, node by node: the document's link to the fact's subject;
      the subject's attributes; the unit node's; and each footnote node's. */
  predicate FactHas(f: Fact, next: nat, s: Term, p: Word, o: Term) {
    var u := Minted(FactNs, next);
    || (s == Document && p == HasFact && o == u)
    || (s == u && o in FactAttribute(f, next, p))
    || (UnitCost(f) == 1 && s == UnitNode(next) && o in UnitAttribute(f, p))
    || FootnotesHave(u, f.footnotes, FootnotesStart(f, next), s, p, o)
  }

  lemma FactTripleParts(f: Fact, next: nat, s: Term, p: Word, o: Term)
    requires Has(FactTriples(f, next), s, p, o)
    ensures
      var u := Minted(FactNs, next);
      || (s == u && p == RdfType && o == Vocab(FactClass))
      || (s == Document && p == HasFact && o == u)
      || Has(EmitAll(u, FactFields(f)), s, p, o)
      || Has(UnitTriples(u, UnitNode(next), f), s, p, o)
      || Has(FootnotesOf(u, f.footnotes, FootnotesStart(f, next)), s, p, o)
  {
  }

  lemma FactTripleFromParts(f: Fact, next: nat, s: Term, p: Word, o: Term)
    requires
      var u := Minted(FactNs, next);
      || (s == u && p == RdfType && o == Vocab(FactClass))
      || (s == Document && p == HasFact && o == u)
      || Has(EmitAll(u, FactFields(f)), s, p, o)
      || Has(UnitTriples(u, UnitNode(next), f), s, p, o)
      || Has(FootnotesOf(u, f.footnotes, FootnotesStart(f, next)), s, p, o)
    ensures Has(FactTriples(f, next), s, p, o)
  {
  }

  /** A present field is an attribute of the fact's subject. */
  lemma FactFieldSound(f: Fact, next: nat, s: Term, p: Word, o: Term)
    ensures Has(EmitAll(Minted(FactNs, next), FactFields(f)), s, p, o) ==>
      s == Minted(FactNs, next) && o in FactAttribute(f, next, p)
  {
    EmitAllAt(Minted(FactNs, next), FactFields(f), s, p, o);
    FactFieldAt(f, next, p, o);
  }

  /** A unit triple is the subject's link to the unit node or an attribute of that node. */
  lemma UnitSound(f: Fact, next: nat, s: Term, p: Word, o: Term)
    ensures Has(UnitTriples(Minted(FactNs, next), UnitNode(next), f), s, p, o) ==>
      || (s == Minted(FactNs, next) && o in FactAttribute(f, next, p))
      || (UnitCost(f) == 1 && s == UnitNode(next) && o in UnitAttribute(f, p))
  {
    UnitTripleAt(Minted(FactNs, next), UnitNode(next), f, s, p, o);
  }

  lemma FactTripleSound(f: Fact, next: nat, s: Term, p: Word, o: Term)
    requires Has(FactTriples(f, next), s, p, o)
    ensures FactHas(f, next, s, p, o)
  {
    FactTripleParts(f, next, s, p, o);
    FactFieldSound(f, next, s, p, o);
    UnitSound(f, next, s, p, o);
    FootnoteTripleAt(Minted(FactNs, next), f.footnotes, FootnotesStart(f, next), s, p, o);
  }

  lemma FactTripleComplete(f: Fact, next: nat, s: Term, p: Word, o: Term)
    requires FactHas(f, next, s, p, o)
    ensures Has(FactTriples(f, next), s, p, o)
  {
    var u := Minted(FactNs, next);
    EmitAllAt(u, FactFields(f), s, p, o);
    FactFieldAt(f, next, p, o);
    UnitTripleAt(u, UnitNode(next), f, s, p, o);
    FootnoteTripleAt(u, f.footnotes, FootnotesStart(f, next), s, p, o);
    FactTripleFromParts(f, next, s, p, o);
  }

  lemma FactTripleAt(f: Fact, next: nat, s: Term, p: Word, o: Term)
    ensures Has(FactTriples(f, next), s, p, o) <==> FactHas(f, next, s, p, o)
  {
    if Has(FactTriples(f, next), s, p, o) {
      FactTripleSound(f, next, s, p, o);
    }
    if FactHas(f, next, s, p, o) {
      FactTripleComplete(f, next, s, p, o);
    }
  }

  /** A fact's triples are exactly: the document's link to it, its subject's attributes, the
      unit node's and each footnote node's (xbrl_to_rdf.py:154-204). */
  lemma FactContent(f: Fact, next: nat)
    ensures forall s, p, o :: Has(FactTriples(f, next), s, p, o) <==> FactHas(f, next, s, p, o)
  {
    forall s, p, o
      ensures Has(FactTriples(f, next), s, p, o) <==> FactHas(f, next, s, p, o)
    {
      if Has(FactTriples(f, next), s, p, o) {
        FactTripleSound(f, next, s, p, o);
      }
      if FactHas(f, next, s, p, o) {
        FactTripleComplete(f, next, s, p, o);
      }
    }
  }

  // ---------------------------------------------------------------- relationships

  /** One relationship with the keys of the set it was found under. */
  datatype RelItem = RelItem(arcrole: string, linkrole: string, rel: Relationship)

  function LinkroleItems(arcrole: string, ls: seq<LinkroleSet>): seq<RelItem> {
    if |ls| == 0 then []
    else (seq(|ls[0].relationships|, k requires 0 <= k < |ls[0].relationships| =>
            RelItem(arcrole, ls[0].linkrole, ls[0].relationships[k])))
         + LinkroleItems(arcrole, ls[1..])
  }

  /** The relationships in the order the three nested loops visit them (xbrl_to_rdf.py:214-216). */
  function RelItems(sets: seq<ArcroleSets>): seq<RelItem> {
    if |sets| == 0 then [] else LinkroleItems(sets[0].arcrole, sets[0].byLinkrole) + RelItems(sets[1..])
  }

  /** The optional attributes of a relationship's subject, in the order the source adds them. */
  function RelFields(r: Relationship): seq<(Word, Option<Term>)> {
    [(Source, ConceptRef(r.source)),
     (Target, ConceptRef(r.target)),
     (Order, DecimalText(r.order)),
     (Weight, DecimalText(r.weight)),
     (PreferredLabel, TruthyText(r.preferredLabel))]
  }

  /** The triples of one relationship (xbrl_to_rdf.py:217-243): a fresh subject linked from
      the document, its two keys and its attributes. */
  function RelTriples(x: RelItem, next: nat): set<Triple> {
    var u := Minted(RelNs, next);
    {Triple(u, Vocab(RdfType), Vocab(RelationshipClass)), Triple(Document, Vocab(HasRelationship), u),
     Triple(u, Vocab(Arcrole), Str(x.arcrole)), Triple(u, Vocab(Linkrole), Str(x.linkrole))}
    + EmitAll(u, RelFields(x.rel))
  }

  /** What a relationship's subject carries: its type, the arcrole and linkrole it was found
      under, the source and target concepts when set, order and weight when not None, and the
      preferred label when non-empty. */
  function RelAttribute(x: RelItem, p: Word): set<Term> {
    match p
    case RdfType => {Vocab(RelationshipClass)}
    case Arcrole => {Str(x.arcrole)}
    case Linkrole => {Str(x.linkrole)}
    case Source => if x.rel.source.Some? then {ConceptIri(x.rel.source.value.localName)} else {}
    case Target => if x.rel.target.Some? then {ConceptIri(x.rel.target.value.localName)} else {}
    case Order => if x.rel.order.Some? then {Lit(x.rel.order.value, XsdDecimal)} else {}
    case Weight => if x.rel.weight.Some? then {Lit(x.rel.weight.value, XsdDecimal)} else {}
    case PreferredLabel =>
      if x.rel.preferredLabel.Some? && |x.rel.preferredLabel.value| > 0 then {Str(x.rel.preferredLabel.value)} else {}
    case _ => {}
  }

  /** Each field of a relationship, when present, is an entry of its table. */
  lemma RelFieldEntries(x: RelItem, p: Word, o: Term)
    ensures p == Source && ConceptRef(x.rel.source) == Some(o) ==> o in RelAttribute(x, p)
    ensures p == Target && ConceptRef(x.rel.target) == Some(o) ==> o in RelAttribute(x, p)
  {
  }

  lemma RelValueEntries(x: RelItem, p: Word, o: Term)
    ensures p == Order && DecimalText(x.rel.order) == Some(o) ==> o in RelAttribute(x, p)
    ensures p == Weight && DecimalText(x.rel.weight) == Some(o) ==> o in RelAttribute(x, p)
    ensures p == PreferredLabel && TruthyText(x.rel.preferredLabel) == Some(o) ==> o in RelAttribute(x, p)
  {
  }

  lemma RelFieldIn(x: RelItem, p: Word, o: Term)
    requires (p, Some(o)) in RelFields(x.rel)
    ensures o in RelAttribute(x, p)
  {
    RelFieldEntries(x, p, o);
    RelValueEntries(x, p, o);
  }

  lemma RelFieldOf(x: RelItem, p: Word, o: Term)
    requires p !in {RdfType, Arcrole, Linkrole} && o in RelAttribute(x, p)
    ensures (p, Some(o)) in RelFields(x.rel)
  {
  }

  /** `u` is the subject of relationship `x`: whatever it carries comes from `x`'s table. */
  lemma RelTripleSound(x: RelItem, next: nat, s: Term, p: Word, o: Term)
    requires Has(RelTriples(x, next), s, p, o)
    ensures || (s == Document && p == HasRelationship && o == Minted(RelNs, next))
            || (s == Minted(RelNs, next) && o in RelAttribute(x, p))
  {
    EmitAllAt(Minted(RelNs, next), RelFields(x.rel), s, p, o);
    if Has(EmitAll(Minted(RelNs, next), RelFields(x.rel)), s, p, o) {
      RelFieldIn(x, p, o);
    }
  }

  lemma RelTripleComplete(x: RelItem, next: nat, s: Term, p: Word, o: Term)
    requires || (s == Document && p == HasRelationship && o == Minted(RelNs, next))
             || (s == Minted(RelNs, next) && o in RelAttribute(x, p))
    ensures Has(RelTriples(x, next), s, p, o)
  {
    if s == Minted(RelNs, next) && p !in {RdfType, Arcrole, Linkrole} && o in RelAttribute(x, p) {
      RelFieldOf(x, p, o);
      EmitAllAt(Minted(RelNs, next), RelFields(x.rel), s, p, o);
    }
  }

  /** A relationship draws one identifier: its subject's. */
  function RelCost(x: RelItem): nat {
    1
  }

  /** `s` is one of the relationship subjects [next, next + count). */
  predicate IsMintedIn(s: Term, ns: Namespace, next: nat, count: nat) {
    s.Minted? && s.ns == ns && next <= s.id < next + count
  }

  /** The document links to each relationship subject [next, next + |xs|), and the subject for
      `xs[i]` carries that relationship's attributes. */
  predicate RelsHave(xs: seq<RelItem>, next: nat, s: Term, p: Word, o: Term) {
    || (s == Document && p == HasRelationship && IsMintedIn(o, RelNs, next, |xs|))
    || (IsMintedIn(s, RelNs, next, |xs|) && o in RelAttribute(xs[s.id - next], p))
  }

  lemma RelTripleAt(x: RelItem, next: nat, s: Term, p: Word, o: Term)
    ensures Has(RelTriples(x, next), s, p, o) <==>
      || (s == Document && p == HasRelationship && o == Minted(RelNs, next))
      || (s == Minted(RelNs, next) && o in RelAttribute(x, p))
  {
    if Has(RelTriples(x, next), s, p, o) {
      RelTripleSound(x, next, s, p, o);
    } else {
      if (s == Document && p == HasRelationship && o == Minted(RelNs, next))
         || (s == Minted(RelNs, next) && o in RelAttribute(x, p)) {
        RelTripleComplete(x, next, s, p, o);
      }
    }
  }

  /** The relationship triples are: the document linked to each relationship subject, and each
      subject's attributes (xbrl_to_rdf.py:214-243). */
  lemma {:induction false} RelsContent(xs: seq<RelItem>, next: nat)
    ensures forall s, p, o :: Has(RelsOf(xs, next), s, p, o) <==> RelsHave(xs, next, s, p, o)
  {
    if |xs| > 0 {
      RelsContent(xs[1..], next + 1);
      var g := RelsOf(xs, next);
      var rest := RelsOf(xs[1..], next + 1);
      assert g == RelTriples(xs[0], next) + rest;
      forall s, p, o
        ensures Has(g, s, p, o) <==> RelsHave(xs, next, s, p, o)
      {
        RelTripleAt(xs[0], next, s, p, o);
        assert Has(g, s, p, o) <==> Has(RelTriples(xs[0], next), s, p, o) || Has(rest, s, p, o);
        if IsMintedIn(s, RelNs, next + 1, |xs| - 1) {
          assert xs[s.id - next] == xs[1..][s.id - (next + 1)];
        }
      }
    }
  }

  // ---------------------------------------------------------------- passes

  /** Where a pass's loop raises, if it does. Each of the four item passes catches the
      exception, prints it and stops, keeping the items it finished; the taxonomy pass records
      the exception's message. */
  datatype PassFaults = PassFaults(
    concepts: Option<nat>,
    contexts: Option<nat>,
    facts: Option<nat>,
    relationships: Option<nat>,
    taxonomy: Option<string>)

  /** The items a pass finishes: those before the one it raised at, or all of them. */
  function Prefix<T>(xs: seq<T>, fault: Option<nat>): (done: seq<T>)
    ensures done <= xs
    ensures fault.None? ==> done == xs
    ensures fault.Some? ==> |done| == if fault.value < |xs| then fault.value else |xs|
  {
    if fault.Some? && fault.value < |xs| then xs[..fault.value] else xs
  }

  function ConceptsOf(cs: seq<Concept>): set<Triple> {
    if |cs| == 0 then {} else ConceptTriples(cs[0]) + ConceptsOf(cs[1..])
  }

  /** The identifiers one context draws: entity node, period node, one node per dimension. */
  function ContextCost(ctx: Context): nat {
    EntityCost(ctx) + PeriodCost(ctx) + |DimensionsOf(ctx)|
  }

  /** A pass over items that draw identifiers: each item's triples, the items using
      consecutive identifiers from `next` on, `cost(x)` of them for item `x`. */
  function Chain<T>(xs: seq<T>, next: nat, item: (T, nat) -> set<Triple>, cost: T -> nat): set<Triple> {
    if |xs| == 0 then {} else item(xs[0], next) + Chain(xs[1..], next + cost(xs[0]), item, cost)
  }

  /** The identifiers a whole pass draws. */
  function ChainCost<T>(xs: seq<T>, cost: T -> nat): nat {
    if |xs| == 0 then 0 else cost(xs[0]) + ChainCost(xs[1..], cost)
  }

  /** A pass over `a + b` is the pass over `a` and then the pass over `b`, which starts where
      `a` stopped drawing identifiers. */
  lemma {:induction false} ChainAppend<T>(a: seq<T>, b: seq<T>, next: nat, item: (T, nat) -> set<Triple>, cost: T -> nat)
    ensures Chain(a + b, next, item, cost) == Chain(a, next, item, cost) + Chain(b, next + ChainCost(a, cost), item, cost)
    ensures ChainCost(a + b, cost) == ChainCost(a, cost) + ChainCost(b, cost)
  {
    if |a| > 0 {
      ChainAppend(a[1..], b, next + cost(a[0]), item, cost);
      assert (a + b)[1..] == a[1..] + b;
    } else {
      assert a + b == b;
    }
  }

  lemma {:induction false} ConceptsAppend(a: seq<Concept>, b: seq<Concept>)
    ensures ConceptsOf(a + b) == ConceptsOf(a) + ConceptsOf(b)
  {
    if |a| > 0 {
      ConceptsAppend(a[1..], b);
      assert (a + b)[1..] == a[1..] + b;
    } else {
      assert a + b == b;
    }
  }

  function ContextsOf(xs: seq<Context>, next: nat): set<Triple> {
    Chain(xs, next, ContextTriples, ContextCost)
  }

  function FactsOf(fs: seq<Fact>, next: nat): set<Triple> {
    Chain(fs, next, FactTriples, FactCost)
  }

  /** One fresh subject per relationship. */
  function RelsOf(xs: seq<RelItem>, next: nat): set<Triple> {
    Chain(xs, next, RelTriples, RelCost)
  }

  /** The relationships the pass visits: none when the model has no relationship sets. */
  function ModelRelItems(m: XbrlModel): seq<RelItem> {
    if m.relationshipSets.Some? then RelItems(m.relationshipSets.value) else []
  }

  /** The document node: typed as an instance and stamped with the creation time, an opaque
      `xsd:dateTime` lexical form (xbrl_to_rdf.py:61-63). */
  function RootTriples(now: string): set<Triple> {
    {Triple(Document, Vocab(RdfType), Vocab(InstanceClass)), Triple(Document, Vocab(DctermsCreated), Lit(now, XsdDateTime))}
  }

  /** The items each pass finishes under `faults`. */
  function DoneConcepts(m: XbrlModel, faults: PassFaults): seq<Concept> {
    Prefix(m.concepts, faults.concepts)
  }

  function DoneContexts(m: XbrlModel, faults: PassFaults): seq<Context> {
    Prefix(m.contexts, faults.contexts)
  }

  function DoneFacts(m: XbrlModel, faults: PassFaults): seq<Fact> {
    Prefix(m.facts, faults.facts)
  }

  function DoneRels(m: XbrlModel, faults: PassFaults): seq<RelItem> {
    Prefix(ModelRelItems(m), faults.relationships)
  }

  /** Where each pass starts drawing identifiers: the supply is shared and used in pass order. */
  function FactsStart(m: XbrlModel, faults: PassFaults, seed: nat): nat {
    seed + ChainCost(DoneContexts(m, faults), ContextCost)
  }

  function RelsStart(m: XbrlModel, faults: PassFaults, seed: nat): nat {
    FactsStart(m, faults, seed) + ChainCost(DoneFacts(m, faults), FactCost)
  }

  /** The graph `xbrl_to_rdf` returns (xbrl_to_rdf.py:31-303): the document node and the
      triples of the four item passes, each over the items it finished. `seed` is the first
      identifier of the fresh-identifier supply and `now` the creation timestamp. */
  function TranslationGraph(m: XbrlModel, faults: PassFaults, seed: nat, now: string): set<Triple> {
    RootTriples(now)
    + ConceptsOf(DoneConcepts(m, faults))
    + ContextsOf(DoneContexts(m, faults), seed)
    + FactsOf(DoneFacts(m, faults), FactsStart(m, faults, seed))
    + RelsOf(DoneRels(m, faults), RelsStart(m, faults, seed))
  }

  /** The message the taxonomy pass records (xbrl_to_rdf.py:276-278). */
  function TaxonomyError(message: string): string {
    "Error translating taxonomy: " + message
  }

  // ---------------------------------------------------------------- the translator

  /** An `XBRLToRDF` object: the model it wraps and the errors it has recorded. */
  datatype Translator = Translator(model: XbrlModel, errors: seq<string>)

  /** `XBRLToRDF(model)`: a missing model is rejected before anything else happens
      (xbrl_to_rdf.py:19-22). */
  function NewTranslator(model: Option<XbrlModel>): (r: Result<Translator, Exception>)
    ensures r.Failure? <==> model.None?
    ensures r.Failure? ==> r.error == ValueError("XBRL model cannot be None")
    ensures r.Success? ==> r.value.model == model.value && r.value.errors == []
  {
    if model.None? then Failure(ValueError("XBRL model cannot be None")) else Success(Translator(model.value, []))
  }

  /** One pass as the source runs it: a loop over the items that adds each item's triples and
      draws its identifiers, and stops at the item whose translation raises. Returns the
      triples added and the next free identifier. */
  method RunPass<T>(xs: seq<T>, fault: Option<nat>, next: nat, item: (T, nat) -> set<Triple>, cost: T -> nat)
    returns (g: set<Triple>, free: nat)
    ensures g == Chain(Prefix(xs, fault), next, item, cost)
    ensures free == next + ChainCost(Prefix(xs, fault), cost)
  {
    g, free := {}, next;
    var i := 0;
    while i < |xs| && (fault.None? || i < fault.value)
      invariant i <= |xs| && (fault.Some? ==> i <= fault.value)
      invariant g == Chain(xs[..i], next, item, cost)
      invariant free == next + ChainCost(xs[..i], cost)
    {
      ChainAppend(xs[..i], [xs[i]], next, item, cost);
      assert xs[..i + 1] == xs[..i] + [xs[i]];
      assert Chain([xs[i]], free, item, cost) == item(xs[i], free);
      g := g + item(xs[i], free);
      free := free + cost(xs[i]);
      i := i + 1;
    }
    assert xs[..i] == Prefix(xs, fault);
  }

  /** The concepts pass as the source runs it: it draws no identifiers. */
  method RunConcepts(cs: seq<Concept>, fault: Option<nat>) returns (g: set<Triple>)
    ensures g == ConceptsOf(Prefix(cs, fault))
  {
    g := {};
    var i := 0;
    while i < |cs| && (fault.None? || i < fault.value)
      invariant i <= |cs| && (fault.Some? ==> i <= fault.value)
      invariant g == ConceptsOf(cs[..i])
    {
      ConceptsAppend(cs[..i], [cs[i]]);
      assert cs[..i + 1] == cs[..i] + [cs[i]];
      g := g + ConceptTriples(cs[i]);
      i := i + 1;
    }
    assert cs[..i] == Prefix(cs, fault);
  }

  /** `xbrl_to_rdf` (xbrl_to_rdf.py:31-303): the document node, then the five passes in order,
      all adding to one graph and drawing from one identifier supply. The item passes print
      their exception and carry on; only the taxonomy pass records its message. */
  method Translate(t: Translator, faults: PassFaults, seed: nat, now: string) returns (g: set<Triple>, after: Translator)
    ensures g == TranslationGraph(t.model, faults, seed, now)
    ensures after.model == t.model
    ensures after.errors == t.errors + (if faults.taxonomy.Some? then [TaxonomyError(faults.taxonomy.value)] else [])
  {
    var m := t.model;
    var concepts := RunConcepts(m.concepts, faults.concepts);
    var contexts, factsStart := RunPass(m.contexts, faults.contexts, seed, ContextTriples, ContextCost);
    assert contexts == ContextsOf(DoneContexts(m, faults), seed);
    assert factsStart == FactsStart(m, faults, seed);
    var facts, relsStart := RunPass(m.facts, faults.facts, factsStart, FactTriples, FactCost);
    assert facts == FactsOf(DoneFacts(m, faults), FactsStart(m, faults, seed));
    assert relsStart == RelsStart(m, faults, seed);
    var rels, _ := RunPass(ModelRelItems(m), faults.relationships, relsStart, RelTriples, RelCost);
    assert rels == RelsOf(DoneRels(m, faults), RelsStart(m, faults, seed));
    g := RootTriples(now) + concepts + contexts + facts + rels;
    after := t;
    if faults.taxonomy.Some? {
      after := Translator(t.model, t.errors + [TaxonomyError(faults.taxonomy.value)]);
    }
  }

  /** `save_rdf_graph`'s checks, in order: a falsy (empty) graph, a falsy file name, then a
      format outside the four supported ones. On a failure the message is also appended to
      the translator's errors and re-raised (xbrl_to_rdf.py:318-335); on success the
      serialization itself, which is not modelled, would run. */
  function SaveCheck(graph: set<Triple>, filename: string, format: string): (r: Option<string>)
    ensures r.None? <==> |graph| > 0 && |filename| > 0 && format in SupportedFormats
    ensures |graph| == 0 ==> r == Some("RDF graph cannot be None")
    ensures |graph| > 0 && |filename| == 0 ==> r == Some("Output filename cannot be None")
    ensures |graph| > 0 && |filename| > 0 && format !in SupportedFormats ==> r == Some("Unsupported format: " + format)
  {
    if |graph| == 0 then Some("RDF graph cannot be None")
    else if |filename| == 0 then Some("Output filename cannot be None")
    else if format !in SupportedFormats then Some("Unsupported format: " + format)
    else None
  }

  const SupportedFormats: seq<string> := ["turtle", "xml", "n3", "json-ld"]

  method SaveRdfGraph(t: Translator, graph: set<Triple>, filename: string, format: string)
    returns (r: Result<(), Exception>, after: Translator)
    ensures r.Success? <==> |graph| > 0 && |filename| > 0 && format in SupportedFormats
    ensures after.model == t.model
    ensures r.Success? ==> after.errors == t.errors
    ensures r.Failure? ==> r.error.ValueError? && after.errors == t.errors + ["Error saving RDF graph: " + r.error.message]
    ensures r.Failure? ==> r.error == ValueError(SaveCheck(graph, filename, format).value)
  {
    var problem := SaveCheck(graph, filename, format);
    if problem.Some? {
      r := Failure(ValueError(problem.value));
      after := Translator(t.model, t.errors + ["Error saving RDF graph: " + problem.value]);
    } else {
      r := Success(());
      after := t;
    }
  }
}
