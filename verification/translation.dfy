/** What the whole translation guarantees: pass by pass, and then for the graph
    `xbrl_to_rdf` returns. */
module Translation {
  import opened Wrappers
  import opened Seqs
  import opened Rdf
  import opened XbrlModel
  import opened XbrlToRdf

  // ---------------------------------------------------------------- concepts pass

  /** Concept `c` has subject `s` and `o` in its table under `p`. */
  predicate ConceptGives(c: Concept, s: Term, p: Word, o: Term) {
    s == ConceptIri(c.qname.localName) && o in ConceptAttribute(c, p)
  }

  /** Some concept of `cs` has subject `s` and `o` in its table under `p`. */
  predicate ConceptsHave(cs: seq<Concept>, s: Term, p: Word, o: Term) {
    |cs| > 0 && (ConceptGives(cs[0], s, p, o) || ConceptsHave(cs[1..], s, p, o))
  }

  lemma ConceptTripleAt(c: Concept, s: Term, p: Word, o: Term)
    ensures Has(ConceptTriples(c), s, p, o) <==> ConceptGives(c, s, p, o)
  {
    ConceptTriplesContent(c);
  }

  /** The concepts pass yields exactly the attribute tables of its concepts, each about the
      subject named by the concept's local name. */
  lemma {:induction false} ConceptsAt(cs: seq<Concept>, s: Term, p: Word, o: Term)
    ensures Has(ConceptsOf(cs), s, p, o) <==> ConceptsHave(cs, s, p, o)
  {
    if |cs| > 0 {
      ConceptsAt(cs[1..], s, p, o);
      ConceptTripleAt(cs[0], s, p, o);
      assert ConceptsOf(cs) == ConceptTriples(cs[0]) + ConceptsOf(cs[1..]);
    }
  }

  /** The union of the tables of the concepts of `cs` whose local name is `name`. */
  function MergedAttribute(cs: seq<Concept>, name: string, p: Word): set<Term> {
    if |cs| == 0 then {}
    else (if cs[0].qname.localName == name then ConceptAttribute(cs[0], p) else {}) + MergedAttribute(cs[1..], name, p)
  }

  lemma ConceptObjectsOne(c: Concept, name: string, p: Word)
    ensures Objects(ConceptTriples(c), ConceptIri(name), p) ==
      if c.qname.localName == name then ConceptAttribute(c, p) else {}
  {
    forall o
      ensures o in Objects(ConceptTriples(c), ConceptIri(name), p) <==>
        c.qname.localName == name && o in ConceptAttribute(c, p)
    {
      InObjects(ConceptTriples(c), ConceptIri(name), p, o);
      ConceptTripleAt(c, ConceptIri(name), p, o);
    }
  }

  /** Concepts that share a local name share one subject, which carries the union of their
      tables (xbrl_to_rdf.py:69). */
  lemma {:induction false} ConceptObjects(cs: seq<Concept>, name: string, p: Word)
    ensures Objects(ConceptsOf(cs), ConceptIri(name), p) == MergedAttribute(cs, name, p)
  {
    if |cs| > 0 {
      ConceptObjects(cs[1..], name, p);
      ConceptObjectsOne(cs[0], name, p);
      ObjectsOfUnion(ConceptTriples(cs[0]), ConceptsOf(cs[1..]), ConceptIri(name), p);
    }
  }

  /** Every concept's subject is typed `Concept` and labelled with exactly its local name,
      however many concepts share it (xbrl_to_rdf.py:69-73). */
  lemma {:induction false} ConceptLabels(cs: seq<Concept>, name: string)
    requires exists c :: c in cs && c.qname.localName == name
    ensures Objects(ConceptsOf(cs), ConceptIri(name), RdfType) == {Vocab(ConceptClass)}
    ensures Objects(ConceptsOf(cs), ConceptIri(name), RdfsLabel) == {Str(name)}
  {
    ConceptObjects(cs, name, RdfType);
    ConceptObjects(cs, name, RdfsLabel);
    MergedFixed(cs, name);
  }

  /** The type and the label of a merged subject do not depend on how many concepts share it. */
  lemma {:induction false} MergedFixed(cs: seq<Concept>, name: string)
    ensures MergedAttribute(cs, name, RdfType) == if exists c :: c in cs && c.qname.localName == name then {Vocab(ConceptClass)} else {}
    ensures MergedAttribute(cs, name, RdfsLabel) == if exists c :: c in cs && c.qname.localName == name then {Str(name)} else {}
  {
    if |cs| > 0 {
      MergedFixed(cs[1..], name);
      if exists c :: c in cs[1..] && c.qname.localName == name {
        var c :| c in cs[1..] && c.qname.localName == name;
        assert c in cs;
      }
      if exists c :: c in cs && c.qname.localName == name {
        var c :| c in cs && c.qname.localName == name;
        assert c == cs[0] || c in cs[1..];
      }
    }
  }

  /** The subjects typed `Concept` are exactly the concepts' local-name subjects. */
  lemma {:induction false} ConceptInstances(cs: seq<Concept>)
    ensures Instances(ConceptsOf(cs), ConceptClass) == set c | c in cs :: ConceptIri(c.qname.localName)
  {
    if |cs| > 0 {
      ConceptInstances(cs[1..]);
      SubjectsOfUnion(ConceptTriples(cs[0]), ConceptsOf(cs[1..]), RdfType, Vocab(ConceptClass));
      var u := ConceptIri(cs[0].qname.localName);
      forall s
        ensures s in Subjects(ConceptTriples(cs[0]), RdfType, Vocab(ConceptClass)) <==> s == u
      {
        InSubjects(ConceptTriples(cs[0]), RdfType, Vocab(ConceptClass), s);
        ConceptTripleAt(cs[0], s, RdfType, Vocab(ConceptClass));
      }
      assert (set c | c in cs :: ConceptIri(c.qname.localName)) ==
        {u} + (set c | c in cs[1..] :: ConceptIri(c.qname.localName));
    }
  }

  lemma ConceptWordsOne(c: Concept)
    ensures PredicatesIn(ConceptTriples(c), ConceptWords)
  {
    forall s, p, o | Has(ConceptTriples(c), s, p, o)
      ensures p in ConceptWords
    {
      ConceptTripleAt(c, s, p, o);
    }
  }

  /** The concepts pass uses only the concept vocabulary. */
  lemma {:induction false} ConceptsWords(cs: seq<Concept>)
    ensures PredicatesIn(ConceptsOf(cs), ConceptWords)
  {
    if |cs| > 0 {
      ConceptsWords(cs[1..]);
      ConceptWordsOne(cs[0]);
      PredicatesInUnion(ConceptTriples(cs[0]), ConceptsOf(cs[1..]), ConceptWords);
    }
  }

  // ---------------------------------------------------------------- contexts pass

  /** The predicates that only the fresh nodes of a context carry. */
  predicate NodeWord(p: Word) {
    p == Identifier || p == Scheme || p == Instant || p == StartDate || p == EndDate
    || p == Dimension || p == Member || p == TypedValue
  }

  lemma EntityWords(u: Term, e: Term, ctx: Context, s: Term, p: Word, o: Term)
    ensures EntityHas(u, e, ctx, s, p, o) ==> p in ContextWords
  {
  }

  lemma PeriodWords(u: Term, pn: Term, ctx: Context, s: Term, p: Word, o: Term)
    ensures PeriodHas(u, pn, ctx, s, p, o) ==> p in ContextWords
  {
  }

  lemma SegmentsWords(u: Term, ds: seq<QualifiedDimension>, first: nat, s: Term, p: Word, o: Term)
    ensures SegmentsHave(u, ds, first, s, p, o) ==> p in ContextWords
  {
  }

  lemma EntityNodeAt(u: Term, e: Term, ctx: Context, s: Term, p: Word, o: Term)
    ensures EntityHas(u, e, ctx, s, p, o) && NodeWord(p) ==> s == e && EntityCost(ctx) == 1
  {
  }

  lemma PeriodNodeAt(u: Term, pn: Term, ctx: Context, s: Term, p: Word, o: Term)
    ensures PeriodHas(u, pn, ctx, s, p, o) && NodeWord(p) ==> s == pn && PeriodCost(ctx) == 1
  {
  }

  lemma SegmentsNode(u: Term, ds: seq<QualifiedDimension>, k: nat, s: Term, p: Word, o: Term)
    ensures SegmentsHave(u, ds, k, s, p, o) && NodeWord(p) ==> IsNodeIn(s, k, |ds|)
  {
  }

  /** `s` is the entity node `e`, the period node `pn` or one of the segment nodes from
      `first`, each only when the context has it. */
  predicate ContextNodeOf(ctx: Context, e: Term, pn: Term, first: nat, s: Term) {
    (s == e && EntityCost(ctx) == 1) || (s == pn && PeriodCost(ctx) == 1) || IsNodeIn(s, first, |DimensionsOf(ctx)|)
  }

  /** A context triple uses only the context vocabulary. */
  lemma ContextHasWords(ctx: Context, e: Term, pn: Term, first: nat, s: Term, p: Word, o: Term)
    ensures ContextHasAt(ctx, e, pn, first, s, p, o) ==> p in ContextWords
  {
    var u := ContextIri(ctx.id);
    EntityWords(u, e, ctx, s, p, o);
    PeriodWords(u, pn, ctx, s, p, o);
    SegmentsWords(u, DimensionsOf(ctx), first, s, p, o);
  }

  /** The node predicates sit on the entity node, the period node or a segment node. */
  lemma ContextHasAtNode(ctx: Context, e: Term, pn: Term, first: nat, s: Term, p: Word, o: Term)
    ensures ContextHasAt(ctx, e, pn, first, s, p, o) && NodeWord(p) ==> ContextNodeOf(ctx, e, pn, first, s)
  {
    var u := ContextIri(ctx.id);
    EntityNodeAt(u, e, ctx, s, p, o);
    PeriodNodeAt(u, pn, ctx, s, p, o);
    SegmentsNode(u, DimensionsOf(ctx), first, s, p, o);
  }

  /** The entity node, the period node and the segment nodes lie consecutively from `next`. */
  lemma ContextNodeRange(ctx: Context, next: nat, s: Term)
    ensures ContextNodeOf(ctx, Blank(next), PeriodNode(ctx, next), SegmentsStart(ctx, next), s)
      ==> IsNodeIn(s, next, ContextCost(ctx))
  {
  }

  /** Only the fresh nodes of a context carry the node predicates, with identifiers in
      [next, next + its cost). */
  lemma ContextHasNode(ctx: Context, next: nat, s: Term, p: Word, o: Term)
    ensures ContextHas(ctx, next, s, p, o) && NodeWord(p) ==> IsNodeIn(s, next, ContextCost(ctx))
  {
    ContextHasAtNode(ctx, Blank(next), PeriodNode(ctx, next), SegmentsStart(ctx, next), s, p, o);
    ContextNodeRange(ctx, next, s);
  }

  lemma ContextWordsOne(ctx: Context, next: nat)
    ensures PredicatesIn(ContextTriples(ctx, next), ContextWords)
  {
    forall s, p, o | Has(ContextTriples(ctx, next), s, p, o)
      ensures p in ContextWords
    {
      ContextTripleAt(ctx, next, s, p, o);
      ContextHasWords(ctx, Blank(next), PeriodNode(ctx, next), SegmentsStart(ctx, next), s, p, o);
    }
  }

  lemma ContextNodeIds(ctx: Context, next: nat, p: Word)
    requires NodeWord(p)
    ensures FreshSubjectsIn(ContextTriples(ctx, next), p, next, ContextCost(ctx))
  {
    forall s, o | Has(ContextTriples(ctx, next), s, p, o)
      ensures IsFresh(s) && next <= s.id < next + ContextCost(ctx)
    {
      ContextTripleAt(ctx, next, s, p, o);
      ContextHasNode(ctx, next, s, p, o);
    }
  }

  /** The contexts pass uses only the context vocabulary. */
  lemma ContextsWords(xs: seq<Context>, next: nat)
    ensures PredicatesIn(ContextsOf(xs, next), ContextWords)
  {
    ContextItemsWords();
    ChainWords(xs, next, ContextTriples, ContextCost, ContextWords);
  }

  /** No node of the whole contexts pass carries both predicates of such a pair: distinct
      contexts draw their nodes from disjoint ranges of the supply. */
  lemma ContextsExclusive(xs: seq<Context>, next: nat, p1: Word, p2: Word)
    requires PeriodOrSegmentPair(p1, p2)
    ensures Exclusive(ContextsOf(xs, next), p1, p2)
  {
    ContextItemsExclusive(p1, p2);
    ContextItemsFresh(p1);
    ContextItemsFresh(p2);
    ChainExclusive(xs, next, ContextTriples, ContextCost, p1, p2);
  }

  lemma ContextItemsWords()
    ensures ItemsIn(ContextTriples, ContextWords)
  {
    ContextEachWords();
  }

  lemma ContextItemsExclusive(p1: Word, p2: Word)
    requires PeriodOrSegmentPair(p1, p2)
    ensures ItemsExclusive(ContextTriples, p1, p2)
  {
    ContextEachExclusive(p1, p2);
  }

  lemma ContextItemsFresh(p: Word)
    requires NodeWord(p)
    ensures ItemsFresh(ContextTriples, ContextCost, p)
  {
    ContextEachFresh(p);
  }

  lemma ContextEachWords()
    ensures forall x, n: nat :: PredicatesIn(ContextTriples(x, n), ContextWords)
  {
    forall x, n: nat
      ensures PredicatesIn(ContextTriples(x, n), ContextWords)
    {
      ContextWordsOne(x, n);
    }
  }

  lemma ContextEachExclusive(p1: Word, p2: Word)
    requires PeriodOrSegmentPair(p1, p2)
    ensures forall x, n: nat :: Exclusive(ContextTriples(x, n), p1, p2)
  {
    forall x, n: nat
      ensures Exclusive(ContextTriples(x, n), p1, p2)
    {
      ContextExclusive(x, n, p1, p2);
    }
  }

  lemma ContextEachFresh(p: Word)
    requires NodeWord(p)
    ensures forall x, n: nat :: FreshSubjectsIn(ContextTriples(x, n), p, n, ContextCost(x))
  {
    forall x, n: nat
      ensures FreshSubjectsIn(ContextTriples(x, n), p, n, ContextCost(x))
    {
      ContextNodeIds(x, n, p);
    }
  }

  /** The pairs of node predicates no node carries together: an instant and a start or end
      date on a period node, a member and a typed value on a segment node. */
  predicate PeriodOrSegmentPair(p1: Word, p2: Word) {
    (p1 == Instant && p2 == StartDate) || (p1 == Instant && p2 == EndDate) || (p1 == Member && p2 == TypedValue)
  }

  /** A period node holds an instant or a start/end pair, never both; a segment node holds a
      member or a typed value, never both (xbrl_to_rdf.py:126-145). */
  lemma ContextExclusive(ctx: Context, next: nat, p1: Word, p2: Word)
    requires PeriodOrSegmentPair(p1, p2)
    ensures Exclusive(ContextTriples(ctx, next), p1, p2)
  {
    var g := ContextTriples(ctx, next);
    var e, pn, first := Blank(next), PeriodNode(ctx, next), SegmentsStart(ctx, next);
    forall s, o1, o2 | Has(g, s, p1, o1)
      ensures !Has(g, s, p2, o2)
    {
      ContextTripleAt(ctx, next, s, p1, o1);
      ContextTripleAt(ctx, next, s, p2, o2);
      ContextHasExclusive(ctx, e, pn, first, s, p1, o1, p2, o2);
    }
  }

  /** The node that carries `p1` cannot also carry `p2`. */
  lemma ContextHasExclusive(ctx: Context, e: Term, pn: Term, first: nat, s: Term, p1: Word, o1: Term, p2: Word, o2: Term)
    ensures PeriodOrSegmentPair(p1, p2) && ContextHasAt(ctx, e, pn, first, s, p1, o1)
      ==> !ContextHasAt(ctx, e, pn, first, s, p2, o2)
  {
    var u := ContextIri(ctx.id);
    var ds := DimensionsOf(ctx);
    PeriodOnly(ctx, e, pn, first, s, p1, o1);
    PeriodOnly(ctx, e, pn, first, s, p2, o2);
    SegmentOnly(ctx, e, pn, first, s, p1, o1);
    SegmentOnly(ctx, e, pn, first, s, p2, o2);
    PeriodHasExclusive(u, pn, ctx, s, p1, o1, p2, o2);
    SegmentsHaveExclusive(u, ds, first, s, p1, o1, p2, o2);
  }

  /** Instants and start and end dates appear only on the period node. */
  lemma PeriodOnly(ctx: Context, e: Term, pn: Term, first: nat, s: Term, p: Word, o: Term)
    ensures ContextHasAt(ctx, e, pn, first, s, p, o) && (p == Instant || p == StartDate || p == EndDate)
      ==> PeriodHas(ContextIri(ctx.id), pn, ctx, s, p, o)
  {
    EntityLacks(ContextIri(ctx.id), e, ctx, s, p, o);
    SegmentsLack(ContextIri(ctx.id), DimensionsOf(ctx), first, s, p, o);
  }

  /** Members and typed values appear only on segment nodes. */
  lemma SegmentOnly(ctx: Context, e: Term, pn: Term, first: nat, s: Term, p: Word, o: Term)
    ensures ContextHasAt(ctx, e, pn, first, s, p, o) && (p == Member || p == TypedValue)
      ==> SegmentsHave(ContextIri(ctx.id), DimensionsOf(ctx), first, s, p, o)
  {
    EntityLacks(ContextIri(ctx.id), e, ctx, s, p, o);
    PeriodLacks(ContextIri(ctx.id), pn, ctx, s, p, o);
  }

  lemma EntityLacks(u: Term, e: Term, ctx: Context, s: Term, p: Word, o: Term)
    ensures (p == Instant || p == StartDate || p == EndDate || p == Member || p == TypedValue)
      ==> !EntityHas(u, e, ctx, s, p, o)
  {
  }

  lemma PeriodLacks(u: Term, pn: Term, ctx: Context, s: Term, p: Word, o: Term)
    ensures (p == Member || p == TypedValue) ==> !PeriodHas(u, pn, ctx, s, p, o)
  {
  }

  lemma SegmentsLack(u: Term, ds: seq<QualifiedDimension>, first: nat, s: Term, p: Word, o: Term)
    ensures (p == Instant || p == StartDate || p == EndDate) ==> !SegmentsHave(u, ds, first, s, p, o)
  {
  }

  lemma PeriodHasExclusive(u: Term, pn: Term, ctx: Context, s: Term, p1: Word, o1: Term, p2: Word, o2: Term)
    ensures (p1 == Instant && (p2 == StartDate || p2 == EndDate))
      ==> !(PeriodHas(u, pn, ctx, s, p1, o1) && PeriodHas(u, pn, ctx, s, p2, o2))
  {
  }

  lemma SegmentsHaveExclusive(u: Term, ds: seq<QualifiedDimension>, first: nat, s: Term, p1: Word, o1: Term, p2: Word, o2: Term)
    ensures (p1 == Member && p2 == TypedValue)
      ==> !(SegmentsHave(u, ds, first, s, p1, o1) && SegmentsHave(u, ds, first, s, p2, o2))
  {
  }

  // ---------------------------------------------------------------- facts pass

  lemma FactAttributeWords(f: Fact, next: nat, p: Word, o: Term)
    ensures o in FactAttribute(f, next, p) ==> p in FactWords
  {
  }

  lemma UnitAttributeWords(f: Fact, p: Word, o: Term)
    ensures o in UnitAttribute(f, p) ==> p in FactWords
  {
  }

  lemma FootnotesWords(u: Term, ns: seq<Footnote>, first: nat, s: Term, p: Word, o: Term)
    ensures FootnotesHave(u, ns, first, s, p, o) ==> p in FactWords
  {
  }

  /** A fact triple uses only the fact vocabulary. */
  lemma FactHasWords(f: Fact, next: nat, s: Term, p: Word, o: Term)
    ensures FactHas(f, next, s, p, o) ==> p in FactWords
  {
    FactAttributeWords(f, next, p, o);
    UnitAttributeWords(f, p, o);
    FootnotesWords(Minted(FactNs, next), f.footnotes, FootnotesStart(f, next), s, p, o);
  }

  lemma FactWordsOne(f: Fact, next: nat)
    ensures PredicatesIn(FactTriples(f, next), FactWords)
  {
    forall s, p, o | Has(FactTriples(f, next), s, p, o)
      ensures p in FactWords
    {
      FactTripleAt(f, next, s, p, o);
      FactHasWords(f, next, s, p, o);
    }
  }

  /** Precision and decimals sit only on the fact's own subject. */
  lemma FactSubjectOnly(f: Fact, next: nat, s: Term, p: Word, o: Term)
    ensures FactHas(f, next, s, p, o) && (p == Precision || p == Decimals)
      ==> s == Minted(FactNs, next) && o in FactAttribute(f, next, p)
  {
  }

  lemma FactSubjectIds(f: Fact, next: nat, p: Word)
    requires p == Precision || p == Decimals
    ensures FreshSubjectsIn(FactTriples(f, next), p, next, FactCost(f))
  {
    forall s, o | Has(FactTriples(f, next), s, p, o)
      ensures IsFresh(s) && next <= s.id < next + FactCost(f)
    {
      FactTripleAt(f, next, s, p, o);
      FactSubjectOnly(f, next, s, p, o);
    }
  }

  /** A fact's subject carries precision or decimals, never both (xbrl_to_rdf.py:188-191). */
  lemma FactExclusive(f: Fact, next: nat)
    ensures Exclusive(FactTriples(f, next), Precision, Decimals)
  {
    var g := FactTriples(f, next);
    forall s, o1, o2 | Has(g, s, Precision, o1)
      ensures !Has(g, s, Decimals, o2)
    {
      FactTripleAt(f, next, s, Precision, o1);
      FactTripleAt(f, next, s, Decimals, o2);
      FactSubjectOnly(f, next, s, Precision, o1);
      FactSubjectOnly(f, next, s, Decimals, o2);
    }
  }

  /** What the fact's subject carries in its triples is exactly its attribute table. */
  lemma FactSubjectObjects(f: Fact, next: nat, p: Word)
    requires p != HasFootnote
    ensures Objects(FactTriples(f, next), Minted(FactNs, next), p) == FactAttribute(f, next, p)
  {
    var g, u := FactTriples(f, next), Minted(FactNs, next);
    forall o
      ensures o in Objects(g, u, p) <==> o in FactAttribute(f, next, p)
    {
      InObjects(g, u, p, o);
      FactTripleAt(f, next, u, p, o);
      FactSubjectHas(f, next, p, o);
    }
  }

  lemma FactSubjectHas(f: Fact, next: nat, p: Word, o: Term)
    requires p != HasFootnote
    ensures FactHas(f, next, Minted(FactNs, next), p, o) <==> o in FactAttribute(f, next, p)
  {
  }

  /** The unit node, when there is one, carries exactly the unit's table: it lies before
      every footnote node. */
  lemma UnitNodeObjects(f: Fact, next: nat, p: Word)
    requires UnitCost(f) == 1
    ensures Objects(FactTriples(f, next), UnitNode(next), p) == UnitAttribute(f, p)
  {
    var g, b := FactTriples(f, next), UnitNode(next);
    forall o
      ensures o in Objects(g, b, p) <==> o in UnitAttribute(f, p)
    {
      InObjects(g, b, p, o);
      FactTripleAt(f, next, b, p, o);
      UnitNodeHas(f, next, p, o);
    }
  }

  lemma UnitNodeHas(f: Fact, next: nat, p: Word, o: Term)
    requires UnitCost(f) == 1
    ensures FactHas(f, next, UnitNode(next), p, o) <==> o in UnitAttribute(f, p)
  {
  }

  /** The measure names of a unit are the local names in its flattened measure lists. */
  lemma MeasureNames(f: Fact)
    requires f.unit.Some?
    ensures UnitAttribute(f, Measure) == set m: QName | m in Flatten(f.unit.value.measures) :: Str(m.localName)
  {
    var mss := f.unit.value.measures;
    forall o
      ensures o in UnitAttribute(f, Measure) <==> o in set m: QName | m in Flatten(mss) :: Str(m.localName)
    {
      MeasureAt(f, UnitNode(0), UnitNode(0), Measure, o);
      if o in set m: QName | m in Flatten(mss) :: Str(m.localName) {
        var m: QName :| m in Flatten(mss) && o == Str(m.localName);
        assert Triple(UnitNode(0), Vocab(Measure), o) in MeasureTriples(UnitNode(0), MeasuresOf(f));
      }
    }
  }

  /** The document links to the fact's subject, and to nothing else, by `hasFact`; that
      subject, and no other node of the fact, is typed as a fact (xbrl_to_rdf.py:157-158). */
  lemma FactLinked(f: Fact, next: nat)
    ensures Objects(FactTriples(f, next), Document, HasFact) == {Minted(FactNs, next)}
    ensures Instances(FactTriples(f, next), FactClass) == {Minted(FactNs, next)}
  {
    FactLinks(f, next);
    FactTyped(f, next);
  }

  lemma FactLinks(f: Fact, next: nat)
    ensures Objects(FactTriples(f, next), Document, HasFact) == {Minted(FactNs, next)}
  {
    var g := FactTriples(f, next);
    forall o
      ensures o in Objects(g, Document, HasFact) <==> o == Minted(FactNs, next)
    {
      InObjects(g, Document, HasFact, o);
      FactTripleAt(f, next, Document, HasFact, o);
      FactLinkHas(f, next, o);
    }
  }

  lemma FactLinkHas(f: Fact, next: nat, o: Term)
    ensures FactHas(f, next, Document, HasFact, o) <==> o == Minted(FactNs, next)
  {
  }

  lemma FactTyped(f: Fact, next: nat)
    ensures Instances(FactTriples(f, next), FactClass) == {Minted(FactNs, next)}
  {
    var g := FactTriples(f, next);
    forall s
      ensures s in Instances(g, FactClass) <==> s == Minted(FactNs, next)
    {
      InSubjects(g, RdfType, Vocab(FactClass), s);
      FactTripleAt(f, next, s, RdfType, Vocab(FactClass));
      FactTypeHas(f, next, s);
    }
  }

  lemma FactTypeHas(f: Fact, next: nat, s: Term)
    ensures FactHas(f, next, s, RdfType, Vocab(FactClass)) <==> s == Minted(FactNs, next)
  {
  }

  /** A fact's subject links to its concept by local name and to its context by id, each
      only when the fact has one (xbrl_to_rdf.py:161-166). */
  lemma FactReferences(f: Fact, next: nat)
    ensures
      var g, u := FactTriples(f, next), Minted(FactNs, next);
      && Objects(g, u, HasConcept) == (if f.concept.Some? then {ConceptIri(f.concept.value.localName)} else {})
      && Objects(g, u, HasContext) == (if f.context.Some? then {ContextIri(f.context.value.id)} else {})
  {
    FactSubjectObjects(f, next, HasConcept);
    FactSubjectObjects(f, next, HasContext);
    ReferenceTable(f, next);
  }

  lemma ReferenceTable(f: Fact, next: nat)
    ensures FactAttribute(f, next, HasConcept) == (if f.concept.Some? then {ConceptIri(f.concept.value.localName)} else {})
    ensures FactAttribute(f, next, HasContext) == (if f.context.Some? then {ContextIri(f.context.value.id)} else {})
  {
  }

  /** A text fact carries its value as a plain literal, and no unit, precision or decimals
      (xbrl_to_rdf.py:169-195). */
  lemma TextFactBare(f: Fact, next: nat)
    requires !f.isNumeric
    ensures
      var g, u := FactTriples(f, next), Minted(FactNs, next);
      && Objects(g, u, Value) == (if f.value.Some? then {Str(f.value.value)} else {})
      && Objects(g, u, HasUnit) == {} && Objects(g, u, Precision) == {} && Objects(g, u, Decimals) == {}
  {
    FactSubjectObjects(f, next, Value);
    FactSubjectObjects(f, next, HasUnit);
    FactSubjectObjects(f, next, Precision);
    FactSubjectObjects(f, next, Decimals);
    TextTable(f, next);
  }

  lemma TextTable(f: Fact, next: nat)
    requires !f.isNumeric
    ensures FactAttribute(f, next, Value) == (if f.value.Some? then {Str(f.value.value)} else {})
    ensures FactAttribute(f, next, HasUnit) == {} && FactAttribute(f, next, Precision) == {}
    ensures FactAttribute(f, next, Decimals) == {}
  {
  }

  /** A numeric fact with a value carries it as an `xsd:decimal` literal, and its precision
      when it has one, its decimals only when it has no precision (xbrl_to_rdf.py:170-191). */
  lemma PrecisionWins(f: Fact, next: nat)
    requires f.isNumeric && f.value.Some?
    ensures
      var g, u := FactTriples(f, next), Minted(FactNs, next);
      && Objects(g, u, Value) == {Lit(f.value.value, XsdDecimal)}
      && Objects(g, u, Precision) == (if f.precision.Some? then {Str(f.precision.value)} else {})
      && Objects(g, u, Decimals) == (if f.precision.None? && f.decimals.Some? then {Str(f.decimals.value)} else {})
  {
    FactSubjectObjects(f, next, Value);
    FactSubjectObjects(f, next, Precision);
    FactSubjectObjects(f, next, Decimals);
    NumericTable(f, next);
  }

  lemma NumericTable(f: Fact, next: nat)
    requires f.isNumeric && f.value.Some?
    ensures FactAttribute(f, next, Value) == {Lit(f.value.value, XsdDecimal)}
    ensures FactAttribute(f, next, Precision) == (if f.precision.Some? then {Str(f.precision.value)} else {})
    ensures FactAttribute(f, next, Decimals) == (if f.precision.None? && f.decimals.Some? then {Str(f.decimals.value)} else {})
  {
  }

  /** A fact without a value carries neither value, unit, precision nor decimals. */
  lemma ValuelessFactBare(f: Fact, next: nat)
    requires f.value.None?
    ensures
      var g, u := FactTriples(f, next), Minted(FactNs, next);
      Objects(g, u, Value) == {} && Objects(g, u, HasUnit) == {} && Objects(g, u, Precision) == {} && Objects(g, u, Decimals) == {}
  {
    FactSubjectObjects(f, next, Value);
    FactSubjectObjects(f, next, HasUnit);
    FactSubjectObjects(f, next, Precision);
    FactSubjectObjects(f, next, Decimals);
    ValuelessTable(f, next);
  }

  lemma ValuelessTable(f: Fact, next: nat)
    requires f.value.None?
    ensures FactAttribute(f, next, Value) == {} && FactAttribute(f, next, HasUnit) == {}
    ensures FactAttribute(f, next, Precision) == {} && FactAttribute(f, next, Decimals) == {}
  {
  }

  /** A numeric fact with a value and a unit links to one unit node, typed as a unit, which
      carries the local name of every measure of every measure list (xbrl_to_rdf.py:175-185). */
  lemma UnitMeasures(f: Fact, next: nat)
    requires f.isNumeric && f.value.Some? && f.unit.Some?
    ensures
      var g, u, b := FactTriples(f, next), Minted(FactNs, next), UnitNode(next);
      && Objects(g, u, HasUnit) == {b}
      && Objects(g, b, RdfType) == {Vocab(UnitClass)}
      && Objects(g, b, Measure) == set m: QName | m in Flatten(f.unit.value.measures) :: Str(m.localName)
  {
    FactSubjectObjects(f, next, HasUnit);
    UnitNodeObjects(f, next, RdfType);
    UnitNodeObjects(f, next, Measure);
    MeasureNames(f);
    UnitTable(f, next);
  }

  lemma UnitTable(f: Fact, next: nat)
    requires f.isNumeric && f.value.Some? && f.unit.Some?
    ensures UnitCost(f) == 1
    ensures FactAttribute(f, next, HasUnit) == {UnitNode(next)}
    ensures UnitAttribute(f, RdfType) == {Vocab(UnitClass)}
  {
  }

  /** The blank nodes [first, first + count). */
  function NodeRange(first: nat, count: nat): set<Term> {
    set k: nat | first <= k < first + count :: Blank(k)
  }

  lemma InNodeRange(o: Term, first: nat, count: nat)
    ensures o in NodeRange(first, count) <==> IsNodeIn(o, first, count)
  {
    if IsNodeIn(o, first, count) {
      assert o == Blank(o.id);
    }
  }

  /** The fact's subject links to one fresh node per footnote, consecutive after the unit
      node (xbrl_to_rdf.py:198-201). */
  lemma FootnoteLinks(f: Fact, next: nat)
    ensures Objects(FactTriples(f, next), Minted(FactNs, next), HasFootnote) == NodeRange(FootnotesStart(f, next), |f.footnotes|)
  {
    var g, u := FactTriples(f, next), Minted(FactNs, next);
    var first := FootnotesStart(f, next);
    forall o
      ensures o in Objects(g, u, HasFootnote) <==> o in NodeRange(first, |f.footnotes|)
    {
      InObjects(g, u, HasFootnote, o);
      FactTripleAt(f, next, u, HasFootnote, o);
      FootnoteLinkHas(f, next, o);
      FootnoteLinkAt(u, f.footnotes, first, o);
      InNodeRange(o, first, |f.footnotes|);
    }
  }

  lemma FootnoteLinkHas(f: Fact, next: nat, o: Term)
    ensures FactHas(f, next, Minted(FactNs, next), HasFootnote, o)
      <==> FootnotesHave(Minted(FactNs, next), f.footnotes, FootnotesStart(f, next), Minted(FactNs, next), HasFootnote, o)
  {
  }

  lemma FootnoteLinkAt(u: Term, ns: seq<Footnote>, first: nat, o: Term)
    requires !u.Blank?
    ensures FootnotesHave(u, ns, first, u, HasFootnote, o) <==> IsNodeIn(o, first, |ns|)
  {
  }

  /** The node of footnote `i` is typed as a footnote and carries that footnote's text when it
      has one (xbrl_to_rdf.py:202-204). */
  lemma FootnoteContent(f: Fact, next: nat, i: nat)
    requires i < |f.footnotes|
    ensures
      var g, b := FactTriples(f, next), Blank(FootnotesStart(f, next) + i);
      && Objects(g, b, RdfType) == {Vocab(FootnoteClass)}
      && Objects(g, b, Text) == (if f.footnotes[i].text.Some? then {Str(f.footnotes[i].text.value)} else {})
  {
    FootnoteNodeObjects(f, next, i, RdfType);
    FootnoteNodeObjects(f, next, i, Text);
  }

  /** The node of footnote `i` carries exactly that footnote's table. */
  lemma FootnoteNodeObjects(f: Fact, next: nat, i: nat, p: Word)
    requires i < |f.footnotes|
    ensures Objects(FactTriples(f, next), Blank(FootnotesStart(f, next) + i), p) == FootnoteAttribute(f.footnotes[i], p)
  {
    var g, b := FactTriples(f, next), Blank(FootnotesStart(f, next) + i);
    forall o
      ensures o in Objects(g, b, p) <==> o in FootnoteAttribute(f.footnotes[i], p)
    {
      InObjects(g, b, p, o);
      FactTripleAt(f, next, b, p, o);
      FootnoteNodeHas(f, next, i, p, o);
    }
  }

  lemma FootnoteNodeHas(f: Fact, next: nat, i: nat, p: Word, o: Term)
    requires i < |f.footnotes|
    ensures FactHas(f, next, Blank(FootnotesStart(f, next) + i), p, o) <==> o in FootnoteAttribute(f.footnotes[i], p)
  {
    var first := FootnotesStart(f, next);
    FootnoteNodeAt(f, next, i, p, o);
    FootnoteHasAt(Minted(FactNs, next), f.footnotes, first, i, p, o);
  }

  /** At a footnote node, the fact's triples are those of its footnotes. */
  lemma FootnoteNodeAt(f: Fact, next: nat, i: nat, p: Word, o: Term)
    ensures FactHas(f, next, Blank(FootnotesStart(f, next) + i), p, o)
      <==> FootnotesHave(Minted(FactNs, next), f.footnotes, FootnotesStart(f, next), Blank(FootnotesStart(f, next) + i), p, o)
  {
  }

  lemma FootnoteHasAt(u: Term, ns: seq<Footnote>, first: nat, i: nat, p: Word, o: Term)
    requires i < |ns| && !u.Blank?
    ensures FootnotesHave(u, ns, first, Blank(first + i), p, o) <==> o in FootnoteAttribute(ns[i], p)
  {
  }

  /** The facts pass uses only the fact vocabulary. */
  lemma FactsWords(fs: seq<Fact>, next: nat)
    ensures PredicatesIn(FactsOf(fs, next), FactWords)
  {
    FactItemsWords();
    ChainWords(fs, next, FactTriples, FactCost, FactWords);
  }

  /** No subject of the whole facts pass carries both precision and decimals. */
  lemma FactsExclusive(fs: seq<Fact>, next: nat)
    ensures Exclusive(FactsOf(fs, next), Precision, Decimals)
  {
    FactItemsExclusive();
    FactItemsFresh(Precision);
    FactItemsFresh(Decimals);
    ChainExclusive(fs, next, FactTriples, FactCost, Precision, Decimals);
  }

  /** The document links to one distinct fresh subject per fact, and those are exactly the
      subjects typed as facts. */
  lemma FactsLinked(fs: seq<Fact>, next: nat)
    ensures Objects(FactsOf(fs, next), Document, HasFact) == Instances(FactsOf(fs, next), FactClass)
    ensures |Objects(FactsOf(fs, next), Document, HasFact)| == |fs|
    ensures forall o :: o in Objects(FactsOf(fs, next), Document, HasFact) ==> IsMintedIn(o, FactNs, next, ChainCost(fs, FactCost))
  {
    FactItemsLinked();
    ChainRooted(fs, next, FactTriples, FactCost, FactNs, HasFact, FactClass);
  }

  lemma FactItemsWords()
    ensures ItemsIn(FactTriples, FactWords)
  {
    FactEachWords();
  }

  lemma FactItemsExclusive()
    ensures ItemsExclusive(FactTriples, Precision, Decimals)
  {
    FactEachExclusive();
  }

  lemma FactItemsFresh(p: Word)
    requires p == Precision || p == Decimals
    ensures ItemsFresh(FactTriples, FactCost, p)
  {
    FactEachFresh(p);
  }

  lemma FactItemsLinked()
    ensures ItemsLinked(FactTriples, FactNs, HasFact)
    ensures ItemsTyped(FactTriples, FactNs, FactClass)
    ensures CostsPositive(FactCost)
  {
    FactEachRooted();
  }

  lemma FactEachWords()
    ensures forall x, n: nat :: PredicatesIn(FactTriples(x, n), FactWords)
  {
    forall x, n: nat
      ensures PredicatesIn(FactTriples(x, n), FactWords)
    {
      FactWordsOne(x, n);
    }
  }

  lemma FactEachExclusive()
    ensures forall x, n: nat :: Exclusive(FactTriples(x, n), Precision, Decimals)
  {
    forall x, n: nat
      ensures Exclusive(FactTriples(x, n), Precision, Decimals)
    {
      FactExclusive(x, n);
    }
  }

  lemma FactEachFresh(p: Word)
    requires p == Precision || p == Decimals
    ensures forall x, n: nat :: FreshSubjectsIn(FactTriples(x, n), p, n, FactCost(x))
  {
    forall x, n: nat
      ensures FreshSubjectsIn(FactTriples(x, n), p, n, FactCost(x))
    {
      FactSubjectIds(x, n, p);
    }
  }

  lemma FactEachRooted()
    ensures forall x, n: nat ::
      Objects(FactTriples(x, n), Document, HasFact) == {Minted(FactNs, n)} && Instances(FactTriples(x, n), FactClass) == {Minted(FactNs, n)}
    ensures forall x :: FactCost(x) >= 1
  {
    forall x, n: nat
      ensures Objects(FactTriples(x, n), Document, HasFact) == {Minted(FactNs, n)}
      ensures Instances(FactTriples(x, n), FactClass) == {Minted(FactNs, n)}
    {
      FactLinked(x, n);
    }
  }

  // ---------------------------------------------------------------- relationships pass

  /** The relationship `r` sits in the set for `linkrole` of some arcrole group `arcrole`. */
  predicate Listed(sets: seq<ArcroleSets>, arcrole: string, linkrole: string, r: Relationship) {
    exists a, l :: 0 <= a < |sets| && 0 <= l < |sets[a].byLinkrole| && sets[a].arcrole == arcrole
      && sets[a].byLinkrole[l].linkrole == linkrole && r in sets[a].byLinkrole[l].relationships
  }

  lemma {:induction false} LinkroleItemsMembers(arcrole: string, ls: seq<LinkroleSet>, x: RelItem)
    ensures x in LinkroleItems(arcrole, ls) <==>
      x.arcrole == arcrole && exists l :: 0 <= l < |ls| && ls[l].linkrole == x.linkrole && x.rel in ls[l].relationships
  {
    if |ls| > 0 {
      LinkroleItemsMembers(arcrole, ls[1..], x);
      var here := seq(|ls[0].relationships|, k requires 0 <= k < |ls[0].relationships| =>
        RelItem(arcrole, ls[0].linkrole, ls[0].relationships[k]));
      assert LinkroleItems(arcrole, ls) == here + LinkroleItems(arcrole, ls[1..]);
      if x in here {
        var k :| 0 <= k < |here| && here[k] == x;
        assert ls[0].relationships[k] in ls[0].relationships;
      }
      if x.arcrole == arcrole && exists l :: 0 <= l < |ls| && ls[l].linkrole == x.linkrole && x.rel in ls[l].relationships {
        var l :| 0 <= l < |ls| && ls[l].linkrole == x.linkrole && x.rel in ls[l].relationships;
        if l == 0 {
          var k :| 0 <= k < |ls[0].relationships| && ls[0].relationships[k] == x.rel;
          assert here[k] == x;
        } else {
          assert ls[1..][l - 1] == ls[l];
        }
      }
      if x in LinkroleItems(arcrole, ls[1..]) {
        var l :| 0 <= l < |ls[1..]| && ls[1..][l].linkrole == x.linkrole && x.rel in ls[1..][l].relationships;
        assert ls[l + 1] == ls[1..][l];
      }
    }
  }

  /** The pass visits exactly the relationships of the model's sets, each with the arcrole
      and linkrole of the set it sits in (xbrl_to_rdf.py:214-216). */
  lemma {:induction false} RelItemsMembers(sets: seq<ArcroleSets>, x: RelItem)
    ensures x in RelItems(sets) <==> Listed(sets, x.arcrole, x.linkrole, x.rel)
  {
    if |sets| > 0 {
      RelItemsMembers(sets[1..], x);
      LinkroleItemsMembers(sets[0].arcrole, sets[0].byLinkrole, x);
      if Listed(sets[1..], x.arcrole, x.linkrole, x.rel) {
        var a, l :| 0 <= a < |sets[1..]| && 0 <= l < |sets[1..][a].byLinkrole| && sets[1..][a].arcrole == x.arcrole
          && sets[1..][a].byLinkrole[l].linkrole == x.linkrole && x.rel in sets[1..][a].byLinkrole[l].relationships;
        assert sets[a + 1] == sets[1..][a];
      }
      if Listed(sets, x.arcrole, x.linkrole, x.rel) {
        var a, l :| 0 <= a < |sets| && 0 <= l < |sets[a].byLinkrole| && sets[a].arcrole == x.arcrole
          && sets[a].byLinkrole[l].linkrole == x.linkrole && x.rel in sets[a].byLinkrole[l].relationships;
        if a > 0 {
          assert sets[1..][a - 1] == sets[a];
        }
      }
    }
  }

  /** The pass visits one item per relationship of every set. */
  lemma {:induction false} RelItemsCount(sets: seq<ArcroleSets>)
    ensures |RelItems(sets)| == SetSizes(sets)
  {
    if |sets| > 0 {
      RelItemsCount(sets[1..]);
      LinkroleItemsCount(sets[0].arcrole, sets[0].byLinkrole);
    }
  }

  lemma {:induction false} LinkroleItemsCount(arcrole: string, ls: seq<LinkroleSet>)
    ensures |LinkroleItems(arcrole, ls)| == LinkroleSizes(ls)
  {
    if |ls| > 0 {
      LinkroleItemsCount(arcrole, ls[1..]);
    }
  }

  /** The number of relationships in the sets. */
  function SetSizes(sets: seq<ArcroleSets>): nat {
    if |sets| == 0 then 0 else LinkroleSizes(sets[0].byLinkrole) + SetSizes(sets[1..])
  }

  function LinkroleSizes(ls: seq<LinkroleSet>): nat {
    if |ls| == 0 then 0 else |ls[0].relationships| + LinkroleSizes(ls[1..])
  }

  lemma RelAttributeWords(x: RelItem, p: Word, o: Term)
    ensures o in RelAttribute(x, p) ==> p in RelationshipWords
  {
  }

  lemma RelWordsOne(x: RelItem, next: nat)
    ensures PredicatesIn(RelTriples(x, next), RelationshipWords)
  {
    forall s, p, o | Has(RelTriples(x, next), s, p, o)
      ensures p in RelationshipWords
    {
      RelTripleAt(x, next, s, p, o);
      RelAttributeWords(x, p, o);
    }
  }

  /** The document links to the relationship's subject, and to nothing else, by
      `hasRelationship`; that subject is the one typed as a relationship (xbrl_to_rdf.py:217-221). */
  lemma RelLinked(x: RelItem, next: nat)
    ensures Objects(RelTriples(x, next), Document, HasRelationship) == {Minted(RelNs, next)}
    ensures Instances(RelTriples(x, next), RelationshipClass) == {Minted(RelNs, next)}
  {
    var g := RelTriples(x, next);
    forall o
      ensures o in Objects(g, Document, HasRelationship) <==> o == Minted(RelNs, next)
    {
      InObjects(g, Document, HasRelationship, o);
      RelTripleAt(x, next, Document, HasRelationship, o);
    }
    forall s
      ensures s in Instances(g, RelationshipClass) <==> s == Minted(RelNs, next)
    {
      InSubjects(g, RdfType, Vocab(RelationshipClass), s);
      RelTripleAt(x, next, s, RdfType, Vocab(RelationshipClass));
    }
  }

  /** The subject of item `i` carries exactly that item's table. */
  lemma RelsSubjectObjects(xs: seq<RelItem>, next: nat, i: nat, p: Word)
    requires i < |xs|
    ensures Objects(RelsOf(xs, next), Minted(RelNs, next + i), p) == RelAttribute(xs[i], p)
  {
    var g, u := RelsOf(xs, next), Minted(RelNs, next + i);
    RelsContent(xs, next);
    forall o
      ensures o in Objects(g, u, p) <==> o in RelAttribute(xs[i], p)
    {
      InObjects(g, u, p, o);
      RelsHaveAt(xs, next, i, p, o);
    }
  }

  lemma RelsHaveAt(xs: seq<RelItem>, next: nat, i: nat, p: Word, o: Term)
    requires i < |xs|
    ensures RelsHave(xs, next, Minted(RelNs, next + i), p, o) <==> o in RelAttribute(xs[i], p)
  {
  }

  /** Each relationship is its own subject, carrying the arcrole and the linkrole it was found
      under and its source and target concepts when it has them (xbrl_to_rdf.py:218-233). */
  lemma RelKeys(xs: seq<RelItem>, next: nat, i: nat)
    requires i < |xs|
    ensures
      var g, u := RelsOf(xs, next), Minted(RelNs, next + i);
      && Objects(g, u, Arcrole) == {Str(xs[i].arcrole)}
      && Objects(g, u, Linkrole) == {Str(xs[i].linkrole)}
      && Objects(g, u, Source) == (if xs[i].rel.source.Some? then {ConceptIri(xs[i].rel.source.value.localName)} else {})
      && Objects(g, u, Target) == (if xs[i].rel.target.Some? then {ConceptIri(xs[i].rel.target.value.localName)} else {})
  {
    RelsSubjectObjects(xs, next, i, Arcrole);
    RelsSubjectObjects(xs, next, i, Linkrole);
    RelsSubjectObjects(xs, next, i, Source);
    RelsSubjectObjects(xs, next, i, Target);
    RelKeyTable(xs[i]);
    RelEndsTable(xs[i]);
  }

  lemma RelKeyTable(x: RelItem)
    ensures RelAttribute(x, Arcrole) == {Str(x.arcrole)} && RelAttribute(x, Linkrole) == {Str(x.linkrole)}
  {
  }

  lemma RelEndsTable(x: RelItem)
    ensures RelAttribute(x, Source) == (if x.rel.source.Some? then {ConceptIri(x.rel.source.value.localName)} else {})
    ensures RelAttribute(x, Target) == (if x.rel.target.Some? then {ConceptIri(x.rel.target.value.localName)} else {})
  {
  }

  /** The relationships pass uses only the relationship vocabulary. */
  lemma RelsWords(xs: seq<RelItem>, next: nat)
    ensures PredicatesIn(RelsOf(xs, next), RelationshipWords)
  {
    RelItemsWords();
    ChainWords(xs, next, RelTriples, RelCost, RelationshipWords);
  }

  /** The document links to one distinct fresh subject per relationship, and those are exactly
      the subjects typed as relationships. */
  lemma RelsLinked(xs: seq<RelItem>, next: nat)
    ensures Objects(RelsOf(xs, next), Document, HasRelationship) == Instances(RelsOf(xs, next), RelationshipClass)
    ensures |Objects(RelsOf(xs, next), Document, HasRelationship)| == |xs|
    ensures forall o :: o in Objects(RelsOf(xs, next), Document, HasRelationship) ==> IsMintedIn(o, RelNs, next, ChainCost(xs, RelCost))
  {
    RelItemsLinked();
    ChainRooted(xs, next, RelTriples, RelCost, RelNs, HasRelationship, RelationshipClass);
  }

  lemma RelItemsWords()
    ensures ItemsIn(RelTriples, RelationshipWords)
  {
    forall x, n: nat
      ensures PredicatesIn(RelTriples(x, n), RelationshipWords)
    {
      RelWordsOne(x, n);
    }
  }

  lemma RelItemsLinked()
    ensures ItemsLinked(RelTriples, RelNs, HasRelationship)
    ensures ItemsTyped(RelTriples, RelNs, RelationshipClass)
    ensures CostsPositive(RelCost)
  {
    RelEachLinked();
  }

  lemma RelEachLinked()
    ensures forall x, n: nat ::
      Objects(RelTriples(x, n), Document, HasRelationship) == {Minted(RelNs, n)}
      && Instances(RelTriples(x, n), RelationshipClass) == {Minted(RelNs, n)}
    ensures forall x :: RelCost(x) >= 1
  {
    forall x, n: nat
      ensures Objects(RelTriples(x, n), Document, HasRelationship) == {Minted(RelNs, n)}
      ensures Instances(RelTriples(x, n), RelationshipClass) == {Minted(RelNs, n)}
    {
      RelLinked(x, n);
    }
  }

  // ---------------------------------------------------------------- the translated graph

  lemma {:induction false} ConceptsNotDocument(cs: seq<Concept>, p: Word, o: Term)
    ensures !ConceptsHave(cs, Document, p, o)
  {
    if |cs| > 0 {
      ConceptsNotDocument(cs[1..], p, o);
    }
  }

  /** No concept triple is about the document. */
  lemma ConceptsDocument(cs: seq<Concept>)
    ensures SubjectWords(ConceptsOf(cs), Document, {})
  {
    forall p, o
      ensures !Has(ConceptsOf(cs), Document, p, o)
    {
      ConceptsAt(cs, Document, p, o);
      ConceptsNotDocument(cs, p, o);
    }
  }

  lemma ContextNotDocument(ctx: Context, next: nat, p: Word, o: Term)
    ensures !ContextHas(ctx, next, Document, p, o)
  {
  }

  lemma ContextDocument(ctx: Context, next: nat)
    ensures SubjectWords(ContextTriples(ctx, next), Document, {})
  {
    forall p, o
      ensures !Has(ContextTriples(ctx, next), Document, p, o)
    {
      ContextTripleAt(ctx, next, Document, p, o);
      ContextNotDocument(ctx, next, p, o);
    }
  }

  lemma FactDocumentHas(f: Fact, next: nat, p: Word, o: Term)
    ensures FactHas(f, next, Document, p, o) ==> p == HasFact
  {
  }

  lemma FactDocument(f: Fact, next: nat)
    ensures SubjectWords(FactTriples(f, next), Document, {HasFact})
  {
    forall p, o | Has(FactTriples(f, next), Document, p, o)
      ensures p in {HasFact}
    {
      FactTripleAt(f, next, Document, p, o);
      FactDocumentHas(f, next, p, o);
    }
  }

  lemma RelDocument(x: RelItem, next: nat)
    ensures SubjectWords(RelTriples(x, next), Document, {HasRelationship})
  {
    forall p, o | Has(RelTriples(x, next), Document, p, o)
      ensures p in {HasRelationship}
    {
      RelTripleAt(x, next, Document, p, o);
    }
  }

  lemma ContextsDocument(xs: seq<Context>, next: nat)
    ensures SubjectWords(ContextsOf(xs, next), Document, {})
  {
    ContextItemsDocument();
    ChainAbout(xs, next, ContextTriples, ContextCost, Document, {});
  }

  lemma FactsDocument(fs: seq<Fact>, next: nat)
    ensures SubjectWords(FactsOf(fs, next), Document, {HasFact})
  {
    FactItemsDocument();
    ChainAbout(fs, next, FactTriples, FactCost, Document, {HasFact});
  }

  lemma RelsDocument(xs: seq<RelItem>, next: nat)
    ensures SubjectWords(RelsOf(xs, next), Document, {HasRelationship})
  {
    RelItemsDocument();
    ChainAbout(xs, next, RelTriples, RelCost, Document, {HasRelationship});
  }

  lemma ContextItemsDocument()
    ensures ItemsAbout(ContextTriples, Document, {})
  {
    forall x, n: nat
      ensures SubjectWords(ContextTriples(x, n), Document, {})
    {
      ContextDocument(x, n);
    }
  }

  lemma FactItemsDocument()
    ensures ItemsAbout(FactTriples, Document, {HasFact})
  {
    forall x, n: nat
      ensures SubjectWords(FactTriples(x, n), Document, {HasFact})
    {
      FactDocument(x, n);
    }
  }

  lemma RelItemsDocument()
    ensures ItemsAbout(RelTriples, Document, {HasRelationship})
  {
    forall x, n: nat
      ensures SubjectWords(RelTriples(x, n), Document, {HasRelationship})
    {
      RelDocument(x, n);
    }
  }

  /** What the document carries in the whole graph: its own two triples, the facts pass's
      `hasFact` links and the relationships pass's `hasRelationship` links; no other pass
      says anything about it. */
  lemma DocumentObjects(m: XbrlModel, faults: PassFaults, seed: nat, now: string, p: Word)
    ensures
      var g := TranslationGraph(m, faults, seed, now);
      && (p != HasFact && p != HasRelationship ==> Objects(g, Document, p) == Objects(RootTriples(now), Document, p))
      && (p == HasFact ==> Objects(g, Document, p) == Objects(FactsOf(DoneFacts(m, faults), FactsStart(m, faults, seed)), Document, p))
      && (p == HasRelationship ==> Objects(g, Document, p) == Objects(RelsOf(DoneRels(m, faults), RelsStart(m, faults, seed)), Document, p))
  {
    RootDocument(now);
    ConceptsDocument(DoneConcepts(m, faults));
    ContextsDocument(DoneContexts(m, faults), seed);
    FactsDocument(DoneFacts(m, faults), FactsStart(m, faults, seed));
    RelsDocument(DoneRels(m, faults), RelsStart(m, faults, seed));
    PartsObjects(RootTriples(now), ConceptsOf(DoneConcepts(m, faults)), ContextsOf(DoneContexts(m, faults), seed),
      FactsOf(DoneFacts(m, faults), FactsStart(m, faults, seed)), RelsOf(DoneRels(m, faults), RelsStart(m, faults, seed)), p);
  }

  /** The document's objects in the union of the parts, given what each part says about it. */
  lemma PartsObjects(root: set<Triple>, concepts: set<Triple>, contexts: set<Triple>, facts: set<Triple>, rels: set<Triple>, p: Word)
    requires SubjectWords(root, Document, {RdfType, DctermsCreated})
    requires SubjectWords(concepts, Document, {}) && SubjectWords(contexts, Document, {})
    requires SubjectWords(facts, Document, {HasFact}) && SubjectWords(rels, Document, {HasRelationship})
    ensures
      var g := root + concepts + contexts + facts + rels;
      && (p != HasFact && p != HasRelationship ==> Objects(g, Document, p) == Objects(root, Document, p))
      && (p == HasFact ==> Objects(g, Document, p) == Objects(facts, Document, p))
      && (p == HasRelationship ==> Objects(g, Document, p) == Objects(rels, Document, p))
  {
    NoObjects(concepts, Document, {}, p);
    NoObjects(contexts, Document, {}, p);
    if p != HasFact {
      NoObjects(facts, Document, {HasFact}, p);
    }
    if p != HasRelationship {
      NoObjects(rels, Document, {HasRelationship}, p);
    }
    if p == HasFact || p == HasRelationship {
      NoObjects(root, Document, {RdfType, DctermsCreated}, p);
    }
    ObjectsOfParts(root, concepts, contexts, facts, rels, Document, p);
  }

  lemma RootDocument(now: string)
    ensures SubjectWords(RootTriples(now), Document, {RdfType, DctermsCreated})
  {
  }

  /** The document is typed as an instance, and as nothing else, and stamped with the creation
      time, whatever the passes did (xbrl_to_rdf.py:61-63). */
  lemma RootTyped(m: XbrlModel, faults: PassFaults, seed: nat, now: string)
    ensures Objects(TranslationGraph(m, faults, seed, now), Document, RdfType) == {Vocab(InstanceClass)}
    ensures Objects(TranslationGraph(m, faults, seed, now), Document, DctermsCreated) == {Lit(now, XsdDateTime)}
  {
    DocumentObjects(m, faults, seed, now, RdfType);
    DocumentObjects(m, faults, seed, now, DctermsCreated);
    RootObjects(now);
  }

  lemma RootObjects(now: string)
    ensures Objects(RootTriples(now), Document, RdfType) == {Vocab(InstanceClass)}
    ensures Objects(RootTriples(now), Document, DctermsCreated) == {Lit(now, XsdDateTime)}
  {
    var root := RootTriples(now);
    assert Triple(Document, Vocab(RdfType), Vocab(InstanceClass)) in root;
    assert Triple(Document, Vocab(DctermsCreated), Lit(now, XsdDateTime)) in root;
  }

  /** The document links to one distinct fact subject per fact the facts pass finished, and
      to one distinct relationship subject per relationship the relationships pass finished
      (xbrl_to_rdf.py:158, 219). */
  lemma GraphLinks(m: XbrlModel, faults: PassFaults, seed: nat, now: string)
    ensures |Objects(TranslationGraph(m, faults, seed, now), Document, HasFact)| == |DoneFacts(m, faults)|
    ensures |Objects(TranslationGraph(m, faults, seed, now), Document, HasRelationship)| == |DoneRels(m, faults)|
  {
    DocumentObjects(m, faults, seed, now, HasFact);
    DocumentObjects(m, faults, seed, now, HasRelationship);
    FactsLinked(DoneFacts(m, faults), FactsStart(m, faults, seed));
    RelsLinked(DoneRels(m, faults), RelsStart(m, faults, seed));
  }

  /** A pass that fails does not stop the later ones: how many relationships the graph holds
      depends on the relationships pass alone, not on where the earlier passes raised, the
      identifier supply or the clock. */
  lemma RelationshipsIndependent(m: XbrlModel, f1: PassFaults, f2: PassFaults, seed1: nat, seed2: nat, now1: string, now2: string)
    requires f1.relationships == f2.relationships
    ensures |Objects(TranslationGraph(m, f1, seed1, now1), Document, HasRelationship)|
         == |Objects(TranslationGraph(m, f2, seed2, now2), Document, HasRelationship)|
  {
    GraphLinks(m, f1, seed1, now1);
    GraphLinks(m, f2, seed2, now2);
  }

  /** A model without relationship sets yields no relationships; when the pass does not raise,
      it yields one per relationship of every set (xbrl_to_rdf.py:212-216). */
  lemma RelationshipCount(m: XbrlModel, faults: PassFaults, seed: nat, now: string)
    ensures m.relationshipSets.None? ==> Objects(TranslationGraph(m, faults, seed, now), Document, HasRelationship) == {}
    ensures m.relationshipSets.Some? && faults.relationships.None? ==>
      |Objects(TranslationGraph(m, faults, seed, now), Document, HasRelationship)| == SetSizes(m.relationshipSets.value)
  {
    GraphLinks(m, faults, seed, now);
    if m.relationshipSets.Some? {
      RelItemsCount(m.relationshipSets.value);
    }
  }

  /** A pass that raises keeps the triples of the items before the one that raised: they are
      the triples those items have in a run that does not raise. */
  lemma PrefixKept<T>(xs: seq<T>, fault: Option<nat>, next: nat, item: (T, nat) -> set<Triple>, cost: T -> nat)
    ensures Chain(Prefix(xs, fault), next, item, cost) <= Chain(xs, next, item, cost)
  {
    var done := Prefix(xs, fault);
    ChainAppend(done, xs[|done|..], next, item, cost);
    assert done + xs[|done|..] == xs;
  }

  lemma ConceptPrefixKept(cs: seq<Concept>, fault: Option<nat>)
    ensures ConceptsOf(Prefix(cs, fault)) <= ConceptsOf(cs)
  {
    var done := Prefix(cs, fault);
    ConceptsAppend(done, cs[|done|..]);
    assert done + cs[|done|..] == cs;
  }

  /** Whatever the passes raise, the graph holds the document's triples and, for each pass,
      the triples of the items it finished, as the same pass yields them from the same
      starting identifier when it does not raise (xbrl_to_rdf.py:98-99, 147-148, 206-207,
      245-246). */
  lemma FaultsKeepEarlier(m: XbrlModel, faults: PassFaults, seed: nat, now: string)
    ensures
      var g := TranslationGraph(m, faults, seed, now);
      && RootTriples(now) <= g
      && ConceptsOf(DoneConcepts(m, faults)) <= g && ConceptsOf(DoneConcepts(m, faults)) <= ConceptsOf(m.concepts)
      && ContextsOf(DoneContexts(m, faults), seed) <= g
      && ContextsOf(DoneContexts(m, faults), seed) <= ContextsOf(m.contexts, seed)
      && FactsOf(DoneFacts(m, faults), FactsStart(m, faults, seed)) <= g
      && FactsOf(DoneFacts(m, faults), FactsStart(m, faults, seed)) <= FactsOf(m.facts, FactsStart(m, faults, seed))
      && RelsOf(DoneRels(m, faults), RelsStart(m, faults, seed)) <= g
      && RelsOf(DoneRels(m, faults), RelsStart(m, faults, seed)) <= RelsOf(ModelRelItems(m), RelsStart(m, faults, seed))
  {
    ConceptPrefixKept(m.concepts, faults.concepts);
    PrefixKept(m.contexts, faults.contexts, seed, ContextTriples, ContextCost);
    PrefixKept(m.facts, faults.facts, FactsStart(m, faults, seed), FactTriples, FactCost);
    PrefixKept(ModelRelItems(m), faults.relationships, RelsStart(m, faults, seed), RelTriples, RelCost);
  }

  // ---------------------------------------------------------------- passes in general

  /** Every item, wherever it starts, uses only `words`. */
  ghost predicate ItemsIn<T(!new)>(item: (T, nat) -> set<Triple>, words: set<Word>) {
    forall x, n: nat :: PredicatesIn(item(x, n), words)
  }

  /** Every item puts its `p` triples on its own fresh identifiers [n, n + its cost). */
  ghost predicate ItemsFresh<T(!new)>(item: (T, nat) -> set<Triple>, cost: T -> nat, p: Word) {
    forall x, n: nat :: FreshSubjectsIn(item(x, n), p, n, cost(x))
  }

  /** No subject of any one item carries both `p1` and `p2`. */
  ghost predicate ItemsExclusive<T(!new)>(item: (T, nat) -> set<Triple>, p1: Word, p2: Word) {
    forall x, n: nat :: Exclusive(item(x, n), p1, p2)
  }

  /** Every item links the document by `p` to exactly its own subject `Minted(ns, n)`. */
  ghost predicate ItemsLinked<T(!new)>(item: (T, nat) -> set<Triple>, ns: Namespace, p: Word) {
    forall x, n: nat :: Objects(item(x, n), Document, p) == {Minted(ns, n)}
  }

  /** Every item types exactly its own subject `Minted(ns, n)` as `c`. */
  ghost predicate ItemsTyped<T(!new)>(item: (T, nat) -> set<Triple>, ns: Namespace, c: Word) {
    forall x, n: nat :: Instances(item(x, n), c) == {Minted(ns, n)}
  }

  /** Every item draws at least one identifier. */
  ghost predicate CostsPositive<T(!new)>(cost: T -> nat) {
    forall x :: cost(x) >= 1
  }

  /** Such a pass links the document to one distinct subject per item, drawn from the pass's
      range, and those are exactly the subjects it types `c`. */
  lemma ChainRooted<T(!new)>(xs: seq<T>, next: nat, item: (T, nat) -> set<Triple>, cost: T -> nat, ns: Namespace, p: Word, c: Word)
    requires ItemsLinked(item, ns, p) && ItemsTyped(item, ns, c) && CostsPositive(cost)
    ensures Objects(Chain(xs, next, item, cost), Document, p) == Instances(Chain(xs, next, item, cost), c)
    ensures |Objects(Chain(xs, next, item, cost), Document, p)| == |xs|
    ensures forall o :: o in Objects(Chain(xs, next, item, cost), Document, p) ==> IsMintedIn(o, ns, next, ChainCost(xs, cost))
  {
    ChainTyped(xs, next, item, cost, ns, p, c);
    ChainLinkCount(xs, next, item, cost, ns, p);
    ChainLinkRange(xs, next, item, cost, ns, p);
  }

  lemma {:induction false} ChainTyped<T(!new)>(xs: seq<T>, next: nat, item: (T, nat) -> set<Triple>, cost: T -> nat, ns: Namespace, p: Word, c: Word)
    requires ItemsLinked(item, ns, p) && ItemsTyped(item, ns, c)
    ensures Objects(Chain(xs, next, item, cost), Document, p) == Instances(Chain(xs, next, item, cost), c)
  {
    if |xs| > 0 {
      var mid := next + cost(xs[0]);
      var first := item(xs[0], next);
      var rest := Chain(xs[1..], mid, item, cost);
      ChainTyped(xs[1..], mid, item, cost, ns, p, c);
      ObjectsOfUnion(first, rest, Document, p);
      SubjectsOfUnion(first, rest, RdfType, Vocab(c));
    }
  }

  lemma {:induction false} ChainLinkRange<T(!new)>(xs: seq<T>, next: nat, item: (T, nat) -> set<Triple>, cost: T -> nat, ns: Namespace, p: Word)
    requires ItemsLinked(item, ns, p) && CostsPositive(cost)
    ensures forall o :: o in Objects(Chain(xs, next, item, cost), Document, p) ==> IsMintedIn(o, ns, next, ChainCost(xs, cost))
  {
    if |xs| > 0 {
      var mid := next + cost(xs[0]);
      var first := item(xs[0], next);
      var rest := Chain(xs[1..], mid, item, cost);
      ChainLinkRange(xs[1..], mid, item, cost, ns, p);
      ObjectsOfUnion(first, rest, Document, p);
    }
  }

  lemma AddNew<X>(x: X, r: set<X>)
    requires x !in r
    ensures |{x} + r| == |r| + 1
  {
    assert ({x} + r) - {x} == r;
  }

  lemma {:induction false} ChainLinkCount<T(!new)>(xs: seq<T>, next: nat, item: (T, nat) -> set<Triple>, cost: T -> nat, ns: Namespace, p: Word)
    requires ItemsLinked(item, ns, p) && CostsPositive(cost)
    ensures |Objects(Chain(xs, next, item, cost), Document, p)| == |xs|
  {
    if |xs| > 0 {
      var mid := next + cost(xs[0]);
      var first := item(xs[0], next);
      var rest := Chain(xs[1..], mid, item, cost);
      var links := Objects(rest, Document, p);
      ChainLinkCount(xs[1..], mid, item, cost, ns, p);
      ChainLinkRange(xs[1..], mid, item, cost, ns, p);
      assert !IsMintedIn(Minted(ns, next), ns, mid, ChainCost(xs[1..], cost));
      assert Minted(ns, next) !in links;
      assert Chain(xs, next, item, cost) == first + rest;
      ObjectsOfUnion(first, rest, Document, p);
      assert Objects(first, Document, p) == {Minted(ns, next)};
      AddNew(Minted(ns, next), links);
    }
  }

  /** Every item says about `s` only what `words` allow. */
  ghost predicate ItemsAbout<T(!new)>(item: (T, nat) -> set<Triple>, s: Term, words: set<Word>) {
    forall x, n: nat :: SubjectWords(item(x, n), s, words)
  }

  lemma {:induction false} ChainAbout<T(!new)>(xs: seq<T>, next: nat, item: (T, nat) -> set<Triple>, cost: T -> nat, s: Term, words: set<Word>)
    requires ItemsAbout(item, s, words)
    ensures SubjectWords(Chain(xs, next, item, cost), s, words)
  {
    if |xs| > 0 {
      ChainAbout(xs[1..], next + cost(xs[0]), item, cost, s, words);
      SubjectWordsUnion(item(xs[0], next), Chain(xs[1..], next + cost(xs[0]), item, cost), s, words);
    }
  }

  /** A pass whose every item uses only `words` uses only `words`. */
  lemma {:induction false} ChainWords<T(!new)>(xs: seq<T>, next: nat, item: (T, nat) -> set<Triple>, cost: T -> nat, words: set<Word>)
    requires ItemsIn(item, words)
    ensures PredicatesIn(Chain(xs, next, item, cost), words)
  {
    if |xs| > 0 {
      ChainWords(xs[1..], next + cost(xs[0]), item, cost, words);
      PredicatesInUnion(item(xs[0], next), Chain(xs[1..], next + cost(xs[0]), item, cost), words);
    }
  }

  /** When each item puts its `p` triples on its own fresh identifiers, the pass puts them on
      identifiers drawn from [next, next + the pass's cost). */
  lemma {:induction false} ChainFresh<T(!new)>(xs: seq<T>, next: nat, item: (T, nat) -> set<Triple>, cost: T -> nat, p: Word)
    requires ItemsFresh(item, cost, p)
    ensures FreshSubjectsIn(Chain(xs, next, item, cost), p, next, ChainCost(xs, cost))
  {
    if |xs| > 0 {
      var mid := next + cost(xs[0]);
      ChainFresh(xs[1..], mid, item, cost, p);
      FreshSubjectsInUnion(item(xs[0], next), Chain(xs[1..], mid, item, cost), p, next, cost(xs[0]), mid, ChainCost(xs[1..], cost));
    }
  }

  /** When no item's own subject carries both `p1` and `p2`, and items put those triples on
      their own fresh identifiers, no subject of the whole pass carries both. */
  lemma {:induction false} ChainExclusive<T(!new)>(xs: seq<T>, next: nat, item: (T, nat) -> set<Triple>, cost: T -> nat, p1: Word, p2: Word)
    requires ItemsExclusive(item, p1, p2)
    requires ItemsFresh(item, cost, p1) && ItemsFresh(item, cost, p2)
    ensures Exclusive(Chain(xs, next, item, cost), p1, p2)
  {
    if |xs| > 0 {
      var mid := next + cost(xs[0]);
      var first := item(xs[0], next);
      var rest := Chain(xs[1..], mid, item, cost);
      ChainExclusive(xs[1..], mid, item, cost, p1, p2);
      ChainFresh(xs[1..], mid, item, cost, p1);
      ChainFresh(xs[1..], mid, item, cost, p2);
      ApartByRange(first, rest, p1, p2, next, cost(xs[0]), mid, ChainCost(xs[1..], cost));
      ExclusiveUnion(first, rest, p1, p2);
    }
  }
}
