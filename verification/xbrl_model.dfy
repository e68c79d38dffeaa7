/** The loaded filing as the XBRL engine exposes it to this code: concepts, contexts,
    facts and relationship sets. Attributes the code probes with `hasattr` or a truthiness
    test are `Option` fields or a `Presence`; everything else is a plain field. */
module XbrlModel {
  import opened Wrappers

  /** A qualified name; `prefix` is empty when the name has none. */
  datatype QName = QName(prefix: string, namespaceUri: string, localName: string)

  /** `str(qname)`: `prefix:localName`, or the bare local name without a prefix. */
  function QNameText(q: QName): string {
    if |q.prefix| == 0 then q.localName else q.prefix + ":" + q.localName
  }

  /** Whether an attribute exists and, if it does, whether its value is truthy. Used where the
      translator tests `hasattr` and the parser tests truthiness of the same attribute. */
  datatype Presence = Absent | Falsy | Truthy

  /** A taxonomy concept. `labelText` and `balance` are the attribute values when the attribute
      exists (they are emitted only when also non-empty); `typeName` is the type's qname
      when the concept has a type that has a qname; `isRequired` feeds validation. */
  datatype Concept = Concept(
    qname: QName,
    labelText: Option<string>,
    typeName: Option<QName>,
    periodType: Option<string>,
    balance: Option<string>,
    isAbstract: Option<bool>,
    substitutionGroup: Option<QName>,
    isRequired: bool)

  /** The three period shapes: an instant (its date and its end-of-day datetime), a
      start/end pair, or neither (a "forever" period). */
  datatype PeriodShape =
    | InstantPeriod(instantDate: string, instantDatetime: string)
    | StartEndPeriod(startDatetime: string, endDatetime: string)
    | ForeverPeriod

  /** An attribute that may be missing, present but `None`, or set to a value. */
  datatype Attribute<T> = Missing | Null | Given(value: T)

  /** The value of one dimension of a context. `member` is the explicit member attribute,
      carrying the member concept's qname when set; `typedMember` is `str()` of the typed
      member when the attribute exists (`"None"` when its value is `None`). */
  datatype DimensionValue = DimensionValue(
    isExplicit: bool,
    isTyped: bool,
    member: Attribute<QName>,
    typedMember: Option<string>)

  datatype QualifiedDimension = QualifiedDimension(dimension: QName, value: DimensionValue)

  /** A context. `entity` and `period` say whether those attributes exist and are truthy;
      `entityIdentifier` is the (scheme, identifier) pair and `periodShape` the period when
      they do. `dimensions` is `qnameDims` in its iteration order, `None` when missing. */
  datatype Context = Context(
    id: string,
    entity: Presence,
    entityIdentifier: (string, string),
    period: Presence,
    periodShape: PeriodShape,
    dimensions: Option<seq<QualifiedDimension>>)

  /** A unit: its measure lists (numerator first, then denominator). */
  datatype Unit = Unit(measures: seq<seq<QName>>)

  datatype Footnote = Footnote(text: Option<string>)

  /** A fact. `concept` is the concept's qname (its `name` is the local name); `context` the
      context object; `unit` present only when truthy; `value`, `precision` and `decimals`
      are `None` when Python's value is `None`. */
  datatype Fact = Fact(
    concept: Option<QName>,
    context: Option<Context>,
    value: Option<string>,
    isNumeric: bool,
    unit: Option<Unit>,
    precision: Option<string>,
    decimals: Option<string>,
    footnotes: seq<Footnote>)

  /** One relationship of a relationship set; `order` and `weight` are decimal lexical forms. */
  datatype Relationship = Relationship(
    source: Option<QName>,
    target: Option<QName>,
    order: Option<string>,
    weight: Option<string>,
    preferredLabel: Option<string>)

  datatype LinkroleSet = LinkroleSet(linkrole: string, relationships: seq<Relationship>)

  /** The relationship sets of one arcrole, by linkrole, in iteration order. */
  datatype ArcroleSets = ArcroleSets(arcrole: string, byLinkrole: seq<LinkroleSet>)

  /** A key of the engine's `baseSets` index; its first component is the arcrole. */
  datatype BaseSetKey = BaseSetKey(arcrole: string, linkrole: string, linkQName: string, arcQName: string)

  /** The loaded filing. `relationshipSets` is `None` when the model has no such attribute. */
  datatype XbrlModel = XbrlModel(
    concepts: seq<Concept>,
    contexts: seq<Context>,
    facts: seq<Fact>,
    relationshipSets: Option<seq<ArcroleSets>>,
    baseSetKeys: seq<BaseSetKey>)
}
