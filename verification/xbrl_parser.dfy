/** The record extraction of `XBRLParser` (xbrl_parser.py): facts and contexts projected into
    dictionaries, the document-and-entity lookup, the grouping of statement facts, the arcrole
    list and the status of a validation. The loaded filing is an `Option<XbrlModel>`, `None`
    when nothing is loaded. Reading an attribute that is not there raises `AttributeError`,
    which is a `Failure` here. */
module XbrlParser {
  import opened Wrappers
  import opened Seqs
  import opened XbrlModel

  // ------------------------------------------------------------------ dictionaries

  /** A dictionary filled in order by `d[k] = v` for each present entry; a later entry for a
      key overwrites an earlier one. */
  function Assign<K, V>(es: seq<Option<(K, V)>>): map<K, V> {
    if |es| == 0 then map[]
    else
      var m := Assign(es[..|es| - 1]);
      var e := es[|es| - 1];
      if e.Some? then m[e.value.0 := e.value.1] else m
  }

  /** Entry `i` is present and writes key `k`. */
  predicate Writes<K(==), V>(es: seq<Option<(K, V)>>, i: int, k: K) {
    0 <= i < |es| && es[i].Some? && es[i].value.0 == k
  }

  /** A key is in the dictionary exactly when some entry writes it, and its value is the one
      the last such entry writes. */
  lemma {:induction false} AssignLastWins<K, V>(es: seq<Option<(K, V)>>, k: K)
    ensures k in Assign(es) <==> exists i :: Writes(es, i, k)
    ensures k in Assign(es) ==> exists i :: Writes(es, i, k) && Assign(es)[k] == es[i].value.1
                                          && forall j :: i < j < |es| ==> !Writes(es, j, k)
  {
    if |es| > 0 {
      var n := |es| - 1;
      var front := es[..n];
      AssignLastWins(front, k);
      forall i | Writes(front, i, k) ensures Writes(es, i, k) { }
      if Writes(es, n, k) {
        assert Assign(es)[k] == es[n].value.1;
      } else {
        forall i | Writes(es, i, k) ensures Writes(front, i, k) { }
        if k in Assign(es) {
          var i :| Writes(front, i, k) && Assign(front)[k] == front[i].value.1
                   && forall j :: i < j < |front| ==> !Writes(front, j, k);
          assert Writes(es, i, k);
          forall j | i < j < |es| ensures !Writes(es, j, k) {
            if j < n { assert !Writes(front, j, k); }
          }
        }
      }
    }
  }

  // ------------------------------------------------------------------ units

  /** `[str(m) for m in ms]`. */
  function MeasureTexts(ms: seq<QName>): seq<string> {
    seq(|ms|, i requires 0 <= i < |ms| => QNameText(ms[i]))
  }

  /** `_get_unit_info`: the numerator measures joined by '/', then '/' and the denominator
      measures when there are any; `None` without a unit or without measure lists. */
  function UnitInfo(f: Fact): (r: Option<string>)
    ensures r.None? <==> f.unit.None? || |f.unit.value.measures| == 0
  {
    if f.unit.None? || |f.unit.value.measures| == 0 then None
    else
      var mss := f.unit.value.measures;
      var numerator := MeasureTexts(mss[0]);
      var denominator := if |mss| > 1 then MeasureTexts(mss[1]) else [];
      if |denominator| > 0 then Some(Join(numerator, '/') + "/" + Join(denominator, '/'))
      else Some(Join(numerator, '/'))
  }

  /** The measures a unit string lists: the numerator's, then the denominator's. */
  function UnitMeasures(u: Unit): seq<QName>
    requires |u.measures| > 0
  {
    u.measures[0] + (if |u.measures| > 1 then u.measures[1] else [])
  }

  /** The texts of two lists of measures are the texts of each, in order. */
  lemma MeasureTextsAppend(a: seq<QName>, b: seq<QName>)
    ensures MeasureTexts(a + b) == MeasureTexts(a) + MeasureTexts(b)
  {
    var l, r := MeasureTexts(a + b), MeasureTexts(a) + MeasureTexts(b);
    forall k | 0 <= k < |l| ensures l[k] == r[k] {
      if k < |a| { assert (a + b)[k] == a[k]; } else { assert (a + b)[k] == b[k - |a|]; }
    }
  }

  /** The unit string is the join of all the measures the unit lists; with an empty
      numerator it starts with the '/' that precedes the denominator, and is empty when the
      denominator is empty too. */
  lemma UnitInfoJoins(f: Fact)
    requires f.unit.Some? && |f.unit.value.measures| > 0
    ensures var all := MeasureTexts(UnitMeasures(f.unit.value));
      UnitInfo(f).value == if |f.unit.value.measures[0]| > 0 then Join(all, '/')
                           else if |all| > 0 then "/" + Join(all, '/') else ""
  {
    var mss := f.unit.value.measures;
    var second := if |mss| > 1 then mss[1] else [];
    var numerator := MeasureTexts(mss[0]);
    var denominator := MeasureTexts(second);
    assert UnitMeasures(f.unit.value) == mss[0] + second;
    MeasureTextsAppend(mss[0], second);
    if |numerator| == 0 {
      assert numerator + denominator == denominator;
    } else if |denominator| > 0 {
      JoinAppend(numerator, denominator, '/');
      assert UnitInfo(f).value == Join(numerator, '/') + "/" + Join(denominator, '/');
    } else {
      assert numerator + denominator == numerator;
      assert UnitInfo(f).value == Join(numerator, '/');
    }
  }

  /** Splitting a unit string at '/' gives back the numerator's measures followed by the
      denominator's when no measure's text holds a '/', after one empty piece when the
      numerator is empty. */
  lemma UnitInfoSplits(f: Fact)
    requires f.unit.Some? && |f.unit.value.measures| > 0
    requires forall m :: m in UnitMeasures(f.unit.value) ==> '/' !in QNameText(m)
    ensures Split(UnitInfo(f).value, '/') ==
      (if |f.unit.value.measures[0]| == 0 then [""] else []) + MeasureTexts(UnitMeasures(f.unit.value))
  {
    var all := MeasureTexts(UnitMeasures(f.unit.value));
    UnitInfoJoins(f);
    forall k | 0 <= k < |all| ensures '/' !in all[k] {
      assert all[k] == QNameText(UnitMeasures(f.unit.value)[k]);
    }
    if |all| == 0 {
      assert [""] + all == [""];
    } else {
      SplitJoin(all, '/');
      if |f.unit.value.measures[0]| == 0 {
        var s := "/" + Join(all, '/');
        assert s[1..] == Join(all, '/');
        assert Split(s, '/') == [""] + Split(s[1..], '/');
      } else {
        assert [] + all == all;
      }
    }
  }

  /** Only the first two measure lists count: a unit with more lists reads as its first two. */
  lemma UnitInfoFirstTwo(f: Fact, u: Unit)
    requires f.unit.Some? && |f.unit.value.measures| > 2
    requires u.measures == f.unit.value.measures[..2]
    ensures UnitInfo(f) == UnitInfo(f.(unit := Some(u)))
  { }

  // ------------------------------------------------------------------ contexts

  /** A value of the context dictionary: a string, or the dictionary of dimensions. */
  datatype InfoValue = Text(text: string) | Dims(dims: map<string, string>)

  type Info = map<string, InfoValue>

  /** The entity keys; an entity identifier that is missing raises. */
  function EntityInfo(c: Context): Result<Info, Exception> {
    match c.entity
    case Absent => Failure(AttributeError("entityIdentifier"))
    case Falsy => Success(map[])
    case Truthy =>
      Success(map["entity_scheme" := Text(c.entityIdentifier.0),
                  "entity_identifier" := Text(c.entityIdentifier.1)])
  }

  /** The period keys: an instant, a start/end pair, or nothing for a forever period. */
  function PeriodInfo(c: Context): Result<Info, Exception> {
    match c.period
    case Absent => Failure(AttributeError("period"))
    case Falsy => Success(map[])
    case Truthy =>
      match c.periodShape
      case InstantPeriod(date, _) =>
        Success(map["period_type" := Text("instant"), "instant" := Text(date)])
      case StartEndPeriod(start, end) =>
        Success(map["period_type" := Text("duration"), "start_date" := Text(start),
                    "end_date" := Text(end)])
      case ForeverPeriod => Success(map[])
  }

  /** Whether reading a dimension's member raises: an explicit member without the `member`
      attribute, or a typed one without the `typedMember` attribute. */
  predicate Raises(v: DimensionValue) {
    (v.isExplicit && v.member.Missing?) || (!v.isExplicit && v.isTyped && v.typedMember.None?)
  }

  /** `str()` of a dimension's member: the explicit member's qname, or the typed member, with
      "None" for a member set to `None`; nothing for a member that is neither explicit nor
      typed. */
  function DimensionText(v: DimensionValue): (r: Result<Option<string>, Exception>)
    ensures r.Failure? <==> Raises(v)
    ensures r.Failure? ==> r.error == AttributeError(if v.isExplicit then "member" else "typedMember")
    ensures r.Success? ==> (r.value.Some? <==> v.isExplicit || v.isTyped)
    ensures v.isExplicit && v.member.Given? ==> r == Success(Some(QNameText(v.member.value)))
    ensures v.isExplicit && v.member.Null? ==> r == Success(Some("None"))
    ensures !v.isExplicit && v.isTyped && v.typedMember.Some? ==> r == Success(v.typedMember)
  {
    if v.isExplicit then
      match v.member
      case Missing => Failure(AttributeError("member"))
      case Null => Success(Some("None"))
      case Given(q) => Success(Some(QNameText(q)))
    else if v.isTyped then
      if v.typedMember.None? then Failure(AttributeError("typedMember"))
      else Success(Some(v.typedMember.value))
    else Success(None)
  }

  /** The dictionary entry a dimension writes, if any. */
  function DimensionEntry(d: QualifiedDimension): Result<Option<(string, string)>, Exception> {
    var t :- DimensionText(d.value);
    Success(if t.Some? then Some((QNameText(d.dimension), t.value)) else None)
  }

  /** Dimension `i` is the first whose member raises. */
  predicate FirstRaise(ds: seq<QualifiedDimension>, i: int) {
    0 <= i < |ds| && Raises(ds[i].value) && forall j :: 0 <= j < i ==> !Raises(ds[j].value)
  }

  /** The entries of the `qnameDims` loop, in order; the loop stops at the first member that
      raises, and so does this. */
  function DimensionEntries(ds: seq<QualifiedDimension>): (r: Result<seq<Option<(string, string)>>, Exception>)
    ensures r.Success? <==> forall i :: 0 <= i < |ds| ==> !Raises(ds[i].value)
    ensures r.Success? ==> (|r.value| == |ds|
      && forall i :: 0 <= i < |ds| ==> r.value[i] == DimensionEntry(ds[i]).value)
    ensures r.Failure? ==> exists i :: FirstRaise(ds, i) && r.error == DimensionText(ds[i].value).error
  {
    if |ds| == 0 then Success([])
    else
      var e :- DimensionEntry(ds[0]);
      var rest :- DimensionEntries(ds[1..]);
      Success([e] + rest)
  }

  /** The `dimensions` dictionary, filled in `qnameDims` order. */
  function DimensionMap(ds: seq<QualifiedDimension>): (r: Result<map<string, string>, Exception>)
    ensures r.Success? <==> forall i :: 0 <= i < |ds| ==> !Raises(ds[i].value)
    ensures r.Failure? ==> exists i :: FirstRaise(ds, i) && r.error == DimensionText(ds[i].value).error
  {
    var es :- DimensionEntries(ds);
    Success(Assign(es))
  }

  /** The dimension keys; a context without `qnameDims` raises. */
  function DimensionsInfo(c: Context): Result<Info, Exception> {
    if c.dimensions.None? then Failure(AttributeError("qnameDims"))
    else if |c.dimensions.value| == 0 then Success(map[])
    else
      var dims :- DimensionMap(c.dimensions.value);
      Success(map["dimensions" := Dims(dims)])
  }

  /** `_get_context_info`: the entity, period and dimension keys of a fact's context, or the
      empty dictionary for a fact without one. */
  function ContextInfo(f: Fact): (r: Result<Info, Exception>)
    ensures f.context.Some? ==> (r.Failure? <==>
      f.context.value.entity.Absent? || f.context.value.period.Absent?
      || f.context.value.dimensions.None? || AnyRaises(f.context.value.dimensions.value))
    ensures r.Success? ==> r.value.Keys <= ContextKeys
  {
    if f.context.None? then Success(map[])
    else
      var c := f.context.value;
      EntityInfoKeys(c);
      PeriodInfoKeys(c);
      DimensionsInfoKeys(c);
      var entity :- EntityInfo(c);
      var period :- PeriodInfo(c);
      var dimensions :- DimensionsInfo(c);
      Success(entity + period + dimensions)
  }

  /** The keys a context dictionary can hold. */
  const ContextKeys: set<string> :=
    {"entity_scheme", "entity_identifier", "period_type", "instant", "start_date", "end_date",
     "dimensions"}

  /** The entity part: both keys when the identifier is truthy, none otherwise. */
  lemma EntityInfoKeys(c: Context)
    ensures EntityInfo(c).Failure? <==> c.entity.Absent?
    ensures EntityInfo(c).Success? ==>
      EntityInfo(c).value.Keys == (if c.entity.Truthy? then {"entity_scheme", "entity_identifier"} else {})
    ensures EntityInfo(c).Success? && c.entity.Truthy? ==>
      EntityInfo(c).value["entity_scheme"] == Text(c.entityIdentifier.0)
      && EntityInfo(c).value["entity_identifier"] == Text(c.entityIdentifier.1)
  { }

  /** The period part: the period type with the instant, or with the start and end dates. */
  lemma PeriodInfoKeys(c: Context)
    ensures PeriodInfo(c).Failure? <==> c.period.Absent?
    ensures PeriodInfo(c).Success? ==>
      PeriodInfo(c).value.Keys == (if c.period.Falsy? then {} else match c.periodShape
        case InstantPeriod(_, _) => {"period_type", "instant"}
        case StartEndPeriod(_, _) => {"period_type", "start_date", "end_date"}
        case ForeverPeriod => {})
    ensures PeriodInfo(c).Success? && "period_type" in PeriodInfo(c).value ==>
      PeriodInfo(c).value["period_type"] == Text(if c.periodShape.InstantPeriod? then "instant" else "duration")
    ensures PeriodInfo(c).Success? && "instant" in PeriodInfo(c).value ==>
      c.periodShape.InstantPeriod? && PeriodInfo(c).value["instant"] == Text(c.periodShape.instantDate)
    ensures PeriodInfo(c).Success? && "start_date" in PeriodInfo(c).value ==>
      c.periodShape.StartEndPeriod? && PeriodInfo(c).value["start_date"] == Text(c.periodShape.startDatetime)
      && PeriodInfo(c).value["end_date"] == Text(c.periodShape.endDatetime)
  { }

  /** Some dimension's member raises. */
  predicate AnyRaises(ds: seq<QualifiedDimension>) {
    exists i :: 0 <= i < |ds| && Raises(ds[i].value)
  }

  /** The dimension part: it raises for a missing `qnameDims` or with the first member that
      raises, and otherwise holds the one key exactly when there are dimensions. */
  lemma DimensionsInfoKeys(c: Context)
    ensures DimensionsInfo(c).Failure? <==> c.dimensions.None? || AnyRaises(c.dimensions.value)
    ensures c.dimensions.None? ==> DimensionsInfo(c).error == AttributeError("qnameDims")
    ensures c.dimensions.Some? && DimensionsInfo(c).Failure? ==>
      exists i :: FirstRaise(c.dimensions.value, i) && DimensionsInfo(c).error == DimensionText(c.dimensions.value[i].value).error
    ensures DimensionsInfo(c).Success? ==>
      DimensionsInfo(c).value.Keys == (if |c.dimensions.value| > 0 then {"dimensions"} else {})
    ensures DimensionsInfo(c).Success? && "dimensions" in DimensionsInfo(c).value ==>
      DimensionMap(c.dimensions.value).Success?
      && DimensionsInfo(c).value["dimensions"] == Dims(DimensionMap(c.dimensions.value).value)
  {
    if c.dimensions.Some? {
      var ds := c.dimensions.value;
      if |ds| == 0 {
        assert !AnyRaises(ds);
      }
    }
  }

  /** The context dictionary: which attributes make it raise, which keys it holds, and that an
      instant and a duration never mix. */
  lemma ContextInfoKeys(f: Fact)
    ensures f.context.None? ==> ContextInfo(f) == Success(map[])
    ensures var r := ContextInfo(f);
      r.Failure? <==> f.context.Some? && (f.context.value.entity.Absent?
                        || f.context.value.period.Absent? || f.context.value.dimensions.None?
                        || AnyRaises(f.context.value.dimensions.value))
    ensures var r := ContextInfo(f);
      r.Success? ==> (r.value.Keys <= ContextKeys
        && ("entity_identifier" in r.value <==> f.context.Some? && f.context.value.entity.Truthy?)
        && ("period_type" in r.value <==> f.context.Some? && f.context.value.period.Truthy?
                                            && !f.context.value.periodShape.ForeverPeriod?)
        && ("instant" in r.value <==> "period_type" in r.value && r.value["period_type"] == Text("instant"))
        && ("start_date" in r.value <==> "period_type" in r.value && r.value["period_type"] == Text("duration"))
        && ("end_date" in r.value <==> "start_date" in r.value)
        && ("dimensions" in r.value <==> f.context.Some? && |f.context.value.dimensions.value| > 0))
  {
    if f.context.Some? {
      var c := f.context.value;
      EntityInfoKeys(c);
      PeriodInfoKeys(c);
      DimensionsInfoKeys(c);
      if ContextInfo(f).Success? {
        var e, p, d := EntityInfo(c).value, PeriodInfo(c).value, DimensionsInfo(c).value;
        assert ContextInfo(f).value == e + p + d;
        assert "period_type" in ContextInfo(f).value ==> ContextInfo(f).value["period_type"] == p["period_type"];
      }
    }
  }

  /** What the context dictionary holds: the scheme and the identifier of the entity, the
      instant date, or the start and end datetimes of the period, and the dictionary of
      dimensions. */
  lemma ContextInfoValues(f: Fact)
    ensures var r := ContextInfo(f);
      r.Success? && f.context.Some? ==> var c := f.context.value;
        ("entity_scheme" in r.value ==> r.value["entity_scheme"] == Text(c.entityIdentifier.0))
        && ("entity_identifier" in r.value ==> r.value["entity_identifier"] == Text(c.entityIdentifier.1))
        && ("instant" in r.value ==>
              c.periodShape.InstantPeriod? && r.value["instant"] == Text(c.periodShape.instantDate))
        && ("start_date" in r.value ==>
              (c.periodShape.StartEndPeriod?
               && r.value["start_date"] == Text(c.periodShape.startDatetime)
               && r.value["end_date"] == Text(c.periodShape.endDatetime)))
        && ("dimensions" in r.value ==>
              (c.dimensions.Some? && DimensionMap(c.dimensions.value).Success?
               && r.value["dimensions"] == Dims(DimensionMap(c.dimensions.value).value)))
  {
    if f.context.Some? && ContextInfo(f).Success? {
      var c := f.context.value;
      EntityInfoKeys(c);
      PeriodInfoKeys(c);
      DimensionsInfoKeys(c);
      var e, p, d := EntityInfo(c).value, PeriodInfo(c).value, DimensionsInfo(c).value;
      assert ContextInfo(f).value == e + p + d;
    }
  }

  /** A dimension key is in the dictionary exactly when some explicit or typed dimension has
      that name, and it maps to the member of the last such dimension. */
  lemma DimensionMapLastWins(ds: seq<QualifiedDimension>, k: string)
    requires DimensionMap(ds).Success?
    ensures k in DimensionMap(ds).value <==>
      exists i :: 0 <= i < |ds| && (ds[i].value.isExplicit || ds[i].value.isTyped) && QNameText(ds[i].dimension) == k
    ensures k in DimensionMap(ds).value ==>
      exists i :: 0 <= i < |ds| && QNameText(ds[i].dimension) == k
        && DimensionText(ds[i].value) == Success(Some(DimensionMap(ds).value[k]))
        && forall j :: i < j < |ds| && QNameText(ds[j].dimension) == k ==> !ds[j].value.isExplicit && !ds[j].value.isTyped
  {
    var es := DimensionEntries(ds).value;
    assert DimensionMap(ds).value == Assign(es);
    AssignLastWins(es, k);
    forall i | 0 <= i < |ds|
      ensures Writes(es, i, k) <==> (ds[i].value.isExplicit || ds[i].value.isTyped) && QNameText(ds[i].dimension) == k
      ensures Writes(es, i, k) ==> DimensionText(ds[i].value) == Success(Some(es[i].value.1))
    {
      assert es[i] == DimensionEntry(ds[i]).value;
    }
  }

  // ------------------------------------------------------------------ facts

  /** One dictionary of `extract_facts`. */
  datatype FactRecord = FactRecord(
    concept: string,
    conceptQName: QName,
    namespace: string,
    value: Option<string>,
    unit: Option<string>,
    context: Info,
    decimals: Option<string>,
    precision: Option<string>)

  /** A concept filter applies only when it is given and not empty. */
  predicate Keeps(filter: Option<seq<string>>, name: string) {
    filter.None? || |filter.value| == 0 || name in filter.value
  }

  /** The record of a fact whose concept is known. */
  function RecordOf(f: Fact, q: QName, context: Info): FactRecord {
    FactRecord(q.localName, q, q.namespaceUri, f.value, UnitInfo(f), context, f.decimals, f.precision)
  }

  /** `r` is the record of fact `f`: its concept's names, its value, unit, context, decimals
      and precision. */
  predicate RecordFor(r: FactRecord, f: Fact) {
    f.concept.Some? && ContextInfo(f).Success?
    && r.concept == f.concept.value.localName && r.conceptQName == f.concept.value
    && r.namespace == f.concept.value.namespaceUri && r.value == f.value && r.unit == UnitInfo(f)
    && r.context == ContextInfo(f).value && r.decimals == f.decimals && r.precision == f.precision
  }

  /** The records of the facts the filter keeps, in fact order; a fact without a concept, or a
      kept fact whose context raises, raises. */
  function Records(fs: seq<Fact>, filter: Option<seq<string>>): Result<seq<FactRecord>, Exception> {
    if |fs| == 0 then Success([])
    else
      var f := fs[0];
      if f.concept.None? then Failure(AttributeError("name"))
      else if !Keeps(filter, f.concept.value.localName) then Records(fs[1..], filter)
      else
        var context :- ContextInfo(f);
        var rest :- Records(fs[1..], filter);
        Success([RecordOf(f, f.concept.value, context)] + rest)
  }

  /** `extract_facts`: no records without a filing. */
  function ExtractFacts(model: Option<XbrlModel>, filter: Option<seq<string>>): (r: Result<seq<FactRecord>, Exception>)
    ensures model.None? ==> r == Success([])
    ensures model.Some? ==> var fs := model.value.facts;
      (r.Success? <==>
        (forall i :: 0 <= i < |fs| ==> fs[i].concept.Some?)
        && (forall i :: Kept(fs, filter, i) ==> ContextInfo(fs[i]).Success?))
    ensures model.Some? && r.Success? ==> var kept := KeptFacts(model.value.facts, filter);
      |r.value| == |kept| && forall k :: 0 <= k < |r.value| ==> RecordFor(r.value[k], kept[k])
  {
    if model.None? then Success([])
    else
      var fs := model.value.facts;
      RecordsSucceed(fs, filter);
      if Records(fs, filter).Success? then
        RecordsOfKept(fs, filter);
        Records(fs, filter)
      else Records(fs, filter)
  }

  /** Fact `i` has a concept and the filter keeps it. */
  predicate Kept(fs: seq<Fact>, filter: Option<seq<string>>, i: int) {
    0 <= i < |fs| && fs[i].concept.Some? && Keeps(filter, fs[i].concept.value.localName)
  }

  /** The facts the filter keeps, in order. */
  function KeptFacts(fs: seq<Fact>, filter: Option<seq<string>>): (kept: seq<Fact>)
    ensures |kept| <= |fs|
  {
    if |fs| == 0 then []
    else if Kept(fs, filter, 0) then [fs[0]] + KeptFacts(fs[1..], filter)
    else KeptFacts(fs[1..], filter)
  }

  /** Extraction succeeds exactly when every fact has a concept and every kept fact's context
      reads. */
  lemma {:induction false} RecordsSucceed(fs: seq<Fact>, filter: Option<seq<string>>)
    ensures Records(fs, filter).Success? <==>
      (forall i :: 0 <= i < |fs| ==> fs[i].concept.Some?)
      && (forall i :: Kept(fs, filter, i) ==> ContextInfo(fs[i]).Success?)
  {
    if |fs| > 0 {
      var tail := fs[1..];
      RecordsSucceed(tail, filter);
      forall i | 0 <= i < |tail| ensures tail[i] == fs[i + 1] && (Kept(tail, filter, i) <==> Kept(fs, filter, i + 1)) { }
      if Records(fs, filter).Success? {
        assert Records(tail, filter).Success?;
        forall i | 0 <= i < |fs| ensures fs[i].concept.Some? && (Kept(fs, filter, i) ==> ContextInfo(fs[i]).Success?) {
          if i > 0 { assert tail[i - 1] == fs[i]; }
        }
      }
    }
  }

  /** One step of a successful extraction: a kept first fact leads with its record, any other
      first fact is skipped. */
  lemma RecordsStep(fs: seq<Fact>, filter: Option<seq<string>>)
    requires |fs| > 0 && Records(fs, filter).Success?
    ensures Records(fs[1..], filter).Success?
    ensures Kept(fs, filter, 0) ==>
      |Records(fs, filter).value| > 0 && RecordFor(Records(fs, filter).value[0], fs[0])
      && Records(fs, filter).value[1..] == Records(fs[1..], filter).value
      && KeptFacts(fs, filter) == [fs[0]] + KeptFacts(fs[1..], filter)
    ensures !Kept(fs, filter, 0) ==>
      Records(fs, filter) == Records(fs[1..], filter) && KeptFacts(fs, filter) == KeptFacts(fs[1..], filter)
  { }

  /** Putting a record before records of facts keeps them paired with the facts. */
  lemma RecordsPaired(r: FactRecord, f: Fact, rs: seq<FactRecord>, fs: seq<Fact>)
    requires RecordFor(r, f) && |rs| == |fs| && forall k :: 0 <= k < |rs| ==> RecordFor(rs[k], fs[k])
    ensures var rs', fs' := [r] + rs, [f] + fs;
      |rs'| == |fs'| && forall k :: 0 <= k < |rs'| ==> RecordFor(rs'[k], fs'[k])
  {
    var rs', fs' := [r] + rs, [f] + fs;
    forall k | 1 <= k < |rs'| ensures RecordFor(rs'[k], fs'[k]) {
      assert rs'[k] == rs[k - 1] && fs'[k] == fs[k - 1];
    }
  }

  /** The records of a successful extraction are the kept facts, one each, in order, each with
      its own fields. */
  lemma {:induction false} RecordsOfKept(fs: seq<Fact>, filter: Option<seq<string>>)
    requires Records(fs, filter).Success?
    ensures var rs, kept := Records(fs, filter).value, KeptFacts(fs, filter);
      |rs| == |kept| && forall k :: 0 <= k < |rs| ==> RecordFor(rs[k], kept[k])
  {
    if |fs| > 0 {
      var tail := fs[1..];
      RecordsStep(fs, filter);
      RecordsOfKept(tail, filter);
      var rs := Records(fs, filter).value;
      if Kept(fs, filter, 0) {
        RecordsPaired(rs[0], fs[0], Records(tail, filter).value, KeptFacts(tail, filter));
        assert rs == [rs[0]] + rs[1..];
      }
    }
  }

  /** Every record names a concept the filter admits. */
  lemma RecordsFiltered(fs: seq<Fact>, filter: Option<seq<string>>)
    requires Records(fs, filter).Success?
    ensures forall k :: 0 <= k < |Records(fs, filter).value| ==> Keeps(filter, Records(fs, filter).value[k].concept)
  {
    RecordsOfKept(fs, filter);
    KeptFactsKept(fs, filter);
  }

  /** Every kept fact has a concept the filter admits. */
  lemma {:induction false} KeptFactsKept(fs: seq<Fact>, filter: Option<seq<string>>)
    ensures forall k :: 0 <= k < |KeptFacts(fs, filter)| ==>
      KeptFacts(fs, filter)[k].concept.Some? && Keeps(filter, KeptFacts(fs, filter)[k].concept.value.localName)
  {
    if |fs| > 0 {
      KeptFactsKept(fs[1..], filter);
    }
  }

  /** Without a filter (or with an empty one) every fact is kept. */
  lemma {:induction false} KeptFactsAll(fs: seq<Fact>, filter: Option<seq<string>>)
    requires filter.None? || |filter.value| == 0
    requires forall i :: 0 <= i < |fs| ==> fs[i].concept.Some?
    ensures KeptFacts(fs, filter) == fs
  {
    if |fs| > 0 {
      KeptFactsAll(fs[1..], filter);
      assert [fs[0]] + fs[1..] == fs;
    }
  }

  /** A fact is kept exactly when some kept fact equals it. */
  lemma {:induction false} KeptFactsMembers(fs: seq<Fact>, filter: Option<seq<string>>, f: Fact)
    ensures f in KeptFacts(fs, filter) <==> exists i :: Kept(fs, filter, i) && fs[i] == f
  {
    if |fs| > 0 {
      KeptFactsMembers(fs[1..], filter, f);
      forall i | 0 <= i < |fs| - 1 ensures Kept(fs[1..], filter, i) <==> Kept(fs, filter, i + 1) { }
      if exists i :: Kept(fs, filter, i) && fs[i] == f {
        var i :| Kept(fs, filter, i) && fs[i] == f;
        if i > 0 { assert Kept(fs[1..], filter, i - 1); }
      }
      if f in KeptFacts(fs[1..], filter) {
        var i :| Kept(fs[1..], filter, i) && fs[1..][i] == f;
        assert Kept(fs, filter, i + 1);
      }
    }
  }

  // ------------------------------------------------------------------ company information

  /** The value a table lists for a key: that of its first entry with the key. */
  function Lookup<K(==), V>(table: seq<(K, V)>, key: K): (r: Option<V>)
    ensures r.Some? ==> exists i :: 0 <= i < |table| && table[i] == (key, r.value)
    ensures r.None? ==> forall i :: 0 <= i < |table| ==> table[i].0 != key
  {
    if |table| == 0 then None
    else if table[0].0 == key then Some(table[0].1)
    else Lookup(table[1..], key)
  }

  /** The document-and-entity concepts and the key each is reported under. */
  const DeiTable: seq<(string, string)> := [
    ("EntityRegistrantName", "company_name"),
    ("EntityCentralIndexKey", "cik"),
    ("TradingSymbol", "ticker"),
    ("DocumentPeriodEndDate", "period_end_date"),
    ("DocumentType", "document_type"),
    ("EntityFilerCategory", "filer_category"),
    ("AmendmentFlag", "amendment_flag"),
    ("DocumentFiscalYearFocus", "document_fiscal_year_focus"),
    ("DocumentFiscalPeriodFocus", "document_fiscal_period_focus"),
    ("EmployeeServiceShareBasedCompensationNonvestedAwardsCompensationCostExpensedInNextTwelveMonthsExpectedToExceedPercentage", "employee_service_share_based_compensation_nonvested_awards_compensation_cost_expensed_in_next_twelve_months_expected_to_exceed_percentage"),
    ("DocumentAnnualReport", "document_annual_report"),
    ("CurrentFiscalYearEndDate", "current_fiscal_year_end_date"),
    ("DocumentTransitionReport", "document_transition_report"),
    ("EntityFileNumber", "entity_file_number"),
    ("EntityIncorporationStateCountryCode", "entity_incorporation_state_country_code"),
    ("EntityTaxIdentificationNumber", "entity_tax_identification_number"),
    ("EntityAddressAddressLine1", "entity_address_address_line_1"),
    ("EntityAddressCityOrTown", "entity_address_city_or_town"),
    ("EntityAddressStateOrProvince", "entity_address_state_or_province"),
    ("EntityAddressPostalZipCode", "entity_address_postal_zip_code"),
    ("CityAreaCode", "city_area_code"),
    ("LocalPhoneNumber", "local_phone_number"),
    ("Security12bTitle", "security_12b_title"),
    ("SecurityExchangeName", "security_exchange_name"),
    ("EntityWellKnownSeasonedIssuer", "entity_well_known_seasoned_issuer"),
    ("EntityVoluntaryFilers", "entity_voluntary_filers"),
    ("EntityCurrentReportingStatus", "entity_current_reporting_status"),
    ("EntityInteractiveDataCurrent", "entity_interactive_data_current"),
    ("EntitySmallBusiness", "entity_small_business"),
    ("EntityEmergingGrowthCompany", "entity_emerging_growth_company"),
    ("IcfrAuditorAttestationFlag", "icfr_auditor_attestation_flag"),
    ("DocumentFinStmtErrorCorrectionFlag", "document_fin_stmt_error_correction_flag"),
    ("EntityShellCompany", "entity_shell_company"),
    ("EntityPublicFloat", "entity_public_float"),
    ("EntityCommonStockSharesOutstanding", "entity_common_stock_shares_outstanding"),
    ("DocumentsIncorporatedByReferenceTextBlock", "documents_incorporated_by_reference_text_block")]

  /** The dictionary entry a fact with a concept writes, if the table lists its concept. */
  function ReportEntry(f: Fact, table: seq<(string, string)>): Option<(string, Option<string>)>
    requires f.concept.Some?
  {
    var key := Lookup(table, f.concept.value.localName);
    if key.Some? then Some((key.value, f.value)) else None
  }

  /** Each fact's value under the key the table gives its concept, the last fact winning; a
      fact without a concept raises. */
  function ReportedInfo(fs: seq<Fact>, table: seq<(string, string)>): Result<map<string, Option<string>>, Exception> {
    if exists i :: 0 <= i < |fs| && fs[i].concept.None? then Failure(AttributeError("name"))
    else Success(Assign(seq(|fs|, i requires 0 <= i < |fs| => ReportEntry(fs[i], table))))
  }

  /** `get_company_info`: the document-and-entity facts by their report keys. */
  function CompanyInfo(model: Option<XbrlModel>): (r: Result<map<string, Option<string>>, Exception>)
    ensures model.None? ==> r == Success(map[])
    ensures model.Some? ==>
      (r.Failure? <==> exists i :: 0 <= i < |model.value.facts| && model.value.facts[i].concept.None?)
    ensures r.Success? ==> forall k :: k in r.value ==> exists i :: 0 <= i < |DeiTable| && DeiTable[i].1 == k
  {
    if model.None? then Success(map[])
    else
      ReportedInfoOutcome(model.value.facts, DeiTable);
      ReportedInfo(model.value.facts, DeiTable)
  }

  /** Fact `i` is reported under key `k`. */
  predicate ReportsAs(fs: seq<Fact>, table: seq<(string, string)>, i: int, k: string) {
    0 <= i < |fs| && fs[i].concept.Some? && Lookup(table, fs[i].concept.value.localName) == Some(k)
  }

  /** The dictionary holds a key exactly when some fact is reported under it, and its value is
      that of the last such fact. */
  lemma ReportedInfoLastWins(fs: seq<Fact>, table: seq<(string, string)>, k: string)
    requires ReportedInfo(fs, table).Success?
    ensures k in ReportedInfo(fs, table).value <==> exists i :: ReportsAs(fs, table, i, k)
    ensures k in ReportedInfo(fs, table).value ==>
      exists i :: ReportsAs(fs, table, i, k) && ReportedInfo(fs, table).value[k] == fs[i].value
        && forall j :: i < j < |fs| ==> !ReportsAs(fs, table, j, k)
  {
    var es := seq(|fs|, i requires 0 <= i < |fs| => ReportEntry(fs[i], table));
    AssignLastWins(es, k);
    forall i | 0 <= i < |fs| ensures Writes(es, i, k) <==> ReportsAs(fs, table, i, k) {
      assert es[i] == ReportEntry(fs[i], table);
    }
  }

  /** The dictionary fails exactly when a fact has no concept, and its keys are always among
      the keys the table lists. */
  lemma ReportedInfoOutcome(fs: seq<Fact>, table: seq<(string, string)>)
    ensures ReportedInfo(fs, table).Failure? <==> exists i :: 0 <= i < |fs| && fs[i].concept.None?
    ensures ReportedInfo(fs, table).Success? ==>
      forall k :: k in ReportedInfo(fs, table).value ==> exists i :: 0 <= i < |table| && table[i].1 == k
  {
    if ReportedInfo(fs, table).Success? {
      forall k | k in ReportedInfo(fs, table).value ensures exists i :: 0 <= i < |table| && table[i].1 == k {
        ReportedInfoLastWins(fs, table, k);
        var i :| ReportsAs(fs, table, i, k);
      }
    }
  }

  // ------------------------------------------------------------------ statements

  const IncomeStatementConcepts: seq<string> := [
    "Revenues", "RevenueFromContractWithCustomerExcludingAssessedTax",
    "CostOfRevenue", "CostOfGoodsAndServicesSold", "GrossProfit",
    "OperatingExpenses", "OperatingIncomeLoss", "NetIncomeLoss",
    "EarningsPerShareBasic", "EarningsPerShareDiluted"]

  const BalanceSheetConcepts: seq<string> := [
    "Assets", "AssetsCurrent", "AssetsNoncurrent",
    "Liabilities", "LiabilitiesCurrent", "LiabilitiesNoncurrent",
    "StockholdersEquity", "RetainedEarningsAccumulatedDeficit"]

  const CashFlowConcepts: seq<string> := [
    "NetCashProvidedByUsedInOperatingActivities",
    "NetCashProvidedByUsedInInvestingActivities",
    "NetCashProvidedByUsedInFinancingActivities",
    "CashAndCashEquivalentsAtCarryingValue"]

  /** The statements in the order they are extracted, each with its concepts. */
  const StatementKinds: seq<(string, seq<string>)> := [
    ("income_statement", IncomeStatementConcepts),
    ("balance_sheet", BalanceSheetConcepts),
    ("cash_flow", CashFlowConcepts)]

  /** The statements of `kinds` that have facts, each with the records of its concepts. */
  function Statements(fs: seq<Fact>, kinds: seq<(string, seq<string>)>): Result<map<string, seq<FactRecord>>, Exception> {
    if |kinds| == 0 then Success(map[])
    else
      var records :- Records(fs, Some(kinds[0].1));
      var rest :- Statements(fs, kinds[1..]);
      Success(if |records| > 0 then rest[kinds[0].0 := records] else rest)
  }

  /** `get_financial_statements`, its tables as lists of records. */
  function FinancialStatements(model: Option<XbrlModel>): (r: Result<map<string, seq<FactRecord>>, Exception>)
    ensures model.None? ==> r == Success(map[])
    ensures model.Some? ==> (r.Success? <==>
      forall i :: 0 <= i < |StatementKinds| ==> Records(model.value.facts, Some(StatementKinds[i].1)).Success?)
    ensures r.Success? ==> r.value.Keys <= {"income_statement", "balance_sheet", "cash_flow"}
  {
    if model.None? then Success(map[])
    else
      var fs := model.value.facts;
      if Statements(fs, StatementKinds).Success? then
        StatementsNamed(fs, StatementKinds);
        Statements(fs, StatementKinds)
      else
        StatementsFail(fs, StatementKinds);
        Statements(fs, StatementKinds)
  }

  /** One step of a successful grouping: the first statement's records, added to the rest
      when there are any. */
  lemma StatementsStep(fs: seq<Fact>, kinds: seq<(string, seq<string>)>)
    requires |kinds| > 0 && Statements(fs, kinds).Success?
    ensures Records(fs, Some(kinds[0].1)).Success? && Statements(fs, kinds[1..]).Success?
    ensures var records, rest := Records(fs, Some(kinds[0].1)).value, Statements(fs, kinds[1..]).value;
      Statements(fs, kinds).value == if |records| > 0 then rest[kinds[0].0 := records] else rest
  { }

  /** Every statement of a successful grouping is one of the kinds. */
  lemma {:induction false} StatementsNamed(fs: seq<Fact>, kinds: seq<(string, seq<string>)>)
    requires Statements(fs, kinds).Success?
    ensures forall i :: 0 <= i < |kinds| ==> Records(fs, Some(kinds[i].1)).Success?
    ensures forall name :: name in Statements(fs, kinds).value ==> exists i :: 0 <= i < |kinds| && kinds[i].0 == name
  {
    if |kinds| > 0 {
      var tail := kinds[1..];
      StatementsStep(fs, kinds);
      StatementsNamed(fs, tail);
      forall i | 1 <= i < |kinds| ensures Records(fs, Some(kinds[i].1)).Success? {
        assert kinds[i] == tail[i - 1];
      }
      forall name | name in Statements(fs, kinds).value ensures exists i :: 0 <= i < |kinds| && kinds[i].0 == name {
        if name != kinds[0].0 {
          var i :| 0 <= i < |tail| && tail[i].0 == name;
          assert kinds[i + 1].0 == name;
        }
      }
    }
  }

  /** A grouping fails when the extraction of one of its statements does. */
  lemma {:induction false} StatementsFail(fs: seq<Fact>, kinds: seq<(string, seq<string>)>)
    requires Statements(fs, kinds).Failure?
    ensures exists i :: 0 <= i < |kinds| && Records(fs, Some(kinds[i].1)).Failure?
  {
    if Records(fs, Some(kinds[0].1)).Success? {
      StatementsFail(fs, kinds[1..]);
      var i :| 0 <= i < |kinds[1..]| && Records(fs, Some(kinds[1..][i].1)).Failure?;
      assert kinds[i + 1] == kinds[1..][i];
    }
  }

  /** Statement `kind` is in `m` exactly when its extraction has records, and holds them. */
  predicate Holds(fs: seq<Fact>, m: map<string, seq<FactRecord>>, kind: (string, seq<string>)) {
    Records(fs, Some(kind.1)).Success?
    && (kind.0 in m <==> |Records(fs, Some(kind.1)).value| > 0)
    && (kind.0 in m ==> m[kind.0] == Records(fs, Some(kind.1)).value)
  }

  /** With distinct statement names, every statement of the grouping holds its records. */
  lemma {:induction false} StatementsHold(fs: seq<Fact>, kinds: seq<(string, seq<string>)>)
    requires Statements(fs, kinds).Success?
    requires forall i, j :: 0 <= i < j < |kinds| ==> kinds[i].0 != kinds[j].0
    ensures forall i :: 0 <= i < |kinds| ==> Holds(fs, Statements(fs, kinds).value, kinds[i])
  {
    if |kinds| > 0 {
      var tail := kinds[1..];
      StatementsStep(fs, kinds);
      StatementsHold(fs, tail);
      StatementsNamed(fs, tail);
      var m, rest := Statements(fs, kinds).value, Statements(fs, tail).value;
      forall i | 0 <= i < |kinds| ensures Holds(fs, m, kinds[i]) {
        if i == 0 {
          forall j | 0 <= j < |tail| ensures tail[j].0 != kinds[0].0 {
            assert tail[j] == kinds[j + 1];
          }
        } else {
          assert kinds[i] == tail[i - 1] && kinds[i].0 != kinds[0].0;
          assert Holds(fs, rest, tail[i - 1]);
        }
      }
    }
  }

  /** With a non-empty filter, a successful extraction has records exactly when some fact
      carries one of the filter's concepts. */
  lemma RecordsAny(fs: seq<Fact>, names: seq<string>)
    requires |names| > 0 && Records(fs, Some(names)).Success?
    ensures |Records(fs, Some(names)).value| > 0 <==>
      exists j :: 0 <= j < |fs| && fs[j].concept.Some? && fs[j].concept.value.localName in names
  {
    var filter := Some(names);
    RecordsOfKept(fs, filter);
    if exists j :: 0 <= j < |fs| && fs[j].concept.Some? && fs[j].concept.value.localName in names {
      var j :| 0 <= j < |fs| && fs[j].concept.Some? && fs[j].concept.value.localName in names;
      KeptFactsMembers(fs, filter, fs[j]);
    }
    if |KeptFacts(fs, filter)| > 0 {
      KeptFactsMembers(fs, filter, KeptFacts(fs, filter)[0]);
    }
  }

  /** The statement dictionary: its keys are statement names, a statement is there exactly
      when some fact carries one of its concepts, and then it lists that statement's records. */
  lemma FinancialStatementsKeys(m: XbrlModel)
    requires FinancialStatements(Some(m)).Success?
    ensures FinancialStatements(Some(m)).value.Keys <= {"income_statement", "balance_sheet", "cash_flow"}
    ensures forall i :: 0 <= i < |StatementKinds| ==>
      Holds(m.facts, FinancialStatements(Some(m)).value, StatementKinds[i])
      && (StatementKinds[i].0 in FinancialStatements(Some(m)).value <==>
            exists j :: 0 <= j < |m.facts| && m.facts[j].concept.Some?
                          && m.facts[j].concept.value.localName in StatementKinds[i].1)
  {
    var kinds := StatementKinds;
    assert forall i, j :: 0 <= i < j < |kinds| ==> kinds[i].0 != kinds[j].0;
    StatementsNamed(m.facts, kinds);
    StatementsHold(m.facts, kinds);
    forall i | 0 <= i < |kinds|
      ensures |Records(m.facts, Some(kinds[i].1)).value| > 0 <==>
        exists j :: 0 <= j < |m.facts| && m.facts[j].concept.Some? && m.facts[j].concept.value.localName in kinds[i].1
    {
      assert |kinds[i].1| > 0;
      assert Holds(m.facts, FinancialStatements(Some(m)).value, kinds[i]);
      RecordsAny(m.facts, kinds[i].1);
    }
  }

  // ------------------------------------------------------------------ arcroles

  /** The arcrole of the dimensional base sets, which the list leaves out. */
  const DimensionsArcrole := "XBRL-dimensions"

  /** `arcrole_uri`: the distinct arcroles of the base sets other than the dimensional ones, in
      an order the model leaves open; without a filing the attribute read raises. */
  method ArcroleUris(model: Option<XbrlModel>) returns (r: Result<seq<string>, Exception>)
    ensures r.Failure? <==> model.None?
    ensures r.Success? ==> Distinct(r.value)
    ensures r.Success? ==> forall u :: u in r.value <==>
      u != DimensionsArcrole && exists k :: k in model.value.baseSetKeys && k.arcrole == u
  {
    if model.None? {
      return Failure(AttributeError("baseSets"));
    }
    var keys := model.value.baseSetKeys;
    var found: set<string> := {};
    for i := 0 to |keys|
      invariant forall u :: u in found <==>
        u != DimensionsArcrole && exists k :: k in keys[..i] && k.arcrole == u
    {
      assert keys[..i + 1] == keys[..i] + [keys[i]];
      if keys[i].arcrole == DimensionsArcrole {
        continue;
      }
      found := found + {keys[i].arcrole};
    }
    assert keys[..|keys|] == keys;
    var listed: seq<string> := [];
    var left := found;
    while left != {}
      invariant left <= found
      invariant forall u :: u in found <==> u in listed || u in left
      invariant forall u :: u in listed ==> u !in left
      invariant Distinct(listed)
      decreases |left|
    {
      var u :| u in left;
      listed := listed + [u];
      left := left - {u};
    }
    r := Success(listed);
  }

  // ------------------------------------------------------------------ validation

  /** The dictionary of `validate_instance`; `message`, `errors` and `warnings` are `None`
      where the dictionary has no such key. */
  datatype Validation = Validation(
    status: string,
    message: Option<string>,
    errors: Option<seq<string>>,
    warnings: Option<seq<string>>)

  /** Some fact reports concept `q`. */
  predicate Reported(fs: seq<Fact>, q: QName) {
    exists i :: 0 <= i < |fs| && fs[i].concept == Some(q)
  }

  /** The warning for a required concept without a fact. */
  function MissingWarning(c: Concept): string {
    "Missing required fact: " + QNameText(c.qname)
  }

  /** One warning per required concept without a fact, in concept order. */
  function MissingWarnings(cs: seq<Concept>, fs: seq<Fact>): seq<string> {
    if |cs| == 0 then []
    else
      var here := if cs[0].isRequired && !Reported(fs, cs[0].qname) then [MissingWarning(cs[0])] else [];
      here + MissingWarnings(cs[1..], fs)
  }

  /** `validate_instance`, with the calculation errors given: the errors are listed, and the
      status is "error" exactly when there is one; without a filing, only the message. */
  function ValidateInstance(model: Option<XbrlModel>, calcErrors: seq<string>): (r: Validation)
    ensures model.None? ==> r == Validation("error", Some("No XBRL instance loaded"), None, None)
    ensures model.Some? ==> r.message.None? && r.errors == Some(calcErrors) && r.warnings.Some?
    ensures model.Some? ==> (r.status == "error" <==> |calcErrors| > 0)
    ensures model.Some? ==> forall w :: w in r.warnings.value <==> Unreported(model.value.concepts, model.value.facts, w)
    ensures r.status in {"success", "error"}
  {
    if model.None? then Validation("error", Some("No XBRL instance loaded"), None, None)
    else
      var m := model.value;
      MissingWarningsAll(m.concepts, m.facts);
      Validation(if |calcErrors| > 0 then "error" else "success", None, Some(calcErrors),
                 Some(MissingWarnings(m.concepts, m.facts)))
  }

  /** `w` is the warning of a required concept that no fact reports. */
  predicate Unreported(cs: seq<Concept>, fs: seq<Fact>, w: string) {
    exists c :: c in cs && c.isRequired && !Reported(fs, c.qname) && w == MissingWarning(c)
  }

  /** Every warning, at once. */
  lemma MissingWarningsAll(cs: seq<Concept>, fs: seq<Fact>)
    ensures forall w :: w in MissingWarnings(cs, fs) <==> Unreported(cs, fs, w)
  {
    forall w ensures w in MissingWarnings(cs, fs) <==> Unreported(cs, fs, w) {
      MissingWarningsExactly(cs, fs, w);
    }
  }

  /** The warnings are exactly the warnings of the required concepts that no fact reports. */
  lemma {:induction false} MissingWarningsExactly(cs: seq<Concept>, fs: seq<Fact>, w: string)
    ensures w in MissingWarnings(cs, fs) <==>
      exists c :: c in cs && c.isRequired && !Reported(fs, c.qname) && w == MissingWarning(c)
  {
    if |cs| > 0 {
      MissingWarningsExactly(cs[1..], fs, w);
      if exists c :: c in cs[1..] && c.isRequired && !Reported(fs, c.qname) && w == MissingWarning(c) {
        var c :| c in cs[1..] && c.isRequired && !Reported(fs, c.qname) && w == MissingWarning(c);
        assert c in cs;
      }
      if exists c :: c in cs && c.isRequired && !Reported(fs, c.qname) && w == MissingWarning(c) {
        var c :| c in cs && c.isRequired && !Reported(fs, c.qname) && w == MissingWarning(c);
        if c != cs[0] { assert c in cs[1..]; }
      }
    }
  }
}
