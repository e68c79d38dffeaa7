# XBRL to RDF: a Dafny model

This project models the core of a small XBRL toolkit. The toolkit has three parts:

- The translator (`XBRLToRDF`) turns a loaded XBRL filing into an RDF graph. Concepts, contexts,
  facts and relationships each become subjects with typed properties. A fixed document node links
  to the facts and the relationships.
- The parser (`XBRLParser`) reads the same filing and returns plain records:
  - the company's DEI facts;
  - fact records, each with its unit string and context dictionary;
  - financial statements grouped by concept lists;
  - the arcroles of the relationship base sets;
  - a validation summary.
- The visualizer (`RDFVisualizer`) folds a graph's triples into a directed graph of strings and
  exports its nodes and edges as JSON records.

Everything is written as pure functions over immutable datatypes. Loops that matter are written as
methods with invariants.

Modules:

- `Wrappers`: `Option`, `Result` and the two Python exceptions the code raises (`ValueError`,
  `AttributeError`).
- `Seqs`: `sep.join`, `str.split` and flattening, with their round-trip lemmas.
- `XbrlModel`: the filing as the XBRL engine exposes it. An attribute probed with `hasattr` is an
  `Option`. An attribute that is probed for existence and also tested for truth is a
  `Presence` (`Absent`, `Falsy` or `Truthy`). An attribute the code reads unguarded, where a
  missing attribute raises and `None` prints as "None", is an `Attribute` (`Missing`, `Null` or
  `Given`).
- `Rdf`: terms, triples and the vocabulary.
  - A graph is a `set<Triple>`: rdflib graphs are sets.
  - `uuid4()` identifiers and `BNode()`s are drawn from one counter, as `Minted(ns, n)` and
    `Blank(n)`.
- `XbrlToRdf`: the translator.
  - The triples of each concept, context, fact and relationship.
  - The passes as loops that may raise part-way.
  - `xbrl_to_rdf` and `save_rdf_graph`.
- `Translation`: properties of the whole translated graph.
- `XbrlParser`: the record extraction of the parser.
- `RdfVisualizer`: the directed-graph fold and the JSON projection.

The source paths below are relative to the repository root.

## Model

| member | source | states |
|---|---|---|
| XbrlToRdf.NewTranslator | xbrl_to_rdf.py:19-22 | A missing model raises `ValueError("XBRL model cannot be None")`. Any other model is wrapped with an empty error list. |
| XbrlToRdf.ConceptTriplesContent | xbrl_to_rdf.py:65-97 | A concept's triples are all about the subject named by its local name. They are exactly its attribute table: type, label, and each optional attribute only when present. The label and the balance also need to be non-empty. |
| XbrlToRdf.SegmentsContent | xbrl_to_rdf.py:135-145 | The context links to one fresh blank node per dimension. Each node carries its type, its dimension, and then the explicit member, or else the typed value. |
| XbrlToRdf.ContextContent | xbrl_to_rdf.py:102-148 | A context's triples are its own subject's link and type. An entity node carries the identifier and scheme only when the identifier is truthy. A period node carries an instant, or a start and end date, or nothing for a forever period. Then come the segment nodes; nothing else. |
| XbrlToRdf.MeasureSound | xbrl_to_rdf.py:175-185 | Every `measure` triple of a unit node names a measure of one of the unit's measure lists. |
| XbrlToRdf.MeasureComplete | xbrl_to_rdf.py:175-185 | Every measure of every measure list appears on the unit node. |
| XbrlToRdf.FootnotesContent | xbrl_to_rdf.py:198-204 | The fact links to one fresh node per footnote. Each node is typed and carries its text when the footnote has one. |
| XbrlToRdf.FactContent | xbrl_to_rdf.py:150-207 | A fact's triples are exactly: the document's link to the fact's fresh subject, that subject's attribute table, the unit node's table, and the footnote nodes. |
| XbrlToRdf.RelsContent | xbrl_to_rdf.py:209-246 | The relationships pass gives exactly: the document linked to each relationship's fresh subject, and each subject carrying its own relationship's table. |
| XbrlToRdf.Prefix | xbrl_to_rdf.py:98-99 | A pass that raises keeps a prefix of its items, as long as the index it raised at. A pass that does not raise keeps all of them. |
| XbrlToRdf.ChainAppend | xbrl_to_rdf.py:104-148 | Translating `a + b` is translating `a` and then `b`. `b` starts drawing identifiers where `a` stopped. |
| XbrlToRdf.ConceptsAppend | xbrl_to_rdf.py:68-97 | The concepts pass over `a + b` is the union of the passes over `a` and over `b`. |
| XbrlToRdf.RunPass | xbrl_to_rdf.py:104-148 | The loop of an item pass returns the triples of the items before the one that raised. The next free identifier follows the ones those items drew. |
| XbrlToRdf.RunConcepts | xbrl_to_rdf.py:65-100 | The concepts loop returns the triples of the concepts before the one that raised. |
| XbrlToRdf.Translate | xbrl_to_rdf.py:61-303 | The graph is the document node plus the four item passes; the taxonomy pass only records its error. Each pass keeps what it finished before raising, and later passes still run. Only the taxonomy pass appends to the errors, with the message `Error translating taxonomy: …`. |
| XbrlToRdf.SaveCheck | xbrl_to_rdf.py:318-325 | Saving is refused exactly when the graph is empty, the file name is empty, or the format is not one of turtle, xml, n3 or json-ld. The checks run in that order, and the first that fails gives the message: "RDF graph cannot be None", then "Output filename cannot be None", then "Unsupported format: " followed by the format. |
| XbrlToRdf.SaveRdfGraph | xbrl_to_rdf.py:309-335 | Saving succeeds exactly when the graph, the file name and the format pass. A refusal raises `ValueError` carrying the first failing check's message, and appends `Error saving RDF graph: ` followed by that message to the errors. A success leaves the errors unchanged. |
| Translation.ConceptsAt | xbrl_to_rdf.py:68-97 | A triple is in the concepts pass iff it is in the attribute table of some concept, about that concept's local-name subject. |
| Translation.ConceptObjects | xbrl_to_rdf.py:69 | Concepts that share a local name share one subject. That subject carries the union of their tables. |
| Translation.ConceptLabels | xbrl_to_rdf.py:69-73 | Each concept subject is typed `Concept` and labelled with its local name only, however many concepts share it. |
| Translation.MergedFixed | xbrl_to_rdf.py:69-73 | The type and label of a merged subject do not depend on how many concepts share it. |
| Translation.ConceptInstances | xbrl_to_rdf.py:70 | The subjects typed `Concept` are exactly the local-name subjects of the concepts. |
| Translation.ConceptsWords | xbrl_to_rdf.py:65-97 | The concepts pass uses only the concept predicates. |
| Translation.ContextExclusive | xbrl_to_rdf.py:126-145 | No node of one context carries both an instant and a start or end date. No node carries both an explicit member and a typed value. |
| Translation.ContextsExclusive | xbrl_to_rdf.py:104-145 | The same holds for the whole contexts pass: distinct contexts draw nodes from disjoint ranges. |
| Translation.ContextsWords | xbrl_to_rdf.py:102-148 | The contexts pass uses only the context predicates. |
| Translation.FactExclusive | xbrl_to_rdf.py:188-191 | A fact's subject never carries both precision and decimals. |
| Translation.FactsExclusive | xbrl_to_rdf.py:152-191 | No subject of the whole facts pass carries both precision and decimals. |
| Translation.FactReferences | xbrl_to_rdf.py:161-166 | A fact's subject links to its concept subject by local name only when the fact has a concept, and to its context by id only when it has a context. |
| Translation.TextFactBare | xbrl_to_rdf.py:169-195 | A non-numeric fact carries its value as a plain literal, and no unit, precision or decimals. |
| Translation.PrecisionWins | xbrl_to_rdf.py:170-191 | A numeric fact carries its value as an `xsd:decimal` literal. It carries its precision when it has one, and its decimals only when it has no precision. |
| Translation.ValuelessFactBare | xbrl_to_rdf.py:169 | A fact without a value carries no value, unit, precision or decimals. |
| Translation.UnitMeasures | xbrl_to_rdf.py:175-185 | A numeric valued fact with a unit links to one unit node. That node is typed `Unit` and carries the local name of every measure. |
| Translation.MeasureNames | xbrl_to_rdf.py:180-185 | The measure names of a unit are exactly the local names in its flattened measure lists. |
| Translation.FootnoteLinks | xbrl_to_rdf.py:198-201 | A fact's subject links to one fresh node per footnote, consecutive after the unit node. |
| Translation.FootnoteContent | xbrl_to_rdf.py:202-204 | The node of footnote `i` is typed `Footnote` and carries that footnote's text when it has one. |
| Translation.FactsLinked | xbrl_to_rdf.py:155-158 | The document links by `hasFact` to one distinct fresh subject per fact, drawn from the pass's range. Those are exactly the subjects typed `Fact`. |
| Translation.FactsWords | xbrl_to_rdf.py:150-207 | The facts pass uses only the fact predicates. |
| Translation.RelItemsMembers | xbrl_to_rdf.py:212-216 | The relationships pass visits a relationship iff it sits in some set, carrying that set's arcrole and linkrole. |
| Translation.RelItemsCount | xbrl_to_rdf.py:212-216 | The pass visits one item per relationship of every set. |
| Translation.RelKeys | xbrl_to_rdf.py:217-233 | Each relationship's subject carries its arcrole and linkrole, and its source and target concepts exactly when it has them. |
| Translation.RelsLinked | xbrl_to_rdf.py:217-221 | The document links by `hasRelationship` to one distinct fresh subject per relationship. Those are exactly the subjects typed `Relationship`. |
| Translation.RelsWords | xbrl_to_rdf.py:209-246 | The relationships pass uses only the relationship predicates. |
| Translation.RootTyped | xbrl_to_rdf.py:61-63 | The document is typed `Instance` and nothing else, and carries the creation time, whatever the passes did. |
| Translation.DocumentObjects | xbrl_to_rdf.py:61-303 | The document carries only its own two triples plus the facts pass's `hasFact` links and the relationships pass's `hasRelationship` links. |
| Translation.GraphLinks | xbrl_to_rdf.py:158 | The document has one `hasFact` link per fact the facts pass finished. It has one `hasRelationship` link per relationship the relationships pass finished. |
| Translation.RelationshipCount | xbrl_to_rdf.py:212-216 | A model without relationship sets gives no relationship links. A relationships pass that does not raise gives one link per relationship of every set. |
| Translation.RelationshipsIndependent | xbrl_to_rdf.py:280-294 | The number of relationship links depends only on the relationships pass. It does not depend on earlier passes failing, the identifier supply or the clock. |
| Translation.PrefixKept | xbrl_to_rdf.py:98-99 | A pass that raises keeps exactly the triples its finished items have in a run that does not raise. |
| Translation.FaultsKeepEarlier | xbrl_to_rdf.py:98-99 | Each pass's finished items are in the graph with the triples they would have anyway. The document node is always there. |
| Translation.ChainRooted | xbrl_to_rdf.py:155-158 | A pass whose items each link the document to their own fresh subject links one distinct subject per item. Those are exactly the subjects it types. |
| Translation.ChainFresh | xbrl_to_rdf.py:104-148 | A pass puts the node-only predicates on identifiers drawn from its own range. |
| Translation.ChainExclusive | xbrl_to_rdf.py:104-148 | When no item's node carries two given predicates, no node of the pass does. |
| Translation.ChainWords | xbrl_to_rdf.py:102-246 | A pass whose items each use only some predicates uses only those. |
| XbrlParser.AssignLastWins | xbrl_parser.py:90-94 | A dictionary built by successive assignments holds a key iff some entry writes it. Its value is that of the last entry writing it. |
| XbrlParser.UnitInfo | xbrl_parser.py:134-146 | There is no unit string exactly when the fact has no unit or the unit has no measure lists. |
| XbrlParser.UnitInfoJoins | xbrl_parser.py:138-145 | With a non-empty numerator, the unit string is the measures of the first two lists, numerator first, joined with `/`. With an empty numerator, it is `/` followed by the joined denominator, or the empty string when the denominator is empty too. |
| XbrlParser.UnitInfoSplits | xbrl_parser.py:138-145 | With measure names free of `/`, splitting the unit string on `/` gives the measure names back, numerator first. An empty numerator shows up as one leading empty piece. |
| XbrlParser.EntityInfoKeys | xbrl_parser.py:155-158 | A missing entity raises `AttributeError`. A falsy entity adds nothing. A truthy one adds exactly the scheme, which is the identifier pair's first part, and the identifier, which is its second. |
| XbrlParser.PeriodInfoKeys | xbrl_parser.py:161-169 | A missing period raises `AttributeError`. An instant adds `period_type` "instant" and the text of its `instantDate`. A start and end add "duration" and the texts of `startDatetime` and `endDatetime`. Anything else adds nothing. |
| XbrlParser.DimensionText | xbrl_parser.py:173-177 | Reading a dimension's member raises `AttributeError` exactly when an explicit member lacks the `member` attribute, or a typed member lacks `typedMember`. Otherwise it gives a text iff the member is explicit or typed: the explicit member's qname, "None" for a `None` member, or the typed member's text. |
| XbrlParser.DimensionEntries | xbrl_parser.py:172-178 | The dimension loop succeeds iff no member raises, giving one entry per dimension in order. Otherwise it fails with the error of the first member that raises. |
| XbrlParser.DimensionMap | xbrl_parser.py:172-178 | The dimensions dictionary is built iff no member raises. Otherwise it fails with the error of the first member that raises. |
| XbrlParser.DimensionsInfoKeys | xbrl_parser.py:172-179 | Missing dimensions raise `AttributeError("qnameDims")`. Otherwise the part raises exactly when some explicit member lacks its `member` attribute or some typed member lacks `typedMember`, with the error of the first such member. Empty dimensions add nothing; any others add one `dimensions` entry, which holds the dimension dictionary. |
| XbrlParser.DimensionMapLastWins | xbrl_parser.py:172-179 | When no member raises, the dimension map has a key iff some explicit or typed dimension has that name. The value is the text of the last such dimension's member. |
| XbrlParser.ContextInfoKeys | xbrl_parser.py:148-180 | A fact without a context gives the empty dictionary. A context dictionary fails exactly when the context lacks entity, period or dimensions, or some dimension member lacks its attribute. Otherwise: its keys are among the seven known ones; it has an identifier iff the entity is truthy; it has a period type iff the period is truthy and not forever; it has an instant iff the type is "instant"; it has start and end dates iff the type is "duration"; it has dimensions iff there are any. |
| XbrlParser.ContextInfo | xbrl_parser.py:148-180 | A fact's context dictionary fails exactly when the context lacks entity, period or dimensions, or some dimension member lacks its attribute. Its keys are among the seven known ones. Partner: `ContextInfoKeys` and `ContextInfoValues`. |
| XbrlParser.ContextInfoValues | xbrl_parser.py:148-180 | The scheme is the identifier pair's first part and the identifier its second. The instant is the text of `instantDate`. The start and end dates are the texts of `startDatetime` and `endDatetime`. The dimensions entry is the dimension dictionary. |
| XbrlParser.RecordsSucceed | xbrl_parser.py:112-130 | Extraction succeeds iff every fact has a concept and every kept fact's context dictionary succeeds. |
| XbrlParser.RecordsOfKept | xbrl_parser.py:112-130 | There is one record per kept fact, in order. Each record carries that fact's concept, namespace, value, unit string, context dictionary, decimals and precision. |
| XbrlParser.ExtractFacts | xbrl_parser.py:98-132 | No filing gives no records. Otherwise extraction succeeds exactly when every fact has a concept and every kept fact's context reads. The records are then the kept facts', one each, in order. Partner: `RecordsSucceed` and `RecordsOfKept`. |
| XbrlParser.RecordsFiltered | xbrl_parser.py:116-118 | Every record's concept is admitted by the filter. |
| XbrlParser.KeptFactsAll | xbrl_parser.py:116-118 | A missing or empty filter keeps every fact. |
| XbrlParser.ReportedInfoLastWins | xbrl_parser.py:90-94 | The company information has a key iff some fact's concept maps to it in the DEI table. Its value is that of the last such fact. |
| XbrlParser.ReportedInfoOutcome | xbrl_parser.py:44-96 | The company information fails exactly when some fact has no concept. Otherwise its keys are among the DEI table's names. |
| XbrlParser.CompanyInfo | xbrl_parser.py:44-96 | No filing gives the empty dictionary. Otherwise it fails exactly when some fact has no concept, and its keys are among the DEI table's names. Partner: `ReportedInfoLastWins` for the values. |
| XbrlParser.StatementsHold | xbrl_parser.py:213-225 | With distinct statement names, each statement is present iff its concept list yields records, and it holds exactly those records. |
| XbrlParser.FinancialStatementsKeys | xbrl_parser.py:182-225 | Only the three statement names occur. Each holds the records of its concept list, and is present iff some fact has one of its concepts. |
| XbrlParser.FinancialStatements | xbrl_parser.py:182-225 | No filing gives no statements. Otherwise grouping succeeds exactly when every statement's extraction does, and only the three statement names occur. Partner: `FinancialStatementsKeys`. |
| XbrlParser.StatementsFail | xbrl_parser.py:182-225 | A failed grouping has a statement whose extraction failed. |
| XbrlParser.ArcroleUris | xbrl_parser.py:290-297 | Without a model the call raises `AttributeError`. Otherwise the list has no repeats and holds exactly the base-set arcroles other than "XBRL-dimensions". |
| XbrlParser.ValidateInstance | xbrl_parser.py:347-376 | Without a model: status "error" and the message `No XBRL instance loaded`. With one: errors are the calculation errors, and the status is "error" iff there are calculation errors. The warnings are exactly the `Missing required fact` warnings of the required concepts that no fact reports. |
| XbrlParser.MissingWarningsExactly | xbrl_parser.py:363-367 | A warning is issued iff some required concept has no fact, and the warning names it. |
| RdfVisualizer.NewVisualizer | rdf_visualizer.py:10-21 | An empty graph raises `ValueError("RDF graph cannot be None")`. Otherwise the visualizer keeps the triples and the graph folded from their string forms. |
| RdfVisualizer.BuildNodes | rdf_visualizer.py:23-35 | The built graph is well formed. Its nodes are exactly the strings some triple has as subject or object. |
| RdfVisualizer.Build | rdf_visualizer.py:23-35 | Every built graph is well formed: nodes do not repeat, every node has a successor list, successor lists hold nodes without repeats, and a pair is labelled exactly when it is a successor-list edge. Partner: `BuildNodes`. |
| RdfVisualizer.BuildEdges | rdf_visualizer.py:32-35 | There is an edge from `u` to `v` iff some triple has subject `u` and object `v`. |
| RdfVisualizer.BuildLabelLastWins | rdf_visualizer.py:32-35 | An edge's label is the predicate of the last triple joining its ends. |
| RdfVisualizer.BuildTypeLastWins | rdf_visualizer.py:28-31 | A node's type is "subject" or "object" by the role it has in the last triple mentioning it. |
| RdfVisualizer.BuildSize | rdf_visualizer.py:23-35 | There are never more edges than triples. |
| RdfVisualizer.ExportExactly | rdf_visualizer.py:266-295 | There is one node record per node, in order, with its type. An edge record exists iff the edge exists, with that edge's label. Edge records do not repeat, and there is one per edge. |
| RdfVisualizer.ExportToJson | rdf_visualizer.py:266-295 | There is one node record per node and one edge record per edge. Partner: `ExportExactly`. |
| RdfVisualizer.EdgePairsCount | rdf_visualizer.py:286-291 | A well-formed graph lists one edge pair per edge. |
| RdfVisualizer.ExportNodesOfStatements | rdf_visualizer.py:279-284 | After building, the node records are exactly the strings the triples mention, each typed "subject" or "object". |
| RdfVisualizer.ExportEdgesOfStatements | rdf_visualizer.py:286-291 | After building, every triple's ends are joined by an edge record with the current label. There are no more edge records than triples. |

## Left out

- File loading, rdflib serialization, JSON and Excel writing, logging and printing are left out. They are I/O. `save_rdf_graph` is modelled up to the point where it would serialize.
- The taxonomy pass is modelled only as the error message it records. Its schema and linkbase triples depend on engine objects outside the translated core.
- The `uuid4()` identifiers, rdflib's `BNode()` and `datetime.now()` are parameters: a starting counter and a creation-time string.
- XbrlToRdf.Translate, Translation.GraphLinks, Translation.PrefixKept, Translation.FaultsKeepEarlier: where a translation pass raises is a parameter (`PassFaults`), not derived from engine internals. An item that raises part-way is taken to add none of its triples. rdflib keeps the ones it had already added: for example, the `hasFact` link (xbrl_to_rdf.py:158) of a fact that raises later. These members are exact only for item-granular faults.
- The item passes only print their exceptions. The code records errors only in the taxonomy pass and `save_rdf_graph`, and the model follows the code.
- `str()` of rdflib terms, of a concept and of a datetime is modelled by `Show`, `QNameText` and opaque strings. Their exact formatting is not modelled.
- XbrlParser.ArcroleUris: the order of `list(set)` is unspecified in Python, so only the contents and the lack of repeats are stated.
- `get_financial_statements` returns pandas DataFrames. They are modelled as the record lists the frames are built from.
- `_validate_calculations` compares floats within a tolerance. Its result is an input list of error strings.
- Relationship sets and `baseSets` are given in iteration order. Their engine-side construction is not modelled.
- The visualizer takes the graph's triples in rdflib's iteration order, which is a parameter.
- Plotting, the tree and table views and the Streamlit app are left out. They are rendering.
- RdfVisualizer.ExportToJson requires the well-formedness invariant (`Valid`) that every built graph keeps (`BuildNodes`), rather than accepting any map-shaped value.
- `get_taxonomy_info`, the presentation and calculation printers, `get_all_relationships`, the parser's JSON and Excel export, `calculate_financial_ratios`, `get_concept_metadata` and `get_filing_metadata` are left out. They are outside the modelled core.
