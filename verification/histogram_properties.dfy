/**
 * Properties of a histogram request (`Derive`): which inputs are rejected,
 * when a stored histogram is served, when lineage is reported inconsistent,
 * what exactly a generation adds to the stores, and that a second request
 * is served from the cache once the source log lists the new histogram as a
 * child.
 */
module HistogramProperties {
  import opened Wrappers
  import opened EventLog
  import opened HistogramDict
  import opened JsonList
  import opened Metadata
  import opened HistogramGenerator

  /** The source record exists, names an extension, is an EventLog and its payload exists. */
  predicate ValidSource(st: Store, id: string) {
    HasExtension(st.metadata, id)
    && PayloadPath(st.metadata, id) in st.files
    && st.metadata[id].resourceInfo.value.resourceType == EventLogType
  }

  /** The histogram children the scan looks at, for a valid source. */
  function Lineage(st: Store, id: string): ChildLookup
    requires ValidSource(st, id)
  {
    FindHistogramChild(st.metadata, st.metadata[id].generationTree.children)
  }

  /** An unknown id, or a record without an extension, is a bad request that changes nothing. */
  lemma UnknownSourceRejected(st: Store, id: string, appUrl: string, newId: string)
    requires !HasExtension(st.metadata, id)
    ensures Derive(st, id, appUrl, newId) == Transition(BadRequest(InvalidIdMessage), st)
  {
  }

  /** A source that is not an EventLog, or whose payload is missing, is a bad request that changes nothing. */
  lemma InvalidSourceRejected(st: Store, id: string, appUrl: string, newId: string)
    requires HasExtension(st.metadata, id) && !ValidSource(st, id)
    ensures Derive(st, id, appUrl, newId)
         == Transition(BadRequest(NoEventLogPrefix + PayloadPath(st.metadata, id)), st)
  {
  }

  /** Bad requests are exactly the requests for an invalid source. */
  lemma BadRequestIffInvalidSource(st: Store, id: string, appUrl: string, newId: string)
    ensures Derive(st, id, appUrl, newId).response.BadRequest? <==> !ValidSource(st, id)
  {
  }

  /** Every outcome other than a generation leaves both stores and the journal as they were. */
  lemma OnlyGenerationChangesStores(st: Store, id: string, appUrl: string, newId: string)
    ensures !Derive(st, id, appUrl, newId).response.Generated? ==> Derive(st, id, appUrl, newId).after == st
  {
  }

  /** A cache hit: the first histogram child's payload is retrievable; it is returned and nothing is created. */
  lemma CacheHitIff(st: Store, id: string, appUrl: string, newId: string, child: string, payload: Payload)
    ensures Derive(st, id, appUrl, newId) == Transition(CacheHit(child, payload), st)
        <==> ValidSource(st, id)
             && Lineage(st, id) == HistogramChild(child)
             && Retrieve(st.metadata, st.files, child) == Some(payload)
  {
  }

  /** Inconsistent lineage: the first histogram child's payload is gone; nothing is regenerated. */
  lemma InconsistentLineageIff(st: Store, id: string, appUrl: string, newId: string, child: string)
    ensures Derive(st, id, appUrl, newId) == Transition(InconsistentLineage(child), st)
        <==> ValidSource(st, id)
             && Lineage(st, id) == HistogramChild(child)
             && Retrieve(st.metadata, st.files, child).None?
  {
  }

  /** A child without a record, or whose record is not a Histogram, is skipped by the scan. */
  lemma {:induction false} NonHistogramChildSkipped(
    metadata: map<string, MetadataObject>, before: seq<Edge>, child: Edge, after: seq<Edge>)
    requires child.resourceId !in metadata
          || (metadata[child.resourceId].resourceInfo.Some?
              && metadata[child.resourceId].resourceInfo.value.resourceType != HistogramType)
    ensures FindHistogramChild(metadata, before + [child] + after) == FindHistogramChild(metadata, before + after)
    decreases |before|
  {
    if before == [] {
      assert before + [child] + after == [child] + after;
      assert before + after == after;
      assert ([child] + after)[1..] == after;
    } else {
      assert (before + [child] + after)[1..] == before[1..] + [child] + after;
      assert (before + after)[1..] == before[1..] + after;
      NonHistogramChildSkipped(metadata, before[1..], child, after);
    }
  }

  /** The first histogram child decides; the children after it are never examined. */
  lemma {:induction false} FirstHistogramChildDecides(
    metadata: map<string, MetadataObject>, before: seq<Edge>, child: Edge, after: seq<Edge>)
    requires FindHistogramChild(metadata, before) == NoHistogramChild
    requires child.resourceId in metadata && metadata[child.resourceId].resourceInfo.Some?
    requires metadata[child.resourceId].resourceInfo.value.resourceType == HistogramType
    ensures FindHistogramChild(metadata, before + [child] + after) == HistogramChild(child.resourceId)
    decreases |before|
  {
    if before != [] {
      assert (before + [child] + after)[1..] == before[1..] + [child] + after;
      FirstHistogramChildDecides(metadata, before[1..], child, after);
    }
  }

  /**
   * A generation happens exactly when the source log is valid, no histogram
   * child exists and the log tallies; the response carries the encoded
   * tally.
   */
  lemma GeneratedIff(st: Store, id: string, appUrl: string, newId: string, json: Json)
    ensures Derive(st, id, appUrl, newId).response == Generated(json)
        <==> ValidSource(st, id)
             && Lineage(st, id) == NoHistogramChild
             && TallyPayload(st.files[PayloadPath(st.metadata, id)]).Ok?
             && json == Encode(TallyPayload(st.files[PayloadPath(st.metadata, id)]).value)
  {
  }

  /**
   * On a miss exactly one record is added, under the fresh id: a Histogram
   * with extension `json`, its label derived from the log's, one parent edge
   * (source, "Log") and no children. Every other record is unchanged. The
   * payload written at `Resources/JSON/<newId>.json` is the returned JSON, and
   * the record is registered before the file is written.
   */
  lemma GenerationRegistersOneHistogram(st: Store, id: string, appUrl: string, newId: string)
    requires newId !in st.metadata
    requires Derive(st, id, appUrl, newId).response.Generated?
    ensures var t := Derive(st, id, appUrl, newId);
      && t.after.metadata.Keys == st.metadata.Keys + {newId}
      && |t.after.metadata| == |st.metadata| + 1
      && (forall k :: k in st.metadata ==> t.after.metadata[k] == st.metadata[k])
      && t.after.metadata[newId].resourceId == newId
      && t.after.metadata[newId].resourceInfo.Some?
      && t.after.metadata[newId].resourceInfo.value.resourceType == HistogramType
      && t.after.metadata[newId].resourceInfo.value.fileExtension == Some(HistogramExtension)
      && t.after.metadata[newId].resourceInfo.value.resourceLabel
         == "Histogram from log: " + st.metadata[id].resourceInfo.value.resourceLabel
      && t.after.metadata[newId].generationTree == GenerationTree([Edge(id, "Log")], [])
      && t.after.files == st.files[HistogramSavePath(newId) := JsonFile(t.response.json)]
      && t.after.journal == st.journal + [Registered(newId), Wrote(HistogramSavePath(newId))]
  {
  }

  /**
   * The generated JSON decodes to the tally of the log's event names: one
   * entry per distinct name, in first-seen order, each counting that name's
   * occurrences, the counts summing to the number of occurrences.
   */
  lemma GeneratedHistogramDescribesLog(st: Store, id: string, appUrl: string, newId: string)
    requires Derive(st, id, appUrl, newId).response.Generated?
    ensures ValidSource(st, id) && st.files[PayloadPath(st.metadata, id)].XmlFile?
    ensures var names := Occurrences(st.files[PayloadPath(st.metadata, id)].root);
      && names.Ok?
      && Decode(Derive(st, id, appUrl, newId).response.json) == Some(Tally(names.value))
      && Distinct(Names(Tally(names.value)))
      && (forall y :: Lookup(Tally(names.value), y) == multiset(names.value)[y])
      && (forall y :: y in Names(Tally(names.value)) <==> y in names.value)
      && Total(Tally(names.value)) == |names.value|
      && FirstSeenOrder(names.value, Names(Tally(names.value)))
  {
    var names := Occurrences(st.files[PayloadPath(st.metadata, id)].root).value;
    DecodeEncode(Tally(names));
    TallyCounts(names);
    TallyTotal(names);
    TallyFirstSeen(names);
  }

  /**
   * What the request relies on `DBManager.BuildAndAddMetadataObject` to do
   * besides registering the record: append a child edge to the parent.
   */
  function LinkChild(st: Store, parentId: string, childId: string, usedAs: string): Store
    requires parentId in st.metadata
  {
    var parent := st.metadata[parentId];
    var tree := parent.generationTree;
    st.(metadata := st.metadata[parentId := parent.(generationTree := tree.(children := tree.children + [Edge(childId, usedAs)]))])
  }

  /** The scan sees the same kinds of records in both stores, except that `newId` became a histogram. */
  lemma {:induction false} ScanFindsAppendedHistogram(
    metadata: map<string, MetadataObject>, metadata': map<string, MetadataObject>,
    children: seq<Edge>, newId: string, usedAs: string)
    requires FindHistogramChild(metadata, children) == NoHistogramChild
    requires forall c :: c in metadata ==> c in metadata'
    requires forall c :: c in metadata' && c != newId ==> c in metadata
    requires forall c :: c in metadata ==> metadata'[c].resourceInfo.Some? == metadata[c].resourceInfo.Some?
    requires forall c :: c in metadata && metadata[c].resourceInfo.Some? ==>
      metadata'[c].resourceInfo.value.resourceType == metadata[c].resourceInfo.value.resourceType
    requires newId !in metadata && newId in metadata' && metadata'[newId].resourceInfo.Some?
    requires metadata'[newId].resourceInfo.value.resourceType == HistogramType
    ensures FindHistogramChild(metadata', children + [Edge(newId, usedAs)]) == HistogramChild(newId)
    decreases |children|
  {
    if children != [] {
      assert (children + [Edge(newId, usedAs)])[1..] == children[1..] + [Edge(newId, usedAs)];
      var c := children[0].resourceId;
      if c in metadata {
        ScanFindsAppendedHistogram(metadata, metadata', children[1..], newId, usedAs);
      } else if c != newId {
        ScanFindsAppendedHistogram(metadata, metadata', children[1..], newId, usedAs);
      }
    }
  }

  /**
   * Idempotent derivation, under the stated assumption about the metadata
   * store: once the generated histogram is linked as a child of its log, a
   * second request for the same log is a cache hit on that histogram,
   * returning the JSON the first request wrote, and creates nothing.
   */
  lemma RepeatedRequestHitsCache(
    st: Store, id: string, appUrl: string, newId: string, usedAs: string, appUrl2: string, newId2: string)
    requires newId !in st.metadata
    requires Derive(st, id, appUrl, newId).response.Generated?
    ensures id in Derive(st, id, appUrl, newId).after.metadata
    ensures var first := Derive(st, id, appUrl, newId);
      var linked := LinkChild(first.after, id, newId, usedAs);
      Derive(linked, id, appUrl2, newId2) == Transition(CacheHit(newId, JsonFile(first.response.json)), linked)
  {
    var first := Derive(st, id, appUrl, newId);
    var linked := LinkChild(first.after, id, newId, usedAs);
    var md, md' := st.metadata, linked.metadata;
    assert newId != id;
    assert md'[id].resourceInfo == md[id].resourceInfo;
    SavePathIsResourcePath(newId);
    assert PayloadPath(md', id) == PayloadPath(md, id);
    assert ValidSource(linked, id);
    ScanFindsAppendedHistogram(md, md', md[id].generationTree.children, newId, usedAs);
    assert PayloadPath(md', newId) == HistogramSavePath(newId);
    assert Retrieve(md', linked.files, newId) == Some(JsonFile(first.response.json));
  }

  /** The order-preservation example: [A, B, A, C, B] tallies to [(A, 2), (B, 2), (C, 1)]. */
  lemma FirstSeenOrderExample()
    ensures Tally(["A", "B", "A", "C", "B"]) == [Entry("A", 2), Entry("B", 2), Entry("C", 1)]
  {
    var s1, s2, s3, s4, s5 := ["A"], ["A", "B"], ["A", "B", "A"], ["A", "B", "A", "C"], ["A", "B", "A", "C", "B"];
    assert s1 == [] + ["A"] && s2 == s1 + ["B"] && s3 == s2 + ["A"] && s4 == s3 + ["C"] && s5 == s4 + ["B"];
    var t1, t2, t3 := [Entry("A", 1)], [Entry("A", 1), Entry("B", 1)], [Entry("A", 2), Entry("B", 1)];
    var t4, t5 := [Entry("A", 2), Entry("B", 1), Entry("C", 1)], [Entry("A", 2), Entry("B", 2), Entry("C", 1)];
    TallySnoc([], "A");
    BumpMiss([], "A");
    assert Tally(s1) == t1;
    TallySnoc(s1, "B");
    BumpMiss(t1, "B");
    assert Tally(s2) == t2;
    TallySnoc(s2, "A");
    BumpHit(t2, "A", 0);
    assert t2[0 := Entry("A", 2)] == t3;
    TallySnoc(s3, "C");
    BumpMiss(t3, "C");
    assert Tally(s4) == t4;
    TallySnoc(s4, "B");
    BumpHit(t4, "B", 1);
    assert t4[1 := Entry("B", 2)] == t5;
  }

  /** A trace holding one event whose `concept:name` is `name`. */
  function SingleEventTrace(name: string): Node {
    Node(TraceTag, map[], [Node(EventTag, map[], [Node("string", map[KeyAttribute := ConceptName, ValueAttribute := name], [])])])
  }

  /** A log of three traces with one event each, named A, B and A. */
  function ThreeTraceLog(): Node {
    Node("log", map[], [SingleEventTrace("A"), SingleEventTrace("B"), SingleEventTrace("A")])
  }

  lemma SingleEventTraceNames(name: string)
    ensures TraceStep(SingleEventTrace(name)) == Ok([name])
  {
    var trace := SingleEventTrace(name);
    var event := trace.children[0];
    var attribute := event.children[0];
    assert AttributeStep(attribute) == Ok([name]);
    assert event.children[..0] == [];
    assert Concat(event.children, AttributeStep) == Then(Ok([]), Ok([name]));
    assert [] + [name] == [name];
    assert trace.children[..0] == [];
    assert Concat(trace.children, EventStep) == Then(Ok([]), Ok([name]));
  }

  /** The log A, B, A tallies to [(A, 2), (B, 1)]: first-seen order, not sorted. */
  lemma ThreeTraceLogTally()
    ensures TallyOf(ThreeTraceLog()) == Ok([Entry("A", 2), Entry("B", 1)])
  {
    var root := ThreeTraceLog();
    var cs := root.children;
    SingleEventTraceNames("A");
    SingleEventTraceNames("B");
    ConcatSnoc(cs, TraceStep, 0);
    ConcatSnoc(cs, TraceStep, 1);
    ConcatSnoc(cs, TraceStep, 2);
    assert cs[..0] == [] && cs[..3] == cs;
    assert [] + ["A"] == ["A"] && ["A"] + ["B"] == ["A", "B"] && ["A", "B"] + ["A"] == ["A", "B", "A"];
    assert Occurrences(root) == Ok(["A", "B", "A"]);
    var t1, t2 := [Entry("A", 1)], [Entry("A", 1), Entry("B", 1)];
    TallySnoc([], "A");
    BumpMiss([], "A");
    TallySnoc(["A"], "B");
    BumpMiss(t1, "B");
    TallySnoc(["A", "B"], "A");
    BumpHit(t2, "A", 0);
    assert t2[0 := Entry("A", 2)] == [Entry("A", 2), Entry("B", 1)];
  }
}
