/**
 * The histogram derivation engine. `Derive` is the specification of one
 * request against the metadata store and the file store: validate the
 * source log, look for an existing histogram among its children (cache hit,
 * or inconsistent lineage when that child's payload is gone), and otherwise
 * tally the log, register a new histogram record and write its payload.
 * `Repository.GetHistogram` performs the request step by step on mutable
 * stores and is proved to make exactly the transition `Derive` describes.
 */
module HistogramGenerator {
  import opened Wrappers
  import opened EventLog
  import opened HistogramDict
  import opened JsonList
  import opened Metadata

  const InvalidIdMessage := "Invalid resource ID. No reference to resource could be found."
  const NoEventLogPrefix := "No file of type EventLog exists for path "
  const LogRole := "Log"

  /** What a request answers. `InconsistentLineage` is an HTTP 400 with a fixed message in the C# code. */
  datatype Response =
    | BadRequest(message: string)
    | CacheHit(resourceId: string, payload: Payload)
    | InconsistentLineage(childId: string)
    | Generated(json: Json)
    | ComputationError(fault: LogFault)
    | NullReference(childId: string)

  /** An observable change to the stores, in the order it happens. */
  datatype Effect = Registered(resourceId: string) | Wrote(path: string)

  /** Both stores, and the changes made to them so far. */
  datatype Store = Store(metadata: map<string, MetadataObject>, files: map<string, Payload>, journal: seq<Effect>)

  datatype Transition = Transition(response: Response, after: Store)

  /** The outcome of scanning a source's children for a histogram. */
  datatype ChildLookup = NoHistogramChild | HistogramChild(resourceId: string) | ChildWithoutInfo(resourceId: string)

  /**
   * Scans the children in order: a child without a record is skipped; a
   * record without resource info stops the scan (the C# code dereferences
   * it); the first record of type Histogram decides.
   */
  function FindHistogramChild(metadata: map<string, MetadataObject>, children: seq<Edge>): ChildLookup {
    if children == [] then NoHistogramChild
    else
      var id := children[0].resourceId;
      if id !in metadata then FindHistogramChild(metadata, children[1..])
      else if metadata[id].resourceInfo.None? then ChildWithoutInfo(id)
      else if metadata[id].resourceInfo.value.resourceType == HistogramType then HistogramChild(id)
      else FindHistogramChild(metadata, children[1..])
  }

  /** Every answer of the scan names a listed child of the kind it reports. */
  lemma {:induction false} FindHistogramChildSound(metadata: map<string, MetadataObject>, children: seq<Edge>)
    ensures var r := FindHistogramChild(metadata, children);
      && (r.HistogramChild? ==>
            exists i :: 0 <= i < |children| && children[i].resourceId == r.resourceId
              && r.resourceId in metadata && metadata[r.resourceId].resourceInfo.Some?
              && metadata[r.resourceId].resourceInfo.value.resourceType == HistogramType)
      && (r.ChildWithoutInfo? ==>
            exists i :: 0 <= i < |children| && children[i].resourceId == r.resourceId
              && r.resourceId in metadata && metadata[r.resourceId].resourceInfo.None?)
      && (r.NoHistogramChild? ==>
            forall i :: 0 <= i < |children| && children[i].resourceId in metadata ==>
              metadata[children[i].resourceId].resourceInfo.Some?
              && metadata[children[i].resourceId].resourceInfo.value.resourceType != HistogramType)
  {
    if children != [] {
      FindHistogramChildSound(metadata, children[1..]);
      forall i | 0 <= i < |children| - 1
        ensures children[1..][i] == children[i + 1]
      {
      }
    }
  }

  /** The record `id` exists and names a file extension. */
  predicate HasExtension(metadata: map<string, MetadataObject>, id: string) {
    id in metadata && metadata[id].resourceInfo.Some? && metadata[id].resourceInfo.value.fileExtension.Some?
  }

  /** Where the record `id` says its payload is. */
  function PayloadPath(metadata: map<string, MetadataObject>, id: string): string
    requires HasExtension(metadata, id)
  {
    ResourcePath(id, metadata[id].resourceInfo.value.fileExtension.value)
  }

  /** The payload of `id`, when its record names an extension and the file is there. */
  function Retrieve(metadata: map<string, MetadataObject>, files: map<string, Payload>, id: string): Option<Payload> {
    if HasExtension(metadata, id) && PayloadPath(metadata, id) in files
    then Some(files[PayloadPath(metadata, id)])
    else None
  }

  function HistogramLabel(sourceLabel: string): string {
    "Histogram from log: " + sourceLabel
  }

  function HistogramDescription(sourceLabel: string, sourceId: string): string {
    "Histogram generated from log with label " + sourceLabel + " and ID: " + sourceId
  }

  function HostUrl(appUrl: string): string {
    appUrl + "/resources/"
  }

  /** The record registered for a new histogram derived from `log`. */
  function HistogramRecord(newId: string, logResourceId: string, appUrl: string, log: MetadataObject): MetadataObject
    requires log.resourceInfo.Some?
  {
    var sourceLabel := log.resourceInfo.value.resourceLabel;
    MetadataObject(
      newId,
      Some(ResourceInfo(HistogramLabel(sourceLabel), HistogramType, HostUrl(appUrl),
                        HistogramDescription(sourceLabel, log.resourceId), Some(HistogramExtension))),
      GenerationTree([Edge(logResourceId, LogRole)], []))
  }

  /** The histogram of a parsed log, or the fault that stops the tally. */
  function TallyOf(root: Node): Result<seq<Entry>, LogFault> {
    match Occurrences(root)
    case Ok(names) => Ok(Tally(names))
    case Fail(fault) => Fail(fault)
  }

  /** Loading and tallying a stored payload. */
  function TallyPayload(payload: Payload): Result<seq<Entry>, LogFault> {
    if payload.XmlFile? then TallyOf(payload.root) else Fail(MalformedXml)
  }

  /** The specification of one histogram request for `resourceId`; `newId` is the fresh id it would use. */
  function Derive(st: Store, resourceId: string, appUrl: string, newId: string): (t: Transition)
    ensures st.metadata.Keys <= t.after.metadata.Keys && st.files.Keys <= t.after.files.Keys
    ensures st.journal <= t.after.journal && |t.after.journal| <= |st.journal| + 2
    ensures t.after.metadata.Keys <= st.metadata.Keys + {newId}
  {
    if !HasExtension(st.metadata, resourceId) then Transition(BadRequest(InvalidIdMessage), st)
    else
      var source := st.metadata[resourceId];
      var path := PayloadPath(st.metadata, resourceId);
      if path !in st.files || source.resourceInfo.value.resourceType != EventLogType then
        Transition(BadRequest(NoEventLogPrefix + path), st)
      else
        match FindHistogramChild(st.metadata, source.generationTree.children)
        case HistogramChild(child) =>
          (match Retrieve(st.metadata, st.files, child)
           case Some(payload) => Transition(CacheHit(child, payload), st)
           case None => Transition(InconsistentLineage(child), st))
        case ChildWithoutInfo(child) => Transition(NullReference(child), st)
        case NoHistogramChild =>
          match TallyPayload(st.files[path])
          case Fail(fault) => Transition(ComputationError(fault), st)
          case Ok(histogram) =>
            var json := Encode(histogram);
            var savePath := HistogramSavePath(newId);
            Transition(
              Generated(json),
              Store(st.metadata[newId := HistogramRecord(newId, resourceId, appUrl, source)],
                    st.files[savePath := JsonFile(json)],
                    st.journal + [Registered(newId), Wrote(savePath)]))
  }

  /** Counts the `concept:name` values of a parsed log into an insertion-ordered dictionary. */
  method GenerateHistogramDict(root: Node) returns (r: Result<seq<Entry>, LogFault>)
    ensures r == TallyOf(root)
  {
    var histogram: seq<Entry> := [];
    ghost var seen: seq<string> := [];
    var i := 0;
    while i < |root.children|
      invariant i <= |root.children|
      invariant Concat(root.children[..i], TraceStep) == Ok(seen)
      invariant histogram == Tally(seen)
    {
      var trace := root.children[i];
      ConcatSnoc(root.children, TraceStep, i);
      if trace.name == TraceTag {
        var counted := CountTraceEvents(trace, histogram, seen);
        if counted.Fail? {
          ConcatFailPersists(root.children, TraceStep, i + 1);
          return counted;
        }
        histogram := counted.value;
        seen := seen + TraceStep(trace).value;
      } else {
        assert seen + [] == seen;
      }
      i := i + 1;
    }
    assert root.children[..i] == root.children;
    r := Ok(histogram);
  }

  /**
   * The middle loop of the tally: counts the events of one trace into
   * `histogram`, which holds the tally of the names `before` it.
   */
  method CountTraceEvents(trace: Node, histogram: seq<Entry>, ghost before: seq<string>)
    returns (r: Result<seq<Entry>, LogFault>)
    requires histogram == Tally(before)
    ensures Concat(trace.children, EventStep).Fail? ==> r == Fail(Concat(trace.children, EventStep).error)
    ensures Concat(trace.children, EventStep).Ok? ==>
      r == Ok(Tally(before + Concat(trace.children, EventStep).value))
  {
    var counted := histogram;
    ghost var seenInTrace: seq<string> := [];
    assert before + seenInTrace == before;
    var j := 0;
    while j < |trace.children|
      invariant j <= |trace.children|
      invariant Concat(trace.children[..j], EventStep) == Ok(seenInTrace)
      invariant counted == Tally(before + seenInTrace)
    {
      var event := trace.children[j];
      ghost var seenInEvent: seq<string> := [];
      if event.name == EventTag {
        var next := CountEventAttributes(event, counted, before + seenInTrace);
        if next.Fail? {
          ConcatSnoc(trace.children, EventStep, j);
          ConcatFailPersists(trace.children, EventStep, j + 1);
          return next;
        }
        counted := next.value;
        seenInEvent := EventStep(event).value;
      } else {
        assert before + seenInTrace + seenInEvent == before + seenInTrace;
      }
      ExtendWalk(trace.children, EventStep, j, seenInTrace, seenInEvent);
      assert before + seenInTrace + seenInEvent == before + (seenInTrace + seenInEvent);
      seenInTrace := seenInTrace + seenInEvent;
      j := j + 1;
    }
    assert trace.children[..j] == trace.children;
    r := Ok(counted);
  }

  /**
   * The innermost loop of the tally: counts the attributes of one event into
   * `histogram`, which holds the tally of the names `before` it. Fails at the
   * first attribute without a `key`, or with key `concept:name` and no `value`.
   */
  method CountEventAttributes(event: Node, histogram: seq<Entry>, ghost before: seq<string>)
    returns (r: Result<seq<Entry>, LogFault>)
    requires histogram == Tally(before)
    ensures Concat(event.children, AttributeStep).Fail? ==> r == Fail(Concat(event.children, AttributeStep).error)
    ensures Concat(event.children, AttributeStep).Ok? ==>
      r == Ok(Tally(before + Concat(event.children, AttributeStep).value))
  {
    var counted := histogram;
    ghost var seenInEvent: seq<string> := [];
    assert before + seenInEvent == before;
    var k := 0;
    while k < |event.children|
      invariant k <= |event.children|
      invariant Concat(event.children[..k], AttributeStep) == Ok(seenInEvent)
      invariant counted == Tally(before + seenInEvent)
    {
      var attribute := event.children[k];
      ConcatSnoc(event.children, AttributeStep, k);
      if KeyAttribute !in attribute.attributes {
        ConcatFailPersists(event.children, AttributeStep, k + 1);
        return Fail(MissingKeyAttribute);
      }
      if attribute.attributes[KeyAttribute] == ConceptName {
        if ValueAttribute !in attribute.attributes {
          ConcatFailPersists(event.children, AttributeStep, k + 1);
          return Fail(MissingValueAttribute);
        }
        var value := attribute.attributes[ValueAttribute];
        TallySnoc(before + seenInEvent, value);
        counted := AddOccurrence(counted, value);
        assert before + seenInEvent + [value] == before + (seenInEvent + [value]);
        seenInEvent := seenInEvent + [value];
      } else {
        assert seenInEvent + [] == seenInEvent;
      }
      k := k + 1;
    }
    assert event.children[..k] == event.children;
    r := Ok(counted);
  }

  /** The dictionary update: increments the count of `value`, or adds it with count 1. */
  method AddOccurrence(histogram: seq<Entry>, value: string) returns (updated: seq<Entry>)
    ensures updated == Bump(histogram, value)
    ensures Lookup(updated, value) == Lookup(histogram, value) + 1
    ensures Names(updated) == if value in Names(histogram) then Names(histogram) else Names(histogram) + [value]
  {
    var at := FindEntry(histogram, value);
    if at < |histogram| {
      BumpHit(histogram, value, at);
      updated := histogram[at := Entry(value, histogram[at].count + 1)];
    } else {
      BumpMiss(histogram, value);
      updated := histogram + [Entry(value, 1)];
    }
    BumpLookup(histogram, value, value);
    BumpNames(histogram, value);
  }

  /** Converts the dictionary to the list of `[name, count]` pairs, in dictionary order. */
  method ConvertToJsonList(histogram: seq<Entry>) returns (json: Json)
    ensures json == Encode(histogram)
    ensures Decode(json) == Some(histogram)
  {
    var items: seq<Json> := [];
    var i := 0;
    while i < |histogram|
      invariant i <= |histogram|
      invariant items == Pairs(histogram[..i])
    {
      assert histogram[..i + 1][..i] == histogram[..i];
      items := items + [JArray([JString(histogram[i].name), JNumber(histogram[i].count)])];
      i := i + 1;
    }
    assert histogram[..i] == histogram;
    json := JArray(items);
    DecodeEncode(histogram);
  }

  /** The metadata store and the file store the engine reads and changes. */
  class Repository {
    var metadata: map<string, MetadataObject>
    var files: map<string, Payload>
    ghost var journal: seq<Effect>

    ghost function Snapshot(): Store
      reads this
    {
      Store(metadata, files, journal)
    }

    constructor (metadata: map<string, MetadataObject>, files: map<string, Payload>)
      ensures Snapshot() == Store(metadata, files, [])
    {
      this.metadata := metadata;
      this.files := files;
      journal := [];
    }

    /**
     * Registers the histogram record for a log and returns where its payload
     * goes. `newId` stands for the freshly generated GUID.
     */
    method AddHistogramToMetadata(logResourceId: string, appUrl: string, log: MetadataObject, newId: string)
      returns (pathToSave: string)
      requires log.resourceInfo.Some?
      modifies this
      ensures metadata == old(metadata)[newId := HistogramRecord(newId, logResourceId, appUrl, log)]
      ensures files == old(files)
      ensures journal == old(journal) + [Registered(newId)]
      ensures pathToSave == HistogramSavePath(newId)
    {
      var sourceLabel := log.resourceInfo.value.resourceLabel;
      var record := MetadataObject(
        newId,
        Some(ResourceInfo(HistogramLabel(sourceLabel), HistogramType, HostUrl(appUrl),
                          HistogramDescription(sourceLabel, log.resourceId), Some(HistogramExtension))),
        GenerationTree([Edge(logResourceId, LogRole)], []));
      metadata := metadata[newId := record];
      journal := journal + [Registered(newId)];
      pathToSave := JsonDirectory + "/" + newId + ".json";
    }

    /**
     * Answers a histogram request for `resourceId`. `newId` stands for the
     * GUID the C# code generates; GUIDs are assumed never to collide with an
     * existing id.
     */
    method GetHistogram(resourceId: string, appUrl: string, newId: string) returns (r: Response)
      requires newId !in metadata
      modifies this
      ensures Transition(r, Snapshot()) == Derive(old(Snapshot()), resourceId, appUrl, newId)
    {
      if !HasExtension(metadata, resourceId) {
        return BadRequest(InvalidIdMessage);
      }
      var source := metadata[resourceId];
      var pathToRequestFile := ResourcePath(resourceId, source.resourceInfo.value.fileExtension.value);
      if pathToRequestFile !in files || source.resourceInfo.value.resourceType != EventLogType {
        return BadRequest(NoEventLogPrefix + pathToRequestFile);
      }

      var children := source.generationTree.children;
      var i := 0;
      while i < |children|
        invariant i <= |children|
        invariant FindHistogramChild(metadata, children) == FindHistogramChild(metadata, children[i..])
      {
        var childId := children[i].resourceId;
        if childId in metadata {
          var child := metadata[childId];
          if child.resourceInfo.None? {
            return NullReference(childId);
          }
          if child.resourceInfo.value.resourceType == HistogramType {
            var result := Retrieve(metadata, files, childId);
            if result.Some? {
              return CacheHit(childId, result.value);
            }
            return InconsistentLineage(childId);
          }
        }
        assert children[i..][1..] == children[i + 1..];
        i := i + 1;
      }

      var payload := files[pathToRequestFile];
      if !payload.XmlFile? {
        return ComputationError(MalformedXml);
      }
      var histogramDict := GenerateHistogramDict(payload.root);
      if histogramDict.Fail? {
        return ComputationError(histogramDict.error);
      }
      var jsonList := ConvertToJsonList(histogramDict.value);
      var pathToSave := AddHistogramToMetadata(resourceId, appUrl, source, newId);
      files := files[pathToSave := JsonFile(jsonList)];
      journal := journal + [Wrote(pathToSave)];
      r := Generated(jsonList);
    }
  }
}
