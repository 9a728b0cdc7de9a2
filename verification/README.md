# Histogram derivation in the PDL resource repository

This project models the histogram generator of the PDL resource repository
(`Visualizers/HistogramGenerator.cs`). A request names an event-log resource.
The generator checks the metadata record and the payload file of that log. It
then looks through the log's generation-tree children for a histogram that
was already derived. If there is one, it serves it from the cache. If the
payload of that child is gone, it reports the lineage as inconsistent. Only
when no histogram child exists does it tally the log's event names and
serialise the tally as a JSON list. It then registers a new Histogram
metadata record and writes the JSON file.

Modules:

- `Wrappers`: `Option` and `Result`.
- `EventLog`: the parsed XES log (IEEE 1849) as an element tree, and
  `Occurrences`. That walk collects the `concept:name` values of root → `trace`
  → `event` → attribute elements in document order, and stops at the first
  attribute element that has no `key`, or that has key `concept:name` and no `value`.
- `HistogramDict`: the insertion-ordered dictionary, as a sequence of
  (name, count) entries. `Bump` is one dictionary update and `Tally` folds it
  over the names. The lemmas relate the result to independent definitions:
  the multiset of names for the counts, the names that occur for the keys,
  and first-occurrence indices for the order.
- `JsonList`: the `[[name, count], ...]` value, its decoder and round trips.
- `Metadata`: metadata records, generation trees, payloads, and the payload
  path convention `Resources/<EXT upper-cased>/<id>.<ext>`.
- `HistogramGenerator`: `Derive`, the specification of one request as a
  transition of a `Store`. The store holds the metadata map, the file map
  and a journal of effects. The module also holds the tally and serialisation
  methods, and the class `Repository` whose `GetHistogram` performs a request
  on mutable stores.
- `HistogramProperties`: what a request does, proved about `Derive`.

## Model

| member | source | states |
|---|---|---|
| `HistogramGenerator.Repository.GetHistogram` | Visualizers/HistogramGenerator.cs:17-62 | The response and the new stores are exactly the transition `Derive` gives for the old stores. The checks run in the code's order: the record, its extension, its payload and type, the children scan, then the tally, the registration and the write. |
| `HistogramGenerator.Derive` | Visualizers/HistogramGenerator.cs:17-62 | One request as a transition of the stores. It never removes a record or a file, only appends to the journal (at most two effects), and adds no record other than the one under `newId`. Its outcomes are characterised by the `HistogramProperties` lemmas. |
| `HistogramGenerator.FindHistogramChildSound` | Visualizers/HistogramGenerator.cs:30-35 | The scan `FindHistogramChild` skips children without a record, in order. A `HistogramChild` result is a listed child whose record has type Histogram. A `ChildWithoutInfo` result is a listed child whose record has no resource info (where the code dereferences null). `NoHistogramChild` means every listed child with a record has resource info and a type other than Histogram. |
| `HistogramGenerator.Repository.AddHistogramToMetadata` | Visualizers/HistogramGenerator.cs:64-81 | Adds one record under the new id, built from the log's label and id, the host and the `json` extension, with the single parent edge (log, "Log"). Files are unchanged. Returns `Resources/JSON/<id>.json`. |
| `HistogramGenerator.GenerateHistogramDict` | Visualizers/HistogramGenerator.cs:101-139 | The result is the tally of the log's `concept:name` occurrences, or the fault of the first bad attribute element. |
| `HistogramGenerator.CountTraceEvents` | Visualizers/HistogramGenerator.cs:111-134 | Counting one trace's events extends the tally by that trace's names, or fails with the fault of the first failing event. |
| `HistogramGenerator.CountEventAttributes` | Visualizers/HistogramGenerator.cs:115-132 | Counting one event's attributes extends the tally by that event's names, or fails with the first missing `key` or `value`. |
| `HistogramGenerator.AddOccurrence` | Visualizers/HistogramGenerator.cs:123-130 | The dictionary update raises the count of its name by one. It keeps the keys, or appends the name when the name is new. |
| `HistogramGenerator.ConvertToJsonList` | Visualizers/HistogramGenerator.cs:84-98 | The list is the encoding of the dictionary and decodes back to it. |
| `HistogramDict.FindEntry` | Visualizers/HistogramGenerator.cs:123 | Returns the index of the entry named `x`, or the length when no key is `x`. |
| `HistogramDict.BumpHit` | Visualizers/HistogramGenerator.cs:123-126 | For an existing key, the update changes only that entry's count, by +1. |
| `HistogramDict.BumpMiss` | Visualizers/HistogramGenerator.cs:127-130 | For a new key, the update appends (key, 1) at the end. |
| `HistogramDict.BumpLookup` | Visualizers/HistogramGenerator.cs:123-130 | An update adds 1 to its own name's count and leaves every other count unchanged. |
| `HistogramDict.BumpNames` | Visualizers/HistogramGenerator.cs:123-130 | An update keeps the key sequence, or appends its name when the name is new. |
| `HistogramDict.TallyCounts` | Visualizers/HistogramGenerator.cs:106-131 | The keys are distinct and are exactly the names that occur. Every name's count is its number of occurrences. |
| `HistogramDict.TallyEntries` | Visualizers/HistogramGenerator.cs:118-130 | Each entry's count equals the occurrences of its name and is at least 1. |
| `HistogramDict.TallyTotal` | Visualizers/HistogramGenerator.cs:106-131 | The counts sum to the number of matching attributes. |
| `HistogramDict.TallyFirstSeen` | Visualizers/HistogramGenerator.cs:123-130 | Keys appear in the order of their names' first occurrence. |
| `JsonList.PairsShape` | Visualizers/HistogramGenerator.cs:86-95 | The list has one `[name, count]` pair per entry, in entry order. |
| `JsonList.DecodeEncode` | Visualizers/HistogramGenerator.cs:84-98 | Decoding the serialised list gives back the dictionary. |
| `JsonList.EncodeDecode` | Visualizers/HistogramGenerator.cs:84-98 | A value that decodes to a dictionary is exactly that dictionary's encoding. |
| `EventLog.ConcatFailPersists` | Visualizers/HistogramGenerator.cs:115-120 | Once an attribute element throws, the whole walk fails with that fault. |
| `EventLog.ConcatAppend` | Visualizers/HistogramGenerator.cs:106-115 | Walking a concatenation of nodes walks the parts in order. |
| `Metadata.SavePathIsResourcePath` | Visualizers/HistogramGenerator.cs:79 | `Resources/JSON/<id>.json` is the general payload path for extension `json`. |
| `Metadata.ResourcePathInjective` | Visualizers/HistogramGenerator.cs:22-23 | Two ids with the same extension never share a payload path. |
| `HistogramProperties.UnknownSourceRejected` | Visualizers/HistogramGenerator.cs:19-20 | An unknown id, or a record without resource info or extension, gives BadRequest with the fixed message. The stores are unchanged. |
| `HistogramProperties.InvalidSourceRejected` | Visualizers/HistogramGenerator.cs:22-28 | A payload missing at `Resources/<EXT>/<id>.<ext>`, or a type other than `EventLog`, gives BadRequest naming the path. The stores are unchanged. |
| `HistogramProperties.BadRequestIffInvalidSource` | Visualizers/HistogramGenerator.cs:19-28 | BadRequest happens exactly when the source log is invalid. |
| `HistogramProperties.OnlyGenerationChangesStores` | Visualizers/HistogramGenerator.cs:17-62 | Every outcome other than a generation leaves the metadata, the files and the journal unchanged. |
| `HistogramProperties.CacheHitIff` | Visualizers/HistogramGenerator.cs:30-41 | A cache hit on `c` happens exactly when the source log is valid, `c` is the first Histogram child and its payload is retrievable. That payload is returned and nothing is created. |
| `HistogramProperties.InconsistentLineageIff` | Visualizers/HistogramGenerator.cs:34-42 | Inconsistent lineage on `c` happens exactly when `c` is the first Histogram child and its payload is not retrievable. Nothing is regenerated. |
| `HistogramProperties.NonHistogramChildSkipped` | Visualizers/HistogramGenerator.cs:33-34 | A child without a record, or whose type is not Histogram, does not change the scan's outcome. |
| `HistogramProperties.FirstHistogramChildDecides` | Visualizers/HistogramGenerator.cs:31-42 | The first Histogram child decides; the children after it are never examined. |
| `HistogramProperties.GeneratedIff` | Visualizers/HistogramGenerator.cs:49-60 | A generation happens exactly when the source log is valid, there is no Histogram child and the log tallies. The response is the encoded tally. |
| `HistogramProperties.GenerationRegistersOneHistogram` | Visualizers/HistogramGenerator.cs:49-80 | On a miss, exactly one record is added, under the fresh id. It has type Histogram, extension `json` and the label `"Histogram from log: " + label`. Its parents are exactly [(source, "Log")]. Old records are unchanged. The written file is the returned JSON at `Resources/JSON/<id>.json`. The record is registered before the file is written. |
| `HistogramProperties.GeneratedHistogramDescribesLog` | Visualizers/HistogramGenerator.cs:50-51 | The returned JSON decodes to the tally of the log. Its keys are distinct and are exactly the names that occur, each count is the number of occurrences, the counts sum to the number of occurrences, and the keys appear in first-seen order. |
| `HistogramProperties.RepeatedRequestHitsCache` | Visualizers/HistogramGenerator.cs:30-41 | Suppose the new histogram is then linked as a child of the log. A second request for the log is then a cache hit on that histogram, returns the JSON the first request wrote, and changes nothing. |
| `HistogramProperties.FirstSeenOrderExample` | Visualizers/HistogramGenerator.cs:123-130 | [A, B, A, C, B] tallies to [(A,2), (B,2), (C,1)]. |
| `HistogramProperties.ThreeTraceLogTally` | Visualizers/HistogramGenerator.cs:106-131 | Three traces with one event each, named A, B and A, tally to [(A,2), (B,1)]. |

## Left out

- HTTP results are modelled as the `Response` datatype. The C# code answers an inconsistent lineage with HTTP 400 and a fixed message; the model names it `InconsistentLineage`. The code's exceptions become `ComputationError` (a malformed log, or an attribute element without `key`, or with key `concept:name` and no `value`) and `NullReference` (a child record whose resource info is null).
- XML parsing is not modelled. A stored log is either an already-parsed element tree or `Unparsable`. Text and comment nodes behave like elements without attributes, which is how the tally treats them.
- JSON text formatting (indented layout, escaping) is not modelled. The payload is the JSON value.
- File-system calls are modelled as a map from path to payload. Directory creation is a no-op, because directories are implicit. The current-directory prefix, the platform path separator and the special case of a rooted second argument to `Path.Combine` are not modelled.
- `GetHistogram`: the write of the payload cannot fail in the model. In the code, `Directory.CreateDirectory` and `File.WriteAllText` (Visualizers/HistogramGenerator.cs:57-59) run after the record is registered (line 52), so a failing write leaves a registered Histogram with no payload; once the child edge is linked, every later request for that log answers with the inconsistent-lineage BadRequest.
- `ToUpper` is modelled for ASCII letters only. Culture-specific case mapping is not modelled.
- `Guid.NewGuid()` becomes the parameter `newId`. `GetHistogram` requires that it is not already an id in the store, which stands for GUID uniqueness.
- `ResourceRetriever.GetResourceById` is not part of this model. `Retrieve` assumes it succeeds exactly when the record names an extension and a file exists at `Resources/<EXT>/<id>.<ext>`.
- `GetHistogram`: the test at Visualizers/HistogramGenerator.cs:37, whether a bare `Results.BadRequest()` is an instance of the runtime type of the retrieved result, is modelled as `Retrieve(...)` being `None`. This assumes `GetResourceById` reports a missing file with a result of the runtime type of `Results.BadRequest()` (or a subtype of it). Any other failure (a NotFound result, a `BadRequest<T>` carrying a message, an exception) is returned by the code at line 40 as though it were the cached histogram; the model does not capture that case, so `CacheHitIff` and `InconsistentLineageIff` hold under this assumption only.
- The metadata store is a map. `BuildAndAddMetadataObject` is modelled as inserting the record it is given; its other fields (such as a file type) are not modelled. `DBManager` is outside this model, so `RepeatedRequestHitsCache` takes the child-edge append (`LinkChild`) as a hypothesis.
- Entry counts are unbounded naturals. The 32-bit `int` overflow after 2^31 - 1 occurrences of one name is not modelled.
- .NET `Dictionary` enumerates in insertion order when nothing is removed, as in this code. The model makes that order explicit as a sequence. `ContainsKey` is modelled as a linear search.
- The three nested loops of `GenerateHistogramDict` are one method per loop. The middle loop is `CountTraceEvents` and the innermost is `CountEventAttributes`. This keeps each proof small; the order of evaluation is unchanged.
- Console logging, concurrency, per-key locking and atomic file replacement are not modelled. The code has none of the locking.
- `App/API/Endpoints.cs` and `Endpoints/Endpoints.cs` are not modelled. They register HTTP routes. `App/API/Endpoints.cs` builds no paths. Only the streaming GET of `Endpoints/Endpoints.cs` (lines 93-99) reads a file, at `Resources/<FileType>/<EXT>/<id>.<ext>`; the model follows the histogram generator's own path `Resources/<EXT>/<id>.<ext>`.
- The code reports a wrong source type and a missing source file as the same BadRequest. It does not detect duplicate Histogram children: the first one in `Children` order decides.
- `AddHistogramToMetadata` passes only the parent edge to `DBManager.BuildAndAddMetadataObject`; whether `DBManager` also appends the child edge to the log's record is not modelled.
- A null `GenerationTree` or `Children` is modelled as an empty child list. A null resource type behaves like any other string that is neither `EventLog` nor `Histogram`.
