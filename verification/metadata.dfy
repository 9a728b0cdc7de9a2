/**
 * The repository's data model as the histogram generator sees it: metadata
 * records keyed by resource id, their lineage (generation tree), the file
 * payloads, and the conventions that place a resource's payload on disk.
 */
module Metadata {
  import opened Wrappers
  import EventLog
  import JsonList

  /** A lineage edge: the resource at the other end and the role it plays. */
  datatype Edge = Edge(resourceId: string, usedAs: string)

  /** Parents this resource was derived from; children derived from it. */
  datatype GenerationTree = GenerationTree(parents: seq<Edge>, children: seq<Edge>)

  datatype ResourceInfo = ResourceInfo(
    resourceLabel: string,
    resourceType: string,
    host: string,
    description: string,
    fileExtension: Option<string>)

  /** One metadata record; `resourceInfo` is None where the C# code's reference is null. */
  datatype MetadataObject = MetadataObject(
    resourceId: string,
    resourceInfo: Option<ResourceInfo>,
    generationTree: GenerationTree)

  /** The content of a stored file: a parsed XML document, a JSON value, or neither. */
  datatype Payload = XmlFile(root: EventLog.Node) | JsonFile(value: JsonList.Json) | Unparsable

  const ResourcesDirectory := "Resources"
  const EventLogType := "EventLog"
  const HistogramType := "Histogram"
  const HistogramExtension := "json"
  const JsonDirectory := ResourcesDirectory + "/JSON"

  /** Upper-casing of ASCII letters only. */
  function UpperChar(c: char): char {
    if 'a' <= c <= 'z' then (c as int - 32) as char else c
  }

  function Upper(s: string): string {
    seq(|s|, i requires 0 <= i < |s| => UpperChar(s[i]))
  }

  /** The directory that holds payloads with extension `ext`. */
  function ExtensionDirectory(ext: string): string {
    ResourcesDirectory + "/" + Upper(ext) + "/"
  }

  /** Where the payload of resource `id` with extension `ext` is stored. */
  function ResourcePath(id: string, ext: string): string {
    ExtensionDirectory(ext) + id + "." + ext
  }

  /** Where a newly generated histogram with id `id` is saved. */
  function HistogramSavePath(id: string): string {
    JsonDirectory + "/" + id + ".json"
  }

  /** The histogram's save path is the general payload path for extension `json`. */
  lemma SavePathIsResourcePath(id: string)
    ensures HistogramSavePath(id) == ResourcePath(id, HistogramExtension)
  {
  }

  /** Distinct ids with the same extension never share a payload path. */
  lemma ResourcePathInjective(a: string, b: string, ext: string)
    requires ResourcePath(a, ext) == ResourcePath(b, ext)
    ensures a == b
  {
    var dir := ExtensionDirectory(ext);
    var pa, pb := ResourcePath(a, ext), ResourcePath(b, ext);
    assert pa == dir + (a + ("." + ext));
    assert pb == dir + (b + ("." + ext));
    assert |a| == |b|;
    assert pa[|dir|..|dir| + |a|] == a;
    assert pb[|dir|..|dir| + |b|] == b;
  }
}
