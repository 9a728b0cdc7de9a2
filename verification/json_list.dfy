/**
 * The histogram's serialised form: a JSON array holding one two-element
 * array `[name, count]` per histogram entry, in histogram order. JSON text
 * layout (indentation, escaping) is not modelled; the value is.
 */
module JsonList {
  import opened Wrappers
  import opened HistogramDict

  datatype Json = JString(text: string) | JNumber(number: int) | JArray(items: seq<Json>)

  /** One entry as the pair `[name, count]`. */
  function PairOf(e: Entry): Json {
    JArray([JString(e.name), JNumber(e.count)])
  }

  function Pairs(t: seq<Entry>): seq<Json>
    decreases |t|
  {
    if t == [] then [] else Pairs(t[..|t| - 1]) + [PairOf(t[|t| - 1])]
  }

  /** The list of pairs the front end reads. */
  function Encode(t: seq<Entry>): Json {
    JArray(Pairs(t))
  }

  /** Reads one `[name, count]` pair back, if `j` is one. */
  function DecodePair(j: Json): Option<Entry> {
    if j.JArray? && |j.items| == 2 && j.items[0].JString? && j.items[1].JNumber? && j.items[1].number >= 0
    then Some(Entry(j.items[0].text, j.items[1].number))
    else None
  }

  function DecodePairs(items: seq<Json>): Option<seq<Entry>>
    decreases |items|
  {
    if items == [] then Some([])
    else match DecodePairs(items[..|items| - 1])
      case None => None
      case Some(init) =>
        match DecodePair(items[|items| - 1])
        case None => None
        case Some(e) => Some(init + [e])
  }

  /** Reads a histogram back from its JSON list, if `j` is one. */
  function Decode(j: Json): Option<seq<Entry>> {
    if j.JArray? then DecodePairs(j.items) else None
  }

  /** The list has exactly one pair per entry, in entry order. */
  lemma {:induction false} PairsShape(t: seq<Entry>)
    ensures |Pairs(t)| == |t|
    ensures forall i :: 0 <= i < |t| ==> Pairs(t)[i] == PairOf(t[i])
    decreases |t|
  {
    if t != [] {
      PairsShape(t[..|t| - 1]);
    }
  }

  /** Decoding the encoding of a histogram gives the histogram back. */
  lemma {:induction false} DecodeEncode(t: seq<Entry>)
    ensures Decode(Encode(t)) == Some(t)
    decreases |t|
  {
    if t != [] {
      var init, last := t[..|t| - 1], t[|t| - 1];
      DecodeEncode(init);
      var items := Pairs(t);
      assert items == Pairs(init) + [PairOf(last)];
      assert items[..|items| - 1] == Pairs(init);
      assert DecodePair(PairOf(last)) == Some(last);
      assert t == init + [last];
    }
  }

  /** A JSON value that decodes to a histogram is exactly that histogram's encoding. */
  lemma {:induction false} EncodeDecode(j: Json, t: seq<Entry>)
    requires Decode(j) == Some(t)
    ensures Encode(t) == j
    decreases |j.items|
  {
    var items := j.items;
    if items != [] {
      var init := items[..|items| - 1];
      var t' := DecodePairs(init).value;
      EncodeDecode(JArray(init), t');
      var last := items[|items| - 1];
      var e := DecodePair(last).value;
      assert t == t' + [e];
      assert t[..|t| - 1] == t';
      assert last.items == [last.items[0], last.items[1]];
      assert PairOf(e) == last;
      assert items == init + [last];
    }
  }
}
