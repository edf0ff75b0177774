/** The vector-store manager: coercing metadata into the value types the store
    accepts, and handing documents, sanitised metadata and ids to the store. */
module ChromaDb {
  import opened Values

  /** The value `_prepare_metadatas` stores for v: v itself when it is None, str,
      int, float or bool, otherwise `str(v)`. */
  function SanitizeValue(v: Value): (r: Value)
    ensures IsPrimitive(r)
  {
    if IsPrimitive(v) then v else Str(ToStr(v))
  }

  /** One metadata dictionary with every value sanitised. */
  function Sanitized(m: Metadata): (r: Metadata)
    ensures r.Keys == m.Keys
    ensures forall k :: k in r ==> IsPrimitive(r[k])
  {
    map k | k in m :: SanitizeValue(m[k])
  }

  /** Every value of m is one the store accepts. */
  predicate AllPrimitive(m: Metadata)
  {
    forall k :: k in m ==> IsPrimitive(m[k])
  }

  /** Primitive values are kept as they are; any other value becomes its `str()` text. */
  lemma SanitizedValues(m: Metadata)
    ensures forall k :: k in m && IsPrimitive(m[k]) ==> Sanitized(m)[k] == m[k]
    ensures forall k :: k in m && m[k].Composite? ==> Sanitized(m)[k] == Str(m[k].text)
  {
  }

  /** Sanitising leaves a dictionary unchanged exactly when all its values are
      already primitive. */
  lemma SanitizedFixedPoint(m: Metadata)
    ensures Sanitized(m) == m <==> AllPrimitive(m)
  {
    if AllPrimitive(m) {
      assert forall k :: k in m ==> Sanitized(m)[k] == m[k];
    }
  }

  /** Sanitising is idempotent. */
  lemma SanitizedIdempotent(m: Metadata)
    ensures Sanitized(Sanitized(m)) == Sanitized(m)
  {
    SanitizedFixedPoint(Sanitized(m));
  }

  /** Python's `_prepare_metadatas`: a new dictionary per input dictionary, filled
      key by key. Item i of the result is derived from item i of the input only. */
  method PrepareMetadatas(metadatas: seq<Metadata>) returns (prepared: seq<Metadata>)
    ensures |prepared| == |metadatas|
    ensures forall i :: 0 <= i < |metadatas| ==> prepared[i] == Sanitized(metadatas[i])
  {
    prepared := [];
    for i := 0 to |metadatas|
      invariant |prepared| == i
      invariant forall j :: 0 <= j < i ==> prepared[j] == Sanitized(metadatas[j])
    {
      var item := metadatas[i];
      var preparedItem: Metadata := map[];
      var remaining := item.Keys;
      while remaining != {}
        invariant remaining <= item.Keys
        invariant preparedItem.Keys == item.Keys - remaining
        invariant forall k :: k in preparedItem ==> preparedItem[k] == SanitizeValue(item[k])
        decreases remaining
      {
        var key :| key in remaining;
        var value := item[key];
        if IsPrimitive(value) {
          preparedItem := preparedItem[key := value];
        } else {
          preparedItem := preparedItem[key := Str(ToStr(value))];
        }
        remaining := remaining - {key};
      }
      assert preparedItem == Sanitized(item);
      prepared := prepared + [preparedItem];
    }
  }

  /** Every dictionary of a list sanitised, in order. */
  function SanitizedAll(metadatas: seq<Metadata>): (r: seq<Metadata>)
    ensures |r| == |metadatas|
    ensures forall i :: 0 <= i < |r| ==> r[i].Keys == metadatas[i].Keys && AllPrimitive(r[i])
  {
    seq(|metadatas|, i requires 0 <= i < |metadatas| => Sanitized(metadatas[i]))
  }

  /** Preparing an already prepared list returns it unchanged. */
  lemma SanitizedAllIdempotent(metadatas: seq<Metadata>)
    ensures SanitizedAll(SanitizedAll(metadatas)) == SanitizedAll(metadatas)
  {
    forall i | 0 <= i < |metadatas|
      ensures SanitizedAll(SanitizedAll(metadatas))[i] == SanitizedAll(metadatas)[i]
    {
      SanitizedIdempotent(metadatas[i]);
    }
  }

  /** The arguments of one `collection.add(documents=..., metadatas=..., ids=...)` call. */
  datatype Batch = Batch(documents: seq<string>, metadatas: seq<Metadata>, ids: seq<string>)

  /** The store's `notes` collection, seen from this program: the batches it has
      been asked to add, in order. What the store does with them is not modelled. */
  class Collection {
    var added: seq<Batch>

    constructor ()
      ensures added == []
    {
      added := [];
    }

    method Add(documents: seq<string>, metadatas: seq<Metadata>, ids: seq<string>)
      modifies this
      ensures added == old(added) + [Batch(documents, metadatas, ids)]
    {
      added := added + [Batch(documents, metadatas, ids)];
    }
  }

  /** Python's `add_documents`: documents and ids are passed through unchanged,
      and only the prepared metadata reaches the store, every value of it primitive. */
  method AddDocuments(notes: Collection, documents: seq<string>, metadatas: seq<Metadata>, ids: seq<string>)
    modifies notes
    ensures notes.added == old(notes.added) + [Batch(documents, SanitizedAll(metadatas), ids)]
  {
    var prepared := PrepareMetadatas(metadatas);
    assert prepared == SanitizedAll(metadatas);
    notes.Add(documents, prepared, ids);
  }
}
