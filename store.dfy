/** The document store as both components use it: a map from (collection path,
    document id) to the document's top-level fields. Query planning, indexes and
    transport belong to the database service and are not modelled. */
module Store {
  import opened Values

  /** `db.collection(c1, c2, ...).document(id)`. */
  datatype DocRef = DocRef(collection: seq<string>, id: string)

  type Docs = map<DocRef, Doc>

  /** `ref.get().to_dict()`: `None` for a missing document. */
  function Lookup(docs: Docs, ref: DocRef): (r: Option<Doc>)
    ensures r.Some? <==> ref in docs
    ensures r.Some? ==> r.value == docs[ref]
  {
    if ref in docs then Some(docs[ref]) else None
  }

  /** The top-level fields after `set(fields, merge=True)`: every given field is
      overwritten, every other field of an existing document is kept. A given field that
      holds a map replaces the stored one whole; the store's own leaf-by-leaf merge of
      nested maps is not modelled. */
  function MergeFields(existing: Option<Doc>, fields: Doc): (r: Doc)
    ensures forall k :: k in fields ==> k in r && r[k] == fields[k]
    ensures existing.Some? ==> forall k :: k in existing.value && k !in fields ==> k in r && r[k] == existing.value[k]
    ensures forall k :: k in r ==> k in fields || (existing.Some? && k in existing.value)
  {
    match existing
    case None => fields
    case Some(d) => d + fields
  }

  class Database {
    var docs: Docs

    constructor (initial: Docs)
      ensures docs == initial
    {
      docs := initial;
    }

    /** `ref.set(doc)`: replaces the whole document. */
    method Set(ref: DocRef, doc: Doc)
      modifies this
      ensures docs == old(docs)[ref := doc]
    {
      docs := docs[ref := doc];
    }

    /** `ref.set(fields, merge=True)`. */
    method SetMerge(ref: DocRef, fields: Doc)
      modifies this
      ensures docs == old(docs)[ref := MergeFields(Lookup(old(docs), ref), fields)]
    {
      docs := docs[ref := MergeFields(Lookup(docs, ref), fields)];
    }

    /** `ref.update({field: value})` on an existing document: replaces that one
        top-level field and leaves the others alone. */
    method UpdateField(ref: DocRef, field: string, value: Json)
      requires ref in docs
      modifies this
      ensures docs == old(docs)[ref := old(docs)[ref][field := value]]
    {
      docs := docs[ref := docs[ref][field := value]];
    }

    /** `ref.delete()`. */
    method Delete(ref: DocRef)
      modifies this
      ensures docs == old(docs) - {ref}
    {
      docs := docs - {ref};
    }
  }
}
