/** The document database as the core uses it: a container of JSON documents
    keyed by `id`, each carrying the version token (`_etag`) the store issued
    with its last write. Reads are `SELECT * FROM c WHERE c.id = ...` followed
    by `[0]`; writes are `replace_item(..., etag=..., match_condition=IfNotModified)`. */
module DocStore {
  import opened Py

  /** A JSON value of a stored document. `ListText` is the text `str()` gives
      for a list of strings; its quoting is not modelled, only the list. */
  datatype Value =
    | Str(s: string)
    | Num(n: int)
    | Null
    | Arr(items: seq<Value>)
    | Obj(members: map<string, Value>)
    | ListText(texts: seq<string>)

  type Fields = map<string, Value>

  /** A stored document: its fields and the version token it was written with. */
  datatype Doc = Doc(fields: Fields, etag: nat)

  type Docs = map<string, Doc>

  /** `list(query_items("... WHERE c.id='id'"))[0]`: the document, or `IndexError`
      when the query returns nothing. */
  function Query(docs: Docs, id: string): (r: Result<Doc>)
    ensures r.Ok? <==> id in docs
    ensures r.Ok? ==> r.value == docs[id]
  {
    if id in docs then Ok(docs[id]) else Raised(IndexError)
  }

  /** `replace_item(item=id, body=fields, etag=token, match_condition=IfNotModified)`:
      the write applies only when `token` is the document's current version
      token; the store then issues `next` as the new token. */
  function ReplaceItem(docs: Docs, id: string, fields: Fields, token: nat, next: nat): Result<Docs> {
    if id !in docs then Raised(NotFound)
    else if docs[id].etag != token then Raised(PreconditionFailed)
    else Ok(docs[id := Doc(fields, next)])
  }

  /** A write with a stale token fails and changes nothing; a write with the
      current token replaces exactly that document. */
  lemma ReplaceItemIsCompareAndSwap(docs: Docs, id: string, fields: Fields, token: nat, next: nat)
    requires id in docs
    ensures docs[id].etag != token ==> ReplaceItem(docs, id, fields, token, next) == Raised(PreconditionFailed)
    ensures docs[id].etag == token ==>
      && ReplaceItem(docs, id, fields, token, next).Ok?
      && ReplaceItem(docs, id, fields, token, next).value[id] == Doc(fields, next)
      && forall other :: other in docs && other != id ==>
           other in ReplaceItem(docs, id, fields, token, next).value &&
           ReplaceItem(docs, id, fields, token, next).value[other] == docs[other]
  {
  }

  /** Two writers that read the same version of a document: once the first
      write has applied, the second, carrying the same token, fails instead of
      overwriting it (no lost update). */
  lemma SecondWriterWithSameTokenFails(docs: Docs, id: string, f1: Fields, f2: Fields, next1: nat, next2: nat)
    requires id in docs && next1 != docs[id].etag
    ensures
      var read := Query(docs, id).value;
      var first := ReplaceItem(docs, id, f1, read.etag, next1);
      && first.Ok?
      && ReplaceItem(first.value, id, f2, read.etag, next2) == Raised(PreconditionFailed)
      && first.value[id].fields == f1
  {
  }

  /** The container, with the counter from which it draws fresh version tokens. */
  class Container {
    var docs: Docs
    var nextToken: nat

    /** Every issued token is below the counter, so a new token never equals an old one. */
    ghost predicate Valid()
      reads this
    {
      forall id :: id in docs ==> docs[id].etag < nextToken
    }

    constructor (initial: map<string, Fields>)
      ensures Valid()
      ensures docs.Keys == initial.Keys
      ensures forall id :: id in initial ==> docs[id] == Doc(initial[id], 0)
    {
      docs := map id | id in initial :: Doc(initial[id], 0);
      nextToken := 1;
    }

    /** `replace_item` with a compare-and-swap on the version token. */
    method Replace(id: string, fields: Fields, token: nat) returns (r: Result<()>)
      requires Valid()
      modifies this
      ensures Valid()
      ensures var w := ReplaceItem(old(docs), id, fields, token, old(nextToken));
        && (w.Ok? ==> r == Ok(()) && docs == w.value)
        && (w.Raised? ==> r == Raised(w.error) && docs == old(docs))
      ensures nextToken >= old(nextToken)
    {
      var w := ReplaceItem(docs, id, fields, token, nextToken);
      if w.Ok? {
        docs := w.value;
        nextToken := nextToken + 1;
        r := Ok(());
      } else {
        r := Raised(w.error);
      }
    }

    /** The read-modify-write every `modify_*` function performs: query the
        document, change some fields with `change`, and replace it conditioned
        on the token just read. Returns the changed fields, as the source
        returns `data`. In this sequential model nothing writes between the
        read and the replace, so the replace always applies. */
    method Update(id: string, change: Fields -> Fields) returns (r: Result<Fields>)
      requires Valid()
      modifies this
      ensures Valid()
      ensures id !in old(docs) ==> r == Raised(IndexError) && docs == old(docs)
      ensures id in old(docs) ==>
        && r == Ok(change(old(docs)[id].fields))
        && docs == old(docs)[id := Doc(change(old(docs)[id].fields), old(nextToken))]
        && docs[id].etag != old(docs)[id].etag
    {
      var read := Query(docs, id);
      if read.Raised? {
        return Raised(read.error);
      }
      var data := change(read.value.fields);
      var w := Replace(id, data, read.value.etag);
      assert w.Ok?;
      r := Ok(data);
    }
  }
}
