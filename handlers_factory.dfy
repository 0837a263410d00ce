/**
 * `services/handlersFactory.js`: the generic CRUD handlers every resource
 * uses, over one keyed document collection. The collection is the state the
 * handlers change; `ApiFeatures` (filtering, sorting, searching, field
 * limiting and paging of `getAll`) is not part of this model and is a
 * function parameter of `GetAll`.
 */
module HandlersFactory {
  import opened Wrappers
  import opened JsValues
  import opened ApiErrors
  import opened JsStrings
  import opened Collections

  type Id = string

  /** A stored document's fields, without its id. */
  type Document = map<string, Value>

  /** A document as a handler returns it: its id and its fields. */
  datatype Record = Record(id: Id, fields: Document)

  datatype Data = One(document: Record) | Many(documents: seq<Record>)

  /** The JSON envelope: `status`, and for `getAll` also `results` and `paginationResult`. */
  datatype Envelope = Envelope(status: string, results: Option<nat>, paginationResult: Option<Value>, data: Data)

  /**
   * What a handler does with the response: send JSON, send an empty body,
   * pass an `ApiError` to `next`, or throw, which `asyncHandler` passes to
   * `next` as it is (`Thrown` names the Mongoose error).
   */
  datatype Response =
    | Json(statusCode: int, body: Envelope)
    | Empty(statusCode: int)
    | Next(error: ApiError)
    | Thrown(name: string)

  /** What `ApiFeatures` hands back: the selected documents and its `paginationResult`. */
  datatype Selection = Selection(documents: seq<Record>, paginationResult: Value)

  /**
   * The `ApiFeatures` pipeline as a function of the documents the base query
   * matches, the request query and the document count passed to `paginate`.
   */
  type Features = (map<Id, Document>, map<string, Value>, nat) -> Selection

  /** The error every single-document handler reports for an unknown id. */
  function NotFound(id: Id): (e: ApiError)
    ensures e.statusCode == 404
    ensures EndsWith(e.message, id) && StartsWith(e.message, "No document found with id: ")
  {
    ApiError("No document found with id: " + id, 404)
  }

  /** The 200 envelope around one document. */
  function Success(statusCode: int, r: Record): Response {
    Json(statusCode, Envelope("success", None, None, One(r)))
  }

  /**
   * The ObjectId Mongoose casts a text to, `None` when the text is no
   * ObjectId; two spellings of one ObjectId (upper- and lower-case hex)
   * cast to the same `Id`.
   */
  type Cast = string -> Option<Id>

  /** The base query filter of `getAll` once cast: `{ category: ObjectId }`, or `{}`. */
  datatype Filter = MatchAll | CategoryIs(category: Id)

  /**
   * `req.params.categoryId ? { category: req.params.categoryId } : {}`, as
   * Mongoose casts it when the query runs: `None` when the category id is
   * truthy but no ObjectId, which makes `countDocuments` throw a CastError.
   */
  function ScopeFilter(categoryId: Option<string>, cast: Cast): (f: Option<Filter>)
    ensures f == Some(MatchAll) <==> categoryId.None? || categoryId.value == ""
    ensures f.None? <==> categoryId.Some? && categoryId.value != "" && cast(categoryId.value).None?
    ensures f.Some? && f.value.CategoryIs? ==> f.value.category == cast(categoryId.value).value
  {
    if categoryId.None? || categoryId.value == "" then Some(MatchAll)
    else if cast(categoryId.value).None? then None
    else Some(CategoryIs(cast(categoryId.value).value))
  }

  /** Whether a stored document's `category` is the filter's ObjectId. */
  predicate Matches(f: Filter, doc: Document, cast: Cast) {
    match f
    case MatchAll => true
    case CategoryIs(c) => "category" in doc && doc["category"].Str? && cast(doc["category"].s) == Some(c)
  }

  /** The documents a filter selects, keyed as in the collection. */
  function Scoped(docs: map<Id, Document>, f: Filter, cast: Cast): (r: map<Id, Document>)
    ensures forall id :: id in r <==> id in docs && Matches(f, docs[id], cast)
    ensures forall id :: id in r ==> r[id] == docs[id]
  {
    map id | id in docs && Matches(f, docs[id], cast) :: docs[id]
  }

  /** Without a category the scope is the whole collection. */
  lemma UnscopedIsEverything(docs: map<Id, Document>, categoryId: Option<string>, cast: Cast)
    requires categoryId.None? || categoryId.value == ""
    ensures ScopeFilter(categoryId, cast) == Some(MatchAll)
    ensures Scoped(docs, MatchAll, cast) == docs
  {
  }

  /** Two spellings of one ObjectId scope `getAll` to the same documents. */
  lemma SameObjectIdSameScope(docs: map<Id, Document>, a: string, b: string, cast: Cast)
    requires a != "" && b != "" && cast(a) == cast(b)
    ensures ScopeFilter(Some(a), cast) == ScopeFilter(Some(b), cast)
    ensures ScopeFilter(Some(a), cast).Some? ==>
              Scoped(docs, ScopeFilter(Some(a), cast).value, cast) == Scoped(docs, ScopeFilter(Some(b), cast).value, cast)
  {
  }

  /** The count `getAll` takes never exceeds the size of the collection. */
  lemma {:induction false} ScopedCountBounded(docs: map<Id, Document>, f: Filter, cast: Cast)
    ensures |Scoped(docs, f, cast)| <= |docs|
  {
    SubsetCardinality(Scoped(docs, f, cast).Keys, docs.Keys);
  }

  /**
   * `findByIdAndUpdate(id, body)` with a plain object body: every top-level
   * key of the body is set (`$set`), every other field is kept.
   */
  function Merge(doc: Document, update: Document): (r: Document)
    ensures r.Keys == doc.Keys + update.Keys
    ensures forall k :: k in update ==> r[k] == update[k]
    ensures forall k :: k in doc && k !in update ==> r[k] == doc[k]
  {
    doc + update
  }

  /** Applying the same update twice is applying it once. */
  lemma MergeIdempotent(doc: Document, update: Document)
    ensures Merge(Merge(doc, update), update) == Merge(doc, update)
  {
  }

  /** The collection after `findByIdAndDelete(id)`. */
  function Deleted(docs: map<Id, Document>, id: Id): (r: map<Id, Document>)
    ensures r.Keys == docs.Keys - {id}
    ensures forall k :: k in r ==> r[k] == docs[k]
  {
    docs - {id}
  }

  /** The collection after `findByIdAndUpdate(id, body)` on a stored id. */
  function Updated(docs: map<Id, Document>, id: Id, body: Document): (r: map<Id, Document>)
    requires id in docs
    ensures r.Keys == docs.Keys
    ensures r[id] == Merge(docs[id], body)
    ensures forall k :: k in docs && k != id ==> r[k] == docs[k]
  {
    docs[id := Merge(docs[id], body)]
  }

  /** One resource's collection and the handlers `handlersFactory` builds for it. */
  class Collection {
    var documents: map<Id, Document>

    constructor(initial: map<Id, Document>)
      ensures documents == initial
    {
      documents := initial;
    }

    /**
     * `getOne`: `findById` casts the path id; an id that is no ObjectId
     * throws a CastError, a stored one gives the document with 200, any
     * other the 404 error naming the id as sent. The collection is only read.
     */
    method GetOne(id: string, cast: Cast) returns (r: Response)
      ensures cast(id).None? ==> r == Thrown("CastError")
      ensures cast(id).Some? && cast(id).value in documents ==> r == Success(200, Record(cast(id).value, documents[cast(id).value]))
      ensures cast(id).Some? && cast(id).value !in documents ==> r == Next(NotFound(id))
    {
      var key := cast(id);
      if key.None? {
        r := Thrown("CastError");
      } else if key.value in documents {
        r := Success(200, Record(key.value, documents[key.value]));
      } else {
        r := Next(NotFound(id));
      }
    }

    /**
     * `createOne`: the body is stored as a new document and returned with 201.
     * No existence or reference check is made; `freshId` is the id the
     * database assigns, which is new.
     */
    method CreateOne(body: Document, freshId: Id) returns (r: Response)
      requires freshId !in documents
      modifies this
      ensures documents == old(documents)[freshId := body]
      ensures r == Success(201, Record(freshId, body))
    {
      documents := documents[freshId := body];
      r := Success(201, Record(freshId, body));
    }

    /**
     * `updateOne`: an id that is no ObjectId throws a CastError and nothing
     * changes; on a stored id the body is merged in and the updated document
     * (`new: true`) is returned with 200; on an unknown id the collection is
     * unchanged and the error is 404.
     */
    method UpdateOne(id: string, body: Document, cast: Cast) returns (r: Response)
      modifies this
      ensures cast(id).None? ==> documents == old(documents) && r == Thrown("CastError")
      ensures cast(id).Some? && cast(id).value in old(documents) ==>
                documents == Updated(old(documents), cast(id).value, body)
                && r == Success(200, Record(cast(id).value, documents[cast(id).value]))
      ensures cast(id).Some? && cast(id).value !in old(documents) ==> documents == old(documents) && r == Next(NotFound(id))
    {
      var key := cast(id);
      if key.None? {
        r := Thrown("CastError");
      } else if key.value in documents {
        documents := Updated(documents, key.value, body);
        r := Success(200, Record(key.value, documents[key.value]));
      } else {
        r := Next(NotFound(id));
      }
    }

    /**
     * `deleteOne`: an id that is no ObjectId throws a CastError and nothing
     * changes; otherwise the document under its ObjectId is removed, with
     * 204 and an empty body when there was one, and 404 when there was not.
     */
    method DeleteOne(id: string, cast: Cast) returns (r: Response)
      modifies this
      ensures cast(id).None? ==> documents == old(documents) && r == Thrown("CastError")
      ensures cast(id).Some? ==> documents == Deleted(old(documents), cast(id).value)
      ensures cast(id).Some? && cast(id).value in old(documents) ==> r == Empty(204)
      ensures cast(id).Some? && cast(id).value !in old(documents) ==> r == Next(NotFound(id))
    {
      var key := cast(id);
      if key.None? {
        r := Thrown("CastError");
      } else if key.value in documents {
        documents := Deleted(documents, key.value);
        r := Empty(204);
      } else {
        r := Next(NotFound(id));
      }
    }

    /** Deleting the same id twice: the second delete finds nothing. */
    method DeleteTwice(id: string, cast: Cast) returns (first: Response, second: Response)
      modifies this
      ensures cast(id).Some? ==> documents == Deleted(old(documents), cast(id).value)
      ensures cast(id).Some? && old(cast(id).value in documents) ==> first == Empty(204)
      ensures cast(id).Some? ==> second == Next(NotFound(id))
      ensures cast(id).None? ==> documents == old(documents) && first == second == Thrown("CastError")
    {
      first := DeleteOne(id, cast);
      second := DeleteOne(id, cast);
    }

    /**
     * `getAll`: the base filter is scoped by `categoryId`, the count is taken
     * under the same filter and handed to `paginate`, and the envelope reports
     * as many `results` as it carries documents. A category id that is no
     * ObjectId makes `countDocuments` throw a CastError before anything is
     * sent. The collection is only read.
     */
    method GetAll(categoryId: Option<string>, query: map<string, Value>, features: Features, cast: Cast) returns (r: Response)
      ensures ScopeFilter(categoryId, cast).None? ==> r == Thrown("CastError")
      ensures ScopeFilter(categoryId, cast).Some? ==>
              var scope := Scoped(documents, ScopeFilter(categoryId, cast).value, cast);
              var sel := features(scope, query, |scope|);
              && r.Json? && r.statusCode == 200 && r.body.status == "success"
              && r.body.data == Many(sel.documents)
              && r.body.results == Some(|sel.documents|)
              && r.body.paginationResult == Some(sel.paginationResult)
    {
      var filter := ScopeFilter(categoryId, cast);
      if filter.None? {
        return Thrown("CastError");
      }
      var scope := Scoped(documents, filter.value, cast);
      var countDocuments := |scope|;
      var selection := features(scope, query, countDocuments);
      var docs := selection.documents;
      r := Json(200, Envelope("success", Some(|docs|), Some(selection.paginationResult), Many(docs)));
    }
  }
}
