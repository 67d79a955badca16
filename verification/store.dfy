/**
 The document store as the request handlers use it: a collection is a
 sequence of documents (maps from field names to values) in insertion
 order, queried by equality filters with MongoDB's matching rule. Only the
 operations the modelled handlers call are here: `find`, `findOne`,
 `insertOne` (appending) and `updateOne` with a `$set` document.
 */
module Store {
  import opened Wrappers
  import opened Js

  /** A stored document, or a request body: field names to values. */
  type Document = map<string, Value>

  /** A query such as `{ buyer_email: email }`: every field must match. */
  type Filter = map<string, Value>

  /** `doc.key` in JavaScript: `undefined` when the field is missing. */
  function Get(doc: Document, key: string): Value
  {
    if key in doc then doc[key] else Undefined
  }

  /** MongoDB's equality match on one field. A `null` wanted value (the
      driver sends `undefined` as `null`) matches a field that is missing or
      null; any other value matches a field holding exactly that value. */
  predicate FieldMatches(doc: Document, key: string, want: Value)
  {
    if want.Null? || want.Undefined? then key !in doc || doc[key].Null? || doc[key].Undefined?
    else key in doc && doc[key] == want
  }

  /** A document matches a filter when it matches every field of it. */
  predicate Matches(doc: Document, filter: Filter)
    ensures |filter| == 0 ==> Matches(doc, filter)
    ensures Matches(doc, filter) ==>
              forall key :: key in filter && !filter[key].Null? && !filter[key].Undefined? ==> Get(doc, key) == filter[key]
  {
    forall key :: key in filter ==> FieldMatches(doc, key, filter[key])
  }

  /** `collection.find(filter).toArray()`: the matching documents, in
      collection order (no sort applied). */
  function Find(docs: seq<Document>, filter: Filter): (found: seq<Document>)
    ensures |found| <= |docs|
    ensures forall d :: d in found ==> d in docs && Matches(d, filter)
    ensures forall i :: 0 <= i < |docs| && Matches(docs[i], filter) ==> docs[i] in found
  {
    if |docs| == 0 then []
    else
      var rest := Find(docs[1..], filter);
      if Matches(docs[0], filter) then [docs[0]] + rest else rest
  }

  /** The number of documents a filter matches. */
  function Count(docs: seq<Document>, filter: Filter): nat
  {
    |Find(docs, filter)|
  }

  /** The position of the first document a filter matches, or -1. */
  function FirstMatch(docs: seq<Document>, filter: Filter): (i: int)
    ensures -1 <= i < |docs|
    ensures 0 <= i ==> Matches(docs[i], filter)
    ensures forall j :: 0 <= j < |docs| && (i < 0 || j < i) ==> !Matches(docs[j], filter)
  {
    if |docs| == 0 then -1
    else if Matches(docs[0], filter) then 0
    else
      var k := FirstMatch(docs[1..], filter);
      if k < 0 then -1 else k + 1
  }

  /** `collection.findOne(filter)`: the first matching document, or `null`. */
  function FindOne(docs: seq<Document>, filter: Filter): (r: Option<Document>)
    ensures r.Some? ==> r.value in docs && Matches(r.value, filter)
    ensures r.None? <==> forall j :: 0 <= j < |docs| ==> !Matches(docs[j], filter)
  {
    var i := FirstMatch(docs, filter);
    if i < 0 then None else Some(docs[i])
  }

  /** `collection.updateOne(filter, { $set: fields })`: the first matching
      document takes every field of `fields`, overwriting the ones it
      already has; every other document, and every other field, stays as
      it was. */
  function UpdateOne(docs: seq<Document>, filter: Filter, fields: Document): (updated: seq<Document>)
    ensures |updated| == |docs|
    ensures forall j :: 0 <= j < |docs| && j != FirstMatch(docs, filter) ==> updated[j] == docs[j]
    ensures FirstMatch(docs, filter) >= 0 ==>
              var i := FirstMatch(docs, filter);
              && updated[i].Keys == docs[i].Keys + fields.Keys
              && (forall k :: k in fields ==> updated[i][k] == fields[k])
              && (forall k :: k in docs[i] && k !in fields ==> updated[i][k] == docs[i][k])
  {
    var i := FirstMatch(docs, filter);
    if i < 0 then docs else docs[i := docs[i] + fields]
  }

  /** A one-field filter on a value other than null or `undefined` matches
      exactly the documents whose field holds that value. */
  lemma MatchesOneField(key: string, want: Value)
    requires !want.Null? && !want.Undefined?
    ensures forall doc :: Matches(doc, map[key := want]) <==> Get(doc, key) == want
  {
    forall doc
      ensures Matches(doc, map[key := want]) <==> Get(doc, key) == want
    {
      assert key in map[key := want];
    }
  }

  /** A one-field filter on `null` or `undefined` matches exactly the
      documents whose field is missing, `null` or `undefined`. */
  lemma MatchesNullField(key: string, want: Value)
    requires want.Null? || want.Undefined?
    ensures forall doc :: Matches(doc, map[key := want]) <==> Get(doc, key).Null? || Get(doc, key).Undefined?
  {
    forall doc
      ensures Matches(doc, map[key := want]) <==> Get(doc, key).Null? || Get(doc, key).Undefined?
    {
      assert key in map[key := want];
    }
  }

  /** `findOne` returns the head of what `find` returns, and `null` exactly
      when `find` returns nothing. */
  lemma {:induction false} FindOneIsFirstFound(docs: seq<Document>, filter: Filter)
    ensures FindOne(docs, filter) == if Find(docs, filter) == [] then None else Some(Find(docs, filter)[0])
  {
    if |docs| > 0 && !Matches(docs[0], filter) {
      FindOneIsFirstFound(docs[1..], filter);
    }
  }

  /** The empty filter `{}` matches every document, so `find({})` returns the
      whole collection. */
  lemma {:induction false} FindAllWithEmptyFilter(docs: seq<Document>)
    ensures Find(docs, map[]) == docs
  {
    if |docs| > 0 {
      FindAllWithEmptyFilter(docs[1..]);
      assert docs == [docs[0]] + docs[1..];
    }
  }

  /** Appending a document adds it to the end of every result it matches. */
  lemma {:induction false} FindAfterInsert(docs: seq<Document>, doc: Document, filter: Filter)
    ensures Find(docs + [doc], filter) == Find(docs, filter) + (if Matches(doc, filter) then [doc] else [])
  {
    if |docs| > 0 {
      assert (docs + [doc])[1..] == docs[1..] + [doc];
      FindAfterInsert(docs[1..], doc, filter);
    } else {
      assert docs + [doc] == [doc];
    }
  }
}
