/**
 * The news collection of the database, reduced to what the routes use: a
 * lookup of the first document with a given `url`, and an insert that gives
 * the document a fresh `_id`. Documents are kept in insertion order.
 */
module NewsStore {
  import opened Results
  import opened PyValue

  type Doc = map<string, Value>

  /** The document matches the query `{'url': url}`. */
  predicate HasUrlValue(d: Doc, url: string)
  {
    "url" in d && d["url"] == Str(url)
  }

  /** Some document has this url. */
  predicate HasUrl(docs: seq<Doc>, url: string)
  {
    exists i :: 0 <= i < |docs| && HasUrlValue(docs[i], url)
  }

  /** Position `i` holds the first document with this url. */
  predicate FirstAt(docs: seq<Doc>, url: string, i: int)
  {
    0 <= i < |docs| && HasUrlValue(docs[i], url) && forall k :: 0 <= k < i ==> !HasUrlValue(docs[k], url)
  }

  /** The first document with this url: the one `find_one({'url': url})` returns. */
  function FirstWithUrl(docs: seq<Doc>, url: string): (r: Option<Doc>)
    ensures r.Some? <==> HasUrl(docs, url)
    ensures r.Some? ==> exists i :: FirstAt(docs, url, i) && docs[i] == r.value
  {
    if docs == [] then None
    else if HasUrlValue(docs[0], url) then Some(docs[0])
    else
      var rest := FirstWithUrl(docs[1..], url);
      assert HasUrl(docs[1..], url) ==> HasUrl(docs, url) by {
        if HasUrl(docs[1..], url) {
          var i :| 0 <= i < |docs[1..]| && HasUrlValue(docs[1..][i], url);
          assert docs[i + 1] == docs[1..][i];
        }
      }
      if rest.Some? then
        assert exists i :: FirstAt(docs, url, i) && docs[i] == rest.value by {
          var i :| FirstAt(docs[1..], url, i) && docs[1..][i] == rest.value;
          assert docs[i + 1] == docs[1..][i];
          forall k | 0 <= k < i + 1
            ensures !HasUrlValue(docs[k], url)
          {
            if k > 0 {
              assert docs[k] == docs[1..][k - 1];
            }
          }
        }
        rest
      else
        assert !HasUrl(docs, url) by {
          forall i | 0 <= i < |docs|
            ensures !HasUrlValue(docs[i], url)
          {
            if i > 0 {
              assert docs[i] == docs[1..][i - 1];
            }
          }
        }
        rest
  }

  /**
   * The document as stored: `insert_one` adds an `_id`. The id generator is not
   * part of this model; the document's position stands in for it, which keeps
   * the ids of one collection distinct.
   */
  function Stored(docs: seq<Doc>, d: Doc): Doc
  {
    d["_id" := Oid(|docs|)]
  }

  class Collection {
    var docs: seq<Doc>

    constructor ()
      ensures docs == []
    {
      docs := [];
    }

    /** `find_one({'url': url})`: the first matching document, or None. */
    method FindByUrl(url: string) returns (found: Option<Doc>)
      ensures found.Some? <==> HasUrl(docs, url)
      ensures found.Some? ==> found.value in docs && HasUrlValue(found.value, url)
      ensures found == FirstWithUrl(docs, url)
    {
      var i := 0;
      while i < |docs|
        invariant 0 <= i <= |docs|
        invariant forall k :: 0 <= k < i ==> !HasUrlValue(docs[k], url)
        invariant FirstWithUrl(docs, url) == FirstWithUrl(docs[i..], url)
      {
        assert docs[i..][1..] == docs[i + 1..];
        if "url" in docs[i] && docs[i]["url"] == Str(url) {
          return Some(docs[i]);
        }
        i := i + 1;
      }
      return None;
    }

    /** `insert_one(d)`: the document, with its new `_id`, goes last. */
    method InsertOne(d: Doc) returns (stored: Doc)
      modifies this
      ensures stored == Stored(old(docs), d)
      ensures docs == old(docs) + [stored]
    {
      stored := Stored(docs, d);
      docs := docs + [stored];
    }
  }
}
