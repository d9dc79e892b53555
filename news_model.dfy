/**
 * The NewsItem record: the values a news entry carries, its document form
 * (`to_dict`), the way a document is read back (`from_dict`), and the public
 * JSON projection (`serialize_for_api`). The clock reading `utcnow()` is the
 * explicit `now`.
 */
module NewsModel {
  import opened Results
  import opened PyText
  import opened PyValue

  /**
   * A NewsItem. The fields hold whatever the caller passed (a title may be
   * None), so they are Python values; the timestamps are datetimes unless
   * `from_dict` copied something else in.
   */
  datatype NewsItem = NewsItem(
    title: Value,
    summary: Value,
    url: Value,
    source: Value,
    originalContent: Value,
    createdAt: Value,
    updatedAt: Value)

  /** `NewsItem(title, summary, url, source, original_content)` at clock reading `now`. */
  function NewItem(title: Value, summary: Value, url: Value, source: Value, originalContent: Value, now: Timestamp): (n: NewsItem)
    ensures n.title == title && n.summary == summary && n.url == url
    ensures n.source == source && n.originalContent == originalContent
    ensures n.createdAt == Time(now) && n.updatedAt == Time(now)
  {
    NewsItem(title, summary, url, source, originalContent, Time(now), Time(now))
  }

  /** The seven keys of a news document. */
  function DocKeys(): set<string>
  {
    {"title", "summary", "url", "source", "original_content", "created_at", "updated_at"}
  }

  /** `to_dict`: exactly the seven fields, each equal to its attribute. */
  function ToDict(n: NewsItem): (d: map<string, Value>)
    ensures d.Keys == DocKeys()
    ensures d["title"] == n.title && d["summary"] == n.summary && d["url"] == n.url
    ensures d["source"] == n.source && d["original_content"] == n.originalContent
    ensures d["created_at"] == n.createdAt && d["updated_at"] == n.updatedAt
  {
    map[
      "title" := n.title, "summary" := n.summary, "url" := n.url,
      "source" := n.source, "original_content" := n.originalContent,
      "created_at" := n.createdAt, "updated_at" := n.updatedAt]
  }

  /**
   * `from_dict(data)`: a new item from the five content keys (None when
   * absent), whose construction-time timestamps are replaced by the document's
   * own when it has them.
   */
  function FromDict(data: map<string, Value>, now: Timestamp): (n: NewsItem)
    ensures "created_at" in data ==> n.createdAt == data["created_at"]
    ensures "created_at" !in data ==> n.createdAt == Time(now)
    ensures "updated_at" in data ==> n.updatedAt == data["updated_at"]
    ensures "updated_at" !in data ==> n.updatedAt == Time(now)
  {
    var news := NewItem(
      Get(data, "title", Null), Get(data, "summary", Null), Get(data, "url", Null),
      Get(data, "source", Null), Get(data, "original_content", Null), now);
    var news := if "created_at" in data then news.(createdAt := data["created_at"]) else news;
    if "updated_at" in data then news.(updatedAt := data["updated_at"]) else news
  }

  /** Reading back a document that `to_dict` wrote gives the item again, timestamps included. */
  lemma FromDictToDict(n: NewsItem, now: Timestamp)
    ensures FromDict(ToDict(n), now) == n
  {
    var d := ToDict(n);
    assert Get(d, "title", Null) == n.title && Get(d, "summary", Null) == n.summary;
    assert Get(d, "url", Null) == n.url && Get(d, "source", Null) == n.source;
    assert Get(d, "original_content", Null) == n.originalContent;
  }

  /**
   * The other direction: a document with exactly the seven keys is written
   * back unchanged; without the timestamps, the clock reading fills them in.
   */
  lemma ToDictFromDict(data: map<string, Value>, now: Timestamp)
    requires data.Keys == DocKeys()
    ensures ToDict(FromDict(data, now)) == data
  {
    var d := ToDict(FromDict(data, now));
    assert d.Keys == data.Keys;
    forall k | k in d
      ensures d[k] == data[k]
    {
      assert k in DocKeys();
    }
  }

  /** The keys of the public projection. */
  function ApiKeys(): set<string>
  {
    {"id", "title", "summary", "url", "created_at"}
  }

  /** The keys `serialize_for_api` subscripts, in the order it reads them. */
  const ReadKeys: seq<string> := ["_id", "title", "summary", "url"]

  /** The first of `keys` that `doc` lacks: the key a `KeyError` names. */
  function MissingKey(doc: map<string, Value>, keys: seq<string>): (r: Option<string>)
    ensures r.None? <==> forall k :: k in keys ==> k in doc
    ensures r.Some? ==> r.value in keys && r.value !in doc
    decreases |keys|
  {
    if keys == [] then None
    else if keys[0] !in doc then Some(keys[0])
    else MissingKey(doc, keys[1..])
  }

  /** The missing key reported is the first: every key before it is present. */
  lemma {:induction false} MissingKeyFirst(doc: map<string, Value>, keys: seq<string>)
    ensures MissingKey(doc, keys).Some? ==>
      exists i :: 0 <= i < |keys| && keys[i] == MissingKey(doc, keys).value && (forall j :: 0 <= j < i ==> keys[j] in doc)
    decreases |keys|
  {
    if keys != [] && keys[0] in doc {
      MissingKeyFirst(doc, keys[1..]);
      if MissingKey(doc, keys).Some? {
        var i :| 0 <= i < |keys| - 1 && keys[1..][i] == MissingKey(doc, keys).value
          && (forall j :: 0 <= j < i ==> keys[1..][j] in doc);
        assert keys[i + 1] == MissingKey(doc, keys).value;
        assert forall j :: 0 <= j < i + 1 ==> keys[j] in doc by {
          forall j | 0 <= j < i + 1 ensures keys[j] in doc {
            if j > 0 { assert keys[j] == keys[1..][j - 1]; }
          }
        }
      }
    }
  }

  /**
   * `serialize_for_api(doc)`. Err where Python raises: one of `_id`, `title`,
   * `summary`, `url` is missing, or `created_at` is truthy but not a datetime
   * (it has no `isoformat`).
   */
  function SerializeForApi(doc: map<string, Value>): (r: Result<map<string, Value>>)
    ensures r.Ok? <==>
      "_id" in doc && "title" in doc && "summary" in doc && "url" in doc
      && (Truthy(Get(doc, "created_at", Null)) ==> doc["created_at"].Time?)
    ensures r.Ok? ==>
      r.value.Keys == ApiKeys()
      && r.value["id"] == Str(Text(doc["_id"]))
      && r.value["title"] == doc["title"] && r.value["summary"] == doc["summary"] && r.value["url"] == doc["url"]
    ensures r.Ok? ==>
      r.value["created_at"] == if Truthy(Get(doc, "created_at", Null)) then Str(IsoFormat(doc["created_at"].t)) else Null
  {
    match MissingKey(doc, ReadKeys)
    case Some(k) => Err("'" + k + "'")
    case None =>
      var created := Get(doc, "created_at", Null);
      if Truthy(created) && !created.Time? then Err("'" + TypeName(created) + "' object has no attribute 'isoformat'")
      else
        Ok(map[
          "id" := Str(Text(doc["_id"])), "title" := doc["title"], "summary" := doc["summary"],
          "url" := doc["url"], "created_at" := if Truthy(created) then Str(IsoFormat(created.t)) else Null])
  }

  /**
   * The text of `serialize_for_api`'s exception: the first key it reads that is
   * missing, quoted as a `KeyError` prints it, or the `AttributeError` of a
   * creation time that is not a datetime.
   */
  lemma SerializeForApiErrors(doc: map<string, Value>)
    ensures MissingKey(doc, ReadKeys).Some? ==> SerializeForApi(doc) == Err("'" + MissingKey(doc, ReadKeys).value + "'")
    ensures MissingKey(doc, ReadKeys).None? && SerializeForApi(doc).Err? ==>
      "created_at" in doc && Truthy(doc["created_at"]) && !doc["created_at"].Time?
      && SerializeForApi(doc) == Err("'" + TypeName(doc["created_at"]) + "' object has no attribute 'isoformat'")
  {
  }

  /**
   * A stored item (its document plus the `_id` the store assigns) always
   * serialises: the id is the ObjectId's hex text, the creation time its ISO
   * form, and the source and original content are not part of the projection.
   */
  lemma SerializeStoredItem(n: NewsItem, id: nat, now: Timestamp)
    requires n.createdAt == Time(now)
    ensures var r := SerializeForApi(ToDict(n)["_id" := Oid(id)]);
      r.Ok? && r.value["id"] == Str(ObjectIdText(id))
      && r.value["created_at"] == Str(IsoFormat(now))
      && "source" !in r.value && "original_content" !in r.value
  {
    var doc := ToDict(n)["_id" := Oid(id)];
    assert Get(doc, "created_at", Null) == Time(now);
  }
}
