/**
 * `normalizeTodos`: turns whatever the collection endpoint returned into the
 * list of todo records, by an ordered chain of shape tests.
 *
 *   0. a string holding "<!doctype html" in any letter case throws;
 *   1. an array is the list itself;
 *   2. otherwise an array under `results` (paginated responses);
 *   3. otherwise an array under `items`;
 *   4. otherwise an object all of whose values are non-null objects gives
 *      those values, keys dropped;
 *   5. anything else gives the empty list.
 */
module Normalize {
  import opened Wrappers
  import opened Json

  const HtmlMarker: string := "<!doctype html"

  /** The message of the error thrown for an HTML page. */
  const HtmlError: string := "API returned HTML (likely Vite index.html). Check VITE_API_URL or dev proxy."

  /** `typeof payload === "string" && payload.toLowerCase().includes("<!doctype html")` */
  predicate IsHtmlDocument(payload: Value) {
    payload.Str? && Contains(ToLower(payload.s), HtmlMarker)
  }

  /** A payload is taken for an HTML page exactly when, lower-cased, it holds the marker at some index. */
  lemma HtmlMeansMarkerFound(payload: Value)
    ensures IsHtmlDocument(payload) <==> payload.Str? && exists i :: OccursAt(ToLower(payload.s), HtmlMarker, i)
  {
    if payload.Str? {
      var lower := ToLower(payload.s);
      ContainsOccurs(lower, HtmlMarker);
      if Contains(lower, HtmlMarker) {
        var i :| OccursAt(lower, HtmlMarker, i);
        assert OccursAt(ToLower(payload.s), HtmlMarker, i);
      }
    }
  }

  /** `payload?.[key]` when that property exists and holds an array. */
  function ArrayProp(payload: Value, key: string): Option<seq<Value>> {
    if payload.Obj? then
      match Get(payload.fields, key)
      case Some(Arr(es)) => Some(es)
      case _ => None
    else None
  }

  /** `vals.every(v => v && typeof v === "object")` */
  predicate AllObjectLike(vals: seq<Value>) {
    forall i | 0 <= i < |vals| :: IsObjectLike(vals[i])
  }

  /**
   * The only failure is the HTML page, and every record handed back is a
   * part of the payload: normalization never makes a record up.
   */
  function NormalizeTodos(payload: Value): (r: Result<seq<Value>, string>)
    ensures r.Err? <==> IsHtmlDocument(payload)
    ensures r.Err? ==> r.error == HtmlError
    ensures r.Ok? ==> forall i | 0 <= i < |r.value| :: r.value[i] < payload
  {
    if IsHtmlDocument(payload) then Err(HtmlError)
    else if payload.Arr? then Ok(payload.elems)
    else if ArrayProp(payload, "results").Some? then
      GetIsPart(payload.fields, "results");
      Ok(ArrayProp(payload, "results").value)
    else if ArrayProp(payload, "items").Some? then
      GetIsPart(payload.fields, "items");
      Ok(ArrayProp(payload, "items").value)
    else if payload.Obj? && AllObjectLike(Values(payload.fields)) then
      Ok(Values(payload.fields))
    else Ok([])
  }

  /** A property value found by `Get` is part of its object. */
  lemma GetIsPart(fields: Fields, key: string)
    ensures Get(fields, key).Some? ==> Get(fields, key).value < Obj(fields)
  {
    if Get(fields, key).Some? {
      var i :| 0 <= i < |fields| && fields[i] == (key, Get(fields, key).value);
      assert fields[i].1 < Obj(fields);
    }
  }

  // ---------------------------------------------------------------------------
  // The HTML check

  /**
   * A string carrying the document-type declaration in any mix of letter
   * cases, anywhere in it, is rejected with the HTML error.
   */
  lemma HtmlRejectedInAnyCase(pre: string, marker: string, post: string)
    requires ToLower(marker) == HtmlMarker
    ensures NormalizeTodos(Str(pre + marker + post)) == Err(HtmlError)
  {
    ToLowerConcat(pre + marker, post);
    ToLowerConcat(pre, marker);
    ContainsInside(ToLower(pre), HtmlMarker, ToLower(post));
  }

  // ---------------------------------------------------------------------------
  // The shape rules, in the order they are tried

  /** An array is the list itself, so normalizing a normalized list changes nothing. */
  lemma NormalizeIdempotent(payload: Value)
    requires NormalizeTodos(payload).Ok?
    ensures NormalizeTodos(Arr(NormalizeTodos(payload).value)) == NormalizeTodos(payload)
  {
  }

  /**
   * An array under `results` is taken whatever else the object holds; an
   * array under `items` is taken when `results` holds none.
   */
  lemma WrappedListTaken(fields: Fields, key: string, todos: seq<Value>)
    requires key == "results" || key == "items"
    requires Get(fields, key) == Some(Arr(todos))
    requires key == "items" ==> ArrayProp(Obj(fields), "results").None?
    ensures NormalizeTodos(Obj(fields)) == Ok(todos)
  {
  }

  /**
   * With no list under `results` or `items`, an object gives its values in
   * enumeration order when every one of them is a non-null object (an empty
   * object gives the empty list), and the empty list otherwise.
   */
  lemma KeyedRecords(fields: Fields)
    requires ArrayProp(Obj(fields), "results").None? && ArrayProp(Obj(fields), "items").None?
    ensures AllObjectLike(Values(fields)) ==> NormalizeTodos(Obj(fields)) == Ok(Values(fields))
    ensures !AllObjectLike(Values(fields)) ==> NormalizeTodos(Obj(fields)) == Ok([])
    ensures fields == [] ==> NormalizeTodos(Obj(fields)) == Ok([])
  {
  }

  /** null, booleans, numbers and strings without the marker give the empty list. */
  lemma OtherPayloadsEmpty(payload: Value)
    requires !payload.Arr? && !payload.Obj? && !IsHtmlDocument(payload)
    ensures NormalizeTodos(payload) == Ok([])
  {
  }

  /** The object whose property `keys[i]` holds `records[i]`. */
  function KeyedBy(keys: seq<string>, records: seq<Value>): (fields: Fields)
    requires |keys| == |records|
    ensures Values(fields) == records
  {
    var fs := seq(|keys|, i requires 0 <= i < |keys| => (keys[i], records[i]));
    assert Values(fs) == records;
    fs
  }

  /**
   * The four accepted response shapes carrying the same records give the
   * same list: a bare array, `{results: [...]}`, `{items: [...]}`, and an
   * object with one distinct key per record whose properties enumerate in
   * the records' order (an id-keyed map whose ids ascend), provided every
   * record is an object.
   */
  lemma {:induction false} ShapeInvariance(records: seq<Value>, keys: seq<string>)
    requires |keys| == |records|
    requires forall i, j | 0 <= i < j < |keys| :: keys[i] != keys[j]
    requires forall i | 0 <= i < |records| :: records[i].Obj?
    ensures NormalizeTodos(Arr(records)) == Ok(records)
    ensures NormalizeTodos(Obj([("results", Arr(records))])) == Ok(records)
    ensures NormalizeTodos(Obj([("items", Arr(records))])) == Ok(records)
    ensures NormalizeTodos(Obj(KeyedBy(keys, records))) == Ok(records)
  {
    var fields := KeyedBy(keys, records);
    assert forall k | k in ["results", "items"] :: ArrayProp(Obj(fields), k).None? by {
      forall k | k in ["results", "items"] ensures ArrayProp(Obj(fields), k).None? {
        var p := Get(fields, k);
        if p.Some? {
          var i :| 0 <= i < |fields| && fields[i] == (k, p.value);
          assert p.value == Values(fields)[i] == records[i];
        }
      }
    }
    assert AllObjectLike(Values(fields));
  }

  // ---------------------------------------------------------------------------
  // Well-formedness

  lemma GetWellFormed(fields: Fields, key: string)
    requires WellFormed(Obj(fields))
    ensures Get(fields, key).Some? ==> WellFormed(Get(fields, key).value)
  {
    if Get(fields, key).Some? {
      var i :| 0 <= i < |fields| && fields[i] == (key, Get(fields, key).value);
    }
  }

  /** Records taken from a decoded payload are themselves well-formed values. */
  lemma {:induction false} NormalizeWellFormed(payload: Value)
    requires WellFormed(payload)
    ensures NormalizeTodos(payload).Ok? ==>
      forall i | 0 <= i < |NormalizeTodos(payload).value| :: WellFormed(NormalizeTodos(payload).value[i])
  {
    if payload.Obj? {
      GetWellFormed(payload.fields, "results");
      GetWellFormed(payload.fields, "items");
    }
  }
}
