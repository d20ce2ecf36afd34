/** Reading object keys out of a queue message (app/services/ingest.py, `parse_s3_event`). */
module S3Events {
  import opened Wrappers
  import opened Domain

  /** A JSON value as Python holds it. */
  datatype Json =
    | JNull
    | JBool(b: bool)
    | JNumber(zero: bool, text: string)
    | JString(s: string)
    | JArray(items: seq<Json>)
    | JObject(fields: map<string, Json>)

  /** Python's truth value. */
  predicate Truthy(j: Json) {
    match j
    case JNull => false
    case JBool(b) => b
    case JNumber(zero, _) => !zero
    case JString(s) => s != ""
    case JArray(items) => items != []
    case JObject(fields) => fields != map[]
  }

  /** `value.get(name, default)`; only objects have `get`. */
  function Get(value: Json, name: string, fallback: Json): Result<Json, Error> {
    if !value.JObject? then Err(ValueError)
    else Ok(if name in value.fields then value.fields[name] else fallback)
  }

  /** `record.get("s3", {}).get("object", {}).get("key")` */
  function KeyOf(record: Json): Result<Json, Error> {
    match Get(record, "s3", JObject(map[]))
    case Err(e) => Err(e)
    case Ok(s3) =>
      match Get(s3, "object", JObject(map[]))
      case Err(e) => Err(e)
      case Ok(inner) => Get(inner, "key", JNull)
  }

  /** The keys of the records in order; a record without a key is skipped, a malformed one is an error. */
  function RecordKeys(records: seq<Json>, str: Json -> string): Result<seq<string>, Error> {
    if records == [] then Ok([])
    else
      match RecordKeys(records[..|records| - 1], str)
      case Err(e) => Err(e)
      case Ok(keys) =>
        match KeyOf(records[|records| - 1])
        case Err(e) => Err(e)
        case Ok(key) => Ok(if Truthy(key) then keys + [str(key)] else keys)
  }

  lemma {:induction false} ErrorStays(records: seq<Json>, n: nat, str: Json -> string)
    requires n <= |records| && RecordKeys(records[..n], str).Err?
    ensures RecordKeys(records, str).Err?
    decreases |records| - n
  {
    if n == |records| {
      assert records[..n] == records;
    } else {
      assert records[..n + 1][..n] == records[..n];
      ErrorStays(records, n + 1, str);
    }
  }

  /**
    `parsed` is the body as JSON, if it is JSON; `str` is Python's `str` on JSON values. Truthy
    `Records` that are not an array cannot be read.
   */
  method ParseS3Event(body: string, parsed: Option<Json>, str: Json -> string) returns (r: Result<seq<string>, Error>)
    ensures parsed.None? ==> r == Ok([body])
    ensures parsed.Some? && !parsed.value.JObject? ==> r == Ok([])
    ensures parsed.Some? && parsed.value.JObject? ==>
              var fields := parsed.value.fields;
              if "Records" in fields && Truthy(fields["Records"]) then
                if fields["Records"].JArray?
                then r.Err? == RecordKeys(fields["Records"].items, str).Err?
                     && (r.Ok? ==> r == RecordKeys(fields["Records"].items, str))
                else r.Err?
              else r == Ok(if "source_key" in fields then [str(fields["source_key"])] else [])
  {
    if parsed.None? {
      return Ok([body]);
    }
    var payload := parsed.value;
    if !payload.JObject? {
      return Ok([]);
    }
    if "Records" !in payload.fields || !Truthy(payload.fields["Records"]) {
      if "source_key" in payload.fields {
        return Ok([str(payload.fields["source_key"])]);
      }
      return Ok([]);
    }
    if !payload.fields["Records"].JArray? {
      return Err(ValueError);
    }
    var records := payload.fields["Records"].items;
    var keys: seq<string> := [];
    for i := 0 to |records|
      invariant RecordKeys(records[..i], str) == Ok(keys)
    {
      assert records[..i + 1][..i] == records[..i];
      var key := KeyOf(records[i]);
      if key.Err? {
        ErrorStays(records, i + 1, str);
        return Err(key.error);
      }
      if Truthy(key.value) {
        keys := keys + [str(key.value)];
      }
    }
    assert records[..|records|] == records;
    return Ok(keys);
  }

  // ---------- events that S3 sends ----------

  function Record(key: string): Json {
    JObject(map["s3" := JObject(map["object" := JObject(map["key" := JString(key)])])])
  }

  function Records(keys: seq<string>): seq<Json> {
    seq(|keys|, i requires 0 <= i < |keys| => Record(keys[i]))
  }

  /** Every key that an event names is read back, in order, and no other. */
  lemma {:induction false} EventRoundTrip(keys: seq<string>, str: Json -> string)
    requires forall k :: k in keys ==> k != ""
    requires forall s :: str(JString(s)) == s
    ensures RecordKeys(Records(keys), str) == Ok(keys)
  {
    hide KeyOf;
    if keys == [] {
      assert Records(keys) == [];
    } else {
      var init, last := keys[..|keys| - 1], keys[|keys| - 1];
      assert keys == init + [last];
      assert forall k :: k in init ==> k in keys;
      EventRoundTrip(init, str);
      assert Records(keys)[..|keys| - 1] == Records(init);
      RecordRoundTrip(last);
      hide Record;
      hide RecordKeys;
      RecordsStep(Records(keys), str);
      assert last in keys;
    }
  }

  lemma RecordsStep(records: seq<Json>, str: Json -> string)
    requires records != []
    ensures var init, key := RecordKeys(records[..|records| - 1], str), KeyOf(records[|records| - 1]);
            init.Ok? && key.Ok? ==>
              RecordKeys(records, str) == Ok(if Truthy(key.value) then init.value + [str(key.value)] else init.value)
  {
    hide KeyOf;
  }

  lemma RecordRoundTrip(key: string)
    ensures KeyOf(Record(key)) == Ok(JString(key))
  {
  }

  // ---------- records that S3 does not send ----------

  /** The record is no object, or what should lead to its key is none. */
  predicate Malformed(record: Json) {
    || !record.JObject?
    || ("s3" in record.fields &&
          (|| !record.fields["s3"].JObject?
           || ("object" in record.fields["s3"].fields && !record.fields["s3"].fields["object"].JObject?)))
  }

  /** `record["s3"]["object"]["key"]` is `key`. */
  predicate Names(record: Json, key: Json) {
    && record.JObject? && "s3" in record.fields
    && record.fields["s3"].JObject? && "object" in record.fields["s3"].fields
    && record.fields["s3"].fields["object"].JObject? && "key" in record.fields["s3"].fields["object"].fields
    && record.fields["s3"].fields["object"].fields["key"] == key
  }

  /**
    One record more: a malformed one fails the event; one with a text as its key adds that text if it
    is not empty; one with no key, or null, adds nothing.
   */
  lemma OneRecordMore(records: seq<Json>, record: Json, str: Json -> string)
    ensures RecordKeys(records + [record], str).Err? <==> RecordKeys(records, str).Err? || Malformed(record)
    ensures RecordKeys(records, str).Ok? ==>
              && (forall s :: Names(record, JString(s)) ==>
                    RecordKeys(records + [record], str) ==
                    Ok(RecordKeys(records, str).value + if s == "" then [] else [str(JString(s))]))
              && (!Malformed(record) && (forall key :: Names(record, key) ==> key == JNull) ==>
                    RecordKeys(records + [record], str) == RecordKeys(records, str))
  {
    assert (records + [record])[..|records|] == records;
    KeyExactly(record);
    hide KeyOf;
    hide Malformed;
    hide Names;
    if RecordKeys(records, str).Ok? {
      var keys := RecordKeys(records, str).value;
      assert keys + [] == keys;
    }
  }

  lemma KeyExactly(record: Json)
    ensures KeyOf(record).Err? <==> Malformed(record)
    ensures forall key :: Names(record, key) ==> KeyOf(record) == Ok(key)
    ensures !Malformed(record) && (forall key :: Names(record, key) ==> key == JNull) ==> KeyOf(record) == Ok(JNull)
  {
    if !Malformed(record) && KeyOf(record) != Ok(JNull) {
      assert Names(record, KeyOf(record).value);
    }
  }
}
