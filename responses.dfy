/**
 * The two response envelopes: `ServerResponse`, a `BetterDataclass`, and
 * the GUI's `Response`, which has its own `to_dict` and a `from_dict` that
 * drops unknown keys. Both carry `success`, `error`, `data`, `debug` and
 * `extra`, every one an `__init__` argument with a default.
 */
module Responses {
  import opened Wrappers
  import opened RecordsHelper

  /** The five attributes, dynamically typed as in Python. */
  datatype Fields = Fields(success: Value, error: Value, data: Value, debug: Value, extra: Value)

  /** The class defaults, which `reset` also restores. */
  const DEFAULTS: Fields := Fields(VBool(false), VStr(""), VStr(""), VStr(""), VStr(""))

  function ResponseSchema(): (schema: Schema)
    ensures PlainDefaults(schema) && |schema.fields| == 5
    ensures Names(schema) == {"success", "error", "data", "debug", "extra"}
  {
    var schema := Schema([
      Field("success", true, Some(DEFAULTS.success)),
      Field("error", true, Some(DEFAULTS.error)),
      Field("data", true, Some(DEFAULTS.data)),
      Field("debug", true, Some(DEFAULTS.debug)),
      Field("extra", true, Some(DEFAULTS.extra))], NoPostInit);
    assert schema.fields[0].name == "success" && schema.fields[1].name == "error";
    assert schema.fields[2].name == "data" && schema.fields[3].name == "debug" && schema.fields[4].name == "extra";
    schema
  }

  function Values(f: Fields): seq<Value> {
    [f.success, f.error, f.data, f.debug, f.extra]
  }

  /** The attributes of a response object. */
  function Attributes(f: Fields): Instance {
    Assigned(ResponseSchema(), Values(f))
  }

  /** The attributes in field order. */
  function FieldsOf(v: seq<Value>): (f: Fields)
    requires |v| == 5
    ensures Values(f) == v
  {
    Fields(v[0], v[1], v[2], v[3], v[4])
  }

  /** `asdict`: each field name mapped to its value. */
  function AsDict(f: Fields): (r: map<string, Value>)
    ensures r.Keys == Names(ResponseSchema())
    ensures var schema := ResponseSchema();
      forall i :: 0 <= i < 5 ==> r[schema.fields[i].name] == Values(f)[i]
  {
    Assigned(ResponseSchema(), Values(f))
  }

  /** `Response.from_dict`: keep the keys that are field names, then call the constructor. */
  function FilteredFromDict(data: map<string, Value>): Fields {
    var schema := ResponseSchema();
    FieldsOf(Defaulted(schema, map k | k in data && k in Names(schema) :: data[k]))
  }

  /** `Response.from_dict(r.to_dict())` rebuilds `r`. */
  lemma ResponseRoundTrip(f: Fields)
    ensures FilteredFromDict(AsDict(f)) == f
  {
    var schema := ResponseSchema();
    DefaultedIgnoresOtherKeys(schema, AsDict(f));
    DefaultedAssigned(schema, Values(f));
  }

  /** Missing keys take their defaults, and keys that are not field names are ignored. */
  lemma FilteredFromDictDefaults(data: map<string, Value>, k: string)
    ensures FilteredFromDict(map[]) == DEFAULTS
    ensures k !in Names(ResponseSchema()) ==> FilteredFromDict(data[k := VNone]) == FilteredFromDict(data)
  {
    FilteredFromEmpty();
    if k !in Names(ResponseSchema()) {
      FilteredIgnoresOtherKey(data, k);
    }
  }

  lemma FilteredFromEmpty()
    ensures FilteredFromDict(map[]) == DEFAULTS
  {
    var schema := ResponseSchema();
    var empty: map<string, Value> := map[];
    assert (map j | j in empty && j in Names(schema) :: empty[j]) == empty;
    assert Defaulted(schema, empty) == Values(DEFAULTS);
  }

  lemma FilteredIgnoresOtherKey(data: map<string, Value>, k: string)
    requires k !in Names(ResponseSchema())
    ensures FilteredFromDict(data[k := VNone]) == FilteredFromDict(data)
  {
    var names := Names(ResponseSchema());
    assert (map j | j in data[k := VNone] && j in names :: data[k := VNone][j])
      == (map j | j in data && j in names :: data[j]);
  }

  /** `BetterDataclass.to_dict` on a `ServerResponse` is its `asdict`. */
  lemma ToDictIsAsDict(f: Fields)
    ensures ToDict(ResponseSchema(), Attributes(f)) == AsDict(f)
  {
    ToDictOfAssigned(ResponseSchema(), Values(f));
  }

  /**
   * `Response.from_dict` and `BetterDataclass.from_dict` agree on the
   * response fields: both succeed on every dict and build the same object.
   */
  lemma FromDictsAgree(data: map<string, Value>, freshUid: string)
    ensures FromDict(ResponseSchema(), data, freshUid) == Success(Attributes(FilteredFromDict(data)))
  {
    var schema := ResponseSchema();
    PlainFromDictIsAssigned(schema, data, freshUid);
    DefaultedIgnoresOtherKeys(schema, data);
  }

  /** `ServerResponse.from_dict(r.to_dict())` rebuilds `r`. */
  lemma ServerResponseRoundTrip(f: Fields, freshUid: string)
    ensures FromDict(ResponseSchema(), ToDict(ResponseSchema(), Attributes(f)), freshUid) == Success(Attributes(f))
  {
    ToDictIsAsDict(f);
    FromDictsAgree(AsDict(f), freshUid);
    ResponseRoundTrip(f);
  }

  /** `ServerResponse.from_tuple` raises AttributeError: the class has no `__post_init__`. */
  lemma ServerResponseFromTupleFails(values: seq<Value>, freshUid: string)
    ensures var schema := ResponseSchema();
      PostInit(schema, Zipped(schema, values, Min(|schema.fields|, |values|)), freshUid) == Failure(AttributeError)
  {
    FromTupleNeedsPostInit(ResponseSchema(), values, freshUid);
  }

  class ServerResponse {
    var success: Value
    var error: Value
    var data: Value
    var debug: Value
    var extra: Value

    function Snapshot(): Fields
      reads this
    {
      Fields(success, error, data, debug, extra)
    }

    constructor (success: Value := VBool(false), error: Value := VStr(""), data: Value := VStr(""),
                 debug: Value := VStr(""), extra: Value := VStr(""))
      ensures Snapshot() == Fields(success, error, data, debug, extra)
    {
      this.success := success;
      this.error := error;
      this.data := data;
      this.debug := debug;
      this.extra := extra;
    }

    /** `reset`: every attribute back to its class default. */
    method Reset()
      modifies this
      ensures Snapshot() == DEFAULTS
    {
      success := VBool(false);
      error := VStr("");
      data := VStr("");
      debug := VStr("");
      extra := VStr("");
    }

    /** `to_dict`, inherited from `BetterDataclass`. */
    function ToDict(): (r: map<string, Value>)
      reads this
      ensures r == AsDict(Snapshot())
    {
      ToDictIsAsDict(Snapshot());
      RecordsHelper.ToDict(ResponseSchema(), Attributes(Snapshot()))
    }
  }

  class Response {
    var success: Value
    var error: Value
    var data: Value
    var debug: Value
    var extra: Value

    function Snapshot(): Fields
      reads this
    {
      Fields(success, error, data, debug, extra)
    }

    constructor (success: Value := VBool(false), error: Value := VStr(""), data: Value := VStr(""),
                 debug: Value := VStr(""), extra: Value := VStr(""))
      ensures Snapshot() == Fields(success, error, data, debug, extra)
    {
      this.success := success;
      this.error := error;
      this.data := data;
      this.debug := debug;
      this.extra := extra;
    }

    /** `reset`: every attribute back to its class default. */
    method Reset()
      modifies this
      ensures Snapshot() == DEFAULTS
    {
      success := VBool(false);
      error := VStr("");
      data := VStr("");
      debug := VStr("");
      extra := VStr("");
    }

    /** `to_dict`: `asdict(self)`. */
    function ToDict(): (r: map<string, Value>)
      reads this
      ensures r.Keys == Names(ResponseSchema())
      ensures FilteredFromDict(r) == Snapshot()
    {
      ResponseRoundTrip(Snapshot());
      AsDict(Snapshot())
    }

    /** `from_dict`: a new response built from the known keys of `data`. */
    static method FromDict(data: map<string, Value>) returns (r: Response)
      ensures fresh(r) && r.Snapshot() == FilteredFromDict(data)
    {
      var f := FilteredFromDict(data);
      r := new Response(f.success, f.error, f.data, f.debug, f.extra);
    }
  }
}
