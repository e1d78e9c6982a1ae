/**
 * `BetterDataclass`: conversion of a dataclass instance to and from a
 * dict and a tuple. An instance is the map of the attributes set on the
 * object; an attribute that is not set falls back to the field's class
 * default. Values are dynamically typed, as in Python.
 */
module RecordsHelper {
  import opened Wrappers
  import opened StockRecords

  datatype Value = VStr(s: string) | VReal(x: real) | VBool(b: bool) | VTime(t: Timestamp) | VNone

  /** A dataclass field: its name, whether `__init__` takes it, and its default. */
  datatype Field = Field(name: string, init: bool, default: Option<Value>)

  /** Which `__post_init__` the class defines. */
  datatype Hook = NoPostInit | StockRecordPostInit

  datatype Schema = Schema(fields: seq<Field>, hook: Hook)

  type Instance = map<string, Value>

  datatype ClassError = TypeError | AttributeError | ValueError

  function Names(schema: Schema): set<string> {
    set i | 0 <= i < |schema.fields| :: schema.fields[i].name
  }

  /** Field names are distinct, as `@dataclass` guarantees. */
  predicate WellFormed(schema: Schema) {
    forall i, j :: 0 <= i < j < |schema.fields| ==> schema.fields[i].name != schema.fields[j].name
  }

  /** `getattr(instance, name)`: the attribute, else the class default. */
  function Get(schema: Schema, inst: Instance, i: nat): Option<Value>
    requires i < |schema.fields|
  {
    var f := schema.fields[i];
    if f.name in inst then Some(inst[f.name]) else f.default
  }

  /** Every field can be read. */
  predicate Complete(schema: Schema, inst: Instance) {
    forall i :: 0 <= i < |schema.fields| ==> Get(schema, inst, i).Some?
  }

  /** `to_dict`: exactly the field names, each mapped to its value. */
  function ToDict(schema: Schema, inst: Instance): (r: map<string, Value>)
    requires WellFormed(schema) && Complete(schema, inst)
    ensures r.Keys == Names(schema)
    ensures forall i :: 0 <= i < |schema.fields| ==> r[schema.fields[i].name] == Get(schema, inst, i).value
  {
    map i | 0 <= i < |schema.fields| :: schema.fields[i].name := Get(schema, inst, i).value
  }

  /** `to_tuple`: the field values in declaration order. */
  function ToTuple(schema: Schema, inst: Instance): (r: seq<Value>)
    requires Complete(schema, inst)
    ensures |r| == |schema.fields|
    ensures forall i :: 0 <= i < |r| ==> r[i] == Get(schema, inst, i).value
  {
    seq(|schema.fields|, i requires 0 <= i < |schema.fields| => Get(schema, inst, i).value)
  }

  /** The index of the field called `name`. */
  ghost function FieldIndex(schema: Schema, name: string): (i: nat)
    requires name in Names(schema)
    ensures i < |schema.fields| && schema.fields[i].name == name
  {
    var i :| 0 <= i < |schema.fields| && schema.fields[i].name == name; i
  }

  /**
   * `StockRecord.__post_init__`: `total_cost := np.double(shares * cost_per_share)`,
   * then a fresh `uid`. Reading an unset attribute raises AttributeError. A
   * bool is a number (True is 1, False is 0), so two numbers multiply; a string
   * times a bool repeats the string, which `np.double` then refuses
   * (ValueError); any other product is a TypeError. A class without
   * `__post_init__` raises AttributeError when `from_tuple` calls it.
   */
  function PostInit(schema: Schema, inst: Instance, freshUid: string): Result<Instance, ClassError> {
    match schema.hook
    case NoPostInit => Failure(AttributeError)
    case StockRecordPostInit =>
      if "shares" !in inst || "cost_per_share" !in inst then Failure(AttributeError)
      else
        var (a, b) := (inst["shares"], inst["cost_per_share"]);
        if Numeric(a).Some? && Numeric(b).Some? then
          Success(inst["total_cost" := VReal(Times(Numeric(a).value, Numeric(b).value))]["uid" := VStr(freshUid)])
        else if (a.VStr? && b.VBool?) || (a.VBool? && b.VStr?) then Failure(ValueError)
        else Failure(TypeError)
  }

  /** The number a value stands for in Python arithmetic: reals, and bools as 1 and 0. */
  function Numeric(v: Value): (r: Option<real>)
    ensures r.Some? <==> v.VReal? || v.VBool?
    ensures v.VReal? ==> r == Some(v.x)
    ensures v.VBool? ==> r == Some(if v.b then 1.0 else 0.0)
  {
    match v
    case VReal(x) => Some(x)
    case VBool(b) => Some(if b then 1.0 else 0.0)
    case _ => None
  }

  /** The product of two reals, named so that the solver can match it through the decoded values. */
  function Times(a: real, b: real): real {
    a * b
  }

  /**
   * With both factors set to numbers (reals or bools), `__post_init__` sets
   * `total_cost` to their product and a fresh `uid`.
   */
  lemma PostInitSetsTotalAndUid(schema: Schema, inst: Instance, shares: real, costPerShare: real, freshUid: string)
    requires schema.hook == StockRecordPostInit
    requires "shares" in inst && Numeric(inst["shares"]) == Some(shares)
    requires "cost_per_share" in inst && Numeric(inst["cost_per_share"]) == Some(costPerShare)
    ensures PostInit(schema, inst, freshUid)
      == Success(inst["total_cost" := VReal(Times(shares, costPerShare))]["uid" := VStr(freshUid)])
  {
  }

  /** `True` shares at 2.0 cost 2.0 in all: a bool operand is multiplied as the number 1. */
  lemma PostInitOfTrueShares(schema: Schema, inst: Instance, freshUid: string)
    requires schema.hook == StockRecordPostInit
    requires "shares" in inst && inst["shares"] == VBool(true)
    requires "cost_per_share" in inst && inst["cost_per_share"] == VReal(2.0)
    ensures PostInit(schema, inst, freshUid).Success?
    ensures PostInit(schema, inst, freshUid).value["total_cost"] == VReal(2.0)
  {
    PostInitSetsTotalAndUid(schema, inst, 1.0, 2.0, freshUid);
  }

  /**
   * A string times a bool is a string, which `np.double` does not take as a
   * number here: ValueError. Every other non-numeric product is a TypeError.
   */
  lemma PostInitRefusesNonNumbers(schema: Schema, inst: Instance, freshUid: string)
    requires schema.hook == StockRecordPostInit
    requires "shares" in inst && "cost_per_share" in inst
    requires Numeric(inst["shares"]).None? || Numeric(inst["cost_per_share"]).None?
    ensures PostInit(schema, inst, freshUid).Failure?
    ensures PostInit(schema, inst, freshUid).error == ValueError <==>
      ((inst["shares"].VStr? && inst["cost_per_share"].VBool?) || (inst["shares"].VBool? && inst["cost_per_share"].VStr?))
    ensures PostInit(schema, inst, freshUid).error != AttributeError
  {
  }

  /** A keyword argument names a field that `__init__` does not take. */
  predicate TakesNonInit(schema: Schema, kwargs: map<string, Value>) {
    exists i :: 0 <= i < |schema.fields| && !schema.fields[i].init && schema.fields[i].name in kwargs
  }

  /** An init field without a default has no keyword argument. */
  predicate MissesRequired(schema: Schema, kwargs: map<string, Value>) {
    exists i :: 0 <= i < |schema.fields| && schema.fields[i].init && schema.fields[i].name !in kwargs && schema.fields[i].default.None?
  }

  /** The attributes `__init__` sets: each init field from its argument, else its default. */
  function Initialized(schema: Schema, kwargs: map<string, Value>): (r: Instance)
    requires WellFormed(schema) && !MissesRequired(schema, kwargs)
    ensures r.Keys == set i | 0 <= i < |schema.fields| && schema.fields[i].init :: schema.fields[i].name
    ensures forall i :: 0 <= i < |schema.fields| && schema.fields[i].init ==>
      r[schema.fields[i].name] == if schema.fields[i].name in kwargs then kwargs[schema.fields[i].name] else schema.fields[i].default.value
  {
    map i | 0 <= i < |schema.fields| && schema.fields[i].init
      :: schema.fields[i].name := if schema.fields[i].name in kwargs then kwargs[schema.fields[i].name] else schema.fields[i].default.value
  }

  /**
   * `cls(**kwargs)` for keyword arguments that are field names: a field
   * outside `__init__`, or a missing field without default, is a TypeError;
   * otherwise the init fields are set and `__post_init__` runs if defined.
   */
  function Construct(schema: Schema, kwargs: map<string, Value>, freshUid: string): Result<Instance, ClassError>
    requires WellFormed(schema)
  {
    if TakesNonInit(schema, kwargs) || MissesRequired(schema, kwargs) then Failure(TypeError)
    else
      var inst := Initialized(schema, kwargs);
      if schema.hook == NoPostInit then Success(inst) else PostInit(schema, inst, freshUid)
  }

  /** `from_dict`: keep the keys that are field names, then construct. */
  function FromDict(schema: Schema, data: map<string, Value>, freshUid: string): Result<Instance, ClassError>
    requires WellFormed(schema)
  {
    Construct(schema, map k | k in data && k in Names(schema) :: data[k], freshUid)
  }

  /** Keys that are not field names make no difference. */
  lemma FromDictIgnoresExtraKeys(schema: Schema, data: map<string, Value>, extra: map<string, Value>, freshUid: string)
    requires WellFormed(schema)
    requires forall k :: k in extra ==> k !in Names(schema)
    ensures FromDict(schema, data + extra, freshUid) == FromDict(schema, data - extra.Keys, freshUid)
  {
    var a := map k | k in data + extra && k in Names(schema) :: (data + extra)[k];
    var b := map k | k in data - extra.Keys && k in Names(schema) :: (data - extra.Keys)[k];
    assert a == b;
  }

  /** The attributes `setattr` leaves after the first `n` pairs of `zip(fields, values)`. */
  function Zipped(schema: Schema, values: seq<Value>, n: nat): Instance
    requires n <= |schema.fields| && n <= |values|
  {
    if n == 0 then map[]
    else Zipped(schema, values, n - 1)[schema.fields[n - 1].name := values[n - 1]]
  }

  function Min(a: nat, b: nat): nat {
    if a <= b then a else b
  }

  /**
   * `from_tuple`: assign the fields positionally, as far as both the fields
   * and the tuple go, then run `__post_init__`.
   */
  method FromTuple(schema: Schema, values: seq<Value>, freshUid: string) returns (r: Result<Instance, ClassError>)
    ensures r == PostInit(schema, Zipped(schema, values, Min(|schema.fields|, |values|)), freshUid)
  {
    var inst: Instance := map[];
    var i := 0;
    while i < |schema.fields| && i < |values|
      invariant 0 <= i <= Min(|schema.fields|, |values|)
      invariant inst == Zipped(schema, values, i)
    {
      inst := inst[schema.fields[i].name := values[i]];
      i := i + 1;
    }
    r := PostInit(schema, inst, freshUid);
  }

  /** For distinct names, the zipped attributes are exactly the first `n` fields with their values. */
  lemma {:induction false} ZippedFields(schema: Schema, values: seq<Value>, n: nat)
    requires WellFormed(schema) && n <= |schema.fields| && n <= |values|
    ensures var z := Zipped(schema, values, n);
      && z.Keys == (set i | 0 <= i < n :: schema.fields[i].name)
      && forall i :: 0 <= i < n ==> z[schema.fields[i].name] == values[i]
  {
    ZippedKeys(schema, values, n);
    forall i | 0 <= i < n ensures Zipped(schema, values, n)[schema.fields[i].name] == values[i] {
      ZippedValue(schema, values, n, i);
    }
  }

  /** The zipped attributes are the first `n` field names. */
  lemma {:induction false} ZippedKeys(schema: Schema, values: seq<Value>, n: nat)
    requires n <= |schema.fields| && n <= |values|
    ensures Zipped(schema, values, n).Keys == (set i | 0 <= i < n :: schema.fields[i].name)
  {
    if n > 0 {
      ZippedKeys(schema, values, n - 1);
      assert (set i | 0 <= i < n :: schema.fields[i].name)
        == (set i | 0 <= i < n - 1 :: schema.fields[i].name) + {schema.fields[n - 1].name};
    }
  }

  /** Field `i` holds value `i`: no later field overwrites it, the names being distinct. */
  lemma {:induction false} ZippedValue(schema: Schema, values: seq<Value>, n: nat, i: nat)
    requires WellFormed(schema) && i < n <= |schema.fields| && n <= |values|
    ensures var z := Zipped(schema, values, n); schema.fields[i].name in z && z[schema.fields[i].name] == values[i]
  {
    if i < n - 1 {
      ZippedValue(schema, values, n - 1, i);
      assert schema.fields[i].name != schema.fields[n - 1].name;
    }
  }

  /** The instance whose every field is set, to the value at its position. */
  function Assigned(schema: Schema, values: seq<Value>): (r: Instance)
    requires WellFormed(schema) && |values| == |schema.fields|
    ensures r.Keys == Names(schema)
    ensures forall i :: 0 <= i < |values| ==> r[schema.fields[i].name] == values[i]
  {
    map i | 0 <= i < |values| :: schema.fields[i].name := values[i]
  }

  /** Assigning every field positionally sets each one. */
  lemma ZippedAll(schema: Schema, values: seq<Value>)
    requires WellFormed(schema) && |values| == |schema.fields|
    ensures Zipped(schema, values, |values|) == Assigned(schema, values)
  {
    ZippedFields(schema, values, |values|);
    var z := Zipped(schema, values, |values|);
    var a := Assigned(schema, values);
    forall k | k in z
      ensures z[k] == a[k]
    {
      var i := FieldIndex(schema, k);
    }
    SameMaps(z, a);
  }

  /** `to_tuple` reads back the values a fully assigned instance holds. */
  lemma TupleOfAssigned(schema: Schema, values: seq<Value>)
    requires WellFormed(schema) && |values| == |schema.fields|
    ensures Complete(schema, Assigned(schema, values))
    ensures ToTuple(schema, Assigned(schema, values)) == values
  {
  }

  /** Setting the attribute of field `i` is assigning a tuple with position `i` replaced. */
  lemma AssignedUpdate(schema: Schema, values: seq<Value>, i: nat, x: Value)
    requires WellFormed(schema) && |values| == |schema.fields| && i < |values|
    ensures Assigned(schema, values)[schema.fields[i].name := x] == Assigned(schema, values[i := x])
  {
    var a := Assigned(schema, values)[schema.fields[i].name := x];
    var b := Assigned(schema, values[i := x]);
    forall k | k in a
      ensures a[k] == b[k]
    {
      var j := FieldIndex(schema, k);
    }
    SameMaps(a, b);
  }

  // ---------------------------------------------------------------------
  // StockRecord

  /** `StockRecord`'s fields in declaration order; `importTime` is the class-level default timestamp. */
  function StockRecordSchema(importTime: Timestamp): (schema: Schema)
    ensures WellFormed(schema) && |schema.fields| == 10 && schema.hook == StockRecordPostInit
    ensures schema.fields[0].name == "uid" && schema.fields[5].name == "shares"
    ensures schema.fields[6].name == "cost_per_share" && schema.fields[7].name == "total_cost"
  {
    Schema([
      Field("uid", false, None),
      Field("timestamp", false, Some(VTime(importTime))),
      Field("symbol", true, None),
      Field("side", true, None),
      Field("order_type", true, None),
      Field("shares", true, None),
      Field("cost_per_share", true, None),
      Field("total_cost", false, None),
      Field("status", true, Some(VStr(PENDING))),
      Field("notes", true, Some(VNone))], StockRecordPostInit)
  }

  function OptionalText(o: Option<string>): Value {
    match o
    case None => VNone
    case Some(s) => VStr(s)
  }

  /** A stock record's attribute values in field order. */
  function RecordValues(d: StockData): (v: seq<Value>)
    ensures |v| == 10
  {
    [OptionalText(d.uid), VTime(d.timestamp), VStr(d.symbol), VStr(d.side), VStr(d.orderType),
     VReal(d.shares), VReal(d.costPerShare), VReal(d.totalCost), VStr(d.status), OptionalText(d.notes)]
  }

  /** The attributes of a constructed stock record, all set. */
  function RecordInstance(d: StockData, importTime: Timestamp): Instance {
    Assigned(StockRecordSchema(importTime), RecordValues(d))
  }

  /**
   * `from_tuple(to_tuple(r))` gives `r` back except for a fresh `uid` and
   * a recomputed `total_cost`.
   */
  lemma StockRecordTupleRoundTrip(d: StockData, importTime: Timestamp, freshUid: string)
    ensures var schema := StockRecordSchema(importTime);
      assert Complete(schema, RecordInstance(d, importTime));
      PostInit(schema, Zipped(schema, ToTuple(schema, RecordInstance(d, importTime)), 10), freshUid)
        == Success(RecordInstance(WithTotalCost(d).(uid := Some(freshUid)), importTime))
  {
    var schema := StockRecordSchema(importTime);
    var v := RecordValues(d);
    TupleOfAssigned(schema, v);
    ZippedAll(schema, v);
    RecordPostInit(d, importTime, freshUid);
  }

  /** `__post_init__` on a stock record's attributes recomputes the total and draws a new `uid`. */
  lemma RecordPostInit(d: StockData, importTime: Timestamp, freshUid: string)
    ensures PostInit(StockRecordSchema(importTime), RecordInstance(d, importTime), freshUid)
      == Success(RecordInstance(WithTotalCost(d).(uid := Some(freshUid)), importTime))
  {
    var schema := StockRecordSchema(importTime);
    var v := RecordValues(d);
    PostInitAssigned(schema, v, freshUid);
    SettledValues(d, freshUid);
  }

  /** The tuple positions `__post_init__` changes are those of `total_cost` and `uid`. */
  lemma SettledValues(d: StockData, freshUid: string)
    ensures var v := RecordValues(d);
      v[7 := VReal(Times(v[5].x, v[6].x))][0 := VStr(freshUid)] == RecordValues(WithTotalCost(d).(uid := Some(freshUid)))
  {
    var v := RecordValues(d);
    var e := WithTotalCost(d).(uid := Some(freshUid));
    assert e.totalCost == Times(d.shares, d.costPerShare);
    assert v[5] == VReal(d.shares) && v[6] == VReal(d.costPerShare);
    var w := v[7 := VReal(Times(v[5].x, v[6].x))][0 := VStr(freshUid)];
    assert w == RecordValues(e) by {
      assert w[7] == VReal(e.totalCost) && w[0] == OptionalText(e.uid);
    }
  }

  /** `__post_init__` on a fully assigned instance replaces the `total_cost` and `uid` positions. */
  lemma PostInitAssigned(schema: Schema, v: seq<Value>, freshUid: string)
    requires WellFormed(schema) && |v| == |schema.fields| >= 8 && schema.hook == StockRecordPostInit
    requires schema.fields[0].name == "uid" && schema.fields[5].name == "shares"
    requires schema.fields[6].name == "cost_per_share" && schema.fields[7].name == "total_cost"
    requires v[5].VReal? && v[6].VReal?
    ensures PostInit(schema, Assigned(schema, v), freshUid)
      == Success(Assigned(schema, v[7 := VReal(Times(v[5].x, v[6].x))][0 := VStr(freshUid)]))
  {
    var inst := Assigned(schema, v);
    PostInitSetsTotalAndUid(schema, inst, v[5].x, v[6].x, freshUid);
    AssignedUpdate(schema, v, 7, VReal(Times(v[5].x, v[6].x)));
    AssignedUpdate(schema, v[7 := VReal(Times(v[5].x, v[6].x))], 0, VStr(freshUid));
  }

  /** A tuple too short to reach `cost_per_share` leaves `__post_init__` reading an unset attribute. */
  lemma StockRecordShortTupleFails(importTime: Timestamp, values: seq<Value>, freshUid: string)
    requires |values| < 7
    ensures var schema := StockRecordSchema(importTime);
      PostInit(schema, Zipped(schema, values, |values|), freshUid) == Failure(AttributeError)
  {
    var schema := StockRecordSchema(importTime);
    ZippedFields(schema, values, |values|);
    var z := Zipped(schema, values, |values|);
    assert "cost_per_share" !in z by {
      forall i | 0 <= i < |values| ensures schema.fields[i].name != "cost_per_share" {
      }
    }
  }

  /**
   * `StockRecord.from_dict(r.to_dict())` raises TypeError: the dict carries
   * `uid`, `timestamp` and `total_cost`, which `__init__` does not take.
   */
  lemma StockRecordFromOwnDictFails(d: StockData, importTime: Timestamp, freshUid: string)
    ensures var schema := StockRecordSchema(importTime);
      assert Complete(schema, RecordInstance(d, importTime));
      FromDict(schema, ToDict(schema, RecordInstance(d, importTime)), freshUid) == Failure(TypeError)
  {
    var schema := StockRecordSchema(importTime);
    assert Complete(schema, RecordInstance(d, importTime));
    var kwargs := map k | k in ToDict(schema, RecordInstance(d, importTime)) && k in Names(schema) :: ToDict(schema, RecordInstance(d, importTime))[k];
    assert schema.fields[0].name in kwargs;
  }

  // ---------------------------------------------------------------------
  // Classes whose fields are all init fields with defaults

  /** Every field is taken by `__init__` and has a default, and there is no `__post_init__`. */
  predicate PlainDefaults(schema: Schema) {
    && WellFormed(schema) && schema.hook == NoPostInit
    && forall i :: 0 <= i < |schema.fields| ==> schema.fields[i].init && schema.fields[i].default.Some?
  }

  /** The attributes a complete instance shows, all set. */
  function Settled(schema: Schema, inst: Instance): Instance
    requires WellFormed(schema) && Complete(schema, inst)
  {
    ToDict(schema, inst)
  }

  /** `from_dict(to_dict(r))` is `r`, every attribute set as `__init__` sets it. */
  lemma PlainFromDictToDict(schema: Schema, inst: Instance, freshUid: string)
    requires PlainDefaults(schema) && Complete(schema, inst)
    ensures FromDict(schema, ToDict(schema, inst), freshUid) == Success(Settled(schema, inst))
  {
    var dict := ToDict(schema, inst);
    var kwargs := map k | k in dict && k in Names(schema) :: dict[k];
    assert kwargs == dict;
    assert !TakesNonInit(schema, kwargs);
    assert !MissesRequired(schema, kwargs);
    InitializedAll(schema, dict);
  }

  /** When every field has an argument, `__init__` sets exactly the arguments. */
  lemma InitializedAll(schema: Schema, kwargs: map<string, Value>)
    requires PlainDefaults(schema) && kwargs.Keys == Names(schema)
    ensures !MissesRequired(schema, kwargs) && Initialized(schema, kwargs) == kwargs
  {
    var built := Initialized(schema, kwargs);
    assert built.Keys == kwargs.Keys by {
      forall k | k in kwargs ensures k in built {
        var i := FieldIndex(schema, k);
      }
    }
    forall k | k in built
      ensures built[k] == kwargs[k]
    {
      var i := FieldIndex(schema, k);
    }
    SameMaps(built, kwargs);
  }

  lemma SameMaps(a: Instance, b: Instance)
    requires a.Keys == b.Keys && forall k :: k in a ==> a[k] == b[k]
    ensures a == b
  {
  }

  /** Missing keys take their defaults and `from_dict` of such a class never raises. */
  lemma PlainFromDictDefaults(schema: Schema, data: map<string, Value>, freshUid: string)
    requires PlainDefaults(schema)
    ensures var r := FromDict(schema, data, freshUid);
      && r.Success?
      && r.value.Keys == Names(schema)
      && forall i :: 0 <= i < |schema.fields| ==>
           r.value[schema.fields[i].name] == if schema.fields[i].name in data then data[schema.fields[i].name] else schema.fields[i].default.value
  {
  }

  /** The value `__init__` gives each field of a plain class called with the dict's keys. */
  function Defaulted(schema: Schema, data: map<string, Value>): (v: seq<Value>)
    requires PlainDefaults(schema)
    ensures |v| == |schema.fields|
    ensures forall i :: 0 <= i < |v| ==>
      v[i] == if schema.fields[i].name in data then data[schema.fields[i].name] else schema.fields[i].default.value
  {
    seq(|schema.fields|, i requires 0 <= i < |schema.fields| =>
      if schema.fields[i].name in data then data[schema.fields[i].name] else schema.fields[i].default.value)
  }

  /** `from_dict` of a plain class sets every field, positionally, to its `Defaulted` value. */
  lemma PlainFromDictIsAssigned(schema: Schema, data: map<string, Value>, freshUid: string)
    requires PlainDefaults(schema)
    ensures FromDict(schema, data, freshUid) == Success(Assigned(schema, Defaulted(schema, data)))
  {
    PlainFromDictDefaults(schema, data, freshUid);
    var r := FromDict(schema, data, freshUid).value;
    var a := Assigned(schema, Defaulted(schema, data));
    forall k | k in r
      ensures r[k] == a[k]
    {
      var i := FieldIndex(schema, k);
    }
    SameMaps(r, a);
  }

  /** `to_dict` of a fully assigned instance is that instance. */
  lemma ToDictOfAssigned(schema: Schema, values: seq<Value>)
    requires WellFormed(schema) && |values| == |schema.fields|
    ensures Complete(schema, Assigned(schema, values))
    ensures ToDict(schema, Assigned(schema, values)) == Assigned(schema, values)
  {
    var a := Assigned(schema, values);
    var d := ToDict(schema, a);
    forall k | k in d
      ensures d[k] == a[k]
    {
      var i := FieldIndex(schema, k);
    }
    SameMaps(d, a);
  }

  /** Reading the arguments back from a fully assigned dict gives its values. */
  lemma DefaultedAssigned(schema: Schema, values: seq<Value>)
    requires PlainDefaults(schema) && |values| == |schema.fields|
    ensures Defaulted(schema, Assigned(schema, values)) == values
  {
  }

  /** Only the keys that are field names matter to `Defaulted`. */
  lemma DefaultedIgnoresOtherKeys(schema: Schema, data: map<string, Value>)
    requires PlainDefaults(schema)
    ensures Defaulted(schema, map k | k in data && k in Names(schema) :: data[k]) == Defaulted(schema, data)
  {
    var filtered := map k | k in data && k in Names(schema) :: data[k];
    forall i | 0 <= i < |schema.fields|
      ensures Defaulted(schema, filtered)[i] == Defaulted(schema, data)[i]
    {
      assert schema.fields[i].name in Names(schema);
    }
  }

  /** A class without `__post_init__` cannot be built by `from_tuple`. */
  lemma FromTupleNeedsPostInit(schema: Schema, values: seq<Value>, freshUid: string)
    requires schema.hook == NoPostInit
    ensures PostInit(schema, Zipped(schema, values, Min(|schema.fields|, |values|)), freshUid) == Failure(AttributeError)
  {
  }
}
