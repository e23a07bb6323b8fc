/**
 * What the write handlers do to a request body or a fetched row before a
 * statement is built from it: `create_station` rejects a falsy body, drops
 * `ID` and forces `IsActive` to a boolean; `update_station` drops `ID`;
 * `clone_station` deletes `ID` from the source row.
 */
module Payloads {
  import opened Wrappers
  import opened Json
  import opened Dicts
  import opened Errors

  /** The identity column, assigned by the database. */
  const Identity := "ID"
  /** The active flag, always written by a create. */
  const ActiveFlag := "IsActive"

  /** A create body after normalisation (`function_app.py` lines 724-732), on the decoded dictionary. */
  function CreateFields(d: seq<(string, Value)>): seq<(string, Value)>
  {
    var stripped := Remove(d, Identity);
    match Get(stripped, ActiveFlag)
    case Some(v) => Put(stripped, ActiveFlag, Bool(Truthy(v)))
    case None => Put(stripped, ActiveFlag, Bool(true))
  }

  /**
   * The column/value pairs `create_station` inserts, or why it fails. The
   * body is checked for emptiness before `ID` is dropped.
   */
  function CreatePayload(body: Option<Value>): (r: Result<seq<(string, Value)>, Error>)
    ensures r.Success? <==> body.Some? && body.value.Object? && |body.value.fields| > 0
    ensures r == Failure(EmptyBody) <==> body.Some? && !Truthy(body.value)
  {
    match body
    case None => Failure(BodyNotJson)
    case Some(v) =>
      if !Truthy(v) then Failure(EmptyBody)
      else if v.Object? then Success(CreateFields(FromPairs(v.fields)))
      else Failure(BodyNotObject)
  }

  /** The column/value pairs `update_station` writes, or why it fails; an empty object is accepted. */
  function UpdatePayload(body: Option<Value>): (r: Result<seq<(string, Value)>, Error>)
    ensures r.Success? <==> body.Some? && body.value.Object?
  {
    match body
    case None => Failure(BodyNotJson)
    case Some(v) =>
      if v.Object? then Success(Remove(FromPairs(v.fields), Identity))
      else Failure(BodyNotObject)
  }

  /** The clone's payload: the source row without `ID`; a row without `ID` raises `KeyError`. */
  function ClonePayload(source: seq<(string, Value)>): (r: Result<seq<(string, Value)>, Error>)
    ensures r.Success? <==> Identity in Keys(source)
  {
    if Identity in Keys(source) then Success(Remove(source, Identity))
    else Failure(IdentityMissing)
  }

  // ----- properties of the create normalisation -----

  /** After normalisation the payload is a dictionary with no `ID` and with `IsActive`. */
  lemma CreateFieldsKeys(d: seq<(string, Value)>)
    requires DistinctKeys(d)
    ensures DistinctKeys(CreateFields(d))
    ensures Identity !in Keys(CreateFields(d))
    ensures ActiveFlag in Keys(CreateFields(d))
    ensures forall k :: k in Keys(CreateFields(d)) <==> k == ActiveFlag || (k in Keys(d) && k != Identity)
  {
    var stripped := Remove(d, Identity);
    RemoveKeys(d, Identity);
    match Get(stripped, ActiveFlag)
    case Some(v) =>
      PutDistinct(stripped, ActiveFlag, Bool(Truthy(v)));
      PutKeys(stripped, ActiveFlag, Bool(Truthy(v)));
    case None =>
      PutDistinct(stripped, ActiveFlag, Bool(true));
      PutKeys(stripped, ActiveFlag, Bool(true));
  }

  /**
   * `IsActive` ends up a boolean: the truthiness of the value sent, or
   * `True` when none was sent.
   */
  lemma CreateActiveFlag(d: seq<(string, Value)>)
    requires DistinctKeys(d)
    ensures Get(CreateFields(d), ActiveFlag) ==
      Some(Bool(match Get(d, ActiveFlag) case Some(v) => Truthy(v) case None => true))
  {
    var stripped := Remove(d, Identity);
    RemoveGet(d, Identity, ActiveFlag);
    match Get(stripped, ActiveFlag)
    case Some(v) => PutGet(stripped, ActiveFlag, Bool(Truthy(v)), ActiveFlag);
    case None => PutGet(stripped, ActiveFlag, Bool(true), ActiveFlag);
  }

  /** Every other key keeps the value the client sent. */
  lemma CreateKeepsOtherValues(d: seq<(string, Value)>, k: string)
    requires DistinctKeys(d)
    requires k != Identity && k != ActiveFlag
    ensures Get(CreateFields(d), k) == Get(d, k)
  {
    var stripped := Remove(d, Identity);
    RemoveGet(d, Identity, k);
    match Get(stripped, ActiveFlag)
    case Some(v) => PutGet(stripped, ActiveFlag, Bool(Truthy(v)), k);
    case None => PutGet(stripped, ActiveFlag, Bool(true), k);
  }

  /**
   * The order of the payload: the client's pairs without `ID`, in the
   * client's order; a sent `IsActive` stays where it was with its coerced
   * value, a missing one is appended last as `True`.
   */
  lemma CreateFieldsOrder(d: seq<(string, Value)>)
    requires DistinctKeys(d)
    ensures ActiveFlag !in Keys(d) ==> CreateFields(d) == Remove(d, Identity) + [(ActiveFlag, Bool(true))]
    ensures ActiveFlag in Keys(d) ==>
      var stripped := Remove(d, Identity);
      ActiveFlag in Keys(stripped) &&
      CreateFields(d) == stripped[IndexOf(stripped, ActiveFlag) := (ActiveFlag, Bool(Truthy(Get(d, ActiveFlag).value)))]
  {
    var stripped := Remove(d, Identity);
    RemoveKeys(d, Identity);
    RemoveGet(d, Identity, ActiveFlag);
    match Get(stripped, ActiveFlag)
    case Some(v) => PutPresent(stripped, ActiveFlag, Bool(Truthy(v)));
    case None => PutAbsent(stripped, ActiveFlag, Bool(true));
  }

  /** A body holding only `ID` is not empty, so it is accepted and becomes `{IsActive: True}`. */
  lemma CreateFromIdentityOnly(id: Value)
    ensures CreatePayload(Some(Object([(Identity, id)]))) == Success([(ActiveFlag, Bool(true))])
  {
    var d := FromPairs([(Identity, id)]);
    var one := [(Identity, id)];
    assert one[..0] == [] && one[0] == (Identity, id);
    assert FromPairs(one[..0]) == [];
    assert Put([], Identity, id) == one;
    assert d == one;
    assert Remove(d, Identity) == [];
  }

  /**
   * Where `ID` is spelled differently it is not the key `ID` and is kept:
   * the dictionary operations compare keys exactly.
   */
  lemma CreateKeepsOtherSpellingsOfIdentity(v: Value)
    ensures CreatePayload(Some(Object([("id", v)]))) == Success([("id", v), (ActiveFlag, Bool(true))])
  {
    var d := FromPairs([("id", v)]);
    var one := [("id", v)];
    assert one[..0] == [] && one[0] == ("id", v);
    assert FromPairs(one[..0]) == [];
    assert Put([], "id", v) == one;
    assert d == one;
    assert "id" != Identity && "id" != ActiveFlag;
    assert Remove(d, Identity) == d;
    assert Get(d, ActiveFlag) == None;
    assert Put(d, ActiveFlag, Bool(true)) == [("id", v)] + Put([], ActiveFlag, Bool(true));
    assert Put([], ActiveFlag, Bool(true)) == [(ActiveFlag, Bool(true))];
    assert CreateFields(d) == [("id", v), (ActiveFlag, Bool(true))];
  }

  // ----- properties of the update and clone payloads -----

  /**
   * An update writes every key of the body except `ID`, with its value; a
   * body without repeated keys keeps its own pairs, in its order, minus the
   * `ID` pair (whose position `RemoveOrder` gives).
   */
  lemma UpdatePayloadFields(fields: seq<(string, Value)>)
    ensures UpdatePayload(Some(Object(fields))).Success?
    ensures var p := UpdatePayload(Some(Object(fields))).value;
      && DistinctKeys(p)
      && Identity !in Keys(p)
      && (forall k :: k in Keys(p) <==> k in Keys(fields) && k != Identity)
      && (forall k :: k != Identity ==> Get(p, k) == Get(FromPairs(fields), k))
      && (DistinctKeys(fields) ==> p == Remove(fields, Identity))
  {
    var d := FromPairs(fields);
    if DistinctKeys(fields) {
      FromPairsOfDistinct(fields);
    }
    FromPairsKeys(fields);
    RemoveKeys(d, Identity);
    forall k | k != Identity ensures Get(Remove(d, Identity), k) == Get(d, k) {
      RemoveGet(d, Identity, k);
    }
  }

  /** An empty update body is accepted and writes nothing but the statement's own `ID = ?`. */
  lemma UpdateOfEmptyBody()
    ensures UpdatePayload(Some(Object([]))) == Success([])
  {
  }

  /**
   * Whatever the column order, a clone payload holds no `ID` and every
   * other column of the fetched record, with its value.
   */
  lemma ClonePayloadOfRecord(columns: seq<string>, row: seq<Value>)
    ensures var source := Record(columns, row);
      ClonePayload(source).Success? ==>
        var p := ClonePayload(source).value;
        && DistinctKeys(p)
        && Identity !in Keys(p)
        && (forall k :: k in Keys(p) <==> k in Keys(source) && k != Identity)
        && (forall k :: k != Identity ==> Get(p, k) == Get(source, k))
  {
    var source := Record(columns, row);
    FromPairsKeys(Zip(columns, row));
    RemoveKeys(source, Identity);
    forall k | k != Identity ensures Get(Remove(source, Identity), k) == Get(source, k) {
      RemoveGet(source, Identity, k);
    }
  }

  /**
   * Cloning a row whose distinct columns start with `ID` copies every other
   * column with its value, in the row's order.
   */
  lemma ClonePayloadOfRow(columns: seq<string>, id: Value, values: seq<Value>)
    requires Distinct([Identity] + columns)
    requires |values| == |columns|
    ensures ClonePayload(Record([Identity] + columns, [id] + values)) == Success(Zip(columns, values))
  {
    var all := [Identity] + columns;
    var row := [id] + values;
    RecordOfDistinctColumns(all, row);
    var source := Record(all, row);
    assert source == [(Identity, id)] + Zip(columns, values);
    KeysCons(source);
  }

  // ----- the handlers' in-place changes to the dictionary -----

  /** `function_app.py` lines 724-732 (`create_station`), on the request dictionary itself. */
  method NormalizeForCreate(body: Dict)
    requires body.Valid()
    modifies body
    ensures body.Valid()
    ensures body.items == CreateFields(old(body.items))
  {
    if body.Contains(Identity) {
      var found := body.Delete(Identity);
    } else {
      RemoveOrder(body.items, Identity);
    }
    var active := body.Lookup(ActiveFlag);
    if active.Some? {
      body.Assign(ActiveFlag, Bool(Truthy(active.value)));
    } else {
      body.Assign(ActiveFlag, Bool(true));
    }
  }

  /** `function_app.py` lines 781-783 (`update_station`): drop `ID` if present. */
  method StripIdentity(body: Dict)
    requires body.Valid()
    modifies body
    ensures body.Valid()
    ensures body.items == Remove(old(body.items), Identity)
  {
    if body.Contains(Identity) {
      var found := body.Delete(Identity);
    } else {
      RemoveOrder(body.items, Identity);
    }
  }
}
