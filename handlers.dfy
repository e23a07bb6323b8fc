/**
 * The HTTP handlers of the station table, with the database taken out:
 * what a query returns (its column names and rows) is an input, and the
 * write statement a handler would execute is part of its reply. Each
 * handler is a function that says what the request leads to and a method
 * that does it the way the handler does, changing the request dictionary
 * in place and appending to result lists.
 */
module Handlers {
  import opened Wrappers
  import opened Json
  import opened Dicts
  import opened Text
  import opened Auth
  import opened Errors
  import opened Payloads
  import opened Statements
  import opened Schema

  /** A station record: `dict(zip(columns, row))`. */
  type Station = seq<(string, Value)>

  /** The dynamic write statement a handler executes, if it gets that far, and its answer. */
  datatype Reply = Reply(issued: Option<Statement>, station: Result<Station, Error>)

  /** Python's `not row` on a fetched row: no row, or a row of no columns. */
  predicate NoRow(row: Option<seq<Value>>)
  {
    row == None || row == Some([])
  }

  /**
   * `create_station`. `columns` and `inserted` are what the INSERT's
   * `OUTPUT INSERTED.*` returns.
   */
  function CreateReply(env: Environment, headers: Headers, body: Option<Value>,
                       columns: seq<string>, inserted: Option<seq<Value>>): Reply
  {
    var (ok, message) := CheckAuthentication(env, headers);
    if !ok then Reply(None, Failure(Unauthorized(message)))
    else
      match CreatePayload(body)
      case Failure(e) => Reply(None, Failure(e))
      case Success(payload) =>
        var s := InsertReturning(payload);
        if NoRow(inserted) then Reply(Some(s), Failure(NoInsertedRow))
        else Reply(Some(s), Success(Record(columns, inserted.value)))
  }

  /**
   * `update_station`. `columns` and `row` are what the re-read
   * `SELECT * ... WHERE ID = ?` returns after the UPDATE.
   */
  function UpdateReply(env: Environment, headers: Headers, stationId: string, body: Option<Value>,
                       columns: seq<string>, row: Option<seq<Value>>): Reply
  {
    var (ok, message) := CheckAuthentication(env, headers);
    if !ok then Reply(None, Failure(Unauthorized(message)))
    else
      match UpdatePayload(body)
      case Failure(e) => Reply(None, Failure(e))
      case Success(payload) =>
        var s := UpdateById(payload, stationId);
        if row.None? then Reply(Some(s), Failure(RowMissing))
        else Reply(Some(s), Success(Record(columns, row.value)))
  }

  /**
   * `clone_station`. `columns` and `source` are what the first
   * `SELECT * ... WHERE ID = ?` returns, `created` the row the
   * `SCOPE_IDENTITY()` read returns. The reply's keys are those of the
   * `', '`-joined column list split on `','`.
   */
  function CloneReply(env: Environment, headers: Headers, columns: seq<string>,
                      source: Option<seq<Value>>, created: Option<seq<Value>>): Reply
  {
    var (ok, message) := CheckAuthentication(env, headers);
    if !ok then Reply(None, Failure(Unauthorized(message)))
    else if source.None? then Reply(None, Failure(RowMissing))
    else
      match ClonePayload(Record(columns, source.value))
      case Failure(e) => Reply(None, Failure(e))
      case Success(payload) =>
        var s := Insert(payload);
        if created.None? then Reply(Some(s), Failure(RowMissing))
        else Reply(Some(s), Success(Record(Split(ColumnList(Keys(payload)), ','), created.value)))
  }

  /** `get_stations`: one record per row of `SELECT * FROM StationTracking`. */
  function ListReply(env: Environment, headers: Headers, columns: seq<string>, rows: seq<seq<Value>>)
    : Result<seq<Station>, Error>
  {
    var (ok, message) := CheckAuthentication(env, headers);
    if !ok then Failure(Unauthorized(message))
    else Success(seq(|rows|, i requires 0 <= i < |rows| => Record(columns, rows[i])))
  }

  /** `get_schema`. */
  function SchemaReply(env: Environment, headers: Headers, rows: seq<ColumnRow>)
    : Result<seq<ColumnDescriptor>, Error>
  {
    var (ok, message) := CheckAuthentication(env, headers);
    if !ok then Failure(Unauthorized(message))
    else if |rows| == 0 then Failure(NoSchema)
    else Success(Descriptors(rows))
  }

  // ----- the handlers as `function_app.py` runs them -----

  method CreateStation(env: Environment, headers: Headers, body: Option<Value>,
                       columns: seq<string>, inserted: Option<seq<Value>>) returns (reply: Reply)
    ensures reply == CreateReply(env, headers, body, columns, inserted)
  {
    var (ok, message) := CheckAuthentication(env, headers);
    if !ok {
      return Reply(None, Failure(Unauthorized(message)));
    }
    if body.None? {
      return Reply(None, Failure(BodyNotJson));
    }
    var v := body.value;
    if !Truthy(v) {
      return Reply(None, Failure(EmptyBody));
    }
    if !v.Object? {
      return Reply(None, Failure(BodyNotObject));
    }
    var requestBody := new Dict.FromMembers(v.fields);
    NormalizeForCreate(requestBody);
    var s := InsertReturning(requestBody.items);
    if NoRow(inserted) {
      return Reply(Some(s), Failure(NoInsertedRow));
    }
    reply := Reply(Some(s), Success(Record(columns, inserted.value)));
  }

  method UpdateStation(env: Environment, headers: Headers, stationId: string, body: Option<Value>,
                       columns: seq<string>, row: Option<seq<Value>>) returns (reply: Reply)
    ensures reply == UpdateReply(env, headers, stationId, body, columns, row)
  {
    var (ok, message) := CheckAuthentication(env, headers);
    if !ok {
      return Reply(None, Failure(Unauthorized(message)));
    }
    if body.None? || !body.value.Object? {
      return Reply(None, Failure(if body.None? then BodyNotJson else BodyNotObject));
    }
    var requestBody := new Dict.FromMembers(body.value.fields);
    StripIdentity(requestBody);
    var s := UpdateById(requestBody.items, stationId);
    if row.None? {
      return Reply(Some(s), Failure(RowMissing));
    }
    reply := Reply(Some(s), Success(Record(columns, row.value)));
  }

  method CloneStation(env: Environment, headers: Headers, columns: seq<string>,
                      source: Option<seq<Value>>, created: Option<seq<Value>>) returns (reply: Reply)
    ensures reply == CloneReply(env, headers, columns, source, created)
  {
    var (ok, message) := CheckAuthentication(env, headers);
    if !ok {
      return Reply(None, Failure(Unauthorized(message)));
    }
    if source.None? {
      return Reply(None, Failure(RowMissing));
    }
    var sourceStation := new Dict.FromMembers(Zip(columns, source.value));
    var found := sourceStation.Delete(Identity);
    if !found {
      return Reply(None, Failure(IdentityMissing));
    }
    var s := Insert(sourceStation.items);
    var columnList := ColumnList(Keys(sourceStation.items));
    if created.None? {
      return Reply(Some(s), Failure(RowMissing));
    }
    reply := Reply(Some(s), Success(Record(Split(columnList, ','), created.value)));
  }

  method ListStations(env: Environment, headers: Headers, columns: seq<string>, rows: seq<seq<Value>>)
    returns (r: Result<seq<Station>, Error>)
    ensures r == ListReply(env, headers, columns, rows)
  {
    var (ok, message) := CheckAuthentication(env, headers);
    if !ok {
      return Failure(Unauthorized(message));
    }
    var stations: seq<Station> := [];
    for i := 0 to |rows|
      invariant |stations| == i
      invariant forall j :: 0 <= j < i ==> stations[j] == Record(columns, rows[j])
    {
      var station := Record(columns, rows[i]);
      stations := stations + [station];
    }
    assert stations == seq(|rows|, i requires 0 <= i < |rows| => Record(columns, rows[i]));
    r := Success(stations);
  }

  method GetSchema(env: Environment, headers: Headers, rows: seq<ColumnRow>)
    returns (r: Result<seq<ColumnDescriptor>, Error>)
    ensures r == SchemaReply(env, headers, rows)
  {
    var (ok, message) := CheckAuthentication(env, headers);
    if !ok {
      return Failure(Unauthorized(message));
    }
    r := DescribeColumns(rows);
  }

  // ----- what the handlers guarantee -----

  /** A refused request reads nothing, writes nothing and answers with the refusal's message. */
  lemma RefusedRequestsWriteNothing(env: Environment, headers: Headers, body: Option<Value>, stationId: string,
                                    columns: seq<string>, row: Option<seq<Value>>, other: Option<seq<Value>>)
    requires !CheckAuthentication(env, headers).0
    ensures var refusal := Failure(Unauthorized(CheckAuthentication(env, headers).1));
      && CreateReply(env, headers, body, columns, row) == Reply(None, refusal)
      && UpdateReply(env, headers, stationId, body, columns, row) == Reply(None, refusal)
      && CloneReply(env, headers, columns, row, other) == Reply(None, refusal)
  {
  }

  /**
   * Whatever the client sends, the payload of a create INSERT never holds
   * the exact key `ID` and always holds `IsActive`, and (unless a name
   * holds `?`) the INSERT carries one placeholder per parameter. Keys are
   * spliced into the text, so a key such as `a, ID` still puts `ID` in the
   * column list.
   */
  lemma CreateWritesActiveNeverIdentity(env: Environment, headers: Headers, body: Option<Value>,
                                        columns: seq<string>, inserted: Option<seq<Value>>)
    ensures var reply := CreateReply(env, headers, body, columns, inserted);
      reply.issued.Some? ==>
        && CreatePayload(body).Success?
        && var payload := CreatePayload(body).value;
        && reply.issued.value == InsertReturning(payload)
        && Identity !in Keys(payload)
        && ActiveFlag in Keys(payload)
        && (Free(Keys(payload), '?') ==> Count(reply.issued.value.sql, '?') == |reply.issued.value.params|)
  {
    var reply := CreateReply(env, headers, body, columns, inserted);
    if reply.issued.Some? {
      var fields := body.value.fields;
      FromPairsKeys(fields);
      CreateFieldsKeys(FromPairs(fields));
      var payload := CreatePayload(body).value;
      if Free(Keys(payload), '?') {
        InsertReturningPlaceholders(payload);
      }
    }
  }

  /**
   * The payload of an UPDATE never holds the exact key `ID`, and the
   * statement's last parameter is the station id. Keys are spliced into
   * the text, so a key such as `a = 1, ID` still puts `ID` in the SET clause.
   */
  lemma UpdateNeverWritesIdentity(env: Environment, headers: Headers, stationId: string, body: Option<Value>,
                                  columns: seq<string>, row: Option<seq<Value>>)
    ensures var reply := UpdateReply(env, headers, stationId, body, columns, row);
      reply.issued.Some? ==>
        && UpdatePayload(body).Success?
        && var payload := UpdatePayload(body).value;
        && reply.issued.value == UpdateById(payload, stationId)
        && Identity !in Keys(payload)
        && reply.issued.value.params[|payload|] == Str(stationId)
  {
    var reply := UpdateReply(env, headers, stationId, body, columns, row);
    if reply.issued.Some? {
      UpdatePayloadFields(body.value.fields);
    }
  }

  /**
   * Whatever the column order of the fetched row, the payload of a clone
   * INSERT is the row's record without the key `ID`: every other column,
   * with its value.
   */
  lemma CloneNeverWritesIdentity(env: Environment, headers: Headers, columns: seq<string>,
                                 source: Option<seq<Value>>, created: Option<seq<Value>>)
    ensures var reply := CloneReply(env, headers, columns, source, created);
      reply.issued.Some? ==>
        && source.Some?
        && ClonePayload(Record(columns, source.value)).Success?
        && var record := Record(columns, source.value);
        && var payload := ClonePayload(record).value;
        && reply.issued.value == Insert(payload)
        && Identity !in Keys(payload)
        && (forall k :: k in Keys(payload) <==> k in Keys(record) && k != Identity)
        && (forall k :: k != Identity ==> Get(payload, k) == Get(record, k))
  {
    if source.Some? {
      ClonePayloadOfRecord(columns, source.value);
    }
  }

  /** A falsy create body is refused with the message of `function_app.py` line 722, before any statement. */
  lemma EmptyBodyMessage(env: Environment, headers: Headers, body: Option<Value>,
                         columns: seq<string>, inserted: Option<seq<Value>>)
    requires CheckAuthentication(env, headers).0
    requires body.Some? && !Truthy(body.value)
    ensures var reply := CreateReply(env, headers, body, columns, inserted);
      && reply.issued == None
      && reply.station.Failure?
      && Message(reply.station.error) == Some("Request body is empty")
  {
  }

  /** An INSERT that returns no row ends in the message of `function_app.py` line 748, after the statement was issued. */
  lemma NoInsertedRowMessage(env: Environment, headers: Headers, body: Option<Value>,
                             columns: seq<string>, inserted: Option<seq<Value>>)
    requires CheckAuthentication(env, headers).0
    requires CreatePayload(body).Success? && NoRow(inserted)
    ensures var reply := CreateReply(env, headers, body, columns, inserted);
      && reply.issued == Some(InsertReturning(CreatePayload(body).value))
      && reply.station.Failure?
      && Message(reply.station.error) == Some("Failed to retrieve newly created station")
  {
  }

  /** A column query with no rows ends in the message of `function_app.py` line 649. */
  lemma NoSchemaMessage(env: Environment, headers: Headers)
    requires CheckAuthentication(env, headers).0
    ensures SchemaReply(env, headers, []).Failure?
    ensures Message(SchemaReply(env, headers, []).error) == Some("No schema information found for StationTracking table")
  {
  }

  /** The scenario `POST /stations` with `{"Name": "Alpha", "IsActive": false}`. */
  lemma CreateAlpha(headers: Headers, columns: seq<string>, inserted: seq<Value>)
    requires inserted != []
    ensures CreateReply(Environment(false, None), headers,
                        Some(Object([("Name", Str("Alpha")), ("IsActive", Bool(false))])), columns, Some(inserted))
         == Reply(Some(Statement(InsertHead + "Name, IsActive" + ReturningValues + "?, ?" + Close,
                                 [Str("Alpha"), Bool(false)])),
                  Success(Record(columns, inserted)))
  {
    var fields := [("Name", Str("Alpha")), ("IsActive", Bool(false))];
    assert DistinctKeys(fields) by {
      assert Keys(fields) == ["Name", "IsActive"];
    }
    FromPairsOfDistinct(fields);
    assert Remove(fields, Identity) == fields by {
      assert Keys(fields) == ["Name", "IsActive"];
      RemoveOrder(fields, Identity);
    }
    assert Get(fields, ActiveFlag) == Some(Bool(false)) by {
      assert fields[1..] == [("IsActive", Bool(false))];
    }
    assert Put(fields, ActiveFlag, Bool(false)) == fields by {
      assert fields[1..] == [("IsActive", Bool(false))];
      assert Put(fields[1..], ActiveFlag, Bool(false)) == [("IsActive", Bool(false))] + fields[1..][1..];
    }
    assert CreateFields(fields) == fields;
    InsertOfAlpha();
  }

  /**
   * The clone answer as the code builds it, for a source row whose columns
   * are `ID` followed by `names` (no name holding a comma, the first not
   * starting with a space) and a new row read back in the same column
   * order. The INSERT copies every non-identity value; the answer's keys
   * are the split column list, so they lack `ID`, carry a leading space
   * after the first, and stand one column ahead of their values: the first
   * name is paired with the new row's `ID`, each later name with the value
   * of the column before it, and the last column's value is dropped.
   */
  lemma CloneAnswerShiftsColumns(env: Environment, headers: Headers, names: seq<string>,
                                 id: Value, values: seq<Value>, newId: Value, newValues: seq<Value>)
    requires CheckAuthentication(env, headers).0
    requires |names| >= 1 && Distinct([Identity] + names)
    requires Free(names, ',')
    requires names[0] == [] || names[0][0] != ' '
    requires |values| == |names| && |newValues| == |names|
    ensures var reply := CloneReply(env, headers, [Identity] + names, Some([id] + values), Some([newId] + newValues));
      && reply.issued == Some(Insert(Zip(names, values)))
      && reply.station.Success?
      && |reply.station.value| == |names|
      && reply.station.value[0] == (names[0], newId)
      && forall i :: 1 <= i < |names| ==> reply.station.value[i] == (" " + names[i], newValues[i - 1])
  {
    ClonePayloadOfRow(names, id, values);
    var payload := Zip(names, values);
    assert Keys(payload) == names;
    var keys := Split(ColumnList(names), ',');
    AnswerKeys(names);
    RecordOfDistinctColumns(keys, [newId] + newValues);
  }

  /**
   * The keys of the clone answer: the split column list is as long as the
   * names, has no repeats, keeps the first name and puts a space before
   * each later one.
   */
  lemma AnswerKeys(names: seq<string>)
    requires |names| >= 1 && Distinct([Identity] + names)
    requires Free(names, ',')
    requires names[0] == [] || names[0][0] != ' '
    ensures var keys := Split(ColumnList(names), ',');
      && |keys| == |names|
      && Distinct(keys)
      && keys[0] == names[0]
      && forall i :: 1 <= i < |names| ==> keys[i] == " " + names[i]
  {
    SplitCommaJoin(names);
    var keys := Split(ColumnList(names), ',');
    assert keys == [names[0]] + Prefixed(" ", names[1..]);
    forall i, j | 0 <= i < j < |keys| ensures keys[i] != keys[j] {
      assert keys[j] == " " + names[j];
      if i == 0 {
        assert keys[i] == names[0];
        assert (" " + names[j])[0] == ' ';
      } else {
        assert keys[i] == " " + names[i];
        assert names[i] != names[j] by {
          assert ([Identity] + names)[i + 1] == names[i];
          assert ([Identity] + names)[j + 1] == names[j];
        }
        assert (" " + names[i])[1..] == names[i] && (" " + names[j])[1..] == names[j];
      }
    }
  }
}
