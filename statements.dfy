/**
 * The parameterised statements the write handlers build from a payload:
 * column names are spliced into the text, values travel as parameters.
 */
module Statements {
  import opened Json
  import opened Dicts
  import opened Text

  /** The text handed to `cursor.execute` and its positional parameters. */
  datatype Statement = Statement(sql: string, params: seq<Value>)

  const InsertHead := "INSERT INTO StationTracking ("
  const ReturningValues := ") OUTPUT INSERTED.* VALUES ("
  const PlainValues := ") VALUES ("
  const Close := ")"
  const UpdateHead := "UPDATE StationTracking SET "
  const ById := " WHERE ID = ?"

  /** `', '.join(keys)` */
  function ColumnList(keys: seq<string>): string
  {
    Join(keys, ", ")
  }

  /** The list `['?' for _ in payload]` for a payload of `n` pairs. */
  function Marks(n: nat): seq<string>
  {
    seq(n, _ => "?")
  }

  /** `', '.join(['?' for _ in payload])` */
  function Placeholders(n: nat): string
  {
    Join(Marks(n), ", ")
  }

  /** `[f"{k} = ?" for k in keys]` */
  function Assignments(keys: seq<string>): seq<string>
  {
    seq(|keys|, i requires 0 <= i < |keys| => keys[i] + " = ?")
  }

  /** The INSERT of `create_station`, which returns the inserted row (`function_app.py` lines 739-744). */
  function InsertReturning(payload: seq<(string, Value)>): Statement
  {
    Statement(InsertHead + ColumnList(Keys(payload)) + ReturningValues + Placeholders(|payload|) + Close,
              Values(payload))
  }

  /** The plain INSERT of `clone_station` (`function_app.py` lines 865-870). */
  function Insert(payload: seq<(string, Value)>): Statement
  {
    Statement(InsertHead + ColumnList(Keys(payload)) + PlainValues + Placeholders(|payload|) + Close,
              Values(payload))
  }

  /** The UPDATE of `update_station`; the station id from the route is the last parameter (`function_app.py` lines 789-794). */
  function UpdateById(payload: seq<(string, Value)>, stationId: string): Statement
  {
    Statement(UpdateHead + Join(Assignments(Keys(payload)), ", ") + ById,
              Values(payload) + [Str(stationId)])
  }

  /** No key holds the character `c`. */
  predicate Free(keys: seq<string>, c: char)
  {
    forall i :: 0 <= i < |keys| ==> c !in keys[i]
  }

  // ----- placeholders -----

  /** The VALUES list holds one `?` per pair and, when not empty, one comma-separated entry per pair. */
  lemma PlaceholderList(n: nat)
    ensures Count(Placeholders(n), '?') == n
    ensures n >= 1 ==> |Split(Placeholders(n), ',')| == n
  {
    var marks := Marks(n);
    forall i | 0 <= i < n ensures Count(marks[i], '?') == 1 {
      assert marks[i] == "?";
    }
    assert '?' !in ", ";
    CountJoin(marks, ", ", '?', 1);
    if n >= 1 {
      forall i | 0 <= i < n ensures ',' !in marks[i] {
        assert marks[i] == "?";
      }
      SplitCommaJoin(marks);
    }
  }

  lemma ColumnListUnmarked(keys: seq<string>)
    requires Free(keys, '?')
    ensures Count(ColumnList(keys), '?') == 0
  {
    assert '?' !in ", ";
    CountJoin(keys, ", ", '?', 0);
  }

  lemma Unmarked(s: string)
    requires '?' !in s
    ensures Count(s, '?') == 0
  {
  }

  lemma InsertHeadUnmarked() ensures Count(InsertHead, '?') == 0 { Unmarked(InsertHead); }
  lemma ReturningValuesUnmarked() ensures Count(ReturningValues, '?') == 0 { Unmarked(ReturningValues); }
  lemma PlainValuesUnmarked() ensures Count(PlainValues, '?') == 0 { Unmarked(PlainValues); }
  lemma CloseUnmarked() ensures Count(Close, '?') == 0 { Unmarked(Close); }
  lemma UpdateHeadUnmarked() ensures Count(UpdateHead, '?') == 0 { Unmarked(UpdateHead); }
  lemma ByIdMarked() ensures Count(ById, '?') == 1 { }

  /**
   * Unless a column name itself holds `?`, the create INSERT holds exactly
   * as many `?` placeholders as it has parameters, one per payload pair.
   */
  lemma InsertReturningPlaceholders(payload: seq<(string, Value)>)
    requires Free(Keys(payload), '?')
    ensures |InsertReturning(payload).params| == |payload|
    ensures Count(InsertReturning(payload).sql, '?') == |payload|
  {
    ColumnListUnmarked(Keys(payload));
    PlaceholderList(|payload|);
    InsertHeadUnmarked();
    ReturningValuesUnmarked();
    CloseUnmarked();
    CountConcat5(InsertHead, ColumnList(Keys(payload)), ReturningValues, Placeholders(|payload|), Close, '?');
  }

  /** The same for the clone INSERT. */
  lemma InsertPlaceholders(payload: seq<(string, Value)>)
    requires Free(Keys(payload), '?')
    ensures |Insert(payload).params| == |payload|
    ensures Count(Insert(payload).sql, '?') == |payload|
  {
    ColumnListUnmarked(Keys(payload));
    PlaceholderList(|payload|);
    InsertHeadUnmarked();
    PlainValuesUnmarked();
    CloseUnmarked();
    CountConcat5(InsertHead, ColumnList(Keys(payload)), PlainValues, Placeholders(|payload|), Close, '?');
  }

  /**
   * Columns and parameters line up: unless a column name holds a comma,
   * the column list splits into one entry per parameter, the i-th naming
   * the column whose value is the i-th parameter (entries after the first
   * carry the space of the `', '` separator), and the VALUES list has as
   * many entries.
   */
  lemma ColumnsMatchParams(payload: seq<(string, Value)>)
    requires |payload| >= 1
    requires Free(Keys(payload), ',')
    ensures var cols := Split(ColumnList(Keys(payload)), ',');
      && |cols| == |Values(payload)|
      && |Split(Placeholders(|payload|), ',')| == |cols|
      && forall i :: 0 <= i < |cols| ==>
           cols[i] == (if i == 0 then "" else " ") + payload[i].0 && Values(payload)[i] == payload[i].1
  {
    var keys := Keys(payload);
    SplitCommaJoin(keys);
    PlaceholderList(|payload|);
    var cols := Split(ColumnList(keys), ',');
    assert cols == [keys[0]] + Prefixed(" ", keys[1..]);
    forall i | 0 <= i < |cols| ensures cols[i] == (if i == 0 then "" else " ") + payload[i].0 {
      if i == 0 {
        assert "" + payload[0].0 == payload[0].0;
      } else {
        assert cols[i] == Prefixed(" ", keys[1..])[i - 1];
      }
    }
  }

  // ----- the UPDATE -----

  /**
   * Unless a column name holds `?`, the UPDATE holds one placeholder per
   * payload pair plus the one of `WHERE ID = ?`, as many as its
   * parameters: the payload's values in order, then the station id.
   */
  lemma UpdatePlaceholders(payload: seq<(string, Value)>, stationId: string)
    requires Free(Keys(payload), '?')
    ensures var s := UpdateById(payload, stationId);
      && |s.params| == |payload| + 1
      && Count(s.sql, '?') == |s.params|
      && s.params[..|payload|] == Values(payload)
      && s.params[|payload|] == Str(stationId)
  {
    var clause := Join(Assignments(Keys(payload)), ", ");
    AssignmentsMarked(Keys(payload));
    UpdateHeadUnmarked();
    ByIdMarked();
    CountConcat(UpdateHead, clause, '?');
    CountConcat(UpdateHead + clause, ById, '?');
    assert (Values(payload) + [Str(stationId)])[..|payload|] == Values(payload);
  }

  /** The SET clause holds one `?` per key. */
  lemma AssignmentsMarked(keys: seq<string>)
    requires Free(keys, '?')
    ensures Count(Join(Assignments(keys), ", "), '?') == |keys|
  {
    var sets := Assignments(keys);
    assert " = ?" == " = " + "?";
    assert '?' !in " = ";
    CountConcat(" = ", "?", '?');
    forall i | 0 <= i < |sets| ensures Count(sets[i], '?') == 1 {
      CountConcat(keys[i], " = ?", '?');
    }
    assert '?' !in ", ";
    CountJoin(sets, ", ", '?', 1);
  }

  /**
   * The SET clause names the payload's columns in payload order, one
   * `k = ?` each, unless a column name holds a comma.
   */
  lemma UpdateSetClause(payload: seq<(string, Value)>)
    requires |payload| >= 1
    requires Free(Keys(payload), ',')
    ensures var sets := Split(Join(Assignments(Keys(payload)), ", "), ',');
      && |sets| == |payload|
      && forall i :: 0 <= i < |sets| ==> sets[i] == (if i == 0 then "" else " ") + payload[i].0 + " = ?"
  {
    var keys := Keys(payload);
    var assigns := Assignments(keys);
    assert ',' !in " = ?";
    forall i | 0 <= i < |assigns| ensures ',' !in assigns[i] {
      assert assigns[i] == keys[i] + " = ?";
    }
    SplitCommaJoin(assigns);
    var sets := Split(Join(assigns, ", "), ',');
    assert sets == [assigns[0]] + Prefixed(" ", assigns[1..]);
    forall i | 0 <= i < |sets| ensures sets[i] == (if i == 0 then "" else " ") + payload[i].0 + " = ?" {
      if i == 0 {
        assert "" + payload[0].0 == payload[0].0;
      } else {
        assert sets[i] == Prefixed(" ", assigns[1..])[i - 1];
      }
    }
  }

  /**
   * An empty payload still yields a statement: a SET clause with nothing
   * in it, which the database rejects, and the station id as the only parameter.
   */
  lemma UpdateOfEmptyPayload(stationId: string)
    ensures UpdateById([], stationId) == Statement("UPDATE StationTracking SET  WHERE ID = ?", [Str(stationId)])
  {
    var empty: seq<(string, Value)> := [];
    assert Assignments(Keys(empty)) == [];
  }

  /** The create INSERT a body `{"Name": "Alpha", "IsActive": false}` leads to. */
  lemma InsertOfAlpha()
    ensures InsertReturning([("Name", Str("Alpha")), ("IsActive", Bool(false))]) ==
      Statement(InsertHead + "Name, IsActive" + ReturningValues + "?, ?" + Close, [Str("Alpha"), Bool(false)])
  {
    var p := [("Name", Str("Alpha")), ("IsActive", Bool(false))];
    assert Keys(p) == ["Name", "IsActive"];
    assert Values(p) == [Str("Alpha"), Bool(false)];
    assert Join(["IsActive"], ", ") == "IsActive";
    assert ColumnList(Keys(p)) == "Name" + ", " + "IsActive";
    assert Marks(2) == ["?", "?"];
    assert Join(["?"], ", ") == "?";
    assert Placeholders(2) == "?" + ", " + "?";
  }
}
