/**
 * The clause builders of helpers/sql.js: `sqlForPartialUpdate`, which turns a
 * partial update object into a `SET` list and its parameters, and
 * `sqlForFilter`, which turns a company filter into a `WHERE` clause.
 */
module SqlHelpers {
  import opened Wrappers
  import opened Js
  import opened Fragments

  // ---------------------------------------------------------------- sqlForPartialUpdate

  /** The column written for `key`: `jsToSql[key]` when that entry is truthy, otherwise the key itself. */
  function ColumnName(jsToSql: map<string, string>, key: string): string
  {
    if key in jsToSql && jsToSql[key] != "" then jsToSql[key] else key
  }

  /** The assignment `"<col>"=$k`. */
  function Assignment(col: string, k: nat): seq<Tok>
  {
    [Text("\"" + col + "\"="), Param(k)]
  }

  lemma RenderAssignment(col: string, k: nat)
    ensures Render(Assignment(col, k)) == "\"" + col + "\"=" + "$" + NatToString(k)
  {
    RenderCons(Text("\"" + col + "\"="), [Param(k)]);
    RenderCons(Param(k), []);
  }

  /** The assignment for each key of `data`, numbered from `$1` in key order. */
  function Assignments(data: Object, jsToSql: map<string, string>): (items: seq<seq<Tok>>)
    ensures |items| == |data|
  {
    seq(|data|, i requires 0 <= i < |data| => Assignment(ColumnName(jsToSql, data[i].0), i + 1))
  }

  /**
   * `sqlForPartialUpdate(dataToUpdate, jsToSql)`: `setCols` is the assignments
   * joined by ", ", `values` is `Object.values(dataToUpdate)`. An object with no
   * keys throws BadRequestError("No data") whatever the translation; a missing
   * (`undefined`) translation throws a TypeError as soon as a key is looked up.
   */
  function SqlForPartialUpdate(data: Object, jsToSql: Option<map<string, string>>): (r: Result<Clause, Error>)
    ensures r.Failure? <==> |data| == 0 || jsToSql.None?
    ensures |data| == 0 ==> r == Failure(BadRequest("No data"))
    ensures r.Success? ==> r.value.values == Values(data)
  {
    if |data| == 0 then Failure(BadRequest("No data"))
    else if jsToSql.None? then Failure(TypeError("Cannot read properties of undefined"))
    else Success(Clause(Join(Assignments(data, jsToSql.value), [Text(", ")]), Values(data)))
  }

  /** What the update means once its parameters are bound: column i is set to the i-th value of `data`. */
  function IntendedAssignments(data: Object, jsToSql: map<string, string>): seq<Bound>
  {
    Join(seq(|data|, i requires 0 <= i < |data| => [Sql("\"" + ColumnName(jsToSql, data[i].0) + "\"="), Arg(data[i].1)]), [Sql(", ")])
  }

  /**
   * The SET list is aligned with its values: its placeholders are `$1..$n`, one
   * per key in key order, and binding `values` sets each key's column to that
   * key's own value.
   */
  lemma PartialUpdateAligned(data: Object, jsToSql: map<string, string>)
    requires |data| > 0
    ensures SqlForPartialUpdate(data, Some(jsToSql)).Success?
    ensures Aligned(SqlForPartialUpdate(data, Some(jsToSql)).value)
    ensures Instantiate(SqlForPartialUpdate(data, Some(jsToSql)).value.fragment, Values(data))
            == Some(IntendedAssignments(data, jsToSql))
  {
    var items := Assignments(data, jsToSql);
    var values := Values(data);
    forall i | 0 <= i < |items|
      ensures Params(items[i]) == [i + 1]
      ensures Instantiate(items[i], values)
              == Some([Sql("\"" + ColumnName(jsToSql, data[i].0) + "\"="), Arg(data[i].1)])
    {
      var col := ColumnName(jsToSql, data[i].0);
      ParamsAppend([Text("\"" + col + "\"=")], [Param(i + 1)]);
      InstantiateText("\"" + col + "\"=", values);
      InstantiateParam(i + 1, values);
      assert items[i] == [Text("\"" + col + "\"=")] + [Param(i + 1)];
      assert values[i] == data[i].1;
      assert [Sql("\"" + col + "\"=")] + [Arg(values[i])] == [Sql("\"" + col + "\"="), Arg(data[i].1)];
      InstantiateAppend([Text("\"" + col + "\"=")], [Param(i + 1)], values,
                        [Sql("\"" + col + "\"=")], [Arg(values[i])]);
    }
    ParamsJoin(items, ", ");
    ParamsOfAllConsecutive(items, 1);
    InstantiateJoin(items, seq(|data|, i requires 0 <= i < |data| => [Sql("\"" + ColumnName(jsToSql, data[i].0) + "\"="), Arg(data[i].1)]), ", ", values);
  }

  /**
   * Translation entries for keys absent from the data have no effect: two
   * translations that give every key of `data` the same column build the same
   * clause.
   */
  lemma PartialUpdateIgnoresUnusedTranslations(data: Object, t1: map<string, string>, t2: map<string, string>)
    requires forall i :: 0 <= i < |data| ==> ColumnName(t1, data[i].0) == ColumnName(t2, data[i].0)
    ensures SqlForPartialUpdate(data, Some(t1)) == SqlForPartialUpdate(data, Some(t2))
  {
    assert Assignments(data, t1) == Assignments(data, t2);
  }

  /** The data and translation of the example in helpers/sql.test.js; `isAdmin` is translated but not in the data. */
  const ExampleData: Object := [("firstName", Str("Test")), ("lastName", Str("Tester")),
                                ("password", Str("password")), ("email", Str("test@test.com"))]
  const ExampleTranslation: map<string, string> := map["firstName" := "first_name", "lastName" := "last_name", "isAdmin" := "is_admin"]

  lemma ExampleAssignments()
    ensures Assignments(ExampleData, ExampleTranslation)
            == [Assignment("first_name", 1), Assignment("last_name", 2), Assignment("password", 3), Assignment("email", 4)]
  {
    assert ColumnName(ExampleTranslation, "firstName") == "first_name";
    assert ColumnName(ExampleTranslation, "lastName") == "last_name";
    assert ColumnName(ExampleTranslation, "password") == "password";
    assert ColumnName(ExampleTranslation, "email") == "email";
  }

  /** The rendered assignment for a column and a one-digit placeholder number. */
  lemma RenderSmallAssignment(col: string, k: nat)
    requires 1 <= k <= 9
    ensures Render(Assignment(col, k)) == "\"" + col + "\"=" + "$" + [DigitChar(k)]
  {
    RenderAssignment(col, k);
  }

  lemma RenderExampleAssignments()
    ensures Render(Join([Assignment("first_name", 1), Assignment("last_name", 2), Assignment("password", 3), Assignment("email", 4)], [Text(", ")]))
            == Join(["\"first_name\"=$1", "\"last_name\"=$2", "\"password\"=$3", "\"email\"=$4"], ", ")
  {
    var items := [Assignment("first_name", 1), Assignment("last_name", 2), Assignment("password", 3), Assignment("email", 4)];
    RenderJoin(items, ", ");
    FirstNameAssignmentText();
    LastNameAssignmentText();
    PasswordAssignmentText();
    EmailAssignmentText();
    var strs := seq(|items|, i requires 0 <= i < |items| => Render(items[i]));
    assert strs == ["\"first_name\"=$1", "\"last_name\"=$2", "\"password\"=$3", "\"email\"=$4"];
  }

  lemma FirstNameAssignmentText()
    ensures Render(Assignment("first_name", 1)) == "\"first_name\"=$1"
  {
    RenderSmallAssignment("first_name", 1);
  }

  lemma LastNameAssignmentText()
    ensures Render(Assignment("last_name", 2)) == "\"last_name\"=$2"
  {
    RenderSmallAssignment("last_name", 2);
  }

  lemma PasswordAssignmentText()
    ensures Render(Assignment("password", 3)) == "\"password\"=$3"
  {
    RenderSmallAssignment("password", 3);
  }

  lemma EmailAssignmentText()
    ensures Render(Assignment("email", 4)) == "\"email\"=$4"
  {
    RenderSmallAssignment("email", 4);
  }

  /** `Object.values` of the example data. */
  lemma ExampleValues()
    ensures Values(ExampleData) == [Str("Test"), Str("Tester"), Str("password"), Str("test@test.com")]
  {
  }

  /** The example of helpers/sql.test.js: the SET list and values the test expects. */
  lemma PartialUpdateExample()
    ensures var r := SqlForPartialUpdate(ExampleData, Some(ExampleTranslation));
            && r.Success?
            && Render(r.value.fragment)
               == Join(["\"first_name\"=$1", "\"last_name\"=$2", "\"password\"=$3", "\"email\"=$4"], ", ")
            && r.value.values == [Str("Test"), Str("Tester"), Str("password"), Str("test@test.com")]
  {
    ExampleAssignments();
    RenderExampleAssignments();
    ExampleValues();
  }

  // ---------------------------------------------------------------- sqlForFilter

  /**
   * The company condition for `key` with placeholder `$k`: `nameLike` is a
   * case-insensitive substring match, `minEmployees` a lower bound, and every
   * other key an upper bound on `num_employees`.
   */
  function CompanyCondition(key: string, k: nat): seq<Tok>
  {
    if key == "nameLike" then [Text("name ILIKE '%' || "), Param(k), Text(" || '%'")]
    else if key == "minEmployees" then [Text("num_employees >= "), Param(k)]
    else [Text("num_employees <= "), Param(k)]
  }

  /** The condition for each key of `filter`, numbered from `$1` in key order. */
  function CompanyConditions(filter: Object): (ps: seq<seq<Tok>>)
    ensures |ps| == |filter|
  {
    seq(|filter|, i requires 0 <= i < |filter| => CompanyCondition(filter[i].0, i + 1))
  }

  /**
   * `sqlForFilter(filter)`: one condition is pushed per key, in key order, and
   * the result is "WHERE " followed by the conditions joined by " AND ". No
   * check for an empty filter is made.
   */
  method SqlForFilter(filter: Object) returns (clause: seq<Tok>)
    ensures clause == [Text("WHERE ")] + Join(CompanyConditions(filter), [Text(" AND ")])
  {
    var whereClause: seq<seq<Tok>> := [];
    var index := 0;
    while index < |filter|
      invariant index <= |filter|
      invariant |whereClause| == index
      invariant forall j :: 0 <= j < index ==> whereClause[j] == CompanyCondition(filter[j].0, j + 1)
    {
      var key := filter[index].0;
      if key == "nameLike" {
        whereClause := whereClause + [[Text("name ILIKE '%' || "), Param(index + 1), Text(" || '%'")]];
      } else if key == "minEmployees" {
        whereClause := whereClause + [[Text("num_employees >= "), Param(index + 1)]];
      } else {
        whereClause := whereClause + [[Text("num_employees <= "), Param(index + 1)]];
      }
      index := index + 1;
    }
    assert whereClause == CompanyConditions(filter);
    clause := [Text("WHERE ")] + Join(whereClause, [Text(" AND ")]);
  }

  /** A `WHERE` clause is either absent or the keyword followed by at least one condition. */
  predicate WellFormedWhere(f: seq<Tok>)
  {
    f == [] || (|f| > 1 && f[0] == Text("WHERE "))
  }

  /**
   * For an empty filter `sqlForFilter` returns the bare keyword "WHERE ", which
   * leaves a query such as "... FROM companies WHERE  ORDER BY name" without a
   * condition.
   */
  lemma HelperEmptyFilterLeavesBareWhere()
    ensures var clause := [Text("WHERE ")] + Join(CompanyConditions([]), [Text(" AND ")]);
            Render(clause) == "WHERE " && !WellFormedWhere(clause)
  {
  }
}
