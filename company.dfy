/**
 * The query-building parts of the Company model (models/company.js): its own
 * `sqlForFilter`, the employee-range check and parameter list of `findAll`,
 * and the SET list, translation table and handle placeholder of `update`.
 * Executing the queries is not part of the model.
 */
module Company {
  import opened Wrappers
  import opened Js
  import opened Fragments
  import opened SqlHelpers

  // ---------------------------------------------------------------- sqlForFilter

  /**
   * `Company.sqlForFilter(filter)`: '' for a filter with no keys; otherwise
   * "WHERE " and one condition per key, in key order, joined by " AND ".
   */
  function SqlForFilter(filter: Object): (r: seq<Tok>)
    ensures r == [] <==> |filter| == 0
    ensures WellFormedWhere(r)
  {
    if |filter| == 0 then []
    else [Text("WHERE ")] + Join(CompanyConditions(filter), [Text(" AND ")])
  }

  /** The conditions the filter stands for, each with its own key's value in place of its placeholder. */
  function IntendedConditions(filter: Object): seq<Bound>
  {
    if |filter| == 0 then []
    else [Sql("WHERE ")] + Join(seq(|filter|, i requires 0 <= i < |filter| => Fill(CompanyCondition(filter[i].0, i + 1), filter[i].1)), [Sql(" AND ")])
  }

  /**
   * The WHERE clause is aligned with `Object.values(filter)`: its placeholders
   * are `$1..$n`, one per key in key order, and binding the values gives each
   * condition the value of its own key.
   */
  lemma FilterAligned(filter: Object)
    ensures Params(SqlForFilter(filter)) == Consecutive(1, |filter|)
    ensures Instantiate(SqlForFilter(filter), Values(filter)) == Some(IntendedConditions(filter))
  {
    if |filter| > 0 {
      var items := CompanyConditions(filter);
      var values := Values(filter);
      var filled := seq(|filter|, i requires 0 <= i < |filter| => Fill(CompanyCondition(filter[i].0, i + 1), filter[i].1));
      forall i | 0 <= i < |items|
        ensures Params(items[i]) == [i + 1]
        ensures Instantiate(items[i], values) == Some(filled[i])
      {
        ConditionHasOnePlaceholder(filter[i].0, i + 1);
        InstantiateFill(items[i], values, filter[i].1);
      }
      ParamsJoin(items, " AND ");
      ParamsOfAllConsecutive(items, 1);
      ParamsAppend([Text("WHERE ")], Join(items, [Text(" AND ")]));
      assert Params([Text("WHERE ")]) == [];
      InstantiateJoin(items, filled, " AND ", values);
      InstantiateText("WHERE ", values);
      InstantiateAppend([Text("WHERE ")], Join(items, [Text(" AND ")]), values, [Sql("WHERE ")], Join(filled, [Sql(" AND ")]));
    }
  }

  /** Each company condition carries exactly one placeholder, the one it was built with. */
  lemma ConditionHasOnePlaceholder(key: string, k: nat)
    ensures Params(CompanyCondition(key, k)) == [k]
  {
    if key == "nameLike" {
      ParamsCons(Text("name ILIKE '%' || "), [Param(k), Text(" || '%'")]);
      ParamsCons(Param(k), [Text(" || '%'")]);
      ParamsCons(Text(" || '%'"), []);
    } else {
      ParamsCons(CompanyCondition(key, k)[0], [Param(k)]);
      ParamsCons(Param(k), []);
    }
  }

  /**
   * The condition for the key at 0-based position i: `nameLike` renders as
   * `name ILIKE '%' || $<i+1> || '%'`, `minEmployees` as `num_employees >= $<i+1>`,
   * and any other key falls through to `num_employees <= $<i+1>`.
   */
  lemma FilterConditionText(filter: Object, i: nat)
    requires i < |filter|
    ensures var text := Render(CompanyConditions(filter)[i]);
            var p := "$" + NatToString(i + 1);
            && (filter[i].0 == "nameLike" ==> text == "name ILIKE '%' || " + p + " || '%'")
            && (filter[i].0 == "minEmployees" ==> text == "num_employees >= " + p)
            && (filter[i].0 != "nameLike" && filter[i].0 != "minEmployees" ==> text == "num_employees <= " + p)
  {
    ConditionText(filter[i].0, i + 1);
  }

  /** The rendered condition for one key with placeholder `$k`. */
  lemma ConditionText(key: string, k: nat)
    ensures var text := Render(CompanyCondition(key, k));
            var p := "$" + NatToString(k);
            && (key == "nameLike" ==> text == "name ILIKE '%' || " + p + " || '%'")
            && (key == "minEmployees" ==> text == "num_employees >= " + p)
            && (key != "nameLike" && key != "minEmployees" ==> text == "num_employees <= " + p)
  {
    if key == "nameLike" {
      RenderCons(Text("name ILIKE '%' || "), [Param(k), Text(" || '%'")]);
      RenderCons(Param(k), [Text(" || '%'")]);
      RenderCons(Text(" || '%'"), []);
      RenderCons(Param(k), []);
    } else {
      var c := CompanyCondition(key, k);
      RenderCons(c[0], [Param(k)]);
      RenderCons(Param(k), []);
    }
  }

  /** `Company.sqlForFilter({nameLike: "c1"})`: the clause and the parameter list `findAll` sends with it. */
  lemma FilterExample()
    ensures Render(SqlForFilter([("nameLike", Str("c1"))])) == "WHERE " + "name ILIKE '%' || " + "$1" + " || '%'"
    ensures FindAllQuery([("nameLike", Str("c1"))]).Success?
    ensures FindAllQuery([("nameLike", Str("c1"))]).value.params == [Str("c1")]
  {
    var f := [("nameLike", Str("c1"))];
    assert Get(f, "minEmployees") == Undefined;
    assert Values(f) == [Str("c1")];
    var c := CompanyConditions(f)[0];
    assert SqlForFilter(f) == [Text("WHERE ")] + c;
    assert c == [Text("name ILIKE '%' || "), Param(1), Text(" || '%'")];
    RenderCons(Text("WHERE "), c);
    RenderCons(Text("WHERE "), []);
    RenderCons(Text("name ILIKE '%' || "), [Param(1), Text(" || '%'")]);
    RenderCons(Param(1), [Text(" || '%'")]);
    RenderCons(Param(1), []);
    RenderCons(Text(" || '%'"), []);
    assert NatToString(1) == "1";
  }

  // ---------------------------------------------------------------- findAll

  /** The text and parameters of a query, as handed to the database. */
  datatype Query = Query(text: seq<Tok>, params: seq<Value>)

  const FindAllHead := "SELECT handle, name, description, num_employees AS \"numEmployees\", logo_url AS \"logoUrl\" FROM companies "
  const FindAllTail := " ORDER BY name"

  const InvertedRangeMessage := "Maximum employees must be greater than or equal to minumum employees"

  /**
   * The query `Company.findAll(filter)` sends: BadRequestError when
   * `filter.minEmployees > filter.maxEmployees`, checked before any clause is
   * built; otherwise the WHERE clause with `Object.values(filter)` as parameters.
   */
  function FindAllQuery(filter: Object): (r: Result<Query, Error>)
    ensures r.Failure? <==> GreaterThan(Get(filter, "minEmployees"), Get(filter, "maxEmployees"))
    ensures r.Failure? ==> r.error == BadRequest(InvertedRangeMessage)
    ensures r.Success? ==> r.value.params == Values(filter)
  {
    if GreaterThan(Get(filter, "minEmployees"), Get(filter, "maxEmployees")) then
      Failure(BadRequest(InvertedRangeMessage))
    else
      Success(Query([Text(FindAllHead)] + SqlForFilter(filter) + [Text(FindAllTail)], Values(filter)))
  }

  /** Numeric bounds are rejected exactly when the minimum exceeds the maximum. */
  lemma FindAllNumericRange(filter: Object, lo: int, hi: int)
    requires Get(filter, "minEmployees") == Num(lo) && Get(filter, "maxEmployees") == Num(hi)
    ensures FindAllQuery(filter).Failure? <==> lo > hi
  {
  }

  /** With either bound absent the comparison is false, and the range check never rejects. */
  lemma FindAllMissingBoundPasses(filter: Object)
    requires Get(filter, "minEmployees") == Undefined || Get(filter, "maxEmployees") == Undefined
    ensures FindAllQuery(filter).Success?
  {
    UndefinedNeverGreater(Get(filter, "minEmployees"));
    UndefinedNeverGreater(Get(filter, "maxEmployees"));
  }

  /** `{minEmployees: 5, maxEmployees: 2}` is rejected before any clause is built. */
  lemma FindAllInvertedRangeExample()
    ensures FindAllQuery([("minEmployees", Num(5)), ("maxEmployees", Num(2))]) == Failure(BadRequest(InvertedRangeMessage))
  {
    FindAllNumericRange([("minEmployees", Num(5)), ("maxEmployees", Num(2))], 5, 2);
  }

  /**
   * When `findAll` goes ahead, its query has one placeholder per parameter,
   * `$1..$n` in order, and binding the parameters puts each key's value into
   * that key's own condition.
   */
  lemma FindAllAligned(filter: Object)
    requires FindAllQuery(filter).Success?
    ensures var q := FindAllQuery(filter).value;
            && Params(q.text) == Consecutive(1, |q.params|)
            && Instantiate(q.text, q.params) == Some([Sql(FindAllHead)] + IntendedConditions(filter) + [Sql(FindAllTail)])
  {
    var where := SqlForFilter(filter);
    var values := Values(filter);
    FilterAligned(filter);
    ParamsAppend([Text(FindAllHead)], where);
    ParamsAppend([Text(FindAllHead)] + where, [Text(FindAllTail)]);
    assert Params([Text(FindAllHead)]) == [] && Params([Text(FindAllTail)]) == [];
    InstantiateText(FindAllHead, values);
    InstantiateText(FindAllTail, values);
    InstantiateAppend([Text(FindAllHead)], where, values, [Sql(FindAllHead)], IntendedConditions(filter));
    InstantiateAppend([Text(FindAllHead)] + where, [Text(FindAllTail)], values,
                      [Sql(FindAllHead)] + IntendedConditions(filter), [Sql(FindAllTail)]);
  }

  // ---------------------------------------------------------------- update

  /** The translation table `update` passes: only `numEmployees` and `logoUrl` are renamed. */
  const UpdateColumns: map<string, string> := map["numEmployees" := "num_employees", "logoUrl" := "logo_url"]

  /** The column `update` writes for a field, stated independently of the table. */
  function CompanyColumn(key: string): string
  {
    if key == "numEmployees" then "num_employees"
    else if key == "logoUrl" then "logo_url"
    else key
  }

  const UpdateHead := "UPDATE companies SET "
  const UpdateWhere := " WHERE handle = "
  const UpdateTail := " RETURNING handle, name, description, num_employees AS \"numEmployees\", logo_url AS \"logoUrl\""

  /**
   * The query `Company.update(handle, data)` sends: the SET list from
   * `sqlForPartialUpdate` with the translation table, the handle placeholder
   * `$(values.length + 1)`, and the parameters `[...values, handle]`. An empty
   * `data` is the BadRequestError of `sqlForPartialUpdate`.
   */
  function UpdateQuery(handle: string, data: Object): (r: Result<Query, Error>)
    ensures r.Failure? <==> |data| == 0
    ensures r.Failure? ==> r.error == BadRequest("No data")
    ensures r.Success? ==> r.value.params == Values(data) + [Str(handle)]
  {
    var setList := SqlForPartialUpdate(data, Some(UpdateColumns));
    if setList.Failure? then Failure(setList.error)
    else
      var handleVarIdx := |setList.value.values| + 1;
      Success(Query([Text(UpdateHead)] + setList.value.fragment + HandleCondition(handleVarIdx),
                    setList.value.values + [Str(handle)]))
  }

  /** Only the two renamed fields change name; every other field is its own column. */
  lemma UpdateTranslation(key: string)
    ensures ColumnName(UpdateColumns, key) == CompanyColumn(key)
  {
  }

  /** `WHERE handle = $k RETURNING ...`, the part of the update query after the SET list. */
  function HandleCondition(k: nat): seq<Tok>
  {
    [Text(UpdateWhere), Param(k), Text(UpdateTail)]
  }

  /** The handle condition's only placeholder is `$k`, and it binds the k-th parameter. */
  lemma HandleConditionBinds(k: nat, params: seq<Value>)
    requires 1 <= k <= |params|
    ensures Params(HandleCondition(k)) == [k]
    ensures Instantiate(HandleCondition(k), params) == Some([Sql(UpdateWhere), Arg(params[k - 1]), Sql(UpdateTail)])
  {
    TextParamTextBinds(UpdateWhere, k, UpdateTail, params);
    assert [Text(UpdateWhere)] + [Param(k), Text(UpdateTail)] == HandleCondition(k);
    assert [Sql(UpdateWhere)] + [Arg(params[k - 1]), Sql(UpdateTail)] == [Sql(UpdateWhere), Arg(params[k - 1]), Sql(UpdateTail)];
  }

  /** The SET list of `update`, bound: each field's column, as `CompanyColumn` names it, set to the field's value. */
  function UpdateAssignments(data: Object): seq<Bound>
  {
    Join(seq(|data|, i requires 0 <= i < |data| => [Sql("\"" + CompanyColumn(data[i].0) + "\"="), Arg(data[i].1)]), [Sql(", ")])
  }

  /** The SET list `update` sends binds, with the handle after its values, to `UpdateAssignments`. */
  lemma UpdateSetBinds(handle: string, data: Object)
    requires |data| > 0
    ensures var setList := SqlForPartialUpdate(data, Some(UpdateColumns)).value;
            && Params(setList.fragment) == Consecutive(1, |data|)
            && Instantiate(setList.fragment, Values(data) + [Str(handle)]) == Some(UpdateAssignments(data))
  {
    var setList := SqlForPartialUpdate(data, Some(UpdateColumns)).value;
    var n := |data|;
    PartialUpdateAligned(data, UpdateColumns);
    InstantiateExtraArgs(setList.fragment, Values(data), [Str(handle)]);
    forall i | 0 <= i < n {
      UpdateTranslation(data[i].0);
    }
    assert seq(n, i requires 0 <= i < n => [Sql("\"" + ColumnName(UpdateColumns, data[i].0) + "\"="), Arg(data[i].1)])
        == seq(n, i requires 0 <= i < n => [Sql("\"" + CompanyColumn(data[i].0) + "\"="), Arg(data[i].1)]);
  }

  /**
   * The update query is aligned: placeholders `$1..$n+1` in order, the SET list
   * binds each field's column to that field's value, and the handle placeholder
   * binds the handle.
   */
  lemma UpdateAligned(handle: string, data: Object)
    requires |data| > 0
    ensures var q := UpdateQuery(handle, data).value;
            && Params(q.text) == Consecutive(1, |q.params|)
            && Instantiate(q.text, q.params)
               == Some([Sql(UpdateHead)] + UpdateAssignments(data) + [Sql(UpdateWhere), Arg(Str(handle)), Sql(UpdateTail)])
  {
    var setList := SqlForPartialUpdate(data, Some(UpdateColumns)).value;
    var n := |data|;
    var params := Values(data) + [Str(handle)];
    UpdateSetBinds(handle, data);
    HandleConditionBinds(n + 1, params);
    HeadBodyTailAligned(UpdateHead, setList.fragment, HandleCondition(n + 1), n, params,
                        UpdateAssignments(data), [Sql(UpdateWhere), Arg(Str(handle)), Sql(UpdateTail)]);
  }
}
