/**
 * `Job.sqlForFilter`, as models/job.test.js states it: `title` is a
 * case-insensitive substring match, `minSalary` a lower bound on the salary,
 * and `hasEquity: true` the condition `equity > 0`, which binds no value;
 * `hasEquity: false` adds no condition, and a filter that yields no condition
 * gives ''. Placeholders are numbered after the conditions are chosen, counting
 * only the conditions that bind a value, so the parameter list has no gap.
 */
module Job {
  import opened Wrappers
  import opened Js
  import opened Fragments
  import opened SqlHelpers

  /** The filter keys the job routes accept. */
  predicate IsJobFilterKey(key: string)
  {
    key == "title" || key == "minSalary" || key == "hasEquity"
  }

  /** A job filter: recognised keys only, and `hasEquity` a boolean. */
  predicate IsJobFilter(filter: Object)
  {
    forall i :: 0 <= i < |filter| ==> IsJobFilterKey(filter[i].0) && (filter[i].0 == "hasEquity" ==> filter[i].1.Bool?)
  }

  /** Whether the condition for `key` takes a parameter. */
  predicate BindsValue(key: string)
  {
    key != "hasEquity"
  }

  /** The condition for `key`, with placeholder `$k` when it takes a parameter. */
  function JobCondition(key: string, k: nat): seq<Tok>
  {
    if key == "title" then [Text("title ILIKE '%' || "), Param(k), Text(" || '%'")]
    else if key == "minSalary" then [Text("salary >= "), Param(k)]
    else [Text("equity > 0")]
  }

  /** Whether an entry produces a condition: every entry but a `hasEquity` that is not true. */
  predicate Chosen(entry: (string, Value))
  {
    !(entry.0 == "hasEquity" && entry.1 != Bool(true))
  }

  /** First pass: the entries that produce a condition, in key order. */
  function Applicable(filter: Object): (app: Object)
    ensures |app| <= |filter|
  {
    if filter == [] then []
    else (if Chosen(filter[0]) then [filter[0]] else []) + Applicable(filter[1..])
  }

  /** Second pass: the conditions, numbering placeholders from `next` and advancing only past conditions that bind a value. */
  function Numbered(app: Object, next: nat): (ps: seq<seq<Tok>>)
    ensures |ps| == |app|
  {
    if app == [] then []
    else [JobCondition(app[0].0, next)] + Numbered(app[1..], if BindsValue(app[0].0) then next + 1 else next)
  }

  /** The parameters: the values of the conditions that bind one, in key order. */
  function BoundValues(app: Object): seq<Value>
  {
    if app == [] then []
    else (if BindsValue(app[0].0) then [app[0].1] else []) + BoundValues(app[1..])
  }

  /** `Job.sqlForFilter(filter)` with the parameter list that goes with it. */
  function SqlForFilter(filter: Object): (r: Clause)
    requires IsJobFilter(filter)
    ensures r.fragment == [] <==> Applicable(filter) == []
    ensures WellFormedWhere(r.fragment)
  {
    var app := Applicable(filter);
    if app == [] then Clause([], [])
    else Clause([Text("WHERE ")] + Join(Numbered(app, 1), [Text(" AND ")]), BoundValues(app))
  }

  /** The conditions the filter stands for, each with its own entry's value in place of its placeholder. */
  function IntendedConditions(filter: Object): seq<Bound>
  {
    var app := Applicable(filter);
    var ps := Numbered(app, 1);
    if app == [] then []
    else [Sql("WHERE ")] + Join(seq(|app|, i requires 0 <= i < |app| => Fill(ps[i], app[i].1)), [Sql(" AND ")])
  }

  // ---------------------------------------------------------------- lemmas

  lemma {:induction false} ApplicableIsJobFilter(filter: Object)
    requires IsJobFilter(filter)
    ensures IsJobFilter(Applicable(filter))
  {
    if filter != [] {
      ApplicableIsJobFilter(filter[1..]);
    }
  }

  lemma {:induction false} ApplicableAppend(a: Object, b: Object)
    ensures Applicable(a + b) == Applicable(a) + Applicable(b)
  {
    if a == [] {
      assert a + b == b;
    } else {
      var head := if Chosen(a[0]) then [a[0]] else [];
      assert (a + b)[0] == a[0] && (a + b)[1..] == a[1..] + b;
      ApplicableAppend(a[1..], b);
      assert Applicable(a + b) == head + Applicable(a[1..] + b);
      assert head + (Applicable(a[1..]) + Applicable(b)) == (head + Applicable(a[1..])) + Applicable(b);
    }
  }

  /** A job condition has the placeholder `$k` exactly when its key binds a value. */
  lemma ConditionPlaceholders(key: string, k: nat)
    ensures Params(JobCondition(key, k)) == if BindsValue(key) && IsJobFilterKey(key) then [k] else []
  {
    if key == "title" {
      ParamsCons(Text("title ILIKE '%' || "), [Param(k), Text(" || '%'")]);
      ParamsCons(Param(k), [Text(" || '%'")]);
      ParamsCons(Text(" || '%'"), []);
    } else if key == "minSalary" {
      ParamsCons(Text("salary >= "), [Param(k)]);
      ParamsCons(Param(k), []);
    } else {
      ParamsCons(Text("equity > 0"), []);
    }
  }

  lemma JobFilterTail(app: Object)
    requires IsJobFilter(app) && app != []
    ensures IsJobFilter(app[1..])
  {
    forall i | 0 <= i < |app[1..]|
      ensures IsJobFilterKey(app[1..][i].0) && (app[1..][i].0 == "hasEquity" ==> app[1..][i].1.Bool?)
    {
      assert app[1..][i] == app[i + 1];
    }
  }

  /** One condition: its placeholders, and how it binds when its placeholder names its own value. */
  lemma ConditionBinds(key: string, v: Value, next: nat, args: seq<Value>)
    requires IsJobFilterKey(key)
    requires BindsValue(key) ==> 1 <= next <= |args| && args[next - 1] == v
    ensures Params(JobCondition(key, next)) == if BindsValue(key) then [next] else []
    ensures Instantiate(JobCondition(key, next), args) == Some(Fill(JobCondition(key, next), v))
  {
    var c := JobCondition(key, next);
    ConditionPlaceholders(key, next);
    forall k | k in Params(c)
      ensures 1 <= k <= |args| && args[k - 1] == v
    {
      assert BindsValue(key) && k == next;
    }
    InstantiateFill(c, args, v);
  }

  /** A window of `args` holding `vs` starts with `vs[0]` and continues with the window holding `vs[1..]`. */
  lemma SliceTail(args: seq<Value>, start: nat, vs: seq<Value>)
    requires vs != [] && start + |vs| <= |args|
    requires args[start .. start + |vs|] == vs
    ensures args[start] == vs[0]
    ensures args[start + 1 .. start + 1 + |vs[1..]|] == vs[1..]
  {
    assert args[start .. start + |vs|][0] == args[start];
    assert args[start .. start + |vs|][1..] == args[start + 1 .. start + |vs|];
  }

  /** The parameters after the head entry's own start where the tail's values begin. */
  lemma TailValuesInPlace(app: Object, next: nat, args: seq<Value>)
    requires app != []
    requires 1 <= next && next - 1 + |BoundValues(app)| <= |args|
    requires args[next - 1 .. next - 1 + |BoundValues(app)|] == BoundValues(app)
    ensures var next' := if BindsValue(app[0].0) then next + 1 else next;
            && 1 <= next' && next' - 1 + |BoundValues(app[1..])| <= |args|
            && args[next' - 1 .. next' - 1 + |BoundValues(app[1..])|] == BoundValues(app[1..])
            && (BindsValue(app[0].0) ==> args[next - 1] == app[0].1)
  {
    var vs := BoundValues(app);
    var rest := BoundValues(app[1..]);
    if BindsValue(app[0].0) {
      assert vs == [app[0].1] + rest;
      assert vs[1..] == rest;
      SliceTail(args, next - 1, vs);
    } else {
      assert vs == [] + rest == rest;
    }
  }

  /** The numbering pass gives the conditions the placeholders `next, next + 1, ...`, one per bound value. */
  lemma {:induction false} NumberedPlaceholders(app: Object, next: nat)
    requires IsJobFilter(app)
    ensures ParamsOfAll(Numbered(app, next)) == Consecutive(next, |BoundValues(app)|)
  {
    if app != [] {
      var key := app[0].0;
      var next' := if BindsValue(key) then next + 1 else next;
      var ps := Numbered(app, next);
      var tail := Numbered(app[1..], next');
      assert ps[0] == JobCondition(key, next) && ps[1..] == tail;
      assert BoundValues(app) == (if BindsValue(key) then [app[0].1] else []) + BoundValues(app[1..]);
      JobFilterTail(app);
      NumberedPlaceholders(app[1..], next');
      ConditionPlaceholders(key, next);
      if BindsValue(key) {
        ConsecutiveCons(next, |BoundValues(app[1..])|);
      } else {
        assert [] + Consecutive(next, |BoundValues(app[1..])|) == Consecutive(next, |BoundValues(app[1..])|);
      }
    }
  }

  /**
   * The numbering pass is aligned with the value pass: when the parameters
   * from position `next` on are the bound values, each condition binds its
   * own entry's value.
   */
  lemma {:induction false} NumberedBinds(app: Object, next: nat, args: seq<Value>)
    requires IsJobFilter(app)
    requires 1 <= next && next - 1 + |BoundValues(app)| <= |args|
    requires args[next - 1 .. next - 1 + |BoundValues(app)|] == BoundValues(app)
    ensures forall i :: 0 <= i < |app| ==> Instantiate(Numbered(app, next)[i], args) == Some(Fill(Numbered(app, next)[i], app[i].1))
  {
    if app != [] {
      var key := app[0].0;
      var next' := if BindsValue(key) then next + 1 else next;
      var ps := Numbered(app, next);
      var tail := Numbered(app[1..], next');
      assert ps[0] == JobCondition(key, next) && ps[1..] == tail;
      JobFilterTail(app);
      TailValuesInPlace(app, next, args);
      NumberedBinds(app[1..], next', args);
      ConditionBinds(key, app[0].1, next, args);
      forall i | 1 <= i < |app|
        ensures Instantiate(ps[i], args) == Some(Fill(ps[i], app[i].1))
      {
        assert ps[i] == tail[i - 1] && app[i] == app[1..][i - 1];
      }
    }
  }

  /**
   * The clause is aligned with its values: placeholders `$1..$n` in order,
   * one per bound value, so `hasEquity` never shifts the numbering; and binding
   * the values gives every condition its own entry's value.
   */
  lemma FilterAligned(filter: Object)
    requires IsJobFilter(filter)
    ensures Aligned(SqlForFilter(filter))
    ensures Instantiate(SqlForFilter(filter).fragment, SqlForFilter(filter).values) == Some(IntendedConditions(filter))
  {
    var app := Applicable(filter);
    if app != [] {
      ApplicableIsJobFilter(filter);
      var vs := BoundValues(app);
      var ps := Numbered(app, 1);
      var filled := seq(|app|, i requires 0 <= i < |app| => Fill(ps[i], app[i].1));
      assert vs[0 .. |vs|] == vs;
      NumberedPlaceholders(app, 1);
      NumberedBinds(app, 1, vs);
      ParamsJoin(ps, " AND ");
      ParamsAppend([Text("WHERE ")], Join(ps, [Text(" AND ")]));
      assert Params([Text("WHERE ")]) == [];
      InstantiateJoin(ps, filled, " AND ", vs);
      InstantiateText("WHERE ", vs);
      InstantiateAppend([Text("WHERE ")], Join(ps, [Text(" AND ")]), vs, [Sql("WHERE ")], Join(filled, [Sql(" AND ")]));
    }
  }

  /** `hasEquity: false` anywhere in the filter changes nothing: the condition is left out altogether. */
  lemma HasEquityFalseOmitted(before: Object, after: Object)
    ensures Applicable(before + [("hasEquity", Bool(false))] + after) == Applicable(before + after)
  {
    ApplicableAppend(before + [("hasEquity", Bool(false))], after);
    ApplicableAppend(before, [("hasEquity", Bool(false))]);
    ApplicableAppend(before, after);
    assert Applicable([("hasEquity", Bool(false))]) == [] by {
      assert [("hasEquity", Bool(false))][1..] == [];
    }
  }

  /** `hasEquity: true` adds the condition `equity > 0` but no parameter and no placeholder. */
  lemma HasEquityTrueBindsNothing(before: Object, after: Object)
    ensures var app := Applicable(before + [("hasEquity", Bool(true))] + after);
            && BoundValues(app) == BoundValues(Applicable(before + after))
            && |app| == |Applicable(before + after)| + 1
  {
    var flag := [("hasEquity", Bool(true))];
    ApplicableAppend(before + flag, after);
    ApplicableAppend(before, flag);
    ApplicableAppend(before, after);
    assert Applicable(flag) == flag by {
      assert flag[1..] == [];
    }
    BoundValuesAppend(Applicable(before) + flag, Applicable(after));
    BoundValuesAppend(Applicable(before), flag);
    BoundValuesAppend(Applicable(before), Applicable(after));
    assert BoundValues(flag) == [] by {
      assert flag[1..] == [];
    }
  }

  lemma {:induction false} BoundValuesAppend(a: Object, b: Object)
    ensures BoundValues(a + b) == BoundValues(a) + BoundValues(b)
  {
    if a == [] {
      assert a + b == b;
    } else {
      assert (a + b)[0] == a[0] && (a + b)[1..] == a[1..] + b;
      BoundValuesAppend(a[1..], b);
      var head := if BindsValue(a[0].0) then [a[0].1] else [];
      assert BoundValues(a + b) == head + BoundValues(a[1..] + b);
      assert head + (BoundValues(a[1..]) + BoundValues(b)) == (head + BoundValues(a[1..])) + BoundValues(b);
    }
  }

  // ---------------------------------------------------------------- the cases of models/job.test.js

  lemma RenderTitle(k: nat)
    ensures Render(JobCondition("title", k)) == "title ILIKE '%' || " + "$" + NatToString(k) + " || '%'"
  {
    RenderCons(Text("title ILIKE '%' || "), [Param(k), Text(" || '%'")]);
    RenderCons(Param(k), [Text(" || '%'")]);
    RenderCons(Text(" || '%'"), []);
    RenderCons(Param(k), []);
  }

  lemma RenderMinSalary(k: nat)
    ensures Render(JobCondition("minSalary", k)) == "salary >= " + "$" + NatToString(k)
  {
    RenderCons(Text("salary >= "), [Param(k)]);
    RenderCons(Param(k), []);
  }

  lemma RenderEquity(k: nat)
    ensures Render(JobCondition("hasEquity", k)) == "equity > 0"
  {
    RenderCons(Text("equity > 0"), []);
  }

  /** A clause renders as "WHERE " and its rendered conditions joined by " AND ". */
  lemma RenderWhere(ps: seq<seq<Tok>>)
    requires |ps| > 0
    ensures Render([Text("WHERE ")] + Join(ps, [Text(" AND ")]))
            == "WHERE " + Join(seq(|ps|, i requires 0 <= i < |ps| => Render(ps[i])), " AND ")
  {
    RenderCons(Text("WHERE "), Join(ps, [Text(" AND ")]));
    RenderCons(Text("WHERE "), []);
    RenderJoin(ps, " AND ");
  }

  /** `{title: "j1"}` gives `WHERE title ILIKE '%' || $1 || '%'`. */
  lemma TitleExample()
    ensures Render(SqlForFilter([("title", Str("j1"))]).fragment) == "WHERE " + "title ILIKE '%' || " + "$1" + " || '%'"
    ensures SqlForFilter([("title", Str("j1"))]).values == [Str("j1")]
  {
    var f := [("title", Str("j1"))];
    assert f[1..] == [];
    assert Applicable(f) == f;
    assert BoundValues(f) == [Str("j1")];
    assert Numbered(f, 1) == [JobCondition("title", 1)];
    RenderCons(Text("WHERE "), JobCondition("title", 1));
    RenderCons(Text("WHERE "), []);
    RenderTitle(1);
    assert NatToString(1) == "1";
  }

  /** `{minSalary: 20000}` gives `WHERE salary >= $1`. */
  lemma MinSalaryExample()
    ensures Render(SqlForFilter([("minSalary", Num(20000))]).fragment) == "WHERE " + "salary >= " + "$1"
    ensures SqlForFilter([("minSalary", Num(20000))]).values == [Num(20000)]
  {
    var f := [("minSalary", Num(20000))];
    assert f[1..] == [];
    assert Applicable(f) == f;
    assert BoundValues(f) == [Num(20000)];
    assert Numbered(f, 1) == [JobCondition("minSalary", 1)];
    RenderCons(Text("WHERE "), JobCondition("minSalary", 1));
    RenderCons(Text("WHERE "), []);
    RenderMinSalary(1);
    assert NatToString(1) == "1";
  }

  /** `{hasEquity: true}` gives `WHERE equity > 0` and no parameter. */
  lemma EquityExample()
    ensures Render(SqlForFilter([("hasEquity", Bool(true))]).fragment) == "WHERE " + "equity > 0"
    ensures SqlForFilter([("hasEquity", Bool(true))]).values == []
  {
    var f := [("hasEquity", Bool(true))];
    assert f[1..] == [];
    assert Applicable(f) == f;
    assert BoundValues(f) == [];
    assert Numbered(f, 1) == [JobCondition("hasEquity", 1)];
    RenderCons(Text("WHERE "), JobCondition("hasEquity", 1));
    RenderCons(Text("WHERE "), []);
    RenderEquity(1);
  }

  /** The three entries of the multi-filter test, in key order. */
  function ThreeFilters(equity: bool): (f: Object)
    ensures IsJobFilter(f)
  {
    [("title", Str("j")), ("minSalary", Num(20000)), ("hasEquity", Bool(equity))]
  }

  /** The title and salary conditions the multi-filter tests share, rendered with `$1` and `$2`. */
  lemma RenderTitleAndSalary()
    ensures Render(JobCondition("title", 1)) == "title ILIKE '%' || " + "$1" + " || '%'"
    ensures Render(JobCondition("minSalary", 2)) == "salary >= " + "$2"
  {
    RenderTitle(1);
    RenderMinSalary(2);
    assert NatToString(1) == "1";
    assert NatToString(2) == "2";
  }

  lemma RenderWhereTwo(a: seq<Tok>, b: seq<Tok>)
    ensures Render([Text("WHERE ")] + Join([a, b], [Text(" AND ")])) == "WHERE " + Render(a) + " AND " + Render(b)
  {
    assert [a, b][1..] == [b];
    assert [Text("WHERE ")] + Join([a, b], [Text(" AND ")]) == [Text("WHERE ")] + a + [Text(" AND ")] + b;
    RenderAppend([Text("WHERE ")] + a + [Text(" AND ")], b);
    RenderAppend([Text("WHERE ")] + a, [Text(" AND ")]);
    RenderAppend([Text("WHERE ")], a);
    RenderCons(Text("WHERE "), []);
    RenderCons(Text(" AND "), []);
  }

  lemma RenderWhereThree(a: seq<Tok>, b: seq<Tok>, c: seq<Tok>)
    ensures Render([Text("WHERE ")] + Join([a, b, c], [Text(" AND ")]))
            == "WHERE " + Render(a) + " AND " + Render(b) + " AND " + Render(c)
  {
    assert [a, b, c][1..] == [b, c] && [b, c][1..] == [c];
    var w := [Text("WHERE ")] + a + [Text(" AND ")] + b + [Text(" AND ")];
    assert Join([b, c], [Text(" AND ")]) == b + [Text(" AND ")] + c;
    assert Join([a, b, c], [Text(" AND ")]) == a + [Text(" AND ")] + (b + [Text(" AND ")] + c);
    assert [Text("WHERE ")] + Join([a, b, c], [Text(" AND ")]) == w + c;
    RenderAppend(w, c);
    RenderAppend([Text("WHERE ")] + a + [Text(" AND ")] + b, [Text(" AND ")]);
    RenderAppend([Text("WHERE ")] + a + [Text(" AND ")], b);
    RenderAppend([Text("WHERE ")] + a, [Text(" AND ")]);
    RenderAppend([Text("WHERE ")], a);
    RenderCons(Text("WHERE "), []);
    RenderCons(Text(" AND "), []);
  }

  /** The choice and numbering passes on the multi-filter test with `hasEquity: true`. */
  lemma ThreeFiltersChosen()
    ensures Applicable(ThreeFilters(true)) == ThreeFilters(true)
    ensures BoundValues(ThreeFilters(true)) == [Str("j"), Num(20000)]
    ensures Numbered(ThreeFilters(true), 1) == [JobCondition("title", 1), JobCondition("minSalary", 2), JobCondition("hasEquity", 3)]
  {
    var f := ThreeFilters(true);
    assert f[1..] == [("minSalary", Num(20000)), ("hasEquity", Bool(true))];
    assert f[1..][1..] == [("hasEquity", Bool(true))];
    assert f[1..][1..][1..] == [];
  }

  /** With `hasEquity: false` the choice pass keeps the first two entries only. */
  lemma TwoFiltersChosen()
    ensures Applicable(ThreeFilters(false)) == ThreeFilters(false)[..2]
    ensures BoundValues(ThreeFilters(false)[..2]) == [Str("j"), Num(20000)]
    ensures Numbered(ThreeFilters(false)[..2], 1) == [JobCondition("title", 1), JobCondition("minSalary", 2)]
  {
    var f := ThreeFilters(false);
    var kept := f[..2];
    assert f == kept + [("hasEquity", Bool(false))] + [];
    HasEquityFalseOmitted(kept, []);
    assert kept + [] == kept;
    assert kept[1..] == [("minSalary", Num(20000))];
    assert kept[1..][1..] == [];
  }

  /** `{title: "j", minSalary: 20000, hasEquity: true}`: the title with `$1`, then the salary with `$2`, then `equity > 0`. */
  lemma MultipleExample()
    ensures Render(SqlForFilter(ThreeFilters(true)).fragment)
            == "WHERE " + ("title ILIKE '%' || " + "$1" + " || '%'") + " AND " + ("salary >= " + "$2") + " AND " + "equity > 0"
    ensures SqlForFilter(ThreeFilters(true)).values == [Str("j"), Num(20000)]
  {
    ThreeFiltersChosen();
    RenderWhereThree(JobCondition("title", 1), JobCondition("minSalary", 2), JobCondition("hasEquity", 3));
    RenderTitleAndSalary();
    RenderEquity(3);
  }

  /** `{title: "j", minSalary: 20000, hasEquity: false}`: the equity condition is absent altogether. */
  lemma EquityFalseExample()
    ensures Render(SqlForFilter(ThreeFilters(false)).fragment)
            == "WHERE " + ("title ILIKE '%' || " + "$1" + " || '%'") + " AND " + ("salary >= " + "$2")
    ensures SqlForFilter(ThreeFilters(false)).values == [Str("j"), Num(20000)]
  {
    TwoFiltersChosen();
    RenderWhereTwo(JobCondition("title", 1), JobCondition("minSalary", 2));
    RenderTitleAndSalary();
  }

  /** An empty filter gives ''. */
  lemma EmptyExample()
    ensures Render(SqlForFilter([]).fragment) == "" && SqlForFilter([]).values == []
  {
  }
}
