/**
 * Parameterised SQL fragments. A fragment is a sequence of tokens, each either
 * literal SQL text or a PostgreSQL positional placeholder `$k`; `Render` gives
 * the string the application builds. Executing a query binds `$k` to the k-th
 * parameter (`Instantiate`), which is how the clause builders' promise that
 * "placeholder i binds values[i-1]" is stated and proved.
 */
module Fragments {
  import opened Wrappers
  import opened Js

  /** A token of a fragment: SQL text, or the placeholder `$k`. */
  datatype Tok = Text(s: string) | Param(k: nat)

  /** A token once the parameters are bound: SQL text, or the parameter value itself. */
  datatype Bound = Sql(s: string) | Arg(v: Value)

  /** A fragment together with the parameter list that goes with it. */
  datatype Clause = Clause(fragment: seq<Tok>, values: seq<Value>)

  /** The string the application builds for `f`; `$k` is written in decimal. */
  function Render(f: seq<Tok>): string
  {
    if f == [] then ""
    else
      (match f[0]
       case Text(s) => s
       case Param(k) => "$" + NatToString(k))
      + Render(f[1..])
  }

  /** `items.join(sep)`: the items with one separator between neighbours, none before the first or after the last. */
  function Join<T>(items: seq<seq<T>>, sep: seq<T>): seq<T>
  {
    if |items| == 0 then []
    else if |items| == 1 then items[0]
    else items[0] + sep + Join(items[1..], sep)
  }

  /** The placeholder numbers of `f`, in the order they occur. */
  function Params(f: seq<Tok>): seq<nat>
  {
    if f == [] then []
    else (if f[0].Param? then [f[0].k] else []) + Params(f[1..])
  }

  /** The placeholder numbers of each item, item after item. */
  function ParamsOfAll(items: seq<seq<Tok>>): seq<nat>
  {
    if items == [] then [] else Params(items[0]) + ParamsOfAll(items[1..])
  }

  /** The numbers `start`, `start + 1`, ..., `start + n - 1`. */
  function Consecutive(start: nat, n: nat): (r: seq<nat>)
    ensures |r| == n && forall i :: 0 <= i < n ==> r[i] == start + i
  {
    seq(n, i requires 0 <= i < n => start + i)
  }

  /** The numbers from `start`, followed by the next one. */
  lemma {:induction false} ConsecutiveSnoc(start: nat, n: nat)
    ensures Consecutive(start, n) + [start + n] == Consecutive(start, n + 1)
    decreases n
  {
    if n > 0 {
      ConsecutiveSnoc(start + 1, n - 1);
      assert Consecutive(start, n) + [start + n] == [start] + (Consecutive(start + 1, n - 1) + [start + n]);
    }
  }

  /** `start` followed by the numbers after it. */
  lemma ConsecutiveCons(start: nat, n: nat)
    ensures [start] + Consecutive(start + 1, n) == Consecutive(start, n + 1)
  {
  }

  /**
   * The invariant of a clause result: its placeholders are `$1 .. $n` in
   * emission order, one for each value, so there are as many placeholders as
   * values, 1-indexed and strictly increasing.
   */
  predicate Aligned(c: Clause)
  {
    Params(c.fragment) == Consecutive(1, |c.values|)
  }

  /** Every placeholder of `f` names one of `n` parameters. */
  predicate PlaceholdersWithin(f: seq<Tok>, n: nat)
  {
    forall i :: 0 <= i < |f| && f[i].Param? ==> 1 <= f[i].k <= n
  }

  /**
   * Binding `args` to `f`: `$k` becomes `args[k-1]`, and a placeholder outside
   * `1..|args|` is an error. This is the binding only; the database's further
   * demand that the parameters be exactly `$1..$n`, with no gap and no extra
   * value, is what `Aligned` (and `Params == Consecutive(1, n)`) states.
   */
  function Instantiate(f: seq<Tok>, args: seq<Value>): (r: Option<seq<Bound>>)
    ensures r.Some? <==> PlaceholdersWithin(f, |args|)
    ensures r.Some? ==> |r.value| == |f|
  {
    if f == [] then Some([])
    else
      var rest := Instantiate(f[1..], args);
      match f[0]
      case Text(s) =>
        if rest.Some? then Some([Sql(s)] + rest.value) else None
      case Param(k) =>
        if rest.Some? && 1 <= k <= |args| then Some([Arg(args[k - 1])] + rest.value) else None
  }

  /** `f` with the single value `v` in every placeholder: the condition a fragment stands for once its own value is filled in. */
  function Fill(f: seq<Tok>, v: Value): (r: seq<Bound>)
    ensures |r| == |f|
  {
    if f == [] then []
    else
      (match f[0]
       case Text(s) => [Sql(s)]
       case Param(_) => [Arg(v)])
      + Fill(f[1..], v)
  }

  // ---------------------------------------------------------------- lemmas

  lemma {:induction false} ParamsAppend(a: seq<Tok>, b: seq<Tok>)
    ensures Params(a + b) == Params(a) + Params(b)
  {
    if a != [] {
      assert (a + b)[1..] == a[1..] + b;
      ParamsAppend(a[1..], b);
    } else {
      assert a + b == b;
    }
  }

  /** The placeholders of a token followed by more tokens. */
  lemma {:induction false} ParamsCons(t: Tok, rest: seq<Tok>)
    ensures Params([t] + rest) == (if t.Param? then [t.k] else []) + Params(rest)
  {
    assert ([t] + rest)[1..] == rest;
  }

  /** Joining with a text separator adds no placeholder: the placeholders are those of the items, in order. */
  lemma {:induction false} ParamsJoin(items: seq<seq<Tok>>, sep: string)
    ensures Params(Join(items, [Text(sep)])) == ParamsOfAll(items)
  {
    if |items| == 1 {
      assert ParamsOfAll(items[1..]) == [];
      assert Params(items[0]) + [] == Params(items[0]);
    } else if |items| > 1 {
      ParamsJoin(items[1..], sep);
      ParamsAppend(items[0] + [Text(sep)], Join(items[1..], [Text(sep)]));
      ParamsAppend(items[0], [Text(sep)]);
      assert Params([Text(sep)]) == [];
    }
  }

  /** When item `i` carries exactly the placeholder `start + i`, the items together carry `start, start + 1, ...`. */
  lemma {:induction false} ParamsOfAllConsecutive(items: seq<seq<Tok>>, start: nat)
    requires forall i :: 0 <= i < |items| ==> Params(items[i]) == [start + i]
    ensures ParamsOfAll(items) == Consecutive(start, |items|)
  {
    if items != [] {
      ParamsOfAllConsecutive(items[1..], start + 1);
      assert [start] + Consecutive(start + 1, |items| - 1) == Consecutive(start, |items|);
    }
  }

  lemma {:induction false} InstantiateAppend(a: seq<Tok>, b: seq<Tok>, args: seq<Value>, x: seq<Bound>, y: seq<Bound>)
    requires Instantiate(a, args) == Some(x) && Instantiate(b, args) == Some(y)
    ensures Instantiate(a + b, args) == Some(x + y)
  {
    if a != [] {
      assert (a + b)[1..] == a[1..] + b;
      var x' := Instantiate(a[1..], args).value;
      InstantiateAppend(a[1..], b, args, x', y);
      assert (a + b)[0] == a[0];
      assert x == [x[0]] + x';
      assert x + y == [x[0]] + (x' + y);
    } else {
      assert a + b == b && x + y == y;
    }
  }

  /**
   * Binding distributes over a join with a text separator: if each item binds
   * to the corresponding filled item, the joined fragment binds to the join of
   * the filled items.
   */
  lemma {:induction false} InstantiateJoin(items: seq<seq<Tok>>, filled: seq<seq<Bound>>, sep: string, args: seq<Value>)
    requires |items| == |filled|
    requires forall i :: 0 <= i < |items| ==> Instantiate(items[i], args) == Some(filled[i])
    ensures Instantiate(Join(items, [Text(sep)]), args) == Some(Join(filled, [Sql(sep)]))
  {
    if |items| > 1 {
      InstantiateJoin(items[1..], filled[1..], sep, args);
      InstantiateText(sep, args);
      InstantiateAppend(items[0], [Text(sep)], args, filled[0], [Sql(sep)]);
      InstantiateAppend(items[0] + [Text(sep)], Join(items[1..], [Text(sep)]), args,
                        filled[0] + [Sql(sep)], Join(filled[1..], [Sql(sep)]));
    }
  }

  /** A fragment whose every placeholder names a parameter equal to `v` binds to `f` filled with `v`. */
  lemma {:induction false} InstantiateFill(f: seq<Tok>, args: seq<Value>, v: Value)
    requires forall k :: k in Params(f) ==> 1 <= k <= |args| && args[k - 1] == v
    ensures Instantiate(f, args) == Some(Fill(f, v))
  {
    if f != [] {
      assert forall k :: k in Params(f[1..]) ==> k in Params(f);
      InstantiateFill(f[1..], args, v);
      if f[0].Param? {
        assert f[0].k in Params(f);
      }
    }
  }

  /** Parameters beyond the ones a fragment names do not change how it binds. */
  lemma {:induction false} InstantiateExtraArgs(f: seq<Tok>, args: seq<Value>, extra: seq<Value>)
    requires Instantiate(f, args).Some?
    ensures Instantiate(f, args + extra) == Instantiate(f, args)
  {
    if f != [] {
      InstantiateExtraArgs(f[1..], args, extra);
      if f[0].Param? {
        assert (args + extra)[f[0].k - 1] == args[f[0].k - 1];
      }
    }
  }

  /** Binding a lone placeholder `$k` gives the k-th parameter. */
  lemma {:induction false} InstantiateParam(k: nat, args: seq<Value>)
    requires 1 <= k <= |args|
    ensures Instantiate([Param(k)], args) == Some([Arg(args[k - 1])])
  {
    assert [Param(k)][1..] == [];
    assert [Arg(args[k - 1])] + [] == [Arg(args[k - 1])];
  }

  /** A placeholder `$k` followed by text: its only placeholder is `$k`, and it binds the k-th parameter. */
  lemma ParamTextBinds(k: nat, after: string, args: seq<Value>)
    requires 1 <= k <= |args|
    ensures Params([Param(k), Text(after)]) == [k]
    ensures Instantiate([Param(k), Text(after)], args) == Some([Arg(args[k - 1]), Sql(after)])
  {
    ParamsCons(Param(k), [Text(after)]);
    ParamsCons(Text(after), []);
    InstantiateParam(k, args);
    InstantiateText(after, args);
    InstantiateAppend([Param(k)], [Text(after)], args, [Arg(args[k - 1])], [Sql(after)]);
    assert [Param(k)] + [Text(after)] == [Param(k), Text(after)];
    assert [Arg(args[k - 1])] + [Sql(after)] == [Arg(args[k - 1]), Sql(after)];
  }

  /** Text, one placeholder `$k`, text: the only placeholder is `$k`, and it binds the k-th parameter. */
  lemma TextParamTextBinds(before: string, k: nat, after: string, args: seq<Value>)
    requires 1 <= k <= |args|
    ensures Params([Text(before)] + [Param(k), Text(after)]) == [k]
    ensures Instantiate([Text(before)] + [Param(k), Text(after)], args) == Some([Sql(before)] + [Arg(args[k - 1]), Sql(after)])
  {
    ParamTextBinds(k, after, args);
    ParamsCons(Text(before), [Param(k), Text(after)]);
    InstantiateText(before, args);
    InstantiateAppend([Text(before)], [Param(k), Text(after)], args, [Sql(before)], [Arg(args[k - 1]), Sql(after)]);
  }

  /**
   * Text, then a body carrying `$1..$n`, then a tail carrying `$n+1`: the whole
   * carries `$1..$n+1`, and binds to the text followed by what the two parts bind to.
   */
  lemma HeadBodyTailAligned(head: string, body: seq<Tok>, tail: seq<Tok>, n: nat, args: seq<Value>, x: seq<Bound>, y: seq<Bound>)
    requires Params(body) == Consecutive(1, n) && Params(tail) == [n + 1]
    requires Instantiate(body, args) == Some(x) && Instantiate(tail, args) == Some(y)
    ensures Params([Text(head)] + body + tail) == Consecutive(1, n + 1)
    ensures Instantiate([Text(head)] + body + tail, args) == Some([Sql(head)] + x + y)
  {
    ParamsCons(Text(head), body);
    ParamsCons(Text(head), []);
    ParamsAppend([Text(head)] + body, tail);
    ConsecutiveSnoc(1, n);
    InstantiateText(head, args);
    InstantiateAppend([Text(head)], body, args, [Sql(head)], x);
    InstantiateAppend([Text(head)] + body, tail, args, [Sql(head)] + x, y);
  }

  /** Rendering a token followed by more tokens. */
  lemma {:induction false} RenderCons(t: Tok, rest: seq<Tok>)
    ensures Render([t] + rest) == Render([t]) + Render(rest)
  {
    assert ([t] + rest)[1..] == rest;
    assert [t][1..] == [];
  }

  /** Rendering commutes with joining: the rendered join is the join of the rendered items. */
  lemma {:induction false} RenderJoin(items: seq<seq<Tok>>, sep: string)
    ensures Render(Join(items, [Text(sep)])) == Join(seq(|items|, i requires 0 <= i < |items| => Render(items[i])), sep)
  {
    var strs := seq(|items|, i requires 0 <= i < |items| => Render(items[i]));
    if |items| > 1 {
      RenderJoin(items[1..], sep);
      assert strs[1..] == seq(|items[1..]|, i requires 0 <= i < |items[1..]| => Render(items[1..][i]));
      RenderAppend(items[0] + [Text(sep)], Join(items[1..], [Text(sep)]));
      RenderAppend(items[0], [Text(sep)]);
      assert Render([Text(sep)]) == sep by {
        assert [Text(sep)][1..] == [];
      }
    }
  }

  /** Binding text alone gives the text back. */
  lemma {:induction false} InstantiateText(s: string, args: seq<Value>)
    ensures Instantiate([Text(s)], args) == Some([Sql(s)])
  {
    assert [Text(s)][1..] == [];
    assert [Sql(s)] + [] == [Sql(s)];
  }

  lemma {:induction false} RenderAppend(a: seq<Tok>, b: seq<Tok>)
    ensures Render(a + b) == Render(a) + Render(b)
  {
    if a != [] {
      assert (a + b)[1..] == a[1..] + b;
      RenderAppend(a[1..], b);
    } else {
      assert a + b == b;
    }
  }
}
