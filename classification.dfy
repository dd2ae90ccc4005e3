/**
 * Steps 3 and 4 of the planner: the predicate sources (WHERE, HAVING, each
 * JOIN ON), their top-level AND chains flattened into conjuncts, and the
 * push of each conjunct that references exactly one alias to that alias's
 * entry (parser/parser.py:137-193).
 */
module Classification {
  import opened Wrappers
  import opened Text
  import opened Ast
  import opened Scopes

  datatype SourceKind = WhereSource | HavingSource | JoinOnSource

  /** A predicate source: the clause it comes from and its expression. */
  datatype Source = Source(kind: SourceKind, expr: Expr)

  /** The ON expressions of the joins that have one, in join order. */
  function OnSources(joins: seq<Join>): seq<Source>
  {
    if |joins| == 0 then []
    else
      var j := joins[|joins| - 1];
      OnSources(joins[..|joins| - 1]) + (if j.on.Some? then [Source(JoinOnSource, j.on.value)] else [])
  }

  /** The predicate sources of a query: WHERE, then HAVING, then each ON. */
  function Sources(q: Select): seq<Source>
  {
    (if q.where.Some? then [Source(WhereSource, q.where.value)] else [])
    + (if q.having.Some? then [Source(HavingSource, q.having.value)] else [])
    + OnSources(q.joins)
  }

  /** The collection of predicate sources (parser/parser.py:138-150). */
  method GatherSources(q: Select) returns (sources: seq<Source>)
    ensures sources == Sources(q)
  {
    sources := [];
    if q.where.Some? {
      sources := sources + [Source(WhereSource, q.where.value)];
    }
    if q.having.Some? {
      sources := sources + [Source(HavingSource, q.having.value)];
    }
    ghost var clauses := sources;
    var i := 0;
    while i < |q.joins|
      invariant 0 <= i <= |q.joins|
      invariant sources == clauses + OnSources(q.joins[..i])
    {
      var onExpr := q.joins[i].on;
      assert q.joins[..i + 1][..i] == q.joins[..i];
      if onExpr.Some? {
        sources := sources + [Source(JoinOnSource, onExpr.value)];
      }
      i := i + 1;
    }
    assert q.joins[..i] == q.joins;
  }

  function KindRank(k: SourceKind): nat
  {
    match k
    case WhereSource => 0
    case HavingSource => 1
    case JoinOnSource => 2
  }

  /**
   * The sources come in clause order (WHERE before HAVING before every ON),
   * one per clause present, and the ON sources follow the joins.
   */
  lemma {:induction false} SourcesOrdered(q: Select)
    ensures forall i, j :: 0 <= i < j < |Sources(q)| ==> KindRank(Sources(q)[i].kind) <= KindRank(Sources(q)[j].kind)
    ensures q.where.Some? ==> Sources(q)[0] == Source(WhereSource, q.where.value)
    ensures q.where.None? ==> forall i :: 0 <= i < |Sources(q)| ==> Sources(q)[i].kind != WhereSource
  {
    OnSourcesKinds(q.joins);
  }

  lemma {:induction false} OnSourcesKinds(joins: seq<Join>)
    ensures forall i :: 0 <= i < |OnSources(joins)| ==> OnSources(joins)[i].kind == JoinOnSource
  {
    if |joins| > 0 {
      OnSourcesKinds(joins[..|joins| - 1]);
    }
  }

  /** The conjuncts of a top-level AND chain, left to right (`flatten_conj`). */
  function Flatten(e: Expr): (atoms: seq<Expr>)
    ensures |atoms| >= 1
    ensures forall i :: 0 <= i < |atoms| ==> !atoms[i].And?
  {
    if e.And? then Flatten(e.left) + Flatten(e.right) else [e]
  }

  /** The right-leaning AND chain over a non-empty list of conjuncts. */
  function Conjoin(atoms: seq<Expr>): Expr
    requires |atoms| > 0
  {
    if |atoms| == 1 then atoms[0] else And(atoms[0], Conjoin(atoms[1..]))
  }

  /**
   * Flattening undoes conjoining: conjuncts that are not themselves ANDs
   * come back in the same order.
   */
  lemma {:induction false} FlattenConjoin(atoms: seq<Expr>)
    requires |atoms| > 0
    requires forall i :: 0 <= i < |atoms| ==> !atoms[i].And?
    ensures Flatten(Conjoin(atoms)) == atoms
  {
    if |atoms| > 1 {
      FlattenConjoin(atoms[1..]);
      assert atoms == [atoms[0]] + atoms[1..];
    }
  }

  /** The left-leaning AND chain over a non-empty list of conjuncts, as a parser builds `a AND b AND c`. */
  function ConjoinLeft(atoms: seq<Expr>): Expr
    requires |atoms| > 0
  {
    if |atoms| == 1 then atoms[0] else And(ConjoinLeft(atoms[..|atoms| - 1]), atoms[|atoms| - 1])
  }

  /** Flattening undoes left-leaning conjoining too. */
  lemma {:induction false} FlattenConjoinLeft(atoms: seq<Expr>)
    requires |atoms| > 0
    requires forall i :: 0 <= i < |atoms| ==> !atoms[i].And?
    ensures Flatten(ConjoinLeft(atoms)) == atoms
  {
    if |atoms| > 1 {
      FlattenConjoinLeft(atoms[..|atoms| - 1]);
      assert atoms == atoms[..|atoms| - 1] + [atoms[|atoms| - 1]];
    }
  }

  /**
   * `e` is an AND chain over the conjuncts `xs` under some bracketing: a
   * non-AND node is the chain of itself alone, and an AND node splits `xs`
   * into a non-empty run for its left operand and one for its right.
   */
  ghost predicate Brackets(e: Expr, xs: seq<Expr>)
    decreases e
  {
    if !e.And? then xs == [e]
    else exists i :: 0 < i < |xs| && Brackets(e.left, xs[..i]) && Brackets(e.right, xs[i..])
  }

  /**
   * The conjuncts do not depend on how the AND chain is bracketed: an
   * expression flattens to `xs` exactly when it is some bracketing of an
   * AND chain over `xs`.
   */
  lemma {:induction false} FlattenShapeIndependent(e: Expr, xs: seq<Expr>)
    ensures Brackets(e, xs) <==> Flatten(e) == xs
  {
    if e.And? {
      if Brackets(e, xs) {
        var i :| 0 < i < |xs| && Brackets(e.left, xs[..i]) && Brackets(e.right, xs[i..]);
        FlattenShapeIndependent(e.left, xs[..i]);
        FlattenShapeIndependent(e.right, xs[i..]);
        assert xs == xs[..i] + xs[i..];
      }
      if Flatten(e) == xs {
        var i := |Flatten(e.left)|;
        FlattenShapeIndependent(e.left, xs[..i]);
        FlattenShapeIndependent(e.right, xs[i..]);
        assert xs[..i] == Flatten(e.left) && xs[i..] == Flatten(e.right);
      }
    }
  }

  /** The rendered conjuncts of a list of expressions. */
  function Renders(atoms: seq<Expr>): (r: seq<string>)
    ensures |r| == |atoms|
    ensures forall i :: 0 <= i < |atoms| ==> r[i] == Render(atoms[i])
  {
    seq(|atoms|, i requires 0 <= i < |atoms| => Render(atoms[i]))
  }

  /**
   * Joining the rendered conjuncts with " AND " gives back the text of the
   * whole chain: flattening loses and reorders nothing.
   */
  lemma {:induction false} RenderFlatten(e: Expr)
    ensures JoinWith(" AND ", Renders(Flatten(e))) == Render(e)
  {
    if e.And? {
      RenderFlatten(e.left);
      RenderFlatten(e.right);
      var l, r := Flatten(e.left), Flatten(e.right);
      assert Renders(l + r) == Renders(l) + Renders(r);
      JoinWithAppend(" AND ", Renders(l), Renders(r));
    }
  }

  /** The columns of an expression are those of its conjuncts, in order. */
  function ColumnsOfAll(atoms: seq<Expr>): seq<ColumnRef>
  {
    if |atoms| == 0 then [] else ColumnsIn(atoms[0]) + ColumnsOfAll(atoms[1..])
  }

  lemma {:induction false} ColumnsOfAllAppend(xs: seq<Expr>, ys: seq<Expr>)
    ensures ColumnsOfAll(xs + ys) == ColumnsOfAll(xs) + ColumnsOfAll(ys)
  {
    if |xs| > 0 {
      assert (xs + ys)[0] == xs[0];
      assert (xs + ys)[1..] == xs[1..] + ys;
      ColumnsOfAllAppend(xs[1..], ys);
    } else {
      assert xs + ys == ys;
    }
  }

  lemma {:induction false} FlattenKeepsColumns(e: Expr)
    ensures ColumnsOfAll(Flatten(e)) == ColumnsIn(e)
  {
    if e.And? {
      FlattenKeepsColumns(e.left);
      FlattenKeepsColumns(e.right);
      ColumnsOfAllAppend(Flatten(e.left), Flatten(e.right));
    }
  }

  /** The qualifiers present among column texts. */
  function Qualifiers(texts: seq<string>): set<string>
  {
    set t | t in texts && QualifierOf(t).Some? :: QualifierOf(t).value
  }

  /**
   * The one alias a conjunct references (`expr_single_table`): the only
   * qualifier present when it is a key; or, with no qualifier present but
   * some column, the only key when there is exactly one.
   */
  function SingleTable(keys: set<string>, e: Expr): Option<string>
  {
    var texts := ColumnTexts(e);
    var quals := Qualifiers(texts);
    if quals == {} then
      if |texts| > 0 && |keys| == 1 then Some(OnlyKey(keys)) else None
    else if |quals| == 1 then
      var q := OnlyKey(quals);
      if q in keys then Some(q) else None
    else None
  }

  /**
   * `expr_single_table` returns `a` exactly when the qualifiers present are
   * `{a}` and `a` is a key, or when no qualifier is present, some column is,
   * and `a` is the only key. Columns without a qualifier are ignored as soon
   * as one column has one.
   */
  lemma SingleTableSpec(keys: set<string>, e: Expr, a: string)
    ensures SingleTable(keys, e) == Some(a) <==>
      (Qualifiers(ColumnTexts(e)) == {a} && a in keys)
      || (Qualifiers(ColumnTexts(e)) == {} && |ColumnTexts(e)| > 0 && keys == {a})
  {
    var quals := Qualifiers(ColumnTexts(e));
    if quals == {a} {
      assert |quals| == 1;
    }
    if |keys| == 1 {
      var only := OnlyKey(keys);
    }
    if quals != {} && |quals| == 1 {
      var only := OnlyKey(quals);
    }
  }

  /**
   * A conjunct with a column qualified by `k`, a key, whose other columns
   * carry `k` or no qualifier (all names without `.`), is attributed to `k`:
   * the unqualified columns are not consulted once a qualified one exists.
   */
  lemma SingleAliasConjunct(keys: set<string>, e: Expr, k: string, j: nat)
    requires k in keys
    requires j < |ColumnsIn(e)| && ColumnsIn(e)[j].qual == Some(k)
    requires forall i :: 0 <= i < |ColumnsIn(e)| ==>
      ColumnsIn(e)[i].qual in {None, Some(k)} && '.' !in ColumnsIn(e)[i].name
    ensures SingleTable(keys, e) == Some(k)
  {
    var cols := ColumnsIn(e);
    var texts := ColumnTexts(e);
    forall i | 0 <= i < |texts|
      ensures QualifierOf(texts[i]) in {None, Some(k)}
    {
      if cols[i].qual.Some? {
        ColTextSplits(k, cols[i].name);
      } else {
        ColTextUnqualified(cols[i].name);
      }
    }
    ColTextSplits(k, cols[j].name);
    assert texts[j] in texts;
    assert Qualifiers(texts) == {k};
    SingleTableSpec(keys, e, k);
  }

  /**
   * A conjunct with columns qualified by two different qualifiers (names
   * without `.`) is attributed to no alias.
   */
  lemma TwoAliasConjunct(keys: set<string>, e: Expr, i: nat, j: nat)
    requires i < |ColumnsIn(e)| && j < |ColumnsIn(e)|
    requires ColumnsIn(e)[i].qual.Some? && ColumnsIn(e)[j].qual.Some?
    requires ColumnsIn(e)[i].qual != ColumnsIn(e)[j].qual
    requires '.' !in ColumnsIn(e)[i].name && '.' !in ColumnsIn(e)[j].name
    ensures SingleTable(keys, e).None?
  {
    var cols := ColumnsIn(e);
    var texts := ColumnTexts(e);
    var qi, qj := cols[i].qual.value, cols[j].qual.value;
    ColTextSplits(qi, cols[i].name);
    ColTextSplits(qj, cols[j].name);
    assert texts[i] in texts && texts[j] in texts;
    assert qi in Qualifiers(texts) && qj in Qualifiers(texts);
    TwoMembers(Qualifiers(texts), qi, qj);
    ManyQualifiers(keys, e);
  }

  lemma ManyQualifiers(keys: set<string>, e: Expr)
    requires |Qualifiers(ColumnTexts(e))| >= 2
    ensures SingleTable(keys, e).None?
  {
  }

  lemma TwoMembers(s: set<string>, a: string, b: string)
    requires a in s && b in s && a != b
    ensures |s| >= 2
  {
    var rest := s - {a};
    assert b in rest;
    assert s == rest + {a};
  }

  /** Where a conjunct goes: its single alias, unless that is empty (`if alias:`). */
  function Destination(keys: set<string>, a: Expr): (r: Option<string>)
    ensures r.Some? ==> r.value in keys
  {
    var alias := SingleTable(keys, a);
    if alias.Some? && alias.value != "" then
      SingleTableSpec(keys, a, alias.value);
      alias
    else None
  }

  /** One pass of the conjunct loop (parser/parser.py:186-193). */
  function PushConjunct(tables: map<string, Entry>, a: Expr): (r: map<string, Entry>)
    ensures r.Keys == tables.Keys
  {
    match Destination(tables.Keys, a)
    case Some(k) => tables[k := tables[k].(pushdown := tables[k].pushdown + [Render(a)])]
    case None => tables
  }

  /** The dictionary after the conjuncts `atoms` have been pushed in order. */
  function Pushed(tables: map<string, Entry>, atoms: seq<Expr>): (r: map<string, Entry>)
    ensures r.Keys == tables.Keys
  {
    if |atoms| == 0 then tables
    else PushConjunct(Pushed(tables, atoms[..|atoms| - 1]), atoms[|atoms| - 1])
  }

  lemma PushedSnoc(tables: map<string, Entry>, atoms: seq<Expr>, a: Expr)
    ensures Pushed(tables, atoms + [a]) == PushConjunct(Pushed(tables, atoms), a)
  {
    assert (atoms + [a])[..|atoms|] == atoms;
  }

  /** The conjuncts of every source, source after source. */
  function Conjuncts(sources: seq<Source>): seq<Expr>
  {
    if |sources| == 0 then []
    else Conjuncts(sources[..|sources| - 1]) + Flatten(sources[|sources| - 1].expr)
  }

  /** Pushing two runs of conjuncts is pushing the first, then the second. */
  lemma {:induction false} PushedAppend(tables: map<string, Entry>, xs: seq<Expr>, ys: seq<Expr>)
    ensures Pushed(tables, xs + ys) == Pushed(Pushed(tables, xs), ys)
  {
    if |ys| == 0 {
      assert xs + ys == xs;
    } else {
      var init := ys[..|ys| - 1];
      var last := ys[|ys| - 1];
      PushedAppend(tables, xs, init);
      assert xs + ys == (xs + init) + [last];
      PushedSnoc(tables, xs + init, last);
    }
  }

  /** The loop over the conjuncts of one source (parser/parser.py:186-193). */
  method PushConjuncts(tables: map<string, Entry>, conjuncts: seq<Expr>) returns (result: map<string, Entry>)
    ensures result == Pushed(tables, conjuncts)
  {
    result := tables;
    var j := 0;
    while j < |conjuncts|
      invariant 0 <= j <= |conjuncts|
      invariant result == Pushed(tables, conjuncts[..j])
    {
      var conjunct := conjuncts[j];
      assert conjuncts[..j + 1] == conjuncts[..j] + [conjunct];
      PushedSnoc(tables, conjuncts[..j], conjunct);
      var alias := SingleTable(result.Keys, conjunct);
      if alias.Some? && alias.value != "" {
        var k := alias.value;
        result := result[k := result[k].(pushdown := result[k].pushdown + [Render(conjunct)])];
      }
      j := j + 1;
    }
    assert conjuncts[..j] == conjuncts;
  }

  /** The loop over the predicate sources (parser/parser.py:172-193). */
  method PushPredicates(tables: map<string, Entry>, sources: seq<Source>) returns (result: map<string, Entry>)
    ensures result == Pushed(tables, Conjuncts(sources))
  {
    result := tables;
    var i := 0;
    while i < |sources|
      invariant 0 <= i <= |sources|
      invariant result == Pushed(tables, Conjuncts(sources[..i]))
    {
      var conjuncts := Flatten(sources[i].expr);
      assert sources[..i + 1][..i] == sources[..i];
      PushedAppend(tables, Conjuncts(sources[..i]), conjuncts);
      result := PushConjuncts(result, conjuncts);
      i := i + 1;
    }
    assert sources[..i] == sources;
  }

  /** The texts pushed to the entry keyed `k` from the conjuncts `atoms`, in order. */
  function PushedTo(keys: set<string>, atoms: seq<Expr>, k: string): seq<string>
  {
    if |atoms| == 0 then []
    else
      var a := atoms[|atoms| - 1];
      PushedTo(keys, atoms[..|atoms| - 1], k) + (if Destination(keys, a) == Some(k) then [Render(a)] else [])
  }

  /**
   * A conjunct is appended to the entry its destination names and to no
   * other; a conjunct without destination changes nothing.
   */
  lemma PushConjunctEffect(tables: map<string, Entry>, a: Expr, k: string)
    requires k in tables
    ensures PushConjunct(tables, a)[k] == tables[k].(pushdown := tables[k].pushdown
      + (if Destination(tables.Keys, a) == Some(k) then [Render(a)] else []))
    ensures Destination(tables.Keys, a).None? ==> PushConjunct(tables, a) == tables
  {
  }

  /**
   * After the push, each entry differs only in its pushdown list, which has
   * gained, in order, the text of every conjunct whose destination it is.
   */
  lemma {:induction false} PushedEntry(tables: map<string, Entry>, atoms: seq<Expr>, k: string)
    requires k in tables
    ensures Pushed(tables, atoms)[k]
      == tables[k].(pushdown := tables[k].pushdown + PushedTo(tables.Keys, atoms, k))
  {
    if |atoms| > 0 {
      var init := atoms[..|atoms| - 1];
      PushedEntry(tables, init, k);
      PushConjunctEffect(Pushed(tables, init), atoms[|atoms| - 1], k);
    }
  }

  /** Pushing two runs of conjuncts appends their pushed texts in run order. */
  lemma {:induction false} PushedToAppend(keys: set<string>, xs: seq<Expr>, ys: seq<Expr>, k: string)
    ensures PushedTo(keys, xs + ys, k) == PushedTo(keys, xs, k) + PushedTo(keys, ys, k)
  {
    if |ys| > 0 {
      var yi := ys[..|ys| - 1];
      assert (xs + ys)[..|xs + ys| - 1] == xs + yi;
      PushedToAppend(keys, xs, yi, k);
    } else {
      assert xs + ys == xs;
    }
  }

  /** Every pushed text renders a conjunct bound for `k`. */
  lemma {:induction false} PushedToSound(keys: set<string>, atoms: seq<Expr>, k: string, s: string)
    requires s in PushedTo(keys, atoms, k)
    ensures exists i :: 0 <= i < |atoms| && Destination(keys, atoms[i]) == Some(k) && Render(atoms[i]) == s
  {
    var n := |atoms| - 1;
    var init := atoms[..n];
    if s in PushedTo(keys, init, k) {
      PushedToSound(keys, init, k, s);
      var i :| 0 <= i < n && Destination(keys, init[i]) == Some(k) && Render(init[i]) == s;
      assert init[i] == atoms[i];
    } else {
      assert Destination(keys, atoms[n]) == Some(k) && Render(atoms[n]) == s;
    }
  }

  /** Every conjunct bound for `k` has its text pushed to `k`. */
  lemma {:induction false} PushedToComplete(keys: set<string>, atoms: seq<Expr>, k: string, i: nat)
    requires i < |atoms| && Destination(keys, atoms[i]) == Some(k)
    ensures Render(atoms[i]) in PushedTo(keys, atoms, k)
  {
    var n := |atoms| - 1;
    var init := atoms[..n];
    var last := if Destination(keys, atoms[n]) == Some(k) then [Render(atoms[n])] else [];
    assert PushedTo(keys, atoms, k) == PushedTo(keys, init, k) + last;
    if i < n {
      assert init[i] == atoms[i];
      PushedToComplete(keys, init, k, i);
    }
  }

  /**
   * A text is pushed to `k` exactly when it is the rendering of some
   * conjunct whose destination is `k`.
   */
  lemma PushedToMembers(keys: set<string>, atoms: seq<Expr>, k: string, s: string)
    ensures s in PushedTo(keys, atoms, k) <==>
      exists i :: 0 <= i < |atoms| && Destination(keys, atoms[i]) == Some(k) && Render(atoms[i]) == s
  {
    if s in PushedTo(keys, atoms, k) {
      PushedToSound(keys, atoms, k, s);
    }
    if exists i :: 0 <= i < |atoms| && Destination(keys, atoms[i]) == Some(k) && Render(atoms[i]) == s {
      var i :| 0 <= i < |atoms| && Destination(keys, atoms[i]) == Some(k) && Render(atoms[i]) == s;
      PushedToComplete(keys, atoms, k, i);
    }
  }


}
