/**
 * The query of the module's demonstration block (parser/parser.py:227-235),
 * `employee a JOIN department b ON a.dept_id = b.id AND b.active = true`
 * with a three-conjunct WHERE, worked through the pushdown step.
 */
module Demo {
  import opened Wrappers
  import opened Ast
  import opened Scopes
  import opened Classification

  function A(name: string): Expr { Col(ColumnRef(Some("a"), name)) }
  function B(name: string): Expr { Col(ColumnRef(Some("b"), name)) }

  const Status := Binary("=", A("status"), Lit("'active'"))
  const Created := Binary(">", A("created_at"), Lit("'2024-01-01'"))
  const Dept := Binary("=", B("dept_name"), Lit("'Sales'"))
  const JoinKey := Binary("=", A("dept_id"), B("id"))
  const Active := Binary("=", B("active"), Lit("TRUE"))

  /** WHERE first, then the ON clause, each a left-leaning AND chain as parsed. */
  const DemoSources := [
    Source(WhereSource, And(And(Status, Created), Dept)),
    Source(JoinOnSource, And(JoinKey, Active))
  ]

  const Keys: set<string> := {"a", "b"}

  /** The demonstration query as a parse tree. */
  const DemoQuery := Select(
    [A("id"), A("name"), B("dept_name")],
    Some(TableRef(["employee"], Some("a"))),
    [Join(TableRef(["department"], Some("b")), Some(And(JoinKey, Active)))],
    Some(And(And(Status, Created), Dept)),
    [], None, [])

  /** The query's predicate sources are the WHERE chain, then the ON chain. */
  lemma DemoQuerySources()
    ensures Sources(DemoQuery) == DemoSources
  {
    var js := DemoQuery.joins;
    assert js[..|js| - 1] == [];
    assert OnSources(js) == [Source(JoinOnSource, And(JoinKey, Active))];
  }

  /** The query's dictionary is keyed by its two aliases. */
  lemma DemoQueryKeys()
    ensures Scope(TablesOf(DemoQuery)).Keys == Keys
  {
    var ts := TablesOf(DemoQuery);
    ScopeKeys(ts);
    assert ts == [TableRef(["employee"], Some("a")), TableRef(["department"], Some("b"))];
    assert AliasOf(ts[0]) == "a" && AliasOf(ts[1]) == "b";
  }

  lemma DemoConjuncts()
    ensures Conjuncts(DemoSources) == [Status, Created, Dept, JoinKey, Active]
  {
    assert Conjuncts(DemoSources[..1]) == [Status, Created, Dept];
    assert DemoSources[..2][..1] == DemoSources[..1];
  }

  lemma StatusToA()
    ensures Destination(Keys, Status) == Some("a")
  {
    SingleAliasConjunct(Keys, Status, "a", 0);
  }

  lemma CreatedToA()
    ensures Destination(Keys, Created) == Some("a")
  {
    SingleAliasConjunct(Keys, Created, "a", 0);
  }

  lemma DeptToB()
    ensures Destination(Keys, Dept) == Some("b")
  {
    SingleAliasConjunct(Keys, Dept, "b", 0);
  }

  lemma JoinKeyNowhere()
    ensures Destination(Keys, JoinKey) == None
  {
    TwoAliasConjunct(Keys, JoinKey, 0, 1);
  }

  lemma ActiveToB()
    ensures Destination(Keys, Active) == Some("b")
  {
    SingleAliasConjunct(Keys, Active, "b", 0);
  }

  lemma StatusRender()
    ensures Render(Status) == "a.status = 'active'"
  {
  }

  lemma CreatedRender()
    ensures Render(Created) == "a.created_at > '2024-01-01'"
  {
  }

  lemma DeptRender()
    ensures Render(Dept) == "b.dept_name = 'Sales'"
  {
  }

  lemma ActiveRender()
    ensures Render(Active) == "b.active = TRUE"
  {
  }

  /** What one conjunct contributes to the texts pushed to `k`. */
  function Pick(keys: set<string>, x: Expr, k: string): seq<string>
  {
    if Destination(keys, x) == Some(k) then [Render(x)] else []
  }

  lemma PushedToSnoc(keys: set<string>, atoms: seq<Expr>, x: Expr, k: string)
    ensures PushedTo(keys, atoms + [x], k) == PushedTo(keys, atoms, k) + Pick(keys, x, k)
  {
    assert (atoms + [x])[..|atoms|] == atoms;
  }

  lemma PushedToTwo(keys: set<string>, x1: Expr, x2: Expr, k: string)
    ensures PushedTo(keys, [x1, x2], k) == Pick(keys, x1, k) + Pick(keys, x2, k)
  {
    PushedToSnoc(keys, [], x1, k);
    assert [] + [x1] == [x1];
    PushedToSnoc(keys, [x1], x2, k);
    assert [x1] + [x2] == [x1, x2];
  }

  lemma PushedToThree(keys: set<string>, x1: Expr, x2: Expr, x3: Expr, k: string)
    ensures PushedTo(keys, [x1, x2, x3], k) == Pick(keys, x1, k) + Pick(keys, x2, k) + Pick(keys, x3, k)
  {
    PushedToTwo(keys, x1, x2, k);
    PushedToSnoc(keys, [x1, x2], x3, k);
    assert [x1, x2] + [x3] == [x1, x2, x3];
  }

  lemma PushedToFour(keys: set<string>, x1: Expr, x2: Expr, x3: Expr, x4: Expr, k: string)
    ensures PushedTo(keys, [x1, x2, x3, x4], k)
      == Pick(keys, x1, k) + Pick(keys, x2, k) + Pick(keys, x3, k) + Pick(keys, x4, k)
  {
    PushedToThree(keys, x1, x2, x3, k);
    PushedToSnoc(keys, [x1, x2, x3], x4, k);
    assert [x1, x2, x3] + [x4] == [x1, x2, x3, x4];
  }

  lemma PushedToFive(keys: set<string>, x1: Expr, x2: Expr, x3: Expr, x4: Expr, x5: Expr, k: string)
    ensures PushedTo(keys, [x1, x2, x3, x4, x5], k)
      == Pick(keys, x1, k) + Pick(keys, x2, k) + Pick(keys, x3, k) + Pick(keys, x4, k) + Pick(keys, x5, k)
  {
    PushedToFour(keys, x1, x2, x3, x4, k);
    PushedToSnoc(keys, [x1, x2, x3, x4], x5, k);
    assert [x1, x2, x3, x4] + [x5] == [x1, x2, x3, x4, x5];
  }

  lemma PushedToA()
    ensures PushedTo(Keys, [Status, Created, Dept, JoinKey, Active], "a") == [Render(Status), Render(Created)]
  {
    StatusToA();
    CreatedToA();
    DeptToB();
    JoinKeyNowhere();
    ActiveToB();
    PushedToFive(Keys, Status, Created, Dept, JoinKey, Active, "a");
  }

  lemma PushedToB()
    ensures PushedTo(Keys, [Status, Created, Dept, JoinKey, Active], "b") == [Render(Dept), Render(Active)]
  {
    StatusToA();
    CreatedToA();
    DeptToB();
    JoinKeyNowhere();
    ActiveToB();
    PushedToFive(Keys, Status, Created, Dept, JoinKey, Active, "b");
  }

  /**
   * `a` receives its two WHERE conjuncts and `b` its WHERE conjunct before
   * its ON conjunct; the join condition, which names both aliases, goes
   * nowhere.
   */
  lemma DemoPushdown()
    ensures PushedTo(Keys, Conjuncts(DemoSources), "a")
      == ["a.status = 'active'", "a.created_at > '2024-01-01'"]
    ensures PushedTo(Keys, Conjuncts(DemoSources), "b")
      == ["b.dept_name = 'Sales'", "b.active = TRUE"]
  {
    DemoConjuncts();
    StatusRender();
    CreatedRender();
    DeptRender();
    ActiveRender();
    PushedToA();
    PushedToB();
  }
}
