# Federated pushdown planner, modelled in Dafny

This project models `extract_table_queries` of the joinery repository
(`parser/parser.py`). The planner takes one parsed SQL `SELECT` and splits it
into one sub-query per table alias. The model proves what each of its five
steps does.

1. **Alias map** (module `Scopes`). Every table node gets an entry, keyed by
   its explicit alias, or else by the last `.`-component of its text. A
   later node with the same key silently replaces an earlier one. A query
   without table nodes fails with "No tables found in query".
2. **Column attribution** (module `Attribution`). A column whose qualifier
   (the text before its last `.`) is a non-empty key adds its bare name (the
   text after its first `.`) to that entry. Any other column is added whole,
   and only when there is exactly one entry.
3. **Predicate sources** (module `Classification`). WHERE, then HAVING, then
   the ON expression of each join.
4. **Flatten and classify** (module `Classification`). Each source's
   top-level AND chain is split into conjuncts, left to right. A conjunct is
   appended to the pushdown list of the one alias `expr_single_table` names,
   unless that alias is empty. Other conjuncts are dropped.
5. **Synthesis** (module `Synthesis`). Each entry becomes
   `SELECT <list> FROM <table>[ AS <alias>][ WHERE <p1> AND ...]`, together
   with its projections in sorted order.

Module `Planner` composes the five steps. `Plan` is the function of the
query, and `ExtractTableQueries` is the method that runs the steps in order
on one dictionary. `PlanEntry` states everything about one alias's result in
terms of the query alone.

The other modules are supporting pieces:

- `Text` holds Python's string splitting (`rsplit(".", 1)`, `split(".", 1)`,
  `split(".")[-1]`) and `str.join`.
- `Order` holds Python's ordering of `str` values and `sorted` on a set.
- `Ast` holds the parsed tree: columns, expressions, table references, joins
  and the `SELECT` node.
- `Demo` works the repository's demonstration query through the pushdown
  step.

Each looping step is a method with loop invariants, proved equal to a fold
of a one-iteration function. The lemmas about those functions state the
properties. The Python dictionary of per-alias records becomes a
`map<string, Entry>` that the methods reassign. Sets stay sets, and lists
become sequences.

Python's truthiness is written out: an empty alias or qualifier counts as
absent.

- `if not alias` at parser/parser.py:105: an empty explicit alias falls back
  to the table's last component.
- `if qual and ...` at parser/parser.py:125: an empty qualifier is never a
  key there.
- `if alias:` at parser/parser.py:188: a conjunct whose single alias is the
  empty key is not pushed.

## Model

| member | source | states |
|---|---|---|
| Text.QualifierOf | parser/parser.py:66-70 | the qualifier is absent exactly when the text has no `.`, and is shorter than the text when present |
| Text.QualifierSplit | parser/parser.py:66-70 | a present qualifier `q` satisfies `text == q + "." + suffix`, and `suffix` holds no `.` (the split is at the last `.`) |
| Text.BareName | parser/parser.py:126-128 | the bare name is strictly shorter than the column text |
| Text.BareNameSplit | parser/parser.py:126-128 | the text is `prefix + "." + bare`, and `prefix` holds no `.` (the split is at the first `.`) |
| Text.LastComponent | parser/parser.py:105-107 | the result holds no `.`; it is a suffix of the text; it is the whole text when there is no `.`, and otherwise follows a `.` |
| Text.LastComponentOfDotted | parser/parser.py:105-107 | for a dotted name built from `.`-free parts, the last component is the last part |
| Text.JoinWithAppend | parser/parser.py:213 | joining two non-empty lists puts exactly one separator between their joins, so order is kept |
| Order.SortedOf | parser/parser.py:204 | `sorted` of a set is strictly ascending in Python's string order and holds exactly the set's elements |
| Order.StrictlySortedUnique | parser/parser.py:219 | two strictly ascending lists with the same elements are equal, so the sorted list does not depend on how it is computed |
| Order.BelowTotal | parser/parser.py:204 | Python's string order is total: of two different strings, one is below the other |
| Order.BelowTransitive | parser/parser.py:204 | Python's string order is transitive |
| Text.QualifierOfJoin | parser/parser.py:66-70 | `p + "." + t` with no `.` in `t` has the qualifier `p` |
| Text.BareNameOfJoin | parser/parser.py:126-128 | `p + "." + t` with no `.` in `p` has the bare name `t` |
| Ast.ColumnTexts | parser/parser.py:61-63 | one text per column node of the expression, in node order; the text of a node whose name has no `.` gives back that node's own qualifier, or none |
| Ast.ColTextSplits | parser/parser.py:53-58 | a qualified column's text gives back its qualifier when its name has no `.`, and its name when its qualifier has no `.` |
| Ast.ColTextQualifier | parser/parser.py:53-70 | a column node whose name has no `.` has its own qualifier (or none) as its text's qualifier |
| Ast.ColTextUnqualified | parser/parser.py:66-70 | an unqualified column with a `.`-free name has no qualifier |
| Ast.TablesOf | parser/parser.py:89 | the table nodes are the FROM table (first, when present) followed by each joined table, in join order |
| Scopes.GatherTables | parser/parser.py:88-114 | the loop builds exactly the fold of keyed inserts over the table nodes |
| Scopes.ScopeKeys | parser/parser.py:105-109 | the keys are exactly the aliases of the table nodes |
| Scopes.ScopeEmpty | parser/parser.py:117-118 | the dictionary is empty exactly when there is no table node |
| Scopes.ScopeEntry | parser/parser.py:109-114 | each entry is filed under its own alias, starts with empty projections and pushdown, and holds the text of the last node with that alias |
| Scopes.ScopeSize | parser/parser.py:109 | there are never more entries than table nodes |
| Scopes.DuplicateAliasOverwrites | parser/parser.py:109 | two nodes with one alias leave fewer entries than nodes: the earlier is overwritten without error |
| Scopes.ImplicitAlias | parser/parser.py:105-107 | a node without an alias is keyed by its last name part, so synthesis adds no `AS` for it |
| Scopes.OnlyKey | parser/parser.py:134 | `next(iter(tables))` on a one-entry dictionary is its only key |
| Attribution.KnownQualifier | parser/parser.py:124-125 | a qualifier is accepted only when the text has a `.` and the qualifier is a key |
| Attribution.KnownQualifierOfColumn | parser/parser.py:124-125 | for a node whose name has no `.`, a key is found exactly when the node's qualifier is present, non-empty and a key, and it is that qualifier |
| Attribution.AttributeColumn | parser/parser.py:122-135 | one column never adds or removes a key |
| Attribution.AttributeColumns | parser/parser.py:121-135 | the loop gives the fold of one-column steps, and `unqualified_columns` is the fold of unresolved texts |
| Attribution.AttributeQualified | parser/parser.py:125-128 | a column whose qualifier is a key adds its bare name to that entry only; every other entry is unchanged |
| Attribution.AttributeUnqualifiedMany | parser/parser.py:129-135 | with two or more entries, an unresolved column changes nothing |
| Attribution.AttributeUnqualifiedSingle | parser/parser.py:132-135 | with one entry, an unresolved column adds its whole text to it |
| Attribution.UnresolvedSet | parser/parser.py:129-131 | `unqualified_columns` is the set of texts of the columns whose qualifier is absent or not a key |
| Attribution.AttributeColumnEntry | parser/parser.py:122-135 | one column changes an entry's projections by exactly its share and nothing else |
| Attribution.AttributedEntry | parser/parser.py:121-135 | after all columns, each entry has gained the bare names qualified by its key, plus every unresolved text if it is the only entry, and nothing else changed |
| Classification.GatherSources | parser/parser.py:138-150 | the collected sources are WHERE, then HAVING, then the ON of each join that has one |
| Classification.SourcesOrdered | parser/parser.py:138-150 | source kinds never go back: WHERE before HAVING before every ON; WHERE comes first when present, and no WHERE source otherwise |
| Classification.Flatten | parser/parser.py:175-184 | flattening yields at least one conjunct and never an AND |
| Classification.FlattenConjoin | parser/parser.py:175-184 | flattening a right-leaning AND chain of non-AND conjuncts gives back those conjuncts in order |
| Classification.FlattenConjoinLeft | parser/parser.py:175-184 | flattening a left-leaning AND chain of non-AND conjuncts, as a parser builds it, gives back those conjuncts in order |
| Classification.FlattenShapeIndependent | parser/parser.py:175-184 | an expression flattens to `xs` exactly when it is an AND chain over `xs` under some bracketing, so the conjuncts do not depend on the bracketing |
| Classification.RenderFlatten | parser/parser.py:175-184 | joining the rendered conjuncts with ` AND ` reproduces the rendering of the whole chain |
| Classification.FlattenKeepsColumns | parser/parser.py:175-184 | the conjuncts together hold the chain's columns, in the same order |
| Classification.SingleTableSpec | parser/parser.py:153-169 | `expr_single_table` returns `a` exactly when the qualifiers present are `{a}` and `a` is a key, or when no qualifier is present, some column is, and `a` is the only key |
| Classification.SingleAliasConjunct | parser/parser.py:155-168 | a conjunct with a column qualified by a key `k`, and otherwise only `k`-qualified or unqualified columns, goes to `k`; its unqualified columns are ignored |
| Classification.TwoAliasConjunct | parser/parser.py:166-169 | a conjunct with columns under two different qualifiers goes to no alias |
| Classification.Destination | parser/parser.py:187-188 | a conjunct's destination, when there is one, is a key |
| Classification.PushConjunct | parser/parser.py:186-193 | one conjunct never adds or removes a key |
| Classification.ManyQualifiers | parser/parser.py:166-169 | a conjunct whose columns carry two or more different qualifiers goes to no alias |
| Classification.PushConjuncts | parser/parser.py:186-193 | the loop over one source's conjuncts gives the fold of one-conjunct steps |
| Classification.PushPredicates | parser/parser.py:172-193 | the loop over the sources gives the fold of one-conjunct steps over all sources' conjuncts in order |
| Classification.PushedAppend | parser/parser.py:172-193 | pushing two runs of conjuncts is pushing the first run, then the second on the result |
| Classification.PushConjunctEffect | parser/parser.py:186-193 | a conjunct is appended only to its destination's pushdown list, and a conjunct without a destination changes nothing |
| Classification.PushedEntry | parser/parser.py:172-193 | after the push, each entry differs only in its pushdown list, which has gained, in order, the text of every conjunct whose destination it is |
| Classification.PushedToAppend | parser/parser.py:172-193 | pushed texts follow conjunct order: two runs of conjuncts push the first run's texts, then the second's |
| Classification.PushedToSound | parser/parser.py:186-190 | every pushed text renders some conjunct whose destination is that alias |
| Classification.PushedToComplete | parser/parser.py:186-190 | every conjunct whose destination is an alias has its text pushed to that alias |
| Classification.PushedToMembers | parser/parser.py:186-193 | a text is pushed to `k` exactly when it renders some conjunct whose destination is `k` |
| Synthesis.Prefixed | parser/parser.py:204 | each select-list item is the alias, `.`, and the column, in column order; an item whose column has no `.` splits back into the alias at its last `.`, and with a `.`-free alias every item splits back into its column at its first `.` |
| Synthesis.PrefixedDotted | parser/parser.py:204 | an item whose column holds a `.` does not split back into the alias: its qualifier is the alias, `.`, and the column's own qualifier |
| Synthesis.TableQueryOf | parser/parser.py:198-222 | one iteration of the loop builds exactly the result for its entry |
| Synthesis.Synthesize | parser/parser.py:196-222 | the result dictionary has the entries' keys, and each value is the result for its entry |
| Synthesis.SelectListStar | parser/parser.py:200-204 | the select list is `*` exactly when the projections are empty |
| Synthesis.SelectListSorted | parser/parser.py:204 | with projections, the select list is the prefixed columns in the one strictly ascending order of the projection set |
| Synthesis.FromClauseAlias | parser/parser.py:205-209 | the FROM text is the table text alone when the alias is the text's last component, and the table text, ` AS `, and the alias otherwise |
| Synthesis.WhereClauseEmpty | parser/parser.py:211-213 | a WHERE clause appears exactly when the pushdown list is non-empty |
| Synthesis.WhereClauseAppend | parser/parser.py:213 | the WHERE clause keeps pushdown order: predicates joined by ` AND `, first run before second |
| Synthesis.QueryProjections | parser/parser.py:215-221 | the returned projections are strictly ascending and hold exactly the projection set, and the SQL is built from these same fields |
| Planner.ExtractTableQueries | parser/parser.py:73-224 | fails with "No tables found in query" exactly when the query has no table node, and otherwise returns the composed plan |
| Planner.PlanKeys | parser/parser.py:105-109 | the result has one key per distinct alias of the table nodes |
| Planner.PlanEntry | parser/parser.py:88-222 | for each alias: the text of its last table node; its attributed names, sorted; the texts of every conjunct bound for it, in source and flattening order; and a SQL string made of exactly these |
| Demo.DemoQuerySources | parser/parser.py:227-235 | the demonstration query's sources are its WHERE chain, then its ON chain |
| Demo.DemoQueryKeys | parser/parser.py:227-235 | the demonstration query's dictionary is keyed by `a` and `b` |
| Demo.DemoPushdown | parser/parser.py:227-235 | in the demonstration query, `a` gets its two WHERE conjuncts, `b` gets its WHERE conjunct and then its ON conjunct, and the join condition goes nowhere |

## Left out

- `catalog/catalog.py` is not part of this model: its `Database` class is a connection stub with no logic.
- Parsing (`sqlglot.parse_one`) is not modelled. The model starts from the parsed `SELECT` as a datatype.
- `find_all` is given as fixed node sequences. The table sequence is FROM, then the joins; the column sequence is pre-order over the select list, join conditions, WHERE, GROUP BY, HAVING and ORDER BY. sqlglot's real traversal order and nested subqueries are not modelled.
- Ast.Render: `.sql(dialect="")` is replaced by a simple concrete renderer, with no quoting or dialect rules. The general lemmas use only that a column renders as `qualifier.name` and that an AND renders as its two sides joined by ` AND `; the worked example also relies on a comparison rendering as `left op right` and a literal as its own text.
- Ast.TableText: a table's text is its dotted name parts. What sqlglot prints for an aliased table node (which may include the alias) is not modelled.
- The `exp.Alias` parent check and the `try/except` around `alias_or_name` (parser/parser.py:94-103) become "the alias may be absent" (`Option<string>`).
- Planner.ExtractTableQueries computes `unqualified_columns` (Attribution.UnresolvedSet), then drops it, as the source does.
- Synthesis.Synthesize: Python dictionaries keep insertion order, Dafny maps do not, so the order of the result's keys is not modelled.
- The commented-out draft `query` class (parser/parser.py:1-45) is dead code.
- The `__main__` block (parser/parser.py:227-235) only prints. Its query appears as the worked example `Demo.DemoPushdown`, for the pushdown step only.
- That each per-table SQL string parses back to an equivalent query needs a SQL parser, so it is not stated.
