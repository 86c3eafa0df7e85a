// WHERE clauses: identifier quoting, the text and the parameters a query
// builder emits, and a reader that gets the conditions back from both.
module Where {
  import opened Common
  import opened Text

  datatype Dialect = Sqlite | Postgres | Mysql

  datatype Op = Eq | Ne | Lt | Lte | Gt | Gte | Like | In | NotIn | IsNull | IsNotNull

  datatype Json = Null | Array(items: seq<Json>) | Number(n: int) | Str(s: string)

  datatype Clause = Clause(orCombine: bool, column: string, op: Op, value: Json)

  // ---------------------------------------------------------------------
  // Identifiers
  // ---------------------------------------------------------------------

  function QuoteOf(d: Dialect): char { if d == Mysql then '`' else '"' }

  /** Every quote doubled. */
  function Escape(name: string, q: char): string {
    if name == "" then ""
    else (if name[0] == q then [q, q] else [name[0]]) + Escape(name[1..], q)
  }

  function Quoted(name: string, q: char): string { [q] + Escape(name, q) + [q] }

  lemma EscapeSnoc(name: string, c: char, q: char)
    ensures Escape(name + [c], q) == Escape(name, q) + if c == q then [q, q] else [c]
  {
    if name == "" {
      EscapeStep(c, "", q);
      assert [c] + "" == name + [c];
    } else {
      hide Escape;
      EscapeSnoc(name[1..], c, q);
      EscapeStep(name[0], name[1..], q);
      EscapeStep(name[0], name[1..] + [c], q);
      assert [name[0]] + name[1..] == name;
      assert [name[0]] + (name[1..] + [c]) == name + [c];
    }
  }

  lemma EscapeStep(c: char, rest: string, q: char)
    ensures Escape([c] + rest, q) == (if c == q then [q, q] else [c]) + Escape(rest, q)
  {
    assert ([c] + rest)[1..] == rest;
  }

  method QuoteIdent(d: Dialect, name: string) returns (r: string)
    ensures r == Quoted(name, QuoteOf(d))
  {
    var q := QuoteOf(d);
    var escaped := "";
    for i := 0 to |name|
      invariant escaped == Escape(name[..i], q)
    {
      EscapeSnoc(name[..i], name[i], q);
      assert name[..i + 1] == name[..i] + [name[i]];
      if name[i] == q {
        escaped := escaped + [q, q];
      } else {
        escaped := escaped + [name[i]];
      }
    }
    assert name[..|name|] == name;
    r := [q] + escaped + [q];
  }

  /** Reads a quoted identifier after its opening quote: the name, and what follows the closing quote. */
  function ReadIdent(s: string, q: char): (r: Option<(string, string)>)
    ensures r.Some? ==> |r.value.1| < |s|
  {
    if s == "" then None
    else if s[0] != q then
      match ReadIdent(s[1..], q)
      case None => None
      case Some((name, rest)) => Some(([s[0]] + name, rest))
    else if |s| > 1 && s[1] == q then
      match ReadIdent(s[2..], q)
      case None => None
      case Some((name, rest)) => Some(([q] + name, rest))
    else Some(("", s[1..]))
  }

  function Grow(c: char, r: Option<(string, string)>): Option<(string, string)> {
    if r.None? then None else Some(([c] + r.value.0, r.value.1))
  }

  lemma ReadOne(c: char, tail: string, q: char)
    ensures ReadIdent((if c == q then [q, q] else [c]) + tail, q) == Grow(c, ReadIdent(tail, q))
  {
    if c == q {
      assert ([q, q] + tail)[2..] == tail;
    } else {
      assert ([c] + tail)[1..] == tail;
    }
  }

  lemma ReadEnd(q: char, rest: string)
    requires rest == "" || rest[0] != q
    ensures ReadIdent([q] + rest, q) == Some(("", rest))
  {
    assert ([q] + rest)[1..] == rest;
  }

  /** Quoting never closes early, whatever the name: reading undoes it. */
  lemma {:induction false} ReadQuoted(name: string, q: char, rest: string)
    requires rest == "" || rest[0] != q
    ensures ReadIdent(Escape(name, q) + [q] + rest, q) == Some((name, rest))
  {
    hide ReadIdent;
    if name == "" {
      ReadEnd(q, rest);
      assert Escape(name, q) + [q] + rest == [q] + rest;
    } else {
      var tail := Escape(name[1..], q) + [q] + rest;
      ReadQuoted(name[1..], q, rest);
      ReadOne(name[0], tail, q);
      assert [name[0]] + name[1..] == name;
      assert Escape(name, q) + [q] + rest == (if name[0] == q then [q, q] else [name[0]]) + tail;
    }
  }

  // ---------------------------------------------------------------------
  // What a clause says
  // ---------------------------------------------------------------------

  datatype Test =
    | Compare(op: Op, value: Json)
    | TestNull(negated: bool)
    | OneOf(outside: bool, values: seq<Json>)
    | OneOfTruth(outside: bool, truth: bool)

  predicate IsList(op: Op) { op == In || op == NotIn }

  predicate IsComparison(op: Op) { !IsList(op) && op != IsNull && op != IsNotNull }

  predicate NoList(c: Clause) { IsList(c.op) && (!c.value.Array? || c.value.items == []) }

  /** The test in the emitted text: nulls become null tests, and an empty list becomes the value of a comparison. */
  function Said(c: Clause): (t: Test)
    ensures t.Compare? ==> IsComparison(t.op)
    ensures t.OneOf? ==> t.values != []
  {
    if c.op == IsNull then TestNull(false)
    else if c.op == IsNotNull then TestNull(true)
    else if NoList(c) then OneOfTruth(c.op == NotIn, c.op == NotIn)
    else if IsList(c.op) then OneOf(c.op == NotIn, c.value.items)
    else if c.value == Null then TestNull(c.op == Ne)
    else Compare(c.op, c.value)
  }

  function OpSql(op: Op): string {
    match op
    case Eq => "=" case Ne => "!=" case Lt => "<" case Lte => "<=" case Gt => ">" case Gte => ">="
    case Like => "LIKE" case In => "IN" case NotIn => "NOT IN" case IsNull => "" case IsNotNull => ""
  }

  function Marks(n: nat): string
    requires n > 0
  {
    if n == 1 then "?" else Marks(n - 1) + ", ?"
  }

  function InWords(outside: bool): string { if outside then " NOT IN" else " IN" }

  function TestText(t: Test): string
    requires t.OneOf? ==> t.values != []
  {
    match t
    case Compare(op, _) => " " + OpSql(op) + " ?"
    case TestNull(negated) => if negated then " IS NOT NULL" else " IS NULL"
    case OneOf(outside, values) => InWords(outside) + " (" + Marks(|values|) + ")"
    case OneOfTruth(outside, truth) => InWords(outside) + if truth then " (1=1)" else " (1=0)"
  }

  function TestParams(t: Test): seq<Json> {
    match t
    case Compare(_, value) => [value]
    case OneOf(_, values) => values
    case TestNull(_) => []
    case OneOfTruth(_, _) => []
  }

  function Joiner(c: Clause): string { if c.orCombine then " OR " else " AND " }

  function ClauseText(cs: seq<Clause>, q: char, i: nat): string
    requires i < |cs|
  {
    (if i == 0 then " WHERE " else Joiner(cs[i])) + Quoted(cs[i].column, q) + TestText(Said(cs[i]))
  }

  /** The first `n` clauses. */
  function ClausesText(cs: seq<Clause>, q: char, n: nat): string
    requires n <= |cs|
  {
    if n == 0 then ""
    else ClausesText(cs, q, n - 1) + ClauseText(cs, q, n - 1)
  }

  function ClausesParams(cs: seq<Clause>, n: nat): seq<Json>
    requires n <= |cs|
  {
    if n == 0 then [] else ClausesParams(cs, n - 1) + TestParams(Said(cs[n - 1]))
  }

  /** The whole WHERE text, in a dialect's quotes. */
  function WhereText(d: Dialect, cs: seq<Clause>): string { ClausesText(cs, QuoteOf(d), |cs|) }

  function WhereParams(cs: seq<Clause>): seq<Json> { ClausesParams(cs, |cs|) }

  /** The builder; each call adds one clause. */
  class Query {
    const dialect: Dialect
    var wheres: seq<Clause>

    constructor (dialect: Dialect)
      ensures this.dialect == dialect && wheres == []
    {
      this.dialect, wheres := dialect, [];
    }

    method Filter(column: string, op: Op, value: Json)
      modifies this
      ensures wheres == old(wheres) + [Clause(false, column, op, value)]
    {
      wheres := wheres + [Clause(false, column, op, value)];
    }

    method OrFilter(column: string, op: Op, value: Json)
      modifies this
      ensures wheres == old(wheres) + [Clause(true, column, op, value)]
    {
      wheres := wheres + [Clause(true, column, op, value)];
    }

    /** Appends the text and the parameters of all clauses. */
    method AppendWhere(sql0: string, params0: seq<Json>) returns (sql: string, params: seq<Json>)
      ensures sql == sql0 + WhereText(dialect, wheres) && params == params0 + WhereParams(wheres)
    {
      hide Quoted, TestText, TestParams, Said, Joiner, ClausesText, ClausesParams;
      sql, params := sql0, params0;
      NoClauses(wheres, QuoteOf(dialect));
      if wheres == [] { return; }
      sql := sql + " WHERE ";
      for i := 0 to |wheres|
        invariant i == 0 ==> sql == sql0 + " WHERE "
        invariant i > 0 ==> sql == sql0 + ClausesText(wheres, QuoteOf(dialect), i)
        invariant params == params0 + ClausesParams(wheres, i)
      {
        var w := wheres[i];
        ClausesStep(wheres, QuoteOf(dialect), i);
        if i > 0 {
          sql := sql + Joiner(w);
        }
        var column := QuoteIdent(dialect, w.column);
        sql := sql + column;
        sql, params := AppendTest(w, sql, params);
      }
    }

    lemma NoClauses(cs: seq<Clause>, q: char)
      ensures ClausesText(cs, q, 0) == "" && ClausesParams(cs, 0) == []
    {
    }

    lemma ClausesStep(cs: seq<Clause>, q: char, i: nat)
      requires i < |cs|
      ensures ClausesText(cs, q, i + 1) ==
              ClausesText(cs, q, i) + (if i == 0 then " WHERE " else Joiner(cs[i])) + Quoted(cs[i].column, q) + TestText(Said(cs[i]))
      ensures ClausesParams(cs, i + 1) == ClausesParams(cs, i) + TestParams(Said(cs[i]))
    {
      hide Quoted, TestText, TestParams, Said, Joiner;
    }

    /** What follows the column. */
    method AppendTest(w: Clause, sql0: string, params0: seq<Json>) returns (sql: string, params: seq<Json>)
      ensures sql == sql0 + TestText(Said(w)) && params == params0 + TestParams(Said(w))
    {
      hide Marks, OpSql, InWords;
      sql, params := sql0, params0;
      if w.op == IsNull { return sql + " IS NULL", params; }
      if w.op == IsNotNull { return sql + " IS NOT NULL", params; }
      if w.op == In || w.op == NotIn {
        sql, params := AppendList(w, sql, params);
        return;
      }
      if w.value == Null {
        return sql + (if w.op == Ne then " IS NOT NULL" else " IS NULL"), params;
      }
      sql := sql + (" " + OpSql(w.op) + " ?");
      params := params + [w.value];
    }

    method AppendList(w: Clause, sql0: string, params0: seq<Json>) returns (sql: string, params: seq<Json>)
      requires w.op == In || w.op == NotIn
      ensures sql == sql0 + TestText(Said(w)) && params == params0 + TestParams(Said(w))
    {
      hide Marks, InWords;
      var words := " " + OpSql(w.op);
      InWordsAre(w.op);
      if !w.value.Array? || w.value.items == [] {
        var never := if w.op == In then " (1=0)" else " (1=1)";
        return sql0 + (words + never), params0;
      }
      var marks;
      marks, params := AppendMarks(w.value.items, params0);
      sql := sql0 + (words + " (" + marks + ")");
    }

    lemma InWordsAre(op: Op)
      requires op == In || op == NotIn
      ensures InWords(op == NotIn) == " " + OpSql(op)
    {
    }

    method AppendMarks(items: seq<Json>, params0: seq<Json>) returns (marks: string, params: seq<Json>)
      requires items != []
      ensures marks == Marks(|items|) && params == params0 + items
    {
      marks, params := "", params0;
      for j := 0 to |items|
        invariant marks == (if j == 0 then "" else Marks(j))
        invariant params == params0 + items[..j]
      {
        if j > 0 {
          marks := marks + ", ";
        }
        marks := marks + "?";
        params := params + [items[j]];
      }
    }
  }
}
