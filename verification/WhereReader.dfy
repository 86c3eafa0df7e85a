// Reading WHERE text back: words, quoted identifiers and placeholders, then the
// conditions with their values bound from left to right.
module WhereReader {
  import opened Common
  import opened Text
  import opened Where

  datatype Token = Ident(name: string) | Literal(text: string) | Word(w: string) | Sign(c: char)

  /** How an engine reads quotes: which one opens an identifier, and which ones a string. */
  datatype Engine = Engine(ident: char, strings: set<char>)

  /** MySQL takes double quotes for strings; SQLite and Postgres take no backticks for identifiers. */
  function EngineOf(d: Dialect): Engine {
    match d
    case Mysql => Engine('`', {'\'', '"'})
    case Sqlite => Engine('"', {'\''})
    case Postgres => Engine('"', {'\''})
  }

  // ---------------------------------------------------------------------
  // Tokens
  // ---------------------------------------------------------------------

  datatype Kind = Letters | Digits | Symbols | Other

  function KindOf(c: char): Kind {
    if 'A' <= c <= 'Z' then Letters
    else if '0' <= c <= '9' then Digits
    else if c in {'=', '!', '<', '>'} then Symbols
    else Other
  }

  /** Length of the run of one kind at the front. */
  function Run(s: string, k: Kind): (n: nat)
    ensures n <= |s|
  {
    if s != "" && KindOf(s[0]) == k then 1 + Run(s[1..], k) else 0
  }

  function Ahead(ts: seq<Token>, r: Option<seq<Token>>): Option<seq<Token>> {
    if r.None? then None else Some(ts + r.value)
  }

  function Lex(s: string, e: Engine): Option<seq<Token>>
    decreases |s|
  {
    if s == "" then Some([])
    else if s[0] == ' ' then Lex(s[1..], e)
    else if s[0] == e.ident then
      match ReadIdent(s[1..], e.ident)
      case None => None
      case Some((name, rest)) => Ahead([Ident(name)], Lex(rest, e))
    else if s[0] in e.strings then
      match ReadIdent(s[1..], s[0])
      case None => None
      case Some((text, rest)) => Ahead([Literal(text)], Lex(rest, e))
    else if s[0] in {'?', '(', ')', ','} then Ahead([Sign(s[0])], Lex(s[1..], e))
    else if KindOf(s[0]) == Other then None
    else
      var n := Run(s, KindOf(s[0]));
      Ahead([Word(s[..n])], Lex(s[n..], e))
  }

  predicate IsQuote(q: char) { q == '"' || q == '`' }

  predicate IsEngine(e: Engine) { IsQuote(e.ident) && e.strings <= {'\'', '"'} }

  lemma LexSpace(rest: string, e: Engine)
    requires IsEngine(e)
    ensures Lex(" " + rest, e) == Lex(rest, e)
  {
    assert (" " + rest)[1..] == rest;
  }

  lemma LexSign(c: char, rest: string, e: Engine)
    requires c in {'?', '(', ')', ','} && IsEngine(e)
    ensures Lex([c] + rest, e) == Ahead([Sign(c)], Lex(rest, e))
  {
    assert ([c] + rest)[1..] == rest;
  }

  lemma LexIdent(name: string, rest: string, e: Engine)
    requires IsEngine(e) && (rest == "" || rest[0] != e.ident)
    ensures Lex(Quoted(name, e.ident) + rest, e) == Ahead([Ident(name)], Lex(rest, e))
  {
    hide ReadIdent, Escape;
    ReadQuoted(name, e.ident, rest);
    assert (Quoted(name, e.ident) + rest)[1..] == Escape(name, e.ident) + [e.ident] + rest;
  }

  predicate OneKind(w: string, k: Kind) {
    k != Other && w != "" && forall i | 0 <= i < |w| :: KindOf(w[i]) == k
  }

  lemma {:induction false} RunAll(w: string, rest: string, k: Kind)
    requires forall i | 0 <= i < |w| :: KindOf(w[i]) == k
    requires rest == "" || KindOf(rest[0]) != k
    ensures Run(w + rest, k) == |w|
  {
    hide KindOf;
    if w == "" {
      assert w + rest == rest;
    } else {
      RunAll(w[1..], rest, k);
      assert (w + rest)[1..] == w[1..] + rest;
    }
  }

  lemma LexWord(w: string, rest: string, e: Engine, k: Kind)
    requires IsEngine(e) && OneKind(w, k) && (rest == "" || KindOf(rest[0]) != k)
    ensures Lex(w + rest, e) == Ahead([Word(w)], Lex(rest, e))
  {
    hide Run;
    RunAll(w, rest, k);
    var s := w + rest;
    assert s[0] == w[0] && s[..|w|] == w && s[|w|..] == rest;
    assert KindOf(w[0]) == k;
  }

  /** Nothing, or a character that no word and no identifier runs into. */
  predicate Apart(rest: string) { rest == "" || rest[0] in {' ', ',', ')'} }

  /** A space, a word, and something apart. */
  lemma LexSpaced(w: string, rest: string, e: Engine, k: Kind)
    requires IsEngine(e) && OneKind(w, k) && Apart(rest)
    ensures Lex(" " + w + rest, e) == Ahead([Word(w)], Lex(rest, e))
  {
    hide Lex;
    assert " " + w + rest == " " + (w + rest);
    LexSpace(w + rest, e);
    LexWord(w, rest, e, k);
  }

  lemma AheadTwice(a: seq<Token>, b: seq<Token>, both: seq<Token>, r: Option<seq<Token>>)
    requires both == a + b
    ensures Ahead(a, Ahead(b, r)) == Ahead(both, r)
  {
    if r.Some? {
      assert a + (b + r.value) == a + b + r.value;
    }
  }

  // ---------------------------------------------------------------------
  // The tokens of a test
  // ---------------------------------------------------------------------

  function MarkTokens(n: nat): seq<Token>
    requires n > 0
  {
    if n == 1 then [Sign('?')] else MarkTokens(n - 1) + [Sign(','), Sign('?')]
  }

  function InTokens(outside: bool): seq<Token> { if outside then [Word("NOT"), Word("IN")] else [Word("IN")] }

  function TestTokens(t: Test): seq<Token>
    requires t.OneOf? ==> t.values != []
  {
    match t
    case Compare(op, _) => [Word(OpSql(op)), Sign('?')]
    case TestNull(negated) => [Word("IS")] + (if negated then [Word("NOT")] else []) + [Word("NULL")]
    case OneOf(outside, values) => InTokens(outside) + [Sign('(')] + MarkTokens(|values|) + [Sign(')')]
    case OneOfTruth(outside, truth) =>
      InTokens(outside) + [Sign('('), Word("1"), Word("="), Word(if truth then "1" else "0"), Sign(')')]
  }

  lemma WordsAreWords()
    ensures OneKind("IS", Letters) && OneKind("NOT", Letters) && OneKind("NULL", Letters) && OneKind("IN", Letters)
    ensures OneKind("AND", Letters) && OneKind("OR", Letters) && OneKind("WHERE", Letters) && OneKind("LIKE", Letters)
    ensures OneKind("1", Digits) && OneKind("0", Digits) && OneKind("=", Symbols)
  {
  }

  lemma OpIsWord(op: Op)
    requires IsComparison(op)
    ensures OneKind(OpSql(op), if op == Like then Letters else Symbols)
  {
  }

  lemma LexCompare(op: Op, rest: string, e: Engine)
    requires IsEngine(e) && IsComparison(op)
    ensures Lex(" " + OpSql(op) + " ?" + rest, e) == Ahead([Word(OpSql(op)), Sign('?')], Lex(rest, e))
  {
    hide Lex, OpSql, OneKind;
    OpIsWord(op);
    var w := OpSql(op);
    assert " " + w + " ?" + rest == " " + w + (" " + (['?'] + rest));
    LexSpaced(w, " " + (['?'] + rest), e, if op == Like then Letters else Symbols);
    LexSpace(['?'] + rest, e);
    LexSign('?', rest, e);
    AheadTwice([Word(w)], [Sign('?')], [Word(w), Sign('?')], Lex(rest, e));
  }

  lemma LexNull(negated: bool, rest: string, e: Engine)
    requires IsEngine(e) && Apart(rest)
    ensures Lex((if negated then " IS NOT NULL" else " IS NULL") + rest, e) == Ahead(TestTokens(TestNull(negated)), Lex(rest, e))
  {
    hide Lex, OneKind;
    WordsAreWords();
    var last := " " + "NULL" + rest;
    LexSpaced("NULL", rest, e, Letters);
    if negated {
      var middle := " " + "NOT" + last;
      LexSpaced("NOT", last, e, Letters);
      LexSpaced("IS", middle, e, Letters);
      assert " IS NOT NULL" + rest == " " + "IS" + middle;
      AheadTwice([Word("NOT")], [Word("NULL")], [Word("NOT"), Word("NULL")], Lex(rest, e));
      AheadTwice([Word("IS")], [Word("NOT"), Word("NULL")], TestTokens(TestNull(true)), Lex(rest, e));
    } else {
      LexSpaced("IS", last, e, Letters);
      assert " IS NULL" + rest == " " + "IS" + last;
      AheadTwice([Word("IS")], [Word("NULL")], TestTokens(TestNull(false)), Lex(rest, e));
    }
  }

  lemma LexIn(outside: bool, rest: string, e: Engine)
    requires IsEngine(e) && Apart(rest)
    ensures Lex(InWords(outside) + rest, e) == Ahead(InTokens(outside), Lex(rest, e))
  {
    hide Lex, OneKind;
    WordsAreWords();
    var last := " " + "IN" + rest;
    LexSpaced("IN", rest, e, Letters);
    if outside {
      LexSpaced("NOT", last, e, Letters);
      assert " NOT IN" + rest == " " + "NOT" + last;
      AheadTwice([Word("NOT")], [Word("IN")], InTokens(true), Lex(rest, e));
    } else {
      assert " IN" + rest == last;
    }
  }

  lemma {:induction false} LexMarks(n: nat, rest: string, e: Engine)
    requires n > 0 && IsEngine(e)
    ensures Lex(Marks(n) + rest, e) == Ahead(MarkTokens(n), Lex(rest, e))
  {
    hide Lex;
    LexSign('?', rest, e);
    if n > 1 {
      var tail := [','] + (" " + (['?'] + rest));
      assert Marks(n) + rest == Marks(n - 1) + tail;
      LexMarks(n - 1, tail, e);
      LexSign(',', " " + (['?'] + rest), e);
      LexSpace(['?'] + rest, e);
      AheadTwice([Sign(',')], [Sign('?')], [Sign(','), Sign('?')], Lex(rest, e));
      AheadTwice(MarkTokens(n - 1), [Sign(','), Sign('?')], MarkTokens(n), Lex(rest, e));
    } else {
      assert Marks(n) + rest == ['?'] + rest;
    }
  }

  lemma LexList(outside: bool, n: nat, rest: string, e: Engine)
    requires n > 0 && IsEngine(e)
    ensures Lex(InWords(outside) + " (" + Marks(n) + ")" + rest, e) ==
            Ahead(InTokens(outside) + [Sign('(')] + MarkTokens(n) + [Sign(')')], Lex(rest, e))
  {
    hide Lex, Marks, MarkTokens, InWords, InTokens;
    var r := Lex(rest, e);
    var closed := [')'] + rest;
    var marks := Marks(n) + closed;
    var inside := [' '] + (['('] + marks);
    assert InWords(outside) + " (" + Marks(n) + ")" + rest == InWords(outside) + inside;
    LexIn(outside, inside, e);
    assert inside == " " + (['('] + marks);
    LexSpace(['('] + marks, e);
    LexSign('(', marks, e);
    LexMarks(n, closed, e);
    LexSign(')', rest, e);
    var tail := MarkTokens(n) + [Sign(')')];
    AheadTwice(MarkTokens(n), [Sign(')')], tail, r);
    AheadTwice([Sign('(')], tail, [Sign('(')] + tail, r);
    AheadTwice(InTokens(outside), [Sign('(')] + tail, InTokens(outside) + [Sign('(')] + MarkTokens(n) + [Sign(')')], r);
  }

  lemma LexTruth(truth: bool, rest: string, e: Engine)
    requires IsEngine(e)
    ensures Lex((if truth then " (1=1)" else " (1=0)") + rest, e) ==
            Ahead([Sign('('), Word("1"), Word("="), Word(if truth then "1" else "0"), Sign(')')], Lex(rest, e))
  {
    hide Lex, OneKind;
    WordsAreWords();
    var r := Lex(rest, e);
    var digit := if truth then "1" else "0";
    var d := [')'] + rest;
    var c := digit + d;
    var b := "=" + c;
    var a := "1" + b;
    assert (if truth then " (1=1)" else " (1=0)") + rest == " " + (['('] + a);
    LexSpace(['('] + a, e);
    LexSign('(', a, e);
    LexWord("1", b, e, Digits);
    LexWord("=", c, e, Symbols);
    LexWord(digit, d, e, Digits);
    LexSign(')', rest, e);
    var t1 := [Word(digit), Sign(')')];
    var t2 := [Word("="), Word(digit), Sign(')')];
    var t3 := [Word("1"), Word("="), Word(digit), Sign(')')];
    AheadTwice([Word(digit)], [Sign(')')], t1, r);
    AheadTwice([Word("=")], t1, t2, r);
    AheadTwice([Word("1")], t2, t3, r);
    AheadTwice([Sign('(')], t3, [Sign('('), Word("1"), Word("="), Word(digit), Sign(')')], r);
  }

  lemma LexTest(t: Test, rest: string, e: Engine)
    requires IsEngine(e) && Apart(rest)
    requires (t.Compare? ==> IsComparison(t.op)) && (t.OneOf? ==> t.values != [])
    ensures Lex(TestText(t) + rest, e) == Ahead(TestTokens(t), Lex(rest, e))
  {
    hide Lex, OpSql, Marks, MarkTokens, InWords, InTokens;
    match t
    case Compare(op, _) => LexCompare(op, rest, e);
    case TestNull(negated) => LexNull(negated, rest, e);
    case OneOf(outside, values) => LexList(outside, |values|, rest, e);
    case OneOfTruth(outside, truth) =>
      var text := if truth then " (1=1)" else " (1=0)";
      var tokens := [Sign('('), Word("1"), Word("="), Word(if truth then "1" else "0"), Sign(')')];
      LexTruth(truth, rest, e);
      LexIn(outside, text + rest, e);
      assert TestText(t) + rest == InWords(outside) + (text + rest);
      AheadTwice(InTokens(outside), tokens, TestTokens(t), Lex(rest, e));
  }

  // ---------------------------------------------------------------------
  // All clauses
  // ---------------------------------------------------------------------

  function JoinWord(cs: seq<Clause>, i: nat): string
    requires i < |cs|
  {
    if i == 0 then "WHERE" else if cs[i].orCombine then "OR" else "AND"
  }

  function ClauseTokens(cs: seq<Clause>, i: nat): seq<Token>
    requires i < |cs|
  {
    [Word(JoinWord(cs, i)), Ident(cs[i].column)] + TestTokens(Said(cs[i]))
  }

  function TokensUpTo(cs: seq<Clause>, n: nat): seq<Token>
    requires n <= |cs|
  {
    if n == 0 then [] else TokensUpTo(cs, n - 1) + ClauseTokens(cs, n - 1)
  }

  lemma LexClause(cs: seq<Clause>, i: nat, rest: string, e: Engine)
    requires i < |cs| && IsEngine(e) && Apart(rest)
    ensures Lex(ClauseText(cs, e.ident, i) + rest, e) == Ahead(ClauseTokens(cs, i), Lex(rest, e))
  {
    hide Lex, Said, TestText, TestTokens, Quoted, OneKind;
    var c, t := cs[i], Said(cs[i]);
    var r := Lex(rest, e);
    SaidIsSound(c);
    LexTest(t, rest, e);
    TestTextStarts(t);
    var tail := TestText(t) + rest;
    assert tail[0] == ' ';
    LexIdent(c.column, tail, e);
    WordsAreWords();
    var named := Quoted(c.column, e.ident) + tail;
    LexSpace(named, e);
    LexSpaced(JoinWord(cs, i), " " + named, e, Letters);
    assert ClauseText(cs, e.ident, i) + rest == " " + JoinWord(cs, i) + (" " + named);
    var tokens := [Ident(c.column)] + TestTokens(t);
    AheadTwice([Ident(c.column)], TestTokens(t), tokens, r);
    AheadTwice([Word(JoinWord(cs, i))], tokens, ClauseTokens(cs, i), r);
  }

  lemma SaidIsSound(c: Clause)
    ensures Said(c).Compare? ==> IsComparison(Said(c).op)
    ensures Said(c).OneOf? ==> Said(c).values != []
  {
  }

  lemma TestTextStarts(t: Test)
    requires t.OneOf? ==> t.values != []
    ensures TestText(t) != "" && TestText(t)[0] == ' '
  {
  }

  lemma ClauseStarts(cs: seq<Clause>, e: Engine, i: nat)
    requires i < |cs|
    ensures ClauseText(cs, e.ident, i) != "" && ClauseText(cs, e.ident, i)[0] == ' '
  {
    hide Quoted, TestText, Said;
  }

  lemma {:induction false} LexClauses(cs: seq<Clause>, n: nat, rest: string, e: Engine)
    requires n <= |cs| && IsEngine(e) && Apart(rest)
    ensures Lex(ClausesText(cs, e.ident, n) + rest, e) == Ahead(TokensUpTo(cs, n), Lex(rest, e))
  {
    hide Lex, ClauseTokens, ClauseText;
    if n == 0 {
      assert ClausesText(cs, e.ident, n) + rest == rest;
      if Lex(rest, e).Some? {
        assert [] + Lex(rest, e).value == Lex(rest, e).value;
      }
    } else {
      var i := n - 1;
      var tail := ClauseText(cs, e.ident, i) + rest;
      ClauseStarts(cs, e, i);
      LexClause(cs, i, rest, e);
      LexClauses(cs, i, tail, e);
      assert ClausesText(cs, e.ident, n) + rest == ClausesText(cs, e.ident, i) + tail;
      AheadTwice(TokensUpTo(cs, i), ClauseTokens(cs, i), TokensUpTo(cs, n), Lex(rest, e));
    }
  }

  // ---------------------------------------------------------------------
  // Conditions
  // ---------------------------------------------------------------------

  datatype Cond = Cond(joiner: string, column: string, test: Test)

  function OpOf(w: string): Option<Op> {
    if w == "=" then Some(Eq)
    else if w == "!=" then Some(Ne)
    else if w == "<" then Some(Lt)
    else if w == "<=" then Some(Lte)
    else if w == ">" then Some(Gt)
    else if w == ">=" then Some(Gte)
    else if w == "LIKE" then Some(Like)
    else None
  }

  /** Placeholders up to the closing parenthesis. */
  function TakeMarks(ts: seq<Token>): (r: Option<(nat, seq<Token>)>)
    ensures r.Some? ==> |r.value.1| < |ts|
  {
    if |ts| < 2 || ts[0] != Sign('?') then None
    else if ts[1] == Sign(')') then Some((1, ts[2..]))
    else if ts[1] != Sign(',') then None
    else
      match TakeMarks(ts[2..])
      case None => None
      case Some((n, rest)) => Some((n + 1, rest))
  }

  datatype Taken = Taken(test: Test, tokens: seq<Token>, params: seq<Json>)

  /** What follows IN: a truth value or placeholders, one parameter each. */
  function TakeList(outside: bool, ts: seq<Token>, ps: seq<Json>): (r: Option<Taken>)
    ensures r.Some? ==> |r.value.tokens| < |ts|
  {
    if ts == [] || ts[0] != Sign('(') then None
    else if |ts| >= 5 && ts[1] == Word("1") then
      if ts[2] == Word("=") && ts[3] in {Word("1"), Word("0")} && ts[4] == Sign(')')
      then Some(Taken(OneOfTruth(outside, ts[3] == Word("1")), ts[5..], ps))
      else None
    else
      match TakeMarks(ts[1..])
      case None => None
      case Some((n, rest)) => if n <= |ps| then Some(Taken(OneOf(outside, ps[..n]), rest, ps[n..])) else None
  }

  function TakeTest(ts: seq<Token>, ps: seq<Json>): (r: Option<Taken>)
    ensures r.Some? ==> |r.value.tokens| < |ts|
  {
    if |ts| < 2 then None
    else if ts[0] == Word("IS") then
      if ts[1] == Word("NULL") then Some(Taken(TestNull(false), ts[2..], ps))
      else if |ts| >= 3 && ts[1] == Word("NOT") && ts[2] == Word("NULL") then Some(Taken(TestNull(true), ts[3..], ps))
      else None
    else if ts[0] == Word("IN") then TakeList(false, ts[1..], ps)
    else if ts[0] == Word("NOT") && ts[1] == Word("IN") then TakeList(true, ts[2..], ps)
    else if ts[0].Word? && OpOf(ts[0].w).Some? && ts[1] == Sign('?') && ps != [] then
      Some(Taken(Compare(OpOf(ts[0].w).value, ps[0]), ts[2..], ps[1..]))
    else None
  }

  /** The conditions, when tokens and parameters are used up together. */
  function ReadConds(ts: seq<Token>, ps: seq<Json>): Option<seq<Cond>>
    decreases |ts|
  {
    if ts == [] then if ps == [] then Some([]) else None
    else if |ts| < 2 || ts[0] !in {Word("WHERE"), Word("AND"), Word("OR")} || !ts[1].Ident? then None
    else
      match TakeTest(ts[2..], ps)
      case None => None
      case Some(taken) =>
        match ReadConds(taken.tokens, taken.params)
        case None => None
        case Some(conds) => Some([Cond(ts[0].w, ts[1].name, taken.test)] + conds)
  }

  /** What an engine makes of a WHERE text and its parameters. */
  function ReadWhere(sql: string, params: seq<Json>, d: Dialect): Option<seq<Cond>> {
    match Lex(sql, EngineOf(d))
    case None => None
    case Some(tokens) => ReadConds(tokens, params)
  }

  lemma {:induction false} MarksFront(n: nat)
    requires n > 1
    ensures MarkTokens(n) == [Sign('?'), Sign(',')] + MarkTokens(n - 1)
  {
    if n > 2 {
      MarksFront(n - 1);
    }
  }

  lemma {:induction false} TakeMarksBack(n: nat, rest: seq<Token>)
    requires n > 0
    ensures TakeMarks(MarkTokens(n) + [Sign(')')] + rest) == Some((n, rest))
  {
    var ts := MarkTokens(n) + [Sign(')')] + rest;
    if n == 1 {
      assert ts[2..] == rest;
    } else {
      MarksFront(n);
      TakeMarksBack(n - 1, rest);
      assert ts[2..] == MarkTokens(n - 1) + [Sign(')')] + rest;
    }
  }

  lemma TakeListBack(t: Test, ts: seq<Token>, ps: seq<Json>)
    requires t.OneOf? && t.values != []
    ensures TakeList(t.outside, [Sign('(')] + MarkTokens(|t.values|) + [Sign(')')] + ts, t.values + ps) == Some(Taken(t, ts, ps))
  {
    hide TakeMarks, MarkTokens;
    var n := |t.values|;
    var marks := MarkTokens(n) + [Sign(')')] + ts;
    MarksStart(n);
    TakeMarksBack(n, ts);
    assert ([Sign('(')] + MarkTokens(n) + [Sign(')')] + ts)[1..] == marks;
    assert (t.values + ps)[..n] == t.values && (t.values + ps)[n..] == ps;
  }

  lemma MarksStart(n: nat)
    requires n > 0
    ensures MarkTokens(n) != [] && MarkTokens(n)[0] == Sign('?')
  {
    if n > 1 {
      MarksFront(n);
    }
  }

  lemma TakeTruthBack(outside: bool, truth: bool, ts: seq<Token>, ps: seq<Json>)
    ensures TakeList(outside, [Sign('('), Word("1"), Word("="), Word(if truth then "1" else "0"), Sign(')')] + ts, ps) ==
            Some(Taken(OneOfTruth(outside, truth), ts, ps))
  {
    hide TakeMarks;
    var all := [Sign('('), Word("1"), Word("="), Word(if truth then "1" else "0"), Sign(')')] + ts;
    assert all[5..] == ts;
    assert "0" != "1";
  }

  lemma TakeCompareBack(op: Op, value: Json, ts: seq<Token>, ps: seq<Json>)
    requires IsComparison(op)
    ensures TakeTest([Word(OpSql(op)), Sign('?')] + ts, [value] + ps) == Some(Taken(Compare(op, value), ts, ps))
  {
    hide OpSql, OpOf, TakeList;
    OpBack(op);
    var all := [Word(OpSql(op)), Sign('?')] + ts;
    assert all[2..] == ts && ([value] + ps)[1..] == ps;
  }

  lemma TakeNullBack(negated: bool, ts: seq<Token>, ps: seq<Json>)
    ensures TakeTest(TestTokens(TestNull(negated)) + ts, ps) == Some(Taken(TestNull(negated), ts, ps))
  {
    hide OpOf, TakeList;
    var all := TestTokens(TestNull(negated)) + ts;
    assert "NOT" != "NULL";
    assert (if negated then all[3..] else all[2..]) == ts;
  }

  /** IN and NOT IN hand over to the list. */
  lemma TakeInBack(outside: bool, list: seq<Token>, ps: seq<Json>)
    requires list != []
    ensures TakeTest(InTokens(outside) + list, ps) == TakeList(outside, list, ps)
  {
    hide OpOf, TakeList;
    var all := InTokens(outside) + list;
    assert "IN" != "IS" && "NOT" != "IS" && "NOT" != "IN";
    assert (if outside then all[2..] else all[1..]) == list;
  }

  /** A test's tokens and parameters give the test back and nothing else is taken. */
  lemma TakeTestBack(t: Test, ts: seq<Token>, ps: seq<Json>)
    requires (t.Compare? ==> IsComparison(t.op)) && (t.OneOf? ==> t.values != [])
    ensures TakeTest(TestTokens(t) + ts, TestParams(t) + ps) == Some(Taken(t, ts, ps))
  {
    hide TakeTest, TakeList, MarkTokens, OpSql, InTokens;
    var all, params := TestTokens(t) + ts, TestParams(t) + ps;
    match t
    case Compare(op, value) =>
      TakeCompareBack(op, value, ts, ps);
    case TestNull(negated) =>
      assert params == ps;
      TakeNullBack(negated, ts, ps);
    case OneOf(outside, values) =>
      var list := [Sign('(')] + MarkTokens(|values|) + [Sign(')')] + ts;
      assert all == InTokens(outside) + list;
      TakeInBack(outside, list, params);
      TakeListBack(t, ts, ps);
    case OneOfTruth(outside, truth) =>
      var list := [Sign('('), Word("1"), Word("="), Word(if truth then "1" else "0"), Sign(')')] + ts;
      assert all == InTokens(outside) + list && params == ps;
      TakeInBack(outside, list, ps);
      TakeTruthBack(outside, truth, ts, ps);
  }

  lemma OpBack(op: Op)
    requires IsComparison(op)
    ensures OpOf(OpSql(op)) == Some(op)
    ensures OpSql(op) !in {"IS", "IN", "NOT"}
  {
    assert |OpSql(op)| == 2 ==> OpSql(op)[0] in {'!', '<', '>'};
  }

  /** The conditions clauses stand for. */
  function Conds(cs: seq<Clause>, i: nat): seq<Cond>
    requires i <= |cs|
    decreases |cs| - i
  {
    if i == |cs| then [] else [Cond(JoinWord(cs, i), cs[i].column, Said(cs[i]))] + Conds(cs, i + 1)
  }

  function TokensFrom(cs: seq<Clause>, i: nat): seq<Token>
    requires i <= |cs|
    decreases |cs| - i
  {
    if i == |cs| then [] else ClauseTokens(cs, i) + TokensFrom(cs, i + 1)
  }

  function ParamsFrom(cs: seq<Clause>, i: nat): seq<Json>
    requires i <= |cs|
    decreases |cs| - i
  {
    if i == |cs| then [] else TestParams(Said(cs[i])) + ParamsFrom(cs, i + 1)
  }

  lemma {:induction false} FrontAndBack(cs: seq<Clause>, n: nat)
    requires n <= |cs|
    ensures TokensUpTo(cs, n) + TokensFrom(cs, n) == TokensFrom(cs, 0)
    ensures ClausesParams(cs, n) + ParamsFrom(cs, n) == ParamsFrom(cs, 0)
  {
    hide ClauseTokens, TestParams, Said;
    if n > 0 {
      FrontAndBack(cs, n - 1);
      assert TokensUpTo(cs, n) + TokensFrom(cs, n) == TokensUpTo(cs, n - 1) + (ClauseTokens(cs, n - 1) + TokensFrom(cs, n));
      assert ClausesParams(cs, n) + ParamsFrom(cs, n) ==
             ClausesParams(cs, n - 1) + (TestParams(Said(cs[n - 1])) + ParamsFrom(cs, n));
    }
  }

  lemma {:induction false} ReadCondsBack(cs: seq<Clause>, i: nat)
    requires i <= |cs|
    ensures ReadConds(TokensFrom(cs, i), ParamsFrom(cs, i)) == Some(Conds(cs, i))
    decreases |cs| - i
  {
    hide TakeTest, TestTokens, TestParams, Said;
    if i < |cs| {
      var t := Said(cs[i]);
      SaidIsSound(cs[i]);
      ReadCondsBack(cs, i + 1);
      TakeTestBack(t, TokensFrom(cs, i + 1), ParamsFrom(cs, i + 1));
      assert TokensFrom(cs, i)[2..] == TestTokens(t) + TokensFrom(cs, i + 1);
    }
  }

  /**
   * Reading the emitted text and binding its placeholders from left to right
   * gives back every clause: connective, column, operator and values.  The
   * reader is the dialect's own engine, with its own idea of quotes.
   */
  lemma WhereRoundTrip(d: Dialect, cs: seq<Clause>)
    ensures ReadWhere(WhereText(d, cs), WhereParams(cs), d) == Some(Conds(cs, 0))
  {
    hide ClausesText, ClausesParams, TokensUpTo, ReadConds, Conds;
    var e, n := EngineOf(d), |cs|;
    LexClauses(cs, n, "", e);
    assert ClausesText(cs, e.ident, n) + "" == ClausesText(cs, e.ident, n);
    FrontAndBack(cs, n);
    assert TokensUpTo(cs, n) + [] == TokensUpTo(cs, n) && ClausesParams(cs, n) + [] == ClausesParams(cs, n);
    ReadCondsBack(cs, 0);
  }

  // ---------------------------------------------------------------------
  // Empty lists
  // ---------------------------------------------------------------------

  /** What a clause is meant to say: a list without values holds nothing. */
  function Meant(c: Clause): Test {
    if NoList(c) then OneOf(c.op == NotIn, []) else Said(c)
  }

  /** Whether a test lets a number in, where true is 1 and false is 0. */
  predicate Admits(t: Test, v: int, compare: (Op, Json, int) -> bool) {
    match t
    case Compare(op, value) => compare(op, value, v)
    case TestNull(negated) => negated
    case OneOf(outside, values) => (Number(v) in values) != outside
    case OneOfTruth(outside, truth) => (v == if truth then 1 else 0) != outside
  }

  /** The text says what is meant exactly when the clause is not a list without values. */
  lemma EmptyListKeepsColumn(c: Clause, compare: (Op, Json, int) -> bool)
    ensures (forall v :: Admits(Said(c), v, compare) <==> Admits(Meant(c), v, compare)) <==> !NoList(c)
  {
    if NoList(c) {
      var v := if c.op == NotIn then 1 else 0;
      assert Admits(Said(c), v, compare) != Admits(Meant(c), v, compare);
    }
  }

  /** For one: `IN` over no values lets zero in. */
  lemma EmptyInExample(compare: (Op, Json, int) -> bool)
    ensures var c := Clause(false, "n", In, Array([]));
            TestText(Said(c)) == " IN (1=0)" && Admits(Said(c), 0, compare) && !Admits(Meant(c), 0, compare)
  {
  }

  // ---------------------------------------------------------------------
  // Placeholders as engines count them
  // ---------------------------------------------------------------------

  /** The question marks in a text, wherever they stand. */
  function MarkCount(s: string): nat {
    if s == "" then 0 else (if s[0] == '?' then 1 else 0) + MarkCount(s[1..])
  }

  lemma {:induction false} MarkCountAppend(a: string, b: string)
    ensures MarkCount(a + b) == MarkCount(a) + MarkCount(b)
  {
    if a == "" {
      assert a + b == b;
    } else {
      MarkCountAppend(a[1..], b);
      assert (a + b)[1..] == a[1..] + b;
    }
  }

  lemma {:induction false} MarkCountNone(s: string)
    ensures MarkCount(s) == 0 <==> '?' !in s
  {
    if s != "" {
      MarkCountNone(s[1..]);
      assert '?' in s <==> s[0] == '?' || '?' in s[1..];
    }
  }

  lemma {:induction false} MarkCountEscape(name: string, q: char)
    requires q != '?'
    ensures MarkCount(Escape(name, q)) == MarkCount(name)
  {
    if name != "" {
      MarkCountEscape(name[1..], q);
      MarkCountAppend(if name[0] == q then [q, q] else [name[0]], Escape(name[1..], q));
      assert [q, q][1..] == [q] && [q][1..] == "" && [name[0]][1..] == "";
    }
  }

  function ColumnMarks(cs: seq<Clause>, n: nat): nat
    requires n <= |cs|
  {
    if n == 0 then 0 else ColumnMarks(cs, n - 1) + MarkCount(cs[n - 1].column)
  }

  lemma {:induction false} MarksMarks(n: nat)
    requires n > 0
    ensures MarkCount(Marks(n)) == n
  {
    if n > 1 {
      MarksMarks(n - 1);
      MarkCountAppend(Marks(n - 1), ", ?");
      assert ", ?"[1..] == " ?" && " ?"[1..] == "?";
    }
  }

  lemma TestMarks(t: Test)
    requires (t.Compare? ==> IsComparison(t.op)) && (t.OneOf? ==> t.values != [])
    ensures MarkCount(TestText(t)) == |TestParams(t)|
  {
    hide MarkCount, Marks;
    match t
    case Compare(op, _) =>
      MarkCountAppend(" " + OpSql(op), " ?");
      MarkCountNone(" " + OpSql(op));
      OneMark();
    case TestNull(_) =>
      MarkCountNone(TestText(t));
    case OneOf(outside, values) =>
      MarkCountAppend(InWords(outside) + " (" + Marks(|values|), ")");
      MarkCountAppend(InWords(outside) + " (", Marks(|values|));
      MarkCountNone(InWords(outside) + " (");
      MarkCountNone(")");
      MarksMarks(|values|);
    case OneOfTruth(outside, truth) =>
      MarkCountNone(TestText(t));
  }

  lemma OneMark()
    ensures MarkCount(" ?") == 1
  {
    assert " ?"[1..] == "?";
  }

  lemma ClauseMarks(cs: seq<Clause>, i: nat, q: char)
    requires i < |cs| && IsQuote(q)
    ensures MarkCount(ClauseText(cs, q, i)) == MarkCount(cs[i].column) + |TestParams(Said(cs[i]))|
  {
    hide MarkCount, TestText, TestParams, Said, Escape;
    var c := cs[i];
    var start := if i == 0 then " WHERE " else Joiner(c);
    SaidIsSound(c);
    TestMarks(Said(c));
    MarkCountAppend(start + Quoted(c.column, q), TestText(Said(c)));
    MarkCountAppend(start, Quoted(c.column, q));
    MarkCountNone(start);
    MarkCountAppend([q] + Escape(c.column, q), [q]);
    MarkCountAppend([q], Escape(c.column, q));
    MarkCountNone([q]);
    MarkCountEscape(c.column, q);
  }

  /** The question marks in the text: one for each parameter, and those of the columns. */
  lemma {:induction false} MarksCounted(cs: seq<Clause>, n: nat, q: char)
    requires n <= |cs| && IsQuote(q)
    ensures MarkCount(ClausesText(cs, q, n)) == |ClausesParams(cs, n)| + ColumnMarks(cs, n)
  {
    hide MarkCount, ClauseText, TestParams, Said;
    if n == 0 {
      MarkCountNone("");
    } else {
      MarksCounted(cs, n - 1, q);
      ClauseMarks(cs, n - 1, q);
      MarkCountAppend(ClausesText(cs, q, n - 1), ClauseText(cs, q, n - 1));
    }
  }

  lemma {:induction false} ColumnMarksNone(cs: seq<Clause>, n: nat)
    requires n <= |cs|
    ensures ColumnMarks(cs, n) == 0 <==> forall i | 0 <= i < n :: '?' !in cs[i].column
  {
    hide MarkCount;
    if n > 0 {
      ColumnMarksNone(cs, n - 1);
      MarkCountNone(cs[n - 1].column);
    }
  }

  /**
   * An engine that takes every question mark for a placeholder sees as many as
   * there are parameters exactly when no column name holds one.
   */
  lemma EngineSeesItsParams(cs: seq<Clause>, d: Dialect)
    ensures MarkCount(WhereText(d, cs)) == |WhereParams(cs)|
            <==> forall i | 0 <= i < |cs| :: '?' !in cs[i].column
  {
    hide MarkCount, ClausesText, ClausesParams, ColumnMarks;
    MarksCounted(cs, |cs|, QuoteOf(d));
    ColumnMarksNone(cs, |cs|);
  }

  /** A column with one in its name: such an engine expects a value too many. */
  lemma MarkInColumnExample(d: Dialect, n: int)
    ensures var cs := [Clause(false, "a?b", Eq, Number(n))];
            |WhereParams(cs)| == 1 && MarkCount(WhereText(d, cs)) == 2
  {
    hide MarkCount, ClausesText;
    var cs := [Clause(false, "a?b", Eq, Number(n))];
    MarksCounted(cs, 1, QuoteOf(d));
    OneInTheMiddle("a", "b");
    assert "a" + "?" + "b" == "a?b";
  }

  lemma OneInTheMiddle(a: string, b: string)
    ensures '?' !in a + b ==> MarkCount(a + "?" + b) == 1
  {
    hide MarkCount;
    MarkCountAppend(a + "?", b);
    MarkCountAppend(a, "?");
    MarkCountAppend(a, b);
    MarkCountNone(a + b);
    SingleMark();
  }

  lemma SingleMark()
    ensures MarkCount("?") == 1
  {
    assert "?"[1..] == "";
  }
}
