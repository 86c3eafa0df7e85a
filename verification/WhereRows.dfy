// Which rows a WHERE text selects, as the dialect's engine reads it, against
// what the filters of a query ask for.
module WhereRows {
  import opened Common
  import opened Where
  import opened WhereReader

  type Row = string -> Json

  /** How an engine compares a value that is not null with a parameter. */
  type Comparison = (Op, Json, Json) -> bool

  // ---------------------------------------------------------------------
  // What the filters ask for
  // ---------------------------------------------------------------------

  /** One filter. */
  predicate Wanted(c: Clause, row: Row, compare: Comparison)
    requires !NoList(c)
  {
    var v := row(c.column);
    match c.op
    case IsNull => v == Null
    case IsNotNull => v != Null
    case In => v != Null && v in c.value.items
    case NotIn => v != Null && v !in c.value.items && Null !in c.value.items
    case Ne => v != Null && (c.value == Null || compare(Ne, v, c.value))
    case _ => if c.value == Null then v == Null else v != Null && compare(c.op, v, c.value)
  }

  /** Filters joined by AND, from one that starts a group up to the next that does. */
  predicate Group(cs: seq<Clause>, i: nat, j: nat) {
    && i < j <= |cs|
    && (i == 0 || cs[i].orCombine) && (j == |cs| || cs[j].orCombine)
    && forall k | i < k < j :: !cs[k].orCombine
  }

  predicate AllWanted(cs: seq<Clause>, i: nat, j: nat, row: Row, compare: Comparison)
    requires i <= j <= |cs| && forall c | c in cs :: !NoList(c)
  {
    forall k | i <= k < j :: Wanted(cs[k], row, compare)
  }

  /** Every filter of one group holds; without filters every row is meant. */
  ghost predicate Selected(cs: seq<Clause>, row: Row, compare: Comparison)
    requires forall c | c in cs :: !NoList(c)
  {
    cs == [] || exists i, j :: Group(cs, i, j) && AllWanted(cs, i, j, row, compare)
  }

  // ---------------------------------------------------------------------
  // What the engine does
  // ---------------------------------------------------------------------

  /** A test on a value; comparing with null is never true. */
  predicate Passes(t: Test, v: Json, compare: Comparison) {
    match t
    case Compare(op, value) => v != Null && compare(op, v, value)
    case TestNull(negated) => (v == Null) != negated
    case OneOf(outside, values) => v != Null && if outside then v !in values && Null !in values else v in values
    case OneOfTruth(outside, truth) => v != Null && (v == Number(if truth then 1 else 0)) != outside
  }

  /** AND binds tighter than OR: how many conditions the first AND chain has. */
  function Chain(conds: seq<Cond>): (n: nat)
    requires conds != []
    ensures 0 < n <= |conds|
    ensures forall k | 0 < k < n :: conds[k].joiner != "OR"
    ensures n < |conds| ==> conds[n].joiner == "OR"
  {
    if |conds| == 1 || conds[1].joiner == "OR" then 1
    else
      var n := Chain(conds[1..]);
      assert forall k | 1 < k < n + 1 :: conds[k].joiner == conds[1..][k - 1].joiner;
      assert n < |conds[1..]| ==> conds[n + 1].joiner == conds[1..][n].joiner;
      n + 1
  }

  predicate AllPass(conds: seq<Cond>, n: nat, row: Row, compare: Comparison)
    requires n <= |conds|
  {
    forall k | 0 <= k < n :: Passes(conds[k].test, row(conds[k].column), compare)
  }

  predicate AnyChain(conds: seq<Cond>, row: Row, compare: Comparison)
    decreases |conds|
  {
    conds != []
    && (AllPass(conds, Chain(conds), row, compare) || AnyChain(conds[Chain(conds)..], row, compare))
  }

  /** The row is in the result of the statement. */
  predicate Admitted(conds: seq<Cond>, row: Row, compare: Comparison) {
    conds == [] || AnyChain(conds, row, compare)
  }

  // ---------------------------------------------------------------------
  // They agree
  // ---------------------------------------------------------------------

  lemma TestIsWanted(c: Clause, row: Row, compare: Comparison)
    requires !NoList(c)
    ensures Passes(Said(c), row(c.column), compare) <==> Wanted(c, row, compare)
  {
  }

  lemma {:induction false} CondsAt(cs: seq<Clause>, i: nat, k: nat)
    requires i <= |cs| && k < |cs| - i
    ensures |Conds(cs, i)| == |cs| - i
    ensures Conds(cs, i)[k] == Cond(JoinWord(cs, i + k), cs[i + k].column, Said(cs[i + k]))
    decreases k
  {
    CondsLength(cs, i);
    if k > 0 {
      CondsAt(cs, i + 1, k - 1);
    }
  }

  lemma {:induction false} CondsLength(cs: seq<Clause>, i: nat)
    requires i <= |cs|
    ensures |Conds(cs, i)| == |cs| - i
    decreases |cs| - i
  {
    hide Said, JoinWord;
    if i < |cs| {
      CondsLength(cs, i + 1);
    }
  }

  lemma {:induction false} CondsDrop(cs: seq<Clause>, i: nat, n: nat)
    requires i + n <= |cs|
    ensures |Conds(cs, i)| == |cs| - i && Conds(cs, i)[n..] == Conds(cs, i + n)
    decreases n
  {
    hide Said, JoinWord;
    CondsLength(cs, i);
    if n > 0 {
      CondsDrop(cs, i + 1, n - 1);
    }
  }

  /** The first chain of the conditions from `i` on is the group that starts there. */
  lemma {:induction false} ChainIsGroup(cs: seq<Clause>, i: nat)
    requires i < |cs| && (i == 0 || cs[i].orCombine)
    ensures |Conds(cs, i)| == |cs| - i && Conds(cs, i) != []
    ensures Group(cs, i, i + Chain(Conds(cs, i)))
  {
    hide Conds, Said;
    CondsLength(cs, i);
    var n := Chain(Conds(cs, i));
    forall k | i < k < i + n ensures !cs[k].orCombine {
      CondsAt(cs, i, k - i);
    }
    if i + n < |cs| {
      CondsAt(cs, i, n);
      assert "AND" != "OR";
    }
  }

  lemma {:induction false} ChainWanted(cs: seq<Clause>, i: nat, n: nat, row: Row, compare: Comparison)
    requires i + n <= |cs| && (forall c | c in cs :: !NoList(c))
    ensures n <= |Conds(cs, i)| && (AllPass(Conds(cs, i), n, row, compare) <==> AllWanted(cs, i, i + n, row, compare))
  {
    hide Conds, Said, Wanted, Passes;
    CondsLength(cs, i);
    forall k | 0 <= k < n
      ensures Passes(Conds(cs, i)[k].test, row(Conds(cs, i)[k].column), compare) <==> Wanted(cs[i + k], row, compare)
    {
      CondsAt(cs, i, k);
      TestIsWanted(cs[i + k], row, compare);
    }
    if AllPass(Conds(cs, i), n, row, compare) {
      forall k | i <= k < i + n ensures Wanted(cs[k], row, compare) {
        assert Passes(Conds(cs, i)[k - i].test, row(Conds(cs, i)[k - i].column), compare);
      }
    }
  }

  /** Two groups that start at the same place are one. */
  lemma GroupEnds(cs: seq<Clause>, i: nat, j: nat, k: nat)
    requires Group(cs, i, j) && Group(cs, i, k)
    ensures j == k
  {
  }

  /** Some group from `i` on. */
  ghost predicate SelectedFrom(cs: seq<Clause>, i: nat, row: Row, compare: Comparison)
    requires forall c | c in cs :: !NoList(c)
  {
    exists a, b :: i <= a && Group(cs, a, b) && AllWanted(cs, a, b, row, compare)
  }

  lemma {:induction false} ChainsAreGroups(cs: seq<Clause>, i: nat, row: Row, compare: Comparison)
    requires i <= |cs| && (i == 0 || i == |cs| || cs[i].orCombine) && (forall c | c in cs :: !NoList(c))
    ensures AnyChain(Conds(cs, i), row, compare) <==> SelectedFrom(cs, i, row, compare)
    decreases |cs| - i
  {
    hide Conds, Said, AllPass, AllWanted;
    CondsLength(cs, i);
    if i < |cs| {
      ChainIsGroup(cs, i);
      var n := Chain(Conds(cs, i));
      ChainWanted(cs, i, n, row, compare);
      CondsDrop(cs, i, n);
      ChainsAreGroups(cs, i + n, row, compare);
      if SelectedFrom(cs, i, row, compare) {
        var a, b :| i <= a && Group(cs, a, b) && AllWanted(cs, a, b, row, compare);
        FirstOrLater(cs, i, n, a, b);
      }
    }
  }

  lemma FirstOrLater(cs: seq<Clause>, i: nat, n: nat, a: nat, b: nat)
    requires Group(cs, i, i + n) && i <= a && Group(cs, a, b)
    ensures (a == i && b == i + n) || i + n <= a
  {
  }

  /**
   * For every row and every way of comparing values: the engine that reads the
   * emitted text selects the row exactly when the filters ask for it, with AND
   * before OR, as long as no list is without values.
   */
  lemma RowsSelected(d: Dialect, cs: seq<Clause>, row: Row, compare: Comparison)
    requires forall c | c in cs :: !NoList(c)
    ensures var read := ReadWhere(WhereText(d, cs), WhereParams(cs), d);
            read.Some? && (Admitted(read.value, row, compare) <==> Selected(cs, row, compare))
  {
    hide ReadWhere, WhereText, WhereParams, Conds, AnyChain, AllWanted, Group;
    WhereRoundTrip(d, cs);
    CondsLength(cs, 0);
    ChainsAreGroups(cs, 0, row, compare);
  }
}
