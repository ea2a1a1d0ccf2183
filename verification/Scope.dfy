/** Scoped configuration: the binding rule (backend/app/judge/scope.py) and the activation steps on the
    prompt rows it chooses from (backend/app/api/prompts.py). */
module Scope {
  import opened Wrappers

  type RowId = nat
  type PortfolioId = nat
  type FolderId = nat

  // A saved row for one judge agent, bound to a folder, to a portfolio, or (both None) everywhere.
  datatype Row = Row(agent: string, portfolio: Option<PortfolioId>, folder: Option<FolderId>, inUse: bool,
      content: string)

  // A call's place: its portfolio and folder, either of which may be unknown.
  datatype Place = Place(portfolio: Option<PortfolioId>, folder: Option<FolderId>)

  const FOLDER := 3
  const PORTFOLIO := 2
  const GLOBAL := 1

  function Rank(row: Row, at: Place): nat
  {
    if row.folder.Some? then (if row.folder == at.folder then FOLDER else 0)
    else if row.portfolio.Some? then (if row.portfolio == at.portfolio then PORTFOLIO else 0)
    else GLOBAL
  }

  // `resolve_scoped`: the first row of the highest rank, if any row applies.
  method ResolveScoped(rows: seq<(RowId, Row)>, at: Place) returns (best: Option<(RowId, Row)>)
    ensures best.None? <==> forall r <- rows :: Rank(r.1, at) == 0
    ensures best.Some? ==> best.value in rows && forall r <- rows :: Rank(r.1, at) <= Rank(best.value.1, at)
    ensures best.Some? ==> Rank(best.value.1, at) > 0
    ensures best.Some? ==> exists k | 0 <= k < |rows| ::
      rows[k] == best.value && forall j | 0 <= j < k :: Rank(rows[j].1, at) < Rank(best.value.1, at)
  {
    best := None;
    var bestRank := 0;
    ghost var k := 0;
    for i := 0 to |rows|
      invariant best.None? ==> bestRank == 0
      invariant best.Some? ==> 0 <= k < i && rows[k] == best.value && bestRank == Rank(best.value.1, at) > 0
      invariant best.Some? ==> forall j | 0 <= j < k :: Rank(rows[j].1, at) < bestRank
      invariant forall j | 0 <= j < i :: Rank(rows[j].1, at) <= bestRank
    {
      var rank := Rank(rows[i].1, at);
      if rank > bestRank {
        best, bestRank := Some(rows[i]), rank;
        k := i;
      }
    }
  }

  // ---- The table of rows -------------------------------------------------------------------------

  type Table = map<RowId, Row>

  predicate SameScope(a: Row, b: Row)
  {
    a.agent == b.agent && a.portfolio == b.portfolio && a.folder == b.folder
  }

  // The partial unique index: at most one row in use per agent and scope.
  ghost predicate OneInUse(t: Table)
  {
    forall x, y | x in t && y in t && x != y && t[x].inUse && t[y].inUse :: !SameScope(t[x], t[y])
  }

  // A folder belongs to one portfolio, and the rows bound to it say so.
  ghost predicate Homed(t: Table, home: FolderId -> Option<PortfolioId>)
  {
    forall x <- t :: t[x].folder.Some? ==> t[x].portfolio == home(t[x].folder.value)
  }

  predicate Candidate(t: Table, agent: string, x: RowId)
  {
    x in t && t[x].inUse && t[x].agent == agent
  }

  predicate ForFolder(row: Row, at: Place) { row.folder.Some? && row.folder == at.folder }

  predicate ForPortfolio(row: Row, at: Place)
  {
    row.folder.None? && row.portfolio.Some? && row.portfolio == at.portfolio
  }

  predicate ForAll(row: Row) { row.folder.None? && row.portfolio.None? }

  // The folder's row in use, else the portfolio's, else the global one, else none.
  ghost predicate Wins(t: Table, agent: string, at: Place, winner: Option<RowId>)
  {
    && (winner.Some? ==> Candidate(t, agent, winner.value))
    && if exists y :: Candidate(t, agent, y) && ForFolder(t[y], at) then winner.Some? && ForFolder(t[winner.value], at)
       else if exists y :: Candidate(t, agent, y) && ForPortfolio(t[y], at)
         then winner.Some? && ForPortfolio(t[winner.value], at)
       else if exists y :: Candidate(t, agent, y) && ForAll(t[y]) then winner.Some? && ForAll(t[winner.value])
       else winner.None?
  }

  // `rows` lists, in any order, the rows in use for the agent.
  ghost predicate Lists(rows: seq<(RowId, Row)>, t: Table, agent: string)
  {
    && (forall r <- rows :: Candidate(t, agent, r.0) && r.1 == t[r.0])
    && forall x | Candidate(t, agent, x) :: (x, t[x]) in rows
  }

  // The tiered lookup is the search for the highest rank.
  ghost predicate TopRank(t: Table, agent: string, at: Place, winner: Option<RowId>)
  {
    && (winner.Some? ==> Candidate(t, agent, winner.value) && Rank(t[winner.value], at) > 0)
    && forall y | Candidate(t, agent, y) :: Rank(t[y], at) <= if winner.Some? then Rank(t[winner.value], at) else 0
  }

  lemma WinsByRank(t: Table, agent: string, at: Place, winner: Option<RowId>)
    ensures Wins(t, agent, at, winner) <==> TopRank(t, agent, at, winner)
  {}

  // No two rows in use for the call's folder; they could only differ in the portfolio they were saved with.
  predicate OnePerFolder(t: Table, agent: string, at: Place)
  {
    forall x, y | x in t && y in t && Candidate(t, agent, x) && Candidate(t, agent, y) ::
      ForFolder(t[x], at) && ForFolder(t[y], at) ==> x == y
  }

  lemma WinnersAreEqual(t: Table, agent: string, at: Place, a: Option<RowId>, b: Option<RowId>)
    requires OneInUse(t) && OnePerFolder(t, agent, at) && Wins(t, agent, at, a) && Wins(t, agent, at, b)
    ensures a == b
  {
    if a.Some? && b.Some? && !ForFolder(t[a.value], at) {
      assert SameScope(t[a.value], t[b.value]);
    }
  }

  // The answer does not depend on the order the rows come in exactly when the folder has at most one in use.
  lemma WinnerIsUniqueExactlyWhen(t: Table, agent: string, at: Place)
    requires OneInUse(t)
    ensures (forall a, b | Wins(t, agent, at, a) && Wins(t, agent, at, b) :: a == b) <==> OnePerFolder(t, agent, at)
  {
    forall a, b | Wins(t, agent, at, a) && Wins(t, agent, at, b) && OnePerFolder(t, agent, at)
      ensures a == b
    {
      WinnersAreEqual(t, agent, at, a, b);
    }
    forall x, y | x in t && y in t && Candidate(t, agent, x) && Candidate(t, agent, y) && ForFolder(t[x], at)
        && ForFolder(t[y], at)
      ensures Wins(t, agent, at, Some(x)) && Wins(t, agent, at, Some(y))
    {}
  }

  // Rows that are saved with their folder's own portfolio meet the condition everywhere.
  lemma HomedIsEnough(t: Table, home: FolderId -> Option<PortfolioId>, agent: string, at: Place)
    requires OneInUse(t) && Homed(t, home)
    ensures OnePerFolder(t, agent, at)
  {
    forall x, y | x in t && y in t && Candidate(t, agent, x) && Candidate(t, agent, y) && ForFolder(t[x], at)
        && ForFolder(t[y], at)
      ensures x == y
    {
      assert SameScope(t[x], t[y]);
    }
  }

  // `load_active_prompts` for one agent, whatever order the query returned.
  method LoadActive(t: Table, agent: string, at: Place, rows: seq<(RowId, Row)>) returns (chosen: Option<RowId>)
    requires Lists(rows, t, agent)
    ensures Wins(t, agent, at, chosen)
    ensures OneInUse(t) && OnePerFolder(t, agent, at) ==> forall w | Wins(t, agent, at, w) :: w == chosen
  {
    var best := ResolveScoped(rows, at);
    chosen := if best.Some? then Some(best.value.0) else None;
    WinsByRank(t, agent, at, chosen);
    forall y | Candidate(t, agent, y)
      ensures Rank(t[y], at) <= if best.Some? then Rank(best.value.1, at) else 0
    {
      assert (y, t[y]) in rows;
    }
    if OneInUse(t) { WinnerIsUniqueExactlyWhen(t, agent, at); }
  }

  // ---- Activation steps ----------------------------------------------------------------------------

  function Activated(t: Table, x: RowId): Table
    requires x in t
  {
    map y | y in t :: if y == x then t[y].(inUse := true) else if SameScope(t[y], t[x]) then t[y].(inUse := false)
        else t[y]
  }

  datatype Activation = InUse | NotFound | Conflict

  predicate Rival(t: Table, x: RowId, y: RowId)
    requires x in t && y in t
  {
    y != x && t[y].inUse && SameScope(t[y], t[x])
  }

  function SwitchedOff(t: Table, row: Row, unseen: set<RowId>): Table
  {
    map y | y in t :: if SameScope(t[y], row) && y !in unseen then t[y].(inUse := false) else t[y]
  }

  lemma NoRivalIsActivated(t: Table, x: RowId, unseen: set<RowId>)
    requires x in t && forall y <- unseen :: y in t ==> !Rival(t, x, y)
    ensures var off := SwitchedOff(t, t[x], unseen); off[x := off[x].(inUse := true)] == Activated(t, x)
  {
    var off := SwitchedOff(t, t[x], unseen);
    forall y | y in t
      ensures off[x := off[x].(inUse := true)][y] == Activated(t, x)[y]
    {}
  }

  class PromptTable {
    var rows: Table

    // A saved row is not in use yet.
    method Create(x: RowId, row: Row)
      requires x !in rows && !row.inUse
      modifies this
      ensures rows == old(rows)[x := row]
      ensures old(OneInUse(rows)) ==> OneInUse(rows)
    {
      rows := rows[x := row];
    }

    // First the scope's rows are switched off, then the chosen one on; an unknown id changes nothing.
    // `unseen` are rows another transaction committed meanwhile, which the first statement missed: the
    // index refuses the commit, and everything is rolled back, if one of them is in use in the scope.
    method Activate(x: RowId, unseen: set<RowId>) returns (r: Activation)
      modifies this
      ensures r.NotFound? <==> x !in old(rows)
      ensures r.Conflict? <==> x in old(rows) && exists y <- unseen :: y in old(rows) && Rival(old(rows), x, y)
      ensures rows == if r.InUse? then Activated(old(rows), x) else old(rows)
      ensures old(OneInUse(rows)) ==> OneInUse(rows)
    {
      if x !in rows { return NotFound; }
      var off := SwitchedOff(rows, rows[x], unseen);
      var on := off[x := off[x].(inUse := true)];
      if exists y <- on.Keys :: y in unseen && Rival(on, x, y) {
        return Conflict;
      }
      NoRivalIsActivated(rows, x, unseen);
      rows := on;
      return InUse;
    }

    method Deactivate(x: RowId) returns (found: bool)
      modifies this
      ensures found <==> x in old(rows)
      ensures rows == if found then old(rows)[x := old(rows)[x].(inUse := false)] else old(rows)
      ensures old(OneInUse(rows)) ==> OneInUse(rows)
    {
      if x !in rows { return false; }
      rows := rows[x := rows[x].(inUse := false)];
      return true;
    }

    method Delete(x: RowId) returns (found: bool)
      modifies this
      ensures found <==> x in old(rows)
      ensures rows == old(rows) - {x}
      ensures old(OneInUse(rows)) ==> OneInUse(rows)
    {
      if x !in rows { return false; }
      rows := rows - {x};
      return true;
    }
  }

  function Saved(agent: string, p: PortfolioId, q: PortfolioId, f: FolderId): Table
  {
    map[0 := Row(agent, Some(p), Some(f), false, ""), 1 := Row(agent, Some(q), Some(f), false, "")]
  }

  // The index lets two rows of one folder be in use when they were saved with different portfolios, and
  // then each wins the same call in its turn.
  lemma TwoHomesClash(agent: string, p: PortfolioId, q: PortfolioId, f: FolderId)
    requires p != q
    ensures var saved := Saved(agent, p, q, f);
            var t, at := Activated(Activated(saved, 0), 1), Place(Some(p), Some(f));
            OneInUse(t) && Wins(t, agent, at, Some(0)) && Wins(t, agent, at, Some(1))
  {
    var saved := Saved(agent, p, q, f);
    var t, at := Activated(Activated(saved, 0), 1), Place(Some(p), Some(f));
    assert Candidate(t, agent, 0) && ForFolder(t[0], at);
    assert Candidate(t, agent, 1) && ForFolder(t[1], at);
  }

  predicate Reached(t: Table, x: RowId, agent: string, at: Place)
    requires x in t
  {
    agent == t[x].agent && Rank(t[x], at) > 0 && forall y <- t.Keys :: Candidate(t, agent, y) ==>
        Rank(t[y], at) <= Rank(t[x], at)
  }

  lemma ActivationByRank(t: Table, x: RowId, agent: string, at: Place, before: Option<RowId>)
    requires x in t && TopRank(t, agent, at, before)
    ensures TopRank(Activated(t, x), agent, at, if Reached(t, x, agent, at) then Some(x) else before)
  {
    var t' := Activated(t, x);
    assert forall y | Candidate(t', agent, y) :: y == x || Candidate(t, agent, y);
    if before.Some? && before.value != x && !Candidate(t', agent, before.value) {
      assert Rank(t[before.value], at) == Rank(t[x], at);
    }
  }

  // Activating a row changes the outcome for exactly the calls of its agent that it applies to and
  // that have no more specific row in use; for those it wins, for all others the winner stays.
  lemma ActivationFrame(t: Table, x: RowId, agent: string, at: Place, before: Option<RowId>)
    requires x in t && Wins(t, agent, at, before)
    ensures Wins(Activated(t, x), agent, at, if Reached(t, x, agent, at) then Some(x) else before)
  {
    var after := if Reached(t, x, agent, at) then Some(x) else before;
    WinsByRank(t, agent, at, before);
    ActivationByRank(t, x, agent, at, before);
    WinsByRank(Activated(t, x), agent, at, after);
  }

  lemma RemovalByRank(t: Table, t': Table, x: RowId, agent: string, at: Place, before: Option<RowId>,
          after: Option<RowId>)
    requires OneInUse(t) && OnePerFolder(t, agent, at) && TopRank(t, agent, at, before) && TopRank(t', agent, at, after)
    requires forall y :: Candidate(t', agent, y) <==> y != x && Candidate(t, agent, y)
    requires forall y | Candidate(t', agent, y) :: t'[y] == t[y]
    ensures if before != Some(x) then after == before else after.Some? ==> Rank(t[after.value], at) < Rank(t[x], at)
  {
    if after.Some? && before.Some? && Rank(t[after.value], at) == Rank(t[before.value], at) {
      if !ForFolder(t[before.value], at) { assert SameScope(t[after.value], t[before.value]); }
    }
  }

  // Switching a row off, or deleting it, leaves every call it did not win as it was; the calls it won
  // fall back to a less specific row, or to none.
  lemma RemovalFrame(t: Table, x: RowId, deleted: bool, agent: string, at: Place, before: Option<RowId>,
          after: Option<RowId>)
    requires OneInUse(t) && OnePerFolder(t, agent, at) && x in t && Wins(t, agent, at, before)
    requires Wins(if deleted then t - {x} else t[x := t[x].(inUse := false)], agent, at, after)
    ensures if before != Some(x) then after == before
            else after.Some? ==> after.value in t && Rank(t[after.value], at) < Rank(t[x], at)
  {
    var t' := if deleted then t - {x} else t[x := t[x].(inUse := false)];
    WinsByRank(t, agent, at, before);
    WinsByRank(t', agent, at, after);
    RemovalByRank(t, t', x, agent, at, before, after);
  }
}
