/** The order among the versions of a checklist family, and the default every portfolio keeps. */
module ChecklistVersions {
  import opened Wrappers
  import opened Checklists

  type Rows = map<ChecklistId, Checklist>

  // A family: its rows by version, from 1 up, and what they have in common.
  datatype Chain = Chain(ids: seq<ChecklistId>, portfolio: PortfolioKey, isDefault: bool, deleted: bool) {
    // Unless the family is deleted, the newest version is active and the others are archived.
    function StatusAt(i: int): Status
    {
      if deleted then Deleted else if i == |ids| - 1 then Active else Archived
    }

    predicate Describes(row: Checklist, family: FamilyId, i: int)
    {
      && row.family == family && row.version == i + 1 && row.status == StatusAt(i)
      && row.portfolio == portfolio && row.isDefault == isDefault
    }
  }

  type Chains = map<FamilyId, Chain>

  // The default family of each portfolio.
  type Defaults = map<PortfolioKey, FamilyId>

  ghost predicate ChainOk(rows: Rows, family: FamilyId, chain: Chain)
  {
    && chain.ids != []
    && forall i | 0 <= i < |chain.ids| :: chain.ids[i] in rows && chain.Describes(rows[chain.ids[i]], family, i)
  }

  ghost predicate ChainsOk(rows: Rows, chains: Chains)
  {
    forall f <- chains :: ChainOk(rows, f, chains[f])
  }

  predicate InChain(row: Checklist, c: ChecklistId, chains: Chains)
  {
    row.family in chains && 1 <= row.version <= |chains[row.family].ids| && chains[row.family].ids[row.version - 1] == c
  }

  // Every row is in its family's chain at its version.
  ghost predicate RowsInChains(rows: Rows, chains: Chains)
  {
    forall c <- rows :: InChain(rows[c], c, chains)
  }

  // Every portfolio has one default family, which is not deleted.
  ghost predicate DefaultsOk(portfolios: set<PortfolioKey>, chains: Chains, defaults: Defaults)
  {
    && defaults.Keys == portfolios
    && (forall p <- defaults ::
          defaults[p] in chains && chains[defaults[p]].portfolio == p && chains[defaults[p]].isDefault
              && !chains[defaults[p]].deleted)
    && forall f <- chains ::
         chains[f].portfolio in defaults && (chains[f].isDefault ==> defaults[chains[f].portfolio] == f)
  }

  ghost predicate Ordered(db: Db, chains: Chains, defaults: Defaults)
  {
    && RowsInChains(db.checklists, chains) && ChainsOk(db.checklists, chains)
    && DefaultsOk(db.portfolios, chains, defaults)
  }

  // There is always exactly one checklist to judge by when none is chosen: the newest version of the
  // portfolio's default family.
  lemma DefaultIsUnique(db: Db, chains: Chains, defaults: Defaults, p: PortfolioKey)
    requires Ordered(db, chains, defaults) && p in db.portfolios
    ensures var ids := chains[defaults[p]].ids;
            ids != [] && forall c :: IsActiveDefault(db, p, c) <==> c == ids[|ids| - 1]
  {
    var rows, f := db.checklists, defaults[p];
    var chain := chains[f];
    assert ChainOk(rows, f, chain);
    assert chain.Describes(rows[chain.ids[|chain.ids| - 1]], f, |chain.ids| - 1);
    forall c | IsActiveDefault(db, p, c)
      ensures c == chain.ids[|chain.ids| - 1]
    {
      assert InChain(rows[c], c, chains) && ChainOk(rows, rows[c].family, chains[rows[c].family]);
      assert chains[rows[c].family].Describes(rows[c], rows[c].family, rows[c].version - 1);
    }
  }

  // ---- Steps on the rows -------------------------------------------------------------------------

  // Alike in everything the order depends on.
  predicate Alike(a: Checklist, b: Checklist)
  {
    a.(name := b.name, requiresKb := b.requiresKb) == b
  }

  lemma ChainUntouched(rows: Rows, rows': Rows, family: FamilyId, chain: Chain)
    requires ChainOk(rows, family, chain)
    requires forall c <- rows :: rows[c].family == family ==> c in rows' && Alike(rows[c], rows'[c])
    ensures ChainOk(rows', family, chain)
  {
    forall i | 0 <= i < |chain.ids|
      ensures chain.ids[i] in rows' && chain.Describes(rows'[chain.ids[i]], family, i)
    {
      assert chain.Describes(rows[chain.ids[i]], family, i);
    }
  }

  lemma CosmeticKeepsOrder(db: Db, db': Db, chains: Chains, defaults: Defaults)
    requires Ordered(db, chains, defaults) && db'.portfolios == db.portfolios
        && db'.checklists.Keys == db.checklists.Keys
    requires forall c <- db.checklists :: Alike(db.checklists[c], db'.checklists[c])
    ensures Ordered(db', chains, defaults)
  {
    forall f | f in chains
      ensures ChainOk(db'.checklists, f, chains[f])
    {
      ChainUntouched(db.checklists, db'.checklists, f, chains[f]);
    }
    forall c | c in db'.checklists
      ensures InChain(db'.checklists[c], c, chains)
    {
      assert InChain(db.checklists[c], c, chains);
    }
  }

  lemma DeleteKeepsRows(rows: Rows, rows': Rows, family: FamilyId, chains: Chains)
    requires RowsInChains(rows, chains) && ChainsOk(rows, chains) && family in chains && rows'.Keys == rows.Keys
    requires forall c <- rows :: rows'[c] == if rows[c].family == family then rows[c].(status := Deleted) else rows[c]
    ensures var chains' := chains[family := chains[family].(deleted := true)];
            RowsInChains(rows', chains') && ChainsOk(rows', chains')
  {
    var chains' := chains[family := chains[family].(deleted := true)];
    forall f | f in chains'
      ensures ChainOk(rows', f, chains'[f])
    {
      assert ChainOk(rows, f, chains[f]);
      forall i | 0 <= i < |chains'[f].ids|
        ensures chains'[f].Describes(rows'[chains'[f].ids[i]], f, i)
      {
        assert chains[f].Describes(rows[chains[f].ids[i]], f, i);
      }
    }
    forall d | d in rows'
      ensures InChain(rows'[d], d, chains')
    {
      assert InChain(rows[d], d, chains);
    }
  }

  lemma DeleteKeepsDefaults(ps: set<PortfolioKey>, chains: Chains, defaults: Defaults, family: FamilyId)
    requires DefaultsOk(ps, chains, defaults) && family in chains && !chains[family].isDefault
    ensures DefaultsOk(ps, chains[family := chains[family].(deleted := true)], defaults)
  {}

  lemma RowIsInItsChain(rows: Rows, c: ChecklistId, chains: Chains)
    requires RowsInChains(rows, chains) && ChainsOk(rows, chains) && c in rows
    ensures rows[c].family in chains && chains[rows[c].family].isDefault == rows[c].isDefault
  {
    var row := rows[c];
    assert InChain(row, c, chains) && ChainOk(rows, row.family, chains[row.family]);
    assert chains[row.family].Describes(row, row.family, row.version - 1);
  }

  lemma DeleteKeepsOrder(db: Db, c: ChecklistId, chains: Chains, defaults: Defaults) returns (chains': Chains)
    requires Ordered(db, chains, defaults) && c in db.checklists
    ensures Ordered(SoftDeleted(db, c), chains', defaults)
  {
    var row := db.checklists[c];
    if row.isDefault {
      chains' := chains;
    } else {
      RowIsInItsChain(db.checklists, c, chains);
      DeleteKeepsDefaults(db.portfolios, chains, defaults, row.family);
      DeleteKeepsRows(db.checklists, SoftDeleted(db, c).checklists, row.family, chains);
      chains' := chains[row.family := chains[row.family].(deleted := true)];
    }
  }

  // ---- Edits -------------------------------------------------------------------------------------

  // Which edits keep the order: those of an active version, those in place, and the odd case of a
  // deleted family's only version, which the edit brings back.
  predicate EditKeepsOrder(db: Db, c: ChecklistId, chains: Chains)
    requires c in db.checklists && db.checklists[c].family in chains
  {
    || db.checklists[c].status.Active?
    || !Used(db, c)
    || (db.checklists[c].status.Deleted? && |chains[db.checklists[c].family].ids| == 1)
  }

  function NewVersion(rows: Rows, c: ChecklistId, newId: ChecklistId, row: Checklist): Rows
    requires c in rows
  {
    rows[c := rows[c].(status := Archived)][newId := row]
  }

  predicate Succeeds(row: Checklist, old': Checklist)
  {
    && row.family == old'.family && row.portfolio == old'.portfolio && row.isDefault == old'.isDefault
    && row.version == old'.version + 1 && row.status.Active?
  }

  lemma NewVersionKeepsChain(rows: Rows, chain: Chain, c: ChecklistId, newId: ChecklistId, row: Checklist)
    requires c in rows && newId !in rows && ChainOk(rows, rows[c].family, chain) && rows[c].version == |chain.ids|
    requires chain.ids[|chain.ids| - 1] == c && Succeeds(row, rows[c]) && (rows[c].status.Active? || |chain.ids| == 1)
    ensures ChainOk(NewVersion(rows, c, newId, row), row.family, chain.(ids := chain.ids + [newId], deleted := false))
  {
    var rows', chain' := NewVersion(rows, c, newId, row), chain.(ids := chain.ids + [newId], deleted := false);
    var last := |chain.ids| - 1;
    assert chain.Describes(rows[c], row.family, last);
    forall i | 0 <= i < |chain'.ids|
      ensures chain'.ids[i] in rows' && chain'.Describes(rows'[chain'.ids[i]], row.family, i)
    {
      if i <= last { assert chain.Describes(rows[chain.ids[i]], row.family, i); }
    }
  }

  lemma NewVersionKeepsRows(rows: Rows, chains: Chains, c: ChecklistId, newId: ChecklistId, row: Checklist,
          chain: Chain)
    requires RowsInChains(rows, chains) && ChainsOk(rows, chains) && c in rows && newId !in rows
        && Succeeds(row, rows[c])
    requires row.family in chains && chain == chains[row.family].(ids := chains[row.family].ids + [newId],
        deleted := false)
    requires ChainOk(NewVersion(rows, c, newId, row), row.family, chain)
    ensures RowsInChains(NewVersion(rows, c, newId, row), chains[row.family := chain])
    ensures ChainsOk(NewVersion(rows, c, newId, row), chains[row.family := chain])
  {
    var rows', chains' := NewVersion(rows, c, newId, row), chains[row.family := chain];
    forall f | f in chains'
      ensures ChainOk(rows', f, chains'[f])
    {
      if f != row.family { ChainUntouched(rows, rows', f, chains[f]); }
    }
    assert chain.ids[|chain.ids| - 1] == newId
        && chain.Describes(rows'[chain.ids[|chain.ids| - 1]], row.family, |chain.ids| - 1);
    forall d | d in rows'
      ensures InChain(rows'[d], d, chains')
    {
      if d != newId { assert InChain(rows[d], d, chains); }
    }
  }

  lemma NewVersionKeepsOrder(db: Db, a: Action, chains: Chains, defaults: Defaults)
    returns (chains': Chains)
    requires Ordered(db, chains, defaults) && a.Update? && Enabled(db, a) && Used(db, a.id)
        && EditKeepsOrder(db, a.id, chains)
    ensures Ordered(Next(db, a), chains', defaults)
  {
    var rows, c := db.checklists, db.checklists[a.id];
    var row := Next(db, a).checklists[a.newId];
    var chain := chains[c.family];
    assert Next(db, a).checklists == NewVersion(rows, a.id, a.newId, row) && Succeeds(row, c);
    assert InChain(c, a.id, chains) && ChainOk(rows, c.family, chain);
    assert chain.Describes(c, c.family, c.version - 1);
    NewVersionKeepsChain(rows, chain, a.id, a.newId, row);
    NewVersionKeepsRows(rows, chains, a.id, a.newId, row, chain.(ids := chain.ids + [a.newId], deleted := false));
    chains' := chains[c.family := chain.(ids := chain.ids + [a.newId], deleted := false)];
  }

  // Rows of one family have different versions, and are deleted together.
  lemma FamilyRowsAgree(rows: Rows, chains: Chains, c: ChecklistId, d: ChecklistId)
    requires RowsInChains(rows, chains) && ChainsOk(rows, chains)
    requires c in rows && d in rows && c != d && rows[c].family == rows[d].family
    ensures rows[c].version != rows[d].version && (rows[c].status.Deleted? <==> rows[d].status.Deleted?)
  {
    var f := rows[c].family;
    assert InChain(rows[c], c, chains) && InChain(rows[d], d, chains) && ChainOk(rows, f, chains[f]);
    assert chains[f].Describes(rows[c], f, rows[c].version - 1) && chains[f].Describes(rows[d], f, rows[d].version - 1);
  }

  // The other edits leave two rows of one version, or a deleted row beside the new active one.
  lemma BadEditClashes(db: Db, a: Action, chains: Chains, defaults: Defaults) returns (other: ChecklistId)
    requires Ordered(db, chains, defaults) && a.Update? && Enabled(db, a) && !EditKeepsOrder(db, a.id, chains)
    ensures var rows' := Next(db, a).checklists;
            && other in rows' && a.newId in rows' && other != a.newId && rows'[other].family == rows'[a.newId].family
            && rows'[a.newId].status.Active?
            && (rows'[other].version == rows'[a.newId].version || rows'[other].status.Deleted?)
  {
    var rows, c := db.checklists, db.checklists[a.id];
    var chain := chains[c.family];
    assert InChain(c, a.id, chains) && ChainOk(rows, c.family, chain) && chain.Describes(c, c.family, c.version - 1);
    var k := if c.status.Archived? then c.version else if c.version == 1 then 1 else 0;
    other := chain.ids[k];
    assert chain.Describes(rows[other], c.family, k);
  }

  // An edit keeps versions 1..n with exactly the newest active precisely in those cases: editing a
  // superseded version that a report uses makes a second row of an existing version.
  lemma EditKeepsOrderIff(db: Db, a: Action, chains: Chains, defaults: Defaults)
    requires Ordered(db, chains, defaults) && a.Update? && Enabled(db, a)
    ensures EditKeepsOrder(db, a.id, chains) <==> exists chains', defaults' :: Ordered(Next(db, a), chains', defaults')
  {
    if EditKeepsOrder(db, a.id, chains) {
      if Used(db, a.id) {
        var chains' := NewVersionKeepsOrder(db, a, chains, defaults);
        assert Ordered(Next(db, a), chains', defaults);
      } else {
        CosmeticKeepsOrder(db, Next(db, a), chains, defaults);
      }
    } else {
      var other := BadEditClashes(db, a, chains, defaults);
      forall chains': Chains, defaults': Defaults | Ordered(Next(db, a), chains', defaults')
        ensures false
      {
        FamilyRowsAgree(Next(db, a).checklists, chains', other, a.newId);
      }
    }
  }

  // ---- Whole runs --------------------------------------------------------------------------------

  lemma FamilyIsNew(rows: Rows, chains: Chains, family: FamilyId)
    requires ChainsOk(rows, chains) && forall c <- rows :: rows[c].family != family
    ensures family !in chains
  {
    forall f | f in chains
      ensures chains[f].ids != [] && chains[f].ids[0] in rows && rows[chains[f].ids[0]].family == f
    {
      assert ChainOk(rows, f, chains[f]) && chains[f].Describes(rows[chains[f].ids[0]], f, 0);
    }
  }

  lemma CreateKeepsRows(rows: Rows, chains: Chains, id: ChecklistId, row: Checklist)
    requires RowsInChains(rows, chains) && ChainsOk(rows, chains)
    requires id !in rows && row.family !in chains && row.version == 1 && row.status.Active?
    ensures var chains' := chains[row.family := Chain([id], row.portfolio, row.isDefault, false)];
            RowsInChains(rows[id := row], chains') && ChainsOk(rows[id := row], chains')
  {
    var rows' := rows[id := row];
    var chains' := chains[row.family := Chain([id], row.portfolio, row.isDefault, false)];
    forall f | f in chains'
      ensures ChainOk(rows', f, chains'[f])
    {
      if f != row.family { ChainUntouched(rows, rows', f, chains[f]); }
    }
    forall d | d in rows'
      ensures InChain(rows'[d], d, chains')
    {
      if d != id { assert InChain(rows[d], d, chains); }
    }
  }

  lemma CreateKeepsDefaults(ps: set<PortfolioKey>, chains: Chains, defaults: Defaults, family: FamilyId, chain: Chain)
    requires DefaultsOk(ps, chains, defaults) && family !in chains && !chain.deleted
    requires if chain.isDefault then chain.portfolio !in ps else chain.portfolio in ps
    ensures DefaultsOk(ps + {chain.portfolio}, chains[family := chain],
                       if chain.isDefault then defaults[chain.portfolio := family] else defaults)
  {}

  lemma CreateKeepsOrder(db: Db, a: Action, chains: Chains, defaults: Defaults)
    returns (chains': Chains, defaults': Defaults)
    requires Ordered(db, chains, defaults) && (a.CreateDefault? || a.Create?) && Enabled(db, a)
    ensures Ordered(Next(db, a), chains', defaults')
  {
    var row := Next(db, a).checklists[a.id];
    FamilyIsNew(db.checklists, chains, row.family);
    CreateKeepsRows(db.checklists, chains, a.id, row);
    var chain := Chain([a.id], row.portfolio, row.isDefault, false);
    CreateKeepsDefaults(db.portfolios, chains, defaults, row.family, chain);
    chains' := chains[row.family := chain];
    defaults' := if row.isDefault then defaults[row.portfolio := row.family] else defaults;
    assert Next(db, a).checklists == db.checklists[a.id := row];
    assert Next(db, a).portfolios == db.portfolios + {row.portfolio};
  }

  // Edits that address an active version, or one no report uses.
  predicate Disciplined(db: Db, a: Action)
  {
    a.Update? ==> a.id in db.checklists && (db.checklists[a.id].status.Active? || !Used(db, a.id))
  }

  lemma OtherStepsAreCosmetic(db: Db, a: Action)
    requires Enabled(db, a)
    requires a.Rename? || a.Judge? || a.Purge? || (a.Update? && !Used(db, a.id))
    ensures Next(db, a).portfolios == db.portfolios && Next(db, a).checklists.Keys == db.checklists.Keys
    ensures forall c <- db.checklists :: Alike(db.checklists[c], Next(db, a).checklists[c])
  {}

  lemma StepKeepsOrder(db: Db, a: Action, chains: Chains, defaults: Defaults)
    returns (chains': Chains, defaults': Defaults)
    requires Ordered(db, chains, defaults) && Enabled(db, a) && Disciplined(db, a)
    ensures Ordered(Next(db, a), chains', defaults')
  {
    chains', defaults' := chains, defaults;
    if a.CreateDefault? || a.Create? {
      chains', defaults' := CreateKeepsOrder(db, a, chains, defaults);
    } else if a.Update? && Used(db, a.id) {
      chains' := NewVersionKeepsOrder(db, a, chains, defaults);
    } else if a.SoftDelete? {
      chains' := DeleteKeepsOrder(db, a.id, chains, defaults);
    } else {
      OtherStepsAreCosmetic(db, a);
      CosmeticKeepsOrder(db, Next(db, a), chains, defaults);
    }
  }

  predicate DisciplinedRun(db: Db, actions: seq<Action>)
    requires Runs(db, actions)
    decreases |actions|
  {
    actions == [] || (Disciplined(db, actions[0]) && DisciplinedRun(Next(db, actions[0]), actions[1..]))
  }

  // Over every run whose edits address active or unused versions: versions stay 1..n with the newest
  // active, and every portfolio keeps its default family.
  lemma {:induction false} RunKeepsOrder(db: Db, actions: seq<Action>, chains: Chains, defaults: Defaults)
    returns (chains': Chains, defaults': Defaults)
    requires Ordered(db, chains, defaults) && Runs(db, actions) && DisciplinedRun(db, actions)
    ensures Ordered(End(db, actions), chains', defaults')
    decreases |actions|
  {
    chains', defaults' := chains, defaults;
    if actions != [] {
      chains', defaults' := StepKeepsOrder(db, actions[0], chains, defaults);
      chains', defaults' := RunKeepsOrder(Next(db, actions[0]), actions[1..], chains', defaults');
    }
  }

  // From empty tables, every portfolio always has exactly one default to judge by.
  lemma EveryPortfolioHasItsDefault(actions: seq<Action>, p: PortfolioKey) returns (c: ChecklistId)
    requires Runs(EMPTY, actions) && DisciplinedRun(EMPTY, actions) && p in End(EMPTY, actions).portfolios
    ensures IsActiveDefault(End(EMPTY, actions), p, c)
    ensures forall d | IsActiveDefault(End(EMPTY, actions), p, d) :: d == c
  {
    var noChains: Chains, noDefaults: Defaults := map[], map[];
    assert Ordered(EMPTY, noChains, noDefaults);
    var chains, defaults := RunKeepsOrder(EMPTY, actions, noChains, noDefaults);
    DefaultIsUnique(End(EMPTY, actions), chains, defaults, p);
    c := chains[defaults[p]].ids[|chains[defaults[p]].ids| - 1];
  }

  // So every call of the portfolio is judged against exactly one checklist, whatever it asks for.
  lemma EveryCallResolves(actions: seq<Action>, p: PortfolioKey, requested: Option<ChecklistId>)
    returns (c: ChecklistId)
    requires Runs(EMPTY, actions) && DisciplinedRun(EMPTY, actions) && p in End(EMPTY, actions).portfolios
    ensures forall d :: Resolves(End(EMPTY, actions), p, requested, d) <==> d == c
    ensures var rows := End(EMPTY, actions).checklists;
            && c in rows && rows[c].portfolio == p
            && (requested == Some(c) || (rows[c].isDefault && rows[c].status == Active
                                         && forall d <- rows :: rows[d].portfolio == p ==> requested != Some(d)))
  {
    var db := End(EMPTY, actions);
    c := EveryPortfolioHasItsDefault(actions, p);
    if exists d <- db.checklists :: requested == Some(d) && db.checklists[d].portfolio == p {
      c := requested.value;
    }
  }

  // ---- A bad edit from empty tables ---------------------------------------------------------------

  lemma RunsStep(db: Db, a: Action, rest: seq<Action>)
    requires Enabled(db, a) && Runs(Next(db, a), rest)
    requires Disciplined(db, a) && DisciplinedRun(Next(db, a), rest)
    ensures Runs(db, [a] + rest) && DisciplinedRun(db, [a] + rest)
    ensures End(db, [a] + rest) == End(Next(db, a), rest)
  {
    assert ([a] + rest)[1..] == rest;
  }

  // A portfolio is created, a call is judged, and the checklist is edited.  That is all it takes: the
  // first version is now archived and used.
  lemma UsedVersionIsArchived(p: PortfolioKey, first: ChecklistId, second: ChecklistId, family: FamilyId, call: CallId,
          report: ReportId)
    returns (run: seq<Action>)
    requires first != second
    ensures Runs(EMPTY, run) && DisciplinedRun(EMPTY, run)
    ensures var db := End(EMPTY, run);
      && db.checklists == map[first := Checklist(p, family, "", true, 1, Archived, true),
                              second := Checklist(p, family, "", true, 2, Active, true)]
      && db.items == map[] && Used(db, first)
  {
    var create := CreateDefault(p, first, family, "", [], []);
    var judge := Judge(call, p, None, true, first, report);
    var edit := Update(first, "", [], None, second, []);
    var one := Next(EMPTY, create);
    assert one.checklists == map[first := Checklist(p, family, "", true, 1, Active, true)];
    assert IsActiveDefault(one, p, first);
    var two := Next(one, judge);
    assert two.reports[report].checklist == Some(first) && Used(two, first);
    var three := Next(two, edit);
    assert three.reports == two.reports && three.reports[report].checklist == Some(first);
    RunsStep(two, edit, []);
    RunsStep(one, judge, [edit]);
    RunsStep(EMPTY, create, [judge] + [edit]);
    run := [create] + ([judge] + [edit]);
  }

  // Editing that first version again is possible, and makes a second active version 2.
  lemma BadEditIsReachable(p: PortfolioKey, first: ChecklistId, second: ChecklistId, third: ChecklistId,
          family: FamilyId, call: CallId, report: ReportId)
    returns (run: seq<Action>, chains: Chains, defaults: Defaults)
    requires first != second && first != third && second != third
    ensures Runs(EMPTY, run) && DisciplinedRun(EMPTY, run)
    ensures var db, again := End(EMPTY, run), Update(first, "", [], None, third, []);
      && Ordered(db, chains, defaults) && Enabled(db, again) && !EditKeepsOrder(db, first, chains)
      && (forall chains': Chains, defaults': Defaults :: !Ordered(Next(db, again), chains', defaults'))
      && var rows := Next(db, again).checklists;
         && second in rows && third in rows && rows[second].family == rows[third].family == family
         && rows[second].version == rows[third].version == 2
         && rows[second].status.Active? && rows[third].status.Active?
  {
    run := UsedVersionIsArchived(p, first, second, family, call, report);
    var db, again := End(EMPTY, run), Update(first, "", [], None, third, []);
    var noChains: Chains, noDefaults: Defaults := map[], map[];
    assert Ordered(EMPTY, noChains, noDefaults);
    chains, defaults := RunKeepsOrder(EMPTY, run, noChains, noDefaults);
    assert InChain(db.checklists[second], second, chains) && InChain(db.checklists[first], first, chains);
    EditKeepsOrderIff(db, again, chains, defaults);
  }
}
