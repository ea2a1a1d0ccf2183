/** Checklist versions and the reports judged against them (backend/app/checklists/service.py, the
    report rebuild of backend/app/judge/service.py). */
module Checklists {
  import opened Wrappers

  type ChecklistId = nat
  type FamilyId = nat
  type PortfolioKey = nat
  type ItemId = nat
  type CallId = nat
  type ReportId = nat

  datatype Status = Active | Archived | Deleted

  datatype Checklist = Checklist(
    portfolio: PortfolioKey, family: FamilyId, name: string, isDefault: bool, version: int, status: Status,
    requiresKb: bool)

  datatype Content = Content(
    section: string, text: string, answerType: string, isSubjective: bool, risk: string, guidance: Option<string>)

  datatype ItemRow = ItemRow(checklist: ChecklistId, sortOrder: int, content: Content)

  datatype Report = Report(call: CallId, checklist: Option<ChecklistId>)

  // The tables.  `issued` holds every report key ever generated.
  datatype Db = Db(
    portfolios: set<PortfolioKey>, checklists: map<ChecklistId, Checklist>, items: map<ItemId, ItemRow>,
    reports: map<ReportId, Report>, reportItems: set<(ReportId, ItemId)>, issued: set<ReportId>)

  // ---- Items and their order ---------------------------------------------------------------------

  predicate Before(rows: map<ItemId, ItemRow>, a: ItemId, b: ItemId)
    requires a in rows && b in rows
  {
    rows[a].sortOrder < rows[b].sortOrder || (rows[a].sortOrder == rows[b].sortOrder && a < b)
  }

  // `ids` is the answer of `get_items`: the checklist's rows by sort order, then key.
  predicate Listing(rows: map<ItemId, ItemRow>, c: ChecklistId, ids: seq<ItemId>)
  {
    && (forall id <- ids :: id in rows && rows[id].checklist == c)
    && (forall id <- rows :: rows[id].checklist == c ==> id in ids)
    && forall i, j | 0 <= i < j < |ids| :: ids[i] in rows && ids[j] in rows && Before(rows, ids[i], ids[j])
  }

  lemma {:induction false} ListingIsUnique(rows: map<ItemId, ItemRow>, c: ChecklistId, a: seq<ItemId>, b: seq<ItemId>)
    requires Listing(rows, c, a) && Listing(rows, c, b)
    ensures a == b
    decreases |a|
  {
    if a != [] || b != [] {
      ListingHead(rows, c, a, b);
      ListingHead(rows, c, b, a);
      ListingTail(rows, c, a);
      ListingTail(rows, c, b);
      ListingIsUnique(Dropped(rows, a[0]), c, a[1..], b[1..]);
      assert a == [a[0]] + a[1..] && b == [b[0]] + b[1..];
    }
  }

  function Dropped(rows: map<ItemId, ItemRow>, id: ItemId): map<ItemId, ItemRow>
  {
    rows - {id}
  }

  // Two answers begin alike: the first of one is somewhere in the other, and cannot come later.
  lemma ListingHead(rows: map<ItemId, ItemRow>, c: ChecklistId, a: seq<ItemId>, b: seq<ItemId>)
    requires Listing(rows, c, a) && Listing(rows, c, b)
    ensures a != [] ==> b != [] && (a[0] == b[0] || Before(rows, b[0], a[0]))
  {
    if a != [] {
      assert a[0] in b;
      var i :| 0 <= i < |b| && b[i] == a[0];
    }
  }

  lemma ListingTail(rows: map<ItemId, ItemRow>, c: ChecklistId, a: seq<ItemId>)
    requires Listing(rows, c, a) && a != []
    ensures Listing(Dropped(rows, a[0]), c, a[1..])
  {
    assert forall id <- a[1..] :: id in a;
    assert forall i, j | 0 <= i < j < |a[1..]| :: a[1..][i] == a[i + 1] && a[1..][j] == a[j + 1];
    forall id <- a[1..]
      ensures id != a[0]
    {
      var i :| 0 <= i < |a[1..]| && a[1..][i] == id;
      assert Before(rows, a[0], a[i + 1]);
    }
  }

  predicate FreshKeys(rows: map<ItemId, ItemRow>, contents: seq<Content>, keys: seq<ItemId>)
  {
    && |keys| == |contents|
    && (forall k <- keys :: k !in rows)
    && forall i, j | 0 <= i < j < |keys| :: keys[i] != keys[j]
  }

  // `_add_items`: the position in the list is the order, whatever the items said before.
  function Added(rows: map<ItemId, ItemRow>, c: ChecklistId, contents: seq<Content>, keys: seq<ItemId>,
          n: nat): (r: map<ItemId, ItemRow>)
    requires n <= |contents| == |keys|
    ensures forall id <- rows :: id in r && (id !in keys ==> r[id] == rows[id])
    ensures forall id <- r :: id in rows || id in keys
  {
    if n == 0 then rows
    else Added(rows, c, contents, keys, n - 1)[keys[n - 1] := ItemRow(c, n - 1, contents[n - 1])]
  }

  lemma {:induction false} AddedInOrder(rows: map<ItemId, ItemRow>, c: ChecklistId, contents: seq<Content>,
          keys: seq<ItemId>, n: nat)
    requires n <= |contents| == |keys| && forall i, j | 0 <= i < j < |keys| :: keys[i] != keys[j]
    ensures forall i | 0 <= i < n :: keys[i] in Added(rows, c, contents, keys, n)
                                     && Added(rows, c, contents, keys, n)[keys[i]] == ItemRow(c, i, contents[i])
  {
    if n > 0 { AddedInOrder(rows, c, contents, keys, n - 1); }
  }

  lemma {:induction false} AddedOnly(rows: map<ItemId, ItemRow>, c: ChecklistId, contents: seq<Content>,
          keys: seq<ItemId>, n: nat)
    requires n <= |contents| == |keys|
    ensures forall id <- Added(rows, c, contents, keys, n) :: id in rows || id in keys[..n]
  {
    if n > 0 {
      AddedOnly(rows, c, contents, keys, n - 1);
      assert keys[..n] == keys[..n - 1] + [keys[n - 1]];
    }
  }

  lemma AddedAt(rows: map<ItemId, ItemRow>, c: ChecklistId, contents: seq<Content>, keys: seq<ItemId>, n: nat)
    requires n <= |contents| && FreshKeys(rows, contents, keys)
    ensures forall i | 0 <= i < n :: keys[i] in Added(rows, c, contents, keys, n)
                                     && Added(rows, c, contents, keys, n)[keys[i]] == ItemRow(c, i, contents[i])
    ensures forall id <- Added(rows, c, contents, keys, n) :: id in rows || id in keys[..n]
  {
    AddedInOrder(rows, c, contents, keys, n);
    AddedOnly(rows, c, contents, keys, n);
  }

  // Reading the items after a save gives the list in the order it was sent.
  lemma SavedOrderIsReadBack(rows: map<ItemId, ItemRow>, c: ChecklistId, contents: seq<Content>, keys: seq<ItemId>,
          read: seq<ItemId>)
    requires FreshKeys(rows, contents, keys) && forall id <- rows :: rows[id].checklist != c
    requires Listing(Added(rows, c, contents, keys, |keys|), c, read)
    ensures read == keys && |read| == |contents|
    ensures forall i | 0 <= i < |read| :: Added(rows, c, contents, keys, |keys|)[read[i]].content == contents[i]
  {
    AddedAt(rows, c, contents, keys, |keys|);
    assert Listing(Added(rows, c, contents, keys, |keys|), c, keys);
    ListingIsUnique(Added(rows, c, contents, keys, |keys|), c, read, keys);
  }

  // ---- What each operation does to the tables -----------------------------------------------------

  function RowsOf(db: Db, c: ChecklistId): map<ItemId, ItemRow>
  {
    map id | id in db.items && db.items[id].checklist == c :: db.items[id]
  }

  predicate Used(db: Db, c: ChecklistId)
  {
    exists r <- db.reports :: db.reports[r].checklist == Some(c)
  }

  function WithChecklist(db: Db, c: ChecklistId, row: Checklist, contents: seq<Content>, keys: seq<ItemId>): Db
    requires |contents| == |keys|
  {
    db.(checklists := db.checklists[c := row], items := Added(db.items, c, contents, keys, |keys|))
  }

  function Without(rows: map<ItemId, ItemRow>, c: ChecklistId): map<ItemId, ItemRow>
  {
    map id | id in rows && rows[id].checklist != c :: rows[id]
  }

  // `update_checklist`: in place if no report uses it, else a new version that archives the old.
  function Updated(db: Db, c: ChecklistId, name: string, contents: seq<Content>, requiresKb: Option<bool>,
          newId: ChecklistId, keys: seq<ItemId>): Db
    requires c in db.checklists && |contents| == |keys|
  {
    var old' := db.checklists[c];
    var kb := if requiresKb.Some? then requiresKb.value else old'.requiresKb;
    if !Used(db, c) then
      WithChecklist(db.(items := Without(db.items, c)), c, old'.(name := name, requiresKb := kb), contents, keys)
    else
      WithChecklist(
        db.(checklists := db.checklists[c := old'.(status := Archived)]), newId,
        Checklist(old'.portfolio, old'.family, name, old'.isDefault, old'.version + 1, Active, kb), contents, keys)
  }

  function Renamed(db: Db, c: ChecklistId, name: string): Db
    requires c in db.checklists
  {
    db.(checklists := map id | id in db.checklists ::
      if db.checklists[id].family == db.checklists[c].family then db.checklists[id].(name := name)
          else db.checklists[id])
  }

  // The route refuses to delete the portfolio's default.
  function SoftDeleted(db: Db, c: ChecklistId): Db
    requires c in db.checklists
  {
    if db.checklists[c].isDefault then db else
    db.(checklists := map id | id in db.checklists ::
      if db.checklists[id].family == db.checklists[c].family then db.checklists[id].(status := Deleted)
          else db.checklists[id])
  }

  predicate IsActiveDefault(db: Db, p: PortfolioKey, c: ChecklistId)
  {
    c in db.checklists && db.checklists[c].portfolio == p && db.checklists[c].isDefault
        && db.checklists[c].status.Active?
  }

  // The requested checklist if it is the portfolio's, whatever its status, else the active default of
  // the highest version.
  predicate Resolves(db: Db, p: PortfolioKey, requested: Option<ChecklistId>, c: ChecklistId)
  {
    if requested.Some? && requested.value in db.checklists && db.checklists[requested.value].portfolio == p
        then c == requested.value
    else
      && IsActiveDefault(db, p, c)
      && forall d <- db.checklists ::
           IsActiveDefault(db, p, d) ==> db.checklists[d].version <= db.checklists[c].version
  }

  function DropReports(db: Db, call: CallId): Db
  {
    db.(reports := map r | r in db.reports && db.reports[r].call != call :: db.reports[r],
        reportItems := set ri | ri in db.reportItems && ri.0 in db.reports && db.reports[ri.0].call != call)
  }

  // The rebuild: the call's old report goes, the new one has an item per row of its checklist.
  function Judged(db: Db, call: CallId, checklist: Option<ChecklistId>, report: ReportId): Db
  {
    var dropped := DropReports(db, call);
    dropped.(
      reports := dropped.reports[report := Report(call, checklist)],
      reportItems := dropped.reportItems
        + if checklist.Some?
          then set id | id in db.items && db.items[id].checklist == checklist.value :: (report, id)
          else {},
      issued := db.issued + {report})
  }

  // ---- History -----------------------------------------------------------------------------------

  datatype Action =
    | CreateDefault(portfolio: PortfolioKey, id: ChecklistId, family: FamilyId, name: string, contents: seq<Content>,
            keys: seq<ItemId>)
    | Create(portfolio: PortfolioKey, id: ChecklistId, family: FamilyId, name: string, contents: seq<Content>,
            keys: seq<ItemId>, requiresKb: bool)
    | Update(id: ChecklistId, name: string, contents: seq<Content>, kb: Option<bool>, newId: ChecklistId,
            keys: seq<ItemId>)
    | Rename(id: ChecklistId, name: string)
    | SoftDelete(id: ChecklistId)
    | Judge(call: CallId, portfolio: PortfolioKey, requested: Option<ChecklistId>, graded: bool, chosen: ChecklistId,
            report: ReportId)
    | Purge(call: CallId)

  predicate NewFamily(db: Db, id: ChecklistId, family: FamilyId)
  {
    id !in db.checklists && forall c <- db.checklists :: db.checklists[c].family != family
  }

  // Generated keys are new, checklist ids come from the portfolio's own rows; nothing else is asked.
  predicate Enabled(db: Db, a: Action)
  {
    match a
    case CreateDefault(p, id, family, _, contents, keys) =>
      p !in db.portfolios && NewFamily(db, id, family) && FreshKeys(db.items, contents, keys)
    case Create(p, id, family, _, contents, keys, _) =>
      p in db.portfolios && NewFamily(db, id, family) && FreshKeys(db.items, contents, keys)
    case Update(id, _, contents, _, newId, keys) =>
      id in db.checklists && newId !in db.checklists && FreshKeys(db.items, contents, keys)
    case Rename(id, _) => id in db.checklists
    case SoftDelete(id) => id in db.checklists
    case Judge(_, p, requested, graded, chosen, report) =>
      p in db.portfolios && report !in db.issued && (graded ==> Resolves(db, p, requested, chosen))
    case Purge(_) => true
  }

  function Next(db: Db, a: Action): Db
    requires Enabled(db, a)
  {
    match a
    case CreateDefault(p, id, family, name, contents, keys) =>
      WithChecklist(db.(portfolios := db.portfolios + {p}), id, Checklist(p, family, name, true, 1, Active, true),
          contents, keys)
    case Create(p, id, family, name, contents, keys, kb) =>
      WithChecklist(db, id, Checklist(p, family, name, false, 1, Active, kb), contents, keys)
    case Update(id, name, contents, kb, newId, keys) => Updated(db, id, name, contents, kb, newId, keys)
    case Rename(id, name) => Renamed(db, id, name)
    case SoftDelete(id) => SoftDeleted(db, id)
    case Judge(call, _, _, graded, chosen, report) => Judged(db, call, if graded then Some(chosen) else None, report)
    case Purge(call) => DropReports(db, call)
  }

  const EMPTY := Db({}, map[], map[], map[], {}, {})

  // Every key points at a row, and every report item at an item of its report's checklist.
  predicate Linked(db: Db)
  {
    && (forall i <- db.items :: db.items[i].checklist in db.checklists)
    && (forall r <- db.reports :: r in db.issued && (db.reports[r].checklist.Some? ==>
        db.reports[r].checklist.value in db.checklists))
    && forall ri <- db.reportItems ::
         ri.0 in db.reports && ri.1 in db.items && db.reports[ri.0].checklist == Some(db.items[ri.1].checklist)
  }

  // What the report was judged against is still exactly there.
  predicate Kept(db: Db, db': Db, r: ReportId)
  {
    r in db'.reports ==>
      && r in db.reports && db'.reports[r] == db.reports[r]
      && (db.reports[r].checklist.Some? ==>
          RowsOf(db', db.reports[r].checklist.value) == RowsOf(db, db.reports[r].checklist.value))
  }

  lemma AddedRows(rows: map<ItemId, ItemRow>, c: ChecklistId, contents: seq<Content>, keys: seq<ItemId>)
    requires FreshKeys(rows, contents, keys)
    ensures var r := Added(rows, c, contents, keys, |keys|);
            && (forall id <- rows :: id in r && r[id] == rows[id])
            && (forall id <- r :: id in rows || r[id].checklist == c)
  {
    AddedAt(rows, c, contents, keys, |keys|);
    forall id | id in Added(rows, c, contents, keys, |keys|) && id !in rows
      ensures Added(rows, c, contents, keys, |keys|)[id].checklist == c
    {
      assert id in keys[..|keys|];
    }
  }

  // ---- What each operation leaves in the tables ----------------------------------------------------

  predicate Saves(a: Action)
  {
    a.CreateDefault? || a.Create? || a.Update?
  }

  // The row a save leaves for the caller to edit next.
  function SavedId(db: Db, a: Action): ChecklistId
    requires Saves(a)
  {
    if a.Update? && exists r <- db.reports :: db.reports[r].checklist == Some(a.id) then a.newId else a.id
  }

  // The saved items, and only they, stand under the saved checklist, item i at position i; every other
  // checklist has the items it had.
  ghost predicate SavedItems(db: Db, db': Db, c: ChecklistId, contents: seq<Content>, keys: seq<ItemId>)
  {
    && |keys| == |contents|
    && (forall i | 0 <= i < |keys| ::
          keys[i] in db'.items && db'.items[keys[i]] == ItemRow(c, i, contents[i]))
    && (forall id <- db'.items :: db'.items[id].checklist == c ==> id in keys)
    && (forall id: ItemId, row: ItemRow | row.checklist != c ::
          (id in db'.items && db'.items[id] == row) <==> (id in db.items && db.items[id] == row))
  }

  // The saved checklist's own row: a first version, the same version edited in place, or the next one.
  predicate SavedRow(db: Db, a: Action, row: Checklist)
    requires Saves(a) && (a.Update? ==> a.id in db.checklists)
  {
    match a
    case CreateDefault(p, _, family, name, _, _) => row == Checklist(p, family, name, true, 1, Active, true)
    case Create(p, _, family, name, _, _, kb) => row == Checklist(p, family, name, false, 1, Active, kb)
    case Update(id, name, _, kb, newId, _) =>
      var was := db.checklists[id];
      && row.name == name && row.requiresKb == (if kb == None then was.requiresKb else kb.value)
      && row.portfolio == was.portfolio && row.family == was.family && row.isDefault == was.isDefault
      && (if SavedId(db, a) == id then row.version == was.version && row.status == was.status
          else row.version == was.version + 1 && row.status == Active)
  }

  lemma AddedItems(db: Db, db': Db, c: ChecklistId, contents: seq<Content>, keys: seq<ItemId>)
    requires FreshKeys(db.items, contents, keys) && db'.items == Added(db.items, c, contents, keys, |keys|)
    requires forall id <- db.items :: db.items[id].checklist != c
    ensures SavedItems(db, db', c, contents, keys)
  {
    AddedAt(db.items, c, contents, keys, |keys|);
    AddedRows(db.items, c, contents, keys);
    assert keys[..|keys|] == keys;
  }

  // Every save, as the tables then read: the items sent in the order sent, the row as sent, and nothing
  // else but, where a report was judged against the old version, its archiving.
  lemma SavesAreReadBack(db: Db, a: Action, read: seq<ItemId>)
    requires Linked(db) && Saves(a) && Enabled(db, a)
    ensures var db', c := Next(db, a), SavedId(db, a);
            && SavedItems(db, db', c, a.contents, a.keys)
            && (Listing(db'.items, c, read) <==> read == a.keys)
            && c in db'.checklists && SavedRow(db, a, db'.checklists[c])
            && (forall d <- db.checklists | d != c :: d in db'.checklists && db'.checklists[d] ==
                  if a.Update? && d == a.id then db.checklists[d].(status := Archived) else db.checklists[d])
            && db'.reports == db.reports && db'.reportItems == db.reportItems
  {
    var db', c := Next(db, a), SavedId(db, a);
    if a.Update? && c == a.id && !Used(db, a.id) {
      var bare := db.(items := Without(db.items, a.id));
      AddedItems(bare, db', c, a.contents, a.keys);
    } else {
      AddedItems(db, db', c, a.contents, a.keys);
    }
    SavedListing(db', c, a.contents, a.keys, read);
  }

  lemma SavedListing(db': Db, c: ChecklistId, contents: seq<Content>, keys: seq<ItemId>, read: seq<ItemId>)
    requires |keys| == |contents|
    requires forall i | 0 <= i < |keys| :: keys[i] in db'.items && db'.items[keys[i]] == ItemRow(c, i, contents[i])
    requires forall id <- db'.items :: db'.items[id].checklist == c ==> id in keys
    ensures Listing(db'.items, c, read) <==> read == keys
  {
    assert Listing(db'.items, c, keys);
    if Listing(db'.items, c, read) { ListingIsUnique(db'.items, c, read, keys); }
  }

  // A rename changes the name of every version of the family and nothing else; deleting marks every
  // version of a family that is not the default.
  lemma FamiliesAreTouchedWhole(db: Db, c: ChecklistId, name: string)
    requires c in db.checklists
    ensures var family, gone := db.checklists[c].family, Next(db, SoftDelete(c));
            && Next(db, Rename(c, name)) == db.(checklists := Next(db, Rename(c, name)).checklists)
            && gone == db.(checklists := gone.checklists)
            && Next(db, Rename(c, name)).checklists.Keys == gone.checklists.Keys == db.checklists.Keys
            && forall d <- db.checklists ::
                 && Next(db, Rename(c, name)).checklists[d] == (
                      if db.checklists[d].family == family then db.checklists[d].(name := name) else db.checklists[d])
                 && gone.checklists[d] == (
                      if db.checklists[d].family == family && !db.checklists[c].isDefault
                      then db.checklists[d].(status := Deleted) else db.checklists[d])
  {}

  // A judged call has one report, with one item per item of the checklist it was judged against, which is
  // the requested one or the newest active default, and belongs to the portfolio; other calls keep theirs.
  lemma JudgedReport(db: Db, a: Action)
    requires Linked(db) && a.Judge? && Enabled(db, a)
    ensures var db' := Next(db, a);
            && db'.checklists == db.checklists && db'.items == db.items
            && (forall r <- db'.reports :: db'.reports[r].call == a.call <==> r == a.report)
            && (forall r <- db.reports ::
                  db.reports[r].call != a.call ==> r in db'.reports && db'.reports[r] == db.reports[r])
            && a.report in db'.reports
            && db'.reports[a.report] == Report(a.call, if a.graded then Some(a.chosen) else None)
            && (forall id :: (a.report, id) in db'.reportItems <==>
                  a.graded && id in db.items && db.items[id].checklist == a.chosen)
            && (forall r <- db.reports, id :: db.reports[r].call != a.call ==>
                  ((r, id) in db'.reportItems <==> (r, id) in db.reportItems))
    ensures a.graded ==>
              && a.chosen in db.checklists && db.checklists[a.chosen].portfolio == a.portfolio
              && (if exists d <- db.checklists :: a.requested == Some(d) && db.checklists[d].portfolio == a.portfolio
                  then a.requested == Some(a.chosen)
                  else
                    && db.checklists[a.chosen].isDefault && db.checklists[a.chosen].status == Active
                    && forall d <- db.checklists ::
                         && db.checklists[d].portfolio == a.portfolio && db.checklists[d].isDefault
                         && db.checklists[d].status == Active
                         ==> db.checklists[d].version <= db.checklists[a.chosen].version)
  {
    assert forall ri <- db.reportItems :: ri.0 in db.reports;
    assert forall r <- db.reports :: r != a.report;
  }

  // A purge takes the call's reports with their items and leaves everything else.
  lemma PurgedCall(db: Db, call: CallId)
    requires Linked(db)
    ensures var db' := Next(db, Purge(call));
            && db' == db.(reports := db'.reports, reportItems := db'.reportItems)
            && (forall r :: r in db'.reports <==> r in db.reports && db.reports[r].call != call)
            && (forall r <- db'.reports :: db'.reports[r] == db.reports[r])
            && (forall r, id :: (r, id) in db'.reportItems <==> (r, id) in db.reportItems && r in db'.reports)
  {}

  lemma WithChecklistKeeps(db: Db, c: ChecklistId, row: Checklist, contents: seq<Content>, keys: seq<ItemId>,
          r: ReportId)
    requires Linked(db) && FreshKeys(db.items, contents, keys) && !Used(db, c) && r in db.reports
    ensures Linked(WithChecklist(db, c, row, contents, keys)) && Kept(db, WithChecklist(db, c, row, contents, keys), r)
  {
    AddedRows(db.items, c, contents, keys);
  }

  lemma UpdateKeepsHistory(db: Db, a: Action, r: ReportId)
    requires Linked(db) && a.Update? && Enabled(db, a) && r in db.reports
    ensures Linked(Next(db, a)) && Kept(db, Next(db, a), r)
  {
    var c := db.checklists[a.id];
    if !Used(db, a.id) {
      var bare := db.(items := Without(db.items, a.id));
      assert Linked(bare) by {
        forall ri | ri in bare.reportItems
          ensures ri.1 in bare.items
        {
          assert db.reports[ri.0].checklist == Some(db.items[ri.1].checklist);
        }
      }
      assert Kept(db, bare, r);
      WithChecklistKeeps(bare, a.id, Next(db, a).checklists[a.id], a.contents, a.keys, r);
    } else {
      var archived := db.(checklists := db.checklists[a.id := c.(status := Archived)]);
      WithChecklistKeeps(archived, a.newId, Next(db, a).checklists[a.newId], a.contents, a.keys, r);
    }
  }

  // One step, any step: a report that is still there keeps its checklist's items.
  lemma StepKeepsHistory(db: Db, a: Action, r: ReportId)
    requires Linked(db) && Enabled(db, a) && r in db.issued
    ensures Linked(Next(db, a)) && db.issued <= Next(db, a).issued
    ensures Kept(db, Next(db, a), r)
  {
    match a
    case CreateDefault(p, id, family, name, contents, keys) =>
      LinkedWithNew(db, id, Next(db, a).checklists[id], contents, keys);
    case Create(_, id, _, _, contents, keys, _) =>
      LinkedWithNew(db, id, Next(db, a).checklists[id], contents, keys);
    case Update(_, _, _, _, _, _) =>
      UpdateKeepsLinks(db, a);
      if r in db.reports { UpdateKeepsHistory(db, a, r); }
    case _ =>
  }

  lemma LinkedWithNew(db: Db, c: ChecklistId, row: Checklist, contents: seq<Content>, keys: seq<ItemId>)
    requires Linked(db) && FreshKeys(db.items, contents, keys) && c !in db.checklists
    ensures Linked(WithChecklist(db, c, row, contents, keys))
    ensures forall d <- db.checklists :: RowsOf(WithChecklist(db, c, row, contents, keys), d) == RowsOf(db, d)
  {
    AddedRows(db.items, c, contents, keys);
  }

  lemma UpdateKeepsLinks(db: Db, a: Action)
    requires Linked(db) && a.Update? && Enabled(db, a)
    ensures Linked(Next(db, a))
  {
    if !Used(db, a.id) {
      AddedRows(Without(db.items, a.id), a.id, a.contents, a.keys);
      forall ri | ri in db.reportItems
        ensures ri.1 in Next(db, a).items && Next(db, a).items[ri.1] == db.items[ri.1]
      {
        assert db.reports[ri.0].checklist == Some(db.items[ri.1].checklist);
      }
    } else {
      AddedRows(db.items, a.newId, a.contents, a.keys);
    }
  }

  predicate Runs(db: Db, actions: seq<Action>)
    decreases |actions|
  {
    actions == [] || (Enabled(db, actions[0]) && Runs(Next(db, actions[0]), actions[1..]))
  }

  function End(db: Db, actions: seq<Action>): Db
    requires Runs(db, actions)
    decreases |actions|
  {
    if actions == [] then db else End(Next(db, actions[0]), actions[1..])
  }

  // Over every run, whatever is created, edited, renamed, deleted, judged again or purged: no report
  // item dangles, and a report that still exists keeps its checklist and that checklist's rows.
  lemma {:induction false} HistoryIsImmutable(db: Db, actions: seq<Action>, r: ReportId)
    requires Linked(db) && Runs(db, actions) && r in db.issued
    ensures Linked(End(db, actions)) && Kept(db, End(db, actions), r)
    decreases |actions|
  {
    if actions != [] {
      StepKeepsHistory(db, actions[0], r);
      HistoryIsImmutable(Next(db, actions[0]), actions[1..], r);
    }
  }

  // So reading the items of its checklist gives the same rows in the same order, for as long as the
  // report exists.
  lemma ReportReadsTheSameItems(db: Db, actions: seq<Action>, r: ReportId, then': seq<ItemId>, now: seq<ItemId>)
    requires Linked(db) && Runs(db, actions) && r in db.reports && r in End(db, actions).reports
    requires db.reports[r].checklist.Some?
    requires Listing(db.items, db.reports[r].checklist.value, then')
    requires Listing(End(db, actions).items, db.reports[r].checklist.value, now)
    ensures then' == now && forall id <- now :: End(db, actions).items[id] == db.items[id]
  {
    HistoryIsImmutable(db, actions, r);
    var c, db' := db.reports[r].checklist.value, End(db, actions);
    assert RowsOf(db', c) == RowsOf(db, c);
    forall id | id in db'.items && db'.items[id].checklist == c
      ensures id in db.items && db.items[id] == db'.items[id]
    {
      assert id in RowsOf(db', c);
    }
    forall id | id in db.items && db.items[id].checklist == c
      ensures id in db'.items && db.items[id] == db'.items[id]
    {
      assert id in RowsOf(db, c);
    }
    assert Listing(db.items, c, now);
    ListingIsUnique(db.items, c, then', now);
  }
}
