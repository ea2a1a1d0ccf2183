/** The service's statements on the checklist and report tables, in place. */
module ChecklistStore {
  import opened Wrappers
  import opened Checklists

  // The items read for the checklist are the ones the rebuilt report refers to.
  lemma RebuiltItems(db: Db, call: CallId, checklist: Option<ChecklistId>, report: ReportId, read: seq<ItemId>)
    requires if checklist.Some? then Listing(db.items, checklist.value, read) else read == []
    ensures Judged(db, call, checklist, report).reportItems
         == DropReports(db, call).reportItems + set id | id in read :: (report, id)
  {
    if checklist.Some? {
      assert forall id :: id in read <==> id in db.items && db.items[id].checklist == checklist.value;
      assert (set id | id in read :: (report, id))
          == set id | id in db.items && db.items[id].checklist == checklist.value :: (report, id);
    }
  }

  class Store {
    var portfolios: set<PortfolioKey>
    var checklists: map<ChecklistId, Checklist>
    var items: map<ItemId, ItemRow>
    var reports: map<ReportId, Report>
    var reportItems: set<(ReportId, ItemId)>
    ghost var issued: set<ReportId>

    ghost function Tables(): Db
      reads this
    {
      Db(portfolios, checklists, items, reports, reportItems, issued)
    }

    constructor ()
      ensures Tables() == EMPTY
    {
      portfolios, checklists, items, reports, reportItems, issued := {}, map[], map[], map[], {}, {};
    }

    // `keys` are the generated item keys; `sort_order` comes from the position alone.
    method AddItems(c: ChecklistId, contents: seq<Content>, keys: seq<ItemId>)
      requires |contents| == |keys|
      modifies this`items
      ensures items == Added(old(items), c, contents, keys, |keys|)
    {
      for i := 0 to |contents|
        invariant items == Added(old(items), c, contents, keys, i)
      {
        items := items[keys[i] := ItemRow(c, i, contents[i])];
      }
    }

    method CreateDefaultChecklist(p: PortfolioKey, id: ChecklistId, family: FamilyId, name: string,
            contents: seq<Content>, keys: seq<ItemId>)
      requires Enabled(Tables(), CreateDefault(p, id, family, name, contents, keys))
      modifies this
      ensures Tables() == Next(old(Tables()), CreateDefault(p, id, family, name, contents, keys))
      ensures Linked(old(Tables())) ==> SavedItems(old(Tables()), Tables(), id, contents, keys)
    {
      ghost var db, a := Tables(), Action.CreateDefault(p, id, family, name, contents, keys);
      if Linked(db) { SavesAreReadBack(db, a, keys); }
      portfolios := portfolios + {p};
      checklists := checklists[id := Checklist(p, family, name, true, 1, Active, true)];
      AddItems(id, contents, keys);
    }

    method CreateChecklist(p: PortfolioKey, id: ChecklistId, family: FamilyId, name: string, contents: seq<Content>,
            keys: seq<ItemId>, requiresKb: bool)
      requires Enabled(Tables(), Create(p, id, family, name, contents, keys, requiresKb))
      modifies this
      ensures Tables() == Next(old(Tables()), Create(p, id, family, name, contents, keys, requiresKb))
      ensures Linked(old(Tables())) ==> SavedItems(old(Tables()), Tables(), id, contents, keys)
    {
      ghost var db, a := Tables(), Action.Create(p, id, family, name, contents, keys, requiresKb);
      if Linked(db) { SavesAreReadBack(db, a, keys); }
      checklists := checklists[id := Checklist(p, family, name, false, 1, Active, requiresKb)];
      AddItems(id, contents, keys);
    }

    // Edit in place if unused, else publish a new version; the result is the row the caller now edits.
    method UpdateChecklist(id: ChecklistId, name: string, contents: seq<Content>, kb: Option<bool>, newId: ChecklistId,
            keys: seq<ItemId>)
      returns (saved: ChecklistId)
      requires Enabled(Tables(), Update(id, name, contents, kb, newId, keys))
      modifies this
      ensures Tables() == Next(old(Tables()), Update(id, name, contents, kb, newId, keys))
      ensures saved == if exists r <- old(reports) :: old(reports)[r].checklist == Some(id) then newId else id
      ensures Linked(old(Tables())) ==>
                && SavedItems(old(Tables()), Tables(), saved, contents, keys)
                && saved in checklists && checklists[saved].name == name
                && checklists[saved].requiresKb == (if kb == None then old(checklists)[id].requiresKb else kb.value)
                && (saved != id ==> id in checklists && checklists[id].status == Archived)
    {
      ghost var db, a := Tables(), Action.Update(id, name, contents, kb, newId, keys);
      if Linked(db) { SavesAreReadBack(db, a, keys); }
      var row := checklists[id];
      var keepKb := if kb.Some? then kb.value else row.requiresKb;
      if !exists r <- reports.Keys :: reports[r].checklist == Some(id) {
        checklists := checklists[id := row.(name := name, requiresKb := keepKb)];
        items := Without(items, id);
        AddItems(id, contents, keys);
        return id;
      }
      checklists := checklists[id := row.(status := Archived)];
      checklists := checklists[newId :=
        Checklist(row.portfolio, row.family, name, row.isDefault, row.version + 1, Active, keepKb)];
      AddItems(newId, contents, keys);
      return newId;
    }

    method RenameChecklist(id: ChecklistId, name: string)
      requires id in checklists
      modifies this`checklists
      ensures Tables() == Renamed(old(Tables()), id, name)
      ensures checklists.Keys == old(checklists.Keys)
      ensures forall c <- checklists ::
        checklists[c] == (
          var was := old(checklists)[c];
          if was.family == old(checklists)[id].family then was.(name := name) else was)
    {
      checklists := map c | c in checklists ::
        if checklists[c].family == checklists[id].family then checklists[c].(name := name) else checklists[c];
    }

    // The route's check, then `soft_delete_checklist`.
    method DeleteChecklist(id: ChecklistId) returns (ok: bool)
      requires id in checklists
      modifies this`checklists
      ensures ok <==> !old(checklists[id].isDefault)
      ensures Tables() == SoftDeleted(old(Tables()), id)
      ensures checklists.Keys == old(checklists.Keys)
      ensures forall c <- checklists ::
        checklists[c] == (
          var was := old(checklists)[c];
          if ok && was.family == old(checklists)[id].family then was.(status := Deleted) else was)
    {
      if checklists[id].isDefault { return false; }
      checklists := map c | c in checklists ::
        if checklists[c].family == checklists[id].family then checklists[c].(status := Deleted) else checklists[c];
      return true;
    }

    // The rebuild at the end of `judge_call`; `read` is what `get_items` returned for the checklist.
    method RebuildReport(call: CallId, checklist: Option<ChecklistId>, report: ReportId, read: seq<ItemId>)
      requires report !in issued && Linked(Tables())
      requires if checklist.Some? then Listing(items, checklist.value, read) else read == []
      modifies this
      ensures Tables() == Judged(old(Tables()), call, checklist, report)
    {
      reportItems := set ri | ri in reportItems && ri.0 in reports && reports[ri.0].call != call;
      reports := map r | r in reports && reports[r].call != call :: reports[r];
      ghost var kept := reportItems;
      reports := reports[report := Report(call, checklist)];
      issued := issued + {report};
      for i := 0 to |read|
        modifies this`reportItems
        invariant reportItems == kept + set id | id in read[..i] :: (report, id)
      {
        assert read[..i + 1] == read[..i] + [read[i]];
        reportItems := reportItems + {(report, read[i])};
      }
      assert read[..|read|] == read;
      RebuiltItems(old(Tables()), call, checklist, report, read);
    }
  }
}
