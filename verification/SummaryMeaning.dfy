/** What the numbers of a batch summary count, said of the rows it was made from: which reports, which
    items of theirs, whose they are. */
module SummaryMeaning {
  import opened Sorting
  import opened Summary
  import opened Wrappers

  // ---- Rows ----

  // The agent of a report: the name in the transcript, else the folder's, else a dash.
  function Named(r: ReportRow): string
  {
    match (r.agentName, r.folder)
    case (Some(name), _) => if name != "" then name else Foldered(r)
    case (None, _) => Foldered(r)
  }

  function Foldered(r: ReportRow): string
  {
    if r.folder == None || r.folder == Some("") then "\U{2014}" else r.folder.value
  }

  function RiskOf(row: ItemRow): string
  {
    if row.risk == None || row.risk == Some("") then "NORMAL" else row.risk.value
  }

  // The item rows of a report with an answer, the critical failures among them, and those that fail an item.
  ghost function AnsweredRows(items: seq<ItemRow>, id: nat, answer: string): set<int>
  {
    set j | 0 <= j < |items| && items[j].reportId == id && items[j].answer == Some(answer)
  }

  ghost function CriticalRows(items: seq<ItemRow>, id: nat, upper: string -> string): set<int>
  {
    set j | 0 <= j < |items| && j in AnsweredRows(items, id, "FAIL") && upper(RiskOf(items[j])) == "CRITICAL"
  }

  ghost predicate WantsReview(r: ReportRow, items: seq<ItemRow>)
  {
    r.flagged || exists j | 0 <= j < |items| :: items[j].reportId == r.id && items[j].needsReview
  }

  // ---- One report ----

  lemma {:induction false} AnsweredAreCounted(items: seq<ItemRow>, id: nat, answer: string)
    ensures |Answered(ItemsOf(items, id), answer)| == |AnsweredRows(items, id, answer)|
    decreases |items|
  {
    if items == [] {
      assert AnsweredRows(items, id, answer) == {};
    } else {
      AnsweredAreCounted(items[..|items| - 1], id, answer);
      AnsweredOneMore(items, id, answer);
      AnsweredRowsGrow(items, id, answer);
    }
  }

  lemma AnsweredOneMore(items: seq<ItemRow>, id: nat, answer: string)
    requires items != []
    ensures var n := |items| - 1;
            Answered(ItemsOf(items, id), answer)
            == Answered(ItemsOf(items[..n], id), answer)
             + if items[n].reportId == id && items[n].answer == Some(answer) then [ItemOf(items[n])] else []
  {
    var n := |items| - 1;
    var before, it := ItemsOf(items[..n], id), ItemOf(items[n]);
    assert (before + [it])[..|before|] == before;
  }

  lemma AnsweredRowsGrow(items: seq<ItemRow>, id: nat, answer: string)
    requires items != []
    ensures var n := |items| - 1;
            var before := AnsweredRows(items[..n], id, answer);
            && n !in before
            && AnsweredRows(items, id, answer)
               == before + if items[n].reportId == id && items[n].answer == Some(answer) then {n} else {}
  {}

  lemma CriticalRowsGrow(items: seq<ItemRow>, id: nat, upper: string -> string)
    requires items != []
    ensures var n := |items| - 1;
            |CriticalRows(items, id, upper)|
            == |CriticalRows(items[..n], id, upper)|
             + if items[n].reportId == id && items[n].answer == Some("FAIL") && upper(RiskOf(items[n])) == "CRITICAL"
               then 1 else 0
  {
    var n := |items| - 1;
    var before := CriticalRows(items[..n], id, upper);
    AnsweredRowsGrow(items, id, "FAIL");
    assert n !in before;
    assert CriticalRows(items, id, upper)
        == if n in AnsweredRows(items, id, "FAIL") && upper(RiskOf(items[n])) == "CRITICAL" then before + {n}
           else before;
  }

  lemma CriticalOneMore(fails: seq<Item>, it: Item, upper: string -> string)
    ensures CriticalIn(fails + [it], upper)
         == CriticalIn(fails, upper) + if upper(it.key.risk) == "CRITICAL" then 1 else 0
  {
    assert (fails + [it])[..|fails|] == fails;
  }

  lemma {:induction false} CriticalAreCounted(items: seq<ItemRow>, id: nat, upper: string -> string)
    ensures CriticalIn(Answered(ItemsOf(items, id), "FAIL"), upper) == |CriticalRows(items, id, upper)|
    decreases |items|
  {
    if items == [] {
      assert CriticalRows(items, id, upper) == {};
    } else {
      var n := |items| - 1;
      var fails := Answered(ItemsOf(items[..n], id), "FAIL");
      CriticalAreCounted(items[..n], id, upper);
      AnsweredOneMore(items, id, "FAIL");
      CriticalOneMore(fails, ItemOf(items[n]), upper);
      CriticalRowsGrow(items, id, upper);
      assert fails + [] == fails;
    }
  }

  lemma {:induction false} ReviewIsWanted(items: seq<ItemRow>, id: nat)
    ensures (exists it <- ItemsOf(items, id) :: it.needsReview) <==>
            exists j | 0 <= j < |items| :: items[j].reportId == id && items[j].needsReview
    decreases |items|
  {
    if items != [] {
      var n := |items| - 1;
      ReviewIsWanted(items[..n], id);
      assert items[n].reportId == id ==> ItemOf(items[n]) in ItemsOf(items, id);
      assert forall it <- ItemsOf(items, id) ::
          it in ItemsOf(items[..n], id) || (items[n].reportId == id && it == ItemOf(items[n]));
    }
  }

  // What the summary uses of a report is what its rows say.
  lemma CardCounts(r: ReportRow, items: seq<ItemRow>, upper: string -> string)
    ensures var c := CardOf(r, ItemsOf(items, r.id), upper);
            && c.id == r.id && c.callId == r.callId && c.agent == Named(r) && c.flagged == r.flagged
            && c.passes == |AnsweredRows(items, r.id, "PASS")| && |c.fails| == |AnsweredRows(items, r.id, "FAIL")|
            && c.critical == |CriticalRows(items, r.id, upper)|
            && (c.flagged || c.needsReview <==> WantsReview(r, items))
  {
    AnsweredAreCounted(items, r.id, "PASS");
    AnsweredAreCounted(items, r.id, "FAIL");
    CriticalAreCounted(items, r.id, upper);
    ReviewIsWanted(items, r.id);
    var its := ItemsOf(items, r.id);
    assert (exists i | 0 <= i < |its| :: its[i].needsReview) <==> exists it <- its :: it.needsReview;
  }

  // ---- Counts over the batch ----

  lemma {:induction false} SumIsCount<T>(xs: seq<T>, f: T -> int, s: set<int>)
    requires forall i <- s :: 0 <= i < |xs|
    requires forall i | 0 <= i < |xs| :: f(xs[i]) == if i in s then 1 else 0
    ensures SumBy(xs, f) == |s|
    decreases |xs|
  {
    if xs == [] {
      assert forall i :: i !in s;
    } else {
      var n := |xs| - 1;
      assert xs == xs[..n] + [xs[n]];
      SumIsCount(xs[..n], f, s - {n});
      SumBySnoc(xs[..n], xs[n], f);
      assert n in s ==> s == (s - {n}) + {n};
      assert n !in s ==> s == s - {n};
    }
  }

  // Reports and rows of theirs.
  ghost function Pairs(reports: set<int>, rows: int -> set<int>): set<(int, int)>
  {
    set i, j | i in reports && j in rows(i) :: (i, j)
  }

  lemma {:induction false} PairedWith(i: int, s: set<int>)
    ensures |set j | j in s :: (i, j)| == |s|
    decreases |s|
  {
    if x :| x in s {
      PairedWith(i, s - {x});
      assert (set j | j in s :: (i, j)) == (set j | j in s - {x} :: (i, j)) + {(i, x)};
    } else {
      assert forall x :: x !in s;
      assert s == {} && (set j | j in s :: (i, j)) == {};
    }
  }

  lemma PairsGrow(reports: set<int>, rows: int -> set<int>, n: int)
    requires n !in reports
    ensures |Pairs(reports + {n}, rows)| == |Pairs(reports, rows)| + |rows(n)|
  {
    var more := set j | j in rows(n) :: (n, j);
    PairedWith(n, rows(n));
    assert Pairs(reports + {n}, rows) == Pairs(reports, rows) + more && Pairs(reports, rows) !! more;
  }

  ghost function ReportsOf(cards: seq<Card>, agent: string): set<int>
  {
    set i | 0 <= i < |cards| && cards[i].agent == agent
  }

  lemma {:induction false} AgentSumIsPairs(cards: seq<Card>, agent: string, f: Card -> int, rows: int -> set<int>)
    requires forall i | 0 <= i < |cards| :: f(cards[i]) == |rows(i)|
    ensures SumWhere(cards, AgentKey, agent, f) == |Pairs(ReportsOf(cards, agent), rows)|
    decreases |cards|
  {
    if cards == [] {
      assert Pairs(ReportsOf(cards, agent), rows) == {};
    } else {
      var n := |cards| - 1;
      AgentSumIsPairs(cards[..n], agent, f, rows);
      var before := ReportsOf(cards[..n], agent);
      assert ReportsOf(cards, agent) == if cards[n].agent == agent then before + {n} else before;
      if cards[n].agent == agent { PairsGrow(before, rows, n); }
    }
  }

  lemma {:induction false} AgentSumIsCount(cards: seq<Card>, agent: string, f: Card -> int, s: set<int>)
    requires forall i <- s :: 0 <= i < |cards| && cards[i].agent == agent
    requires forall i | 0 <= i < |cards| && cards[i].agent == agent :: f(cards[i]) == if i in s then 1 else 0
    ensures SumWhere(cards, AgentKey, agent, f) == |s|
    decreases |cards|
  {
    if cards == [] {
      assert forall i :: i !in s;
    } else {
      var n := |cards| - 1;
      AgentSumIsCount(cards[..n], agent, f, s - {n});
      assert n in s ==> s == (s - {n}) + {n};
      assert n !in s ==> s == s - {n};
    }
  }

  // ---- What each number says ----

  ghost predicate TotalsSay(s: Summary, states: seq<Option<string>>, reports: seq<ReportRow>, items: seq<ItemRow>,
                            upper: string -> string)
  {
    && s.totalCalls == |states|
    && s.failedProcessing == |set i | 0 <= i < |states| && states[i] == Some("FAILED")|
    && s.missingAgentName
       == |set i | 0 <= i < |reports| && (reports[i].agentName == None || reports[i].agentName == Some(""))|
    && s.clean == |set i | 0 <= i < |reports| && AnsweredRows(items, reports[i].id, "FAIL") == {}|
    && s.needReview == |set i | 0 <= i < |reports| && WantsReview(reports[i], items)|
  }

  lemma TotalsAreTold(states: seq<Option<string>>, reports: seq<ReportRow>, items: seq<ItemRow>,
                      upper: string -> string)
    ensures TotalsSay(Expected(states, reports, items, upper), states, reports, items, upper)
  {
    var cards := CardsOf(reports, items, upper);
    var failed := set i | 0 <= i < |states| && states[i] == Some("FAILED");
    var unnamed := set i | 0 <= i < |reports| && (reports[i].agentName == None || reports[i].agentName == Some(""));
    var clean := set i | 0 <= i < |reports| && AnsweredRows(items, reports[i].id, "FAIL") == {};
    var review := set i | 0 <= i < |reports| && WantsReview(reports[i], items);
    forall i | 0 <= i < |reports|
      ensures Clean(cards[i]) == if i in clean then 1 else 0
      ensures NeedsReview(cards[i]) == if i in review then 1 else 0
    {
      CardCounts(reports[i], items, upper);
    }
    SumIsCount(states, IsFailed, failed);
    SumIsCount(reports, Unnamed, unnamed);
    SumIsCount(cards, Clean, clean);
    SumIsCount(cards, NeedsReview, review);
  }

  ghost function ByAgent(reports: seq<ReportRow>, agent: string): set<int>
  {
    set i | 0 <= i < |reports| && Named(reports[i]) == agent
  }

  ghost function RowsWith(reports: seq<ReportRow>, items: seq<ItemRow>, answer: string): int -> set<int>
  {
    (i: int) => if 0 <= i < |reports| then AnsweredRows(items, reports[i].id, answer) else {}
  }

  ghost function RowsCritical(reports: seq<ReportRow>, items: seq<ItemRow>, upper: string -> string): int -> set<int>
  {
    (i: int) => if 0 <= i < |reports| then CriticalRows(items, reports[i].id, upper) else {}
  }

  // The reports with more failures than passes.
  ghost function MostlyFailed(reports: seq<ReportRow>, items: seq<ItemRow>, among: set<int>): set<int>
  {
    set i | i in among && 0 <= i < |reports|
         && |AnsweredRows(items, reports[i].id, "FAIL")| > |AnsweredRows(items, reports[i].id, "PASS")|
  }

  // An agent's row counts the agent's reports, and the rows of those reports.
  ghost predicate AgentRowSays(r: AgentRow, reports: seq<ReportRow>, items: seq<ItemRow>, upper: string -> string)
  {
    var mine := ByAgent(reports, r.agent);
    && mine != {} && r.calls == |mine|
    && r.passes == |Pairs(mine, RowsWith(reports, items, "PASS"))|
    && r.fails == |Pairs(mine, RowsWith(reports, items, "FAIL"))|
    && r.criticalFails == |Pairs(mine, RowsCritical(reports, items, upper))|
    && r.callsFailGtPass == |MostlyFailed(reports, items, mine)|
  }

  lemma CardsTell(reports: seq<ReportRow>, items: seq<ItemRow>, upper: string -> string, mine: set<int>, i: nat)
    requires i < |reports|
    ensures var c := CardsOf(reports, items, upper)[i];
            && c.agent == Named(reports[i])
            && Passes(c) == |RowsWith(reports, items, "PASS")(i)| && Fails(c) == |RowsWith(reports, items, "FAIL")(i)|
            && Critical(c) == |RowsCritical(reports, items, upper)(i)|
            && (i in mine ==> MoreFails(c) == if i in MostlyFailed(reports, items, mine) then 1 else 0)
  {
    CardCounts(reports[i], items, upper);
  }

  lemma AgentRowIsTold(r: AgentRow, reports: seq<ReportRow>, items: seq<ItemRow>, upper: string -> string)
    requires var cards := CardsOf(reports, items, upper);
             r.agent in FirstSeen(cards, AgentKey) && r == RowOf(r.agent, StatOf(cards, r.agent))
    ensures AgentRowSays(r, reports, items, upper)
  {
    var cards, mine := CardsOf(reports, items, upper), ByAgent(reports, r.agent);
    var more := MostlyFailed(reports, items, mine);
    forall i | 0 <= i < |reports|
      ensures cards[i].agent == Named(reports[i])
      ensures Passes(cards[i]) == |RowsWith(reports, items, "PASS")(i)|
      ensures Fails(cards[i]) == |RowsWith(reports, items, "FAIL")(i)|
      ensures Critical(cards[i]) == |RowsCritical(reports, items, upper)(i)|
      ensures i in mine ==> MoreFails(cards[i]) == if i in more then 1 else 0
    {
      CardsTell(reports, items, upper, mine, i);
    }
    assert ReportsOf(cards, r.agent) == mine;
    FirstSeenIs(cards, AgentKey);
    assert mine != {} by {
      var i :| 0 <= i < |cards| && AgentKey(cards[i]) == r.agent;
      assert i in mine;
    }
    AgentSumIsCount(cards, r.agent, One, mine);
    AgentSumIsCount(cards, r.agent, MoreFails, more);
    AgentSumIsPairs(cards, r.agent, Passes, RowsWith(reports, items, "PASS"));
    AgentSumIsPairs(cards, r.agent, Fails, RowsWith(reports, items, "FAIL"));
    AgentSumIsPairs(cards, r.agent, Critical, RowsCritical(reports, items, upper));
  }

  // ---- Failed items ----

  function KeyOf(row: ItemRow): ItemKey
  {
    ItemKey(row.text, row.section, RiskOf(row))
  }

  // The rows of a report that fail an item.
  ghost function FailingRows(items: seq<ItemRow>, id: nat, k: ItemKey): set<int>
  {
    set j | 0 <= j < |items| && j in AnsweredRows(items, id, "FAIL") && KeyOf(items[j]) == k
  }

  ghost function RowsFailing(reports: seq<ReportRow>, items: seq<ItemRow>, k: ItemKey): int -> set<int>
  {
    (i: int) => if 0 <= i < |reports| then FailingRows(items, reports[i].id, k) else {}
  }

  ghost function FirstReports(n: nat): (s: set<int>)
    ensures forall i :: i in s <==> 0 <= i < n
  {
    if n == 0 then {} else FirstReports(n - 1) + {n - 1}
  }

  ghost function AgentsWith(reports: seq<ReportRow>, items: seq<ItemRow>, k: ItemKey, n: nat): set<string>
    requires n <= |reports|
  {
    set i | 0 <= i < n && FailingRows(items, reports[i].id, k) != {} :: Named(reports[i])
  }

  function KeyCount(fails: seq<Item>, k: ItemKey): nat
  {
    if fails == [] then 0 else
    var last := |fails| - 1;
    KeyCount(fails[..last], k) + if fails[last].key == k then 1 else 0
  }

  lemma KeyOneMore(fails: seq<Item>, it: Item, k: ItemKey)
    ensures KeyCount(fails + [it], k) == KeyCount(fails, k) + if it.key == k then 1 else 0
  {
    assert (fails + [it])[..|fails|] == fails;
  }

  lemma FailingRowsGrow(items: seq<ItemRow>, id: nat, k: ItemKey)
    requires items != []
    ensures var n := |items| - 1;
            |FailingRows(items, id, k)|
            == |FailingRows(items[..n], id, k)|
             + if items[n].reportId == id && items[n].answer == Some("FAIL") && KeyOf(items[n]) == k then 1 else 0
  {
    var n := |items| - 1;
    var before := FailingRows(items[..n], id, k);
    AnsweredRowsGrow(items, id, "FAIL");
    assert n !in before;
    assert FailingRows(items, id, k)
        == if n in AnsweredRows(items, id, "FAIL") && KeyOf(items[n]) == k then before + {n} else before;
  }

  lemma {:induction false} FailingAreCounted(items: seq<ItemRow>, id: nat, k: ItemKey)
    ensures KeyCount(Answered(ItemsOf(items, id), "FAIL"), k) == |FailingRows(items, id, k)|
    decreases |items|
  {
    if items == [] {
      assert FailingRows(items, id, k) == {};
    } else {
      var n := |items| - 1;
      var fails := Answered(ItemsOf(items[..n], id), "FAIL");
      FailingAreCounted(items[..n], id, k);
      AnsweredOneMore(items, id, "FAIL");
      KeyOneMore(fails, ItemOf(items[n]), k);
      FailingRowsGrow(items, id, k);
      assert fails + [] == fails;
    }
  }

  lemma {:induction false} ReportAddsFailures(xs: seq<Incident>, agent: string, fails: seq<Item>, k: ItemKey)
    ensures var all := xs + FailuresOf(agent, fails);
            && CallsFailing(all, k) == CallsFailing(xs, k) + KeyCount(fails, k)
            && AgentsFailing(all, k) == AgentsFailing(xs, k) + if KeyCount(fails, k) > 0 then {agent} else {}
    decreases |fails|
  {
    if fails == [] {
      assert xs + FailuresOf(agent, fails) == xs;
    } else {
      var n := |fails| - 1;
      var before := xs + FailuresOf(agent, fails[..n]);
      ReportAddsFailures(xs, agent, fails[..n], k);
      IncidentGrows(before, Incident(agent, fails[n].key), k);
      assert xs + FailuresOf(agent, fails) == before + [Incident(agent, fails[n].key)];
    }
  }

  lemma IncidentsGrow(cards: seq<Card>, n: nat)
    requires 0 < n <= |cards|
    ensures IncidentsOf(cards[..n])
         == IncidentsOf(cards[..n - 1]) + FailuresOf(cards[n - 1].agent, cards[n - 1].fails)
  {
    assert cards[..n][..n - 1] == cards[..n - 1];
  }

  lemma ReportFails(reports: seq<ReportRow>, items: seq<ItemRow>, upper: string -> string, k: ItemKey, i: nat)
    requires i < |reports|
    ensures var c := CardsOf(reports, items, upper)[i];
            c.agent == Named(reports[i]) && KeyCount(c.fails, k) == |RowsFailing(reports, items, k)(i)|
  {
    CardCounts(reports[i], items, upper);
    FailingAreCounted(items, reports[i].id, k);
  }

  ghost function AgentsIn(cards: seq<Card>, rows: int -> set<int>, n: nat): set<string>
    requires n <= |cards|
  {
    if n == 0 then {} else AgentsIn(cards, rows, n - 1) + if |rows(n - 1)| > 0 then {cards[n - 1].agent} else {}
  }

  lemma {:induction false} FailuresOfCards(cards: seq<Card>, rows: int -> set<int>, k: ItemKey, n: nat)
    requires n <= |cards| && forall i | 0 <= i < |cards| :: KeyCount(cards[i].fails, k) == |rows(i)|
    ensures CallsFailing(IncidentsOf(cards[..n]), k) == |Pairs(FirstReports(n), rows)|
    ensures AgentsFailing(IncidentsOf(cards[..n]), k) == AgentsIn(cards, rows, n)
    decreases n
  {
    if n == 0 {
      assert Pairs(FirstReports(n), rows) == {};
    } else {
      FailuresOfCards(cards, rows, k, n - 1);
      IncidentsGrow(cards, n);
      ReportAddsFailures(IncidentsOf(cards[..n - 1]), cards[n - 1].agent, cards[n - 1].fails, k);
      PairsGrow(FirstReports(n - 1), rows, n - 1);
    }
  }

  lemma {:induction false} AgentsAreTold(reports: seq<ReportRow>, items: seq<ItemRow>, cards: seq<Card>,
                                         rows: int -> set<int>, k: ItemKey, n: nat)
    requires n <= |reports| == |cards| && forall i | 0 <= i < |cards| :: cards[i].agent == Named(reports[i])
    requires forall i | 0 <= i < |cards| :: rows(i) == FailingRows(items, reports[i].id, k)
    ensures AgentsIn(cards, rows, n) == AgentsWith(reports, items, k, n)
    decreases n
  {
    if n > 0 {
      AgentsAreTold(reports, items, cards, rows, k, n - 1);
      AgentsGrowBy(reports, items, k, n);
    }
  }

  lemma FailuresAreTold(reports: seq<ReportRow>, items: seq<ItemRow>, upper: string -> string, k: ItemKey)
    ensures var xs := IncidentsOf(CardsOf(reports, items, upper));
            && CallsFailing(xs, k) == |Pairs(FirstReports(|reports|), RowsFailing(reports, items, k))|
            && AgentsFailing(xs, k) == AgentsWith(reports, items, k, |reports|)
  {
    var cards, rows := CardsOf(reports, items, upper), RowsFailing(reports, items, k);
    forall i | 0 <= i < |cards|
      ensures cards[i].agent == Named(reports[i]) && KeyCount(cards[i].fails, k) == |rows(i)|
    {
      ReportFails(reports, items, upper, k, i);
    }
    FailuresOfCards(cards, rows, k, |cards|);
    AgentsAreTold(reports, items, cards, rows, k, |reports|);
    assert cards[..|cards|] == cards;
  }

  lemma AgentsGrowBy(reports: seq<ReportRow>, items: seq<ItemRow>, k: ItemKey, n: nat)
    requires 0 < n <= |reports|
    ensures AgentsWith(reports, items, k, n)
         == AgentsWith(reports, items, k, n - 1)
            + if |FailingRows(items, reports[n - 1].id, k)| > 0 then {Named(reports[n - 1])} else {}
  {
    assert FailingRows(items, reports[n - 1].id, k) != {} <==> |FailingRows(items, reports[n - 1].id, k)| > 0;
  }

  // An item's row counts the agents with a report that fails it, and the failing rows of all reports.
  ghost predicate FailedItemSays(x: FailedItem, reports: seq<ReportRow>, items: seq<ItemRow>)
  {
    && x.agentsFailed == |AgentsWith(reports, items, x.key, |reports|)|
    && x.callsFailed == |Pairs(FirstReports(|reports|), RowsFailing(reports, items, x.key))| > 0
  }

  // A call's row is one report's.
  ghost predicate CallSays(w: WorstCall, r: ReportRow, items: seq<ItemRow>, upper: string -> string)
  {
    && w.callId == r.callId && w.reportId == r.id && w.agent == Named(r) && w.flagged == r.flagged
    && w.fails == |AnsweredRows(items, r.id, "FAIL")| && w.critical == |CriticalRows(items, r.id, upper)|
    && (w.flagged || w.needsReview <==> WantsReview(r, items))
  }

  // ---- The lists ----

  ghost predicate ListsSay(s: Summary, reports: seq<ReportRow>, items: seq<ItemRow>, upper: string -> string)
  {
    && s.agents == |s.perAgent|
    && s.criticalFails == |Pairs(FirstReports(|reports|), RowsCritical(reports, items, upper))|
    && (forall r <- s.perAgent :: AgentRowSays(r, reports, items, upper))
    && (forall x <- s.topFailedItems :: FailedItemSays(x, reports, items))
    && (forall w <- s.worstCalls :: exists i | 0 <= i < |reports| :: CallSays(w, reports[i], items, upper))
    && |s.topFailedItems| <= 5 && |s.worstCalls| == (if |reports| < 8 then |reports| else 8)
  }

  // Worse first.
  ghost predicate ListsAreRanked(s: Summary)
  {
    && (forall i, j | 0 <= i < j < |s.perAgent| ::
          AtLeast(s.perAgent[i].criticalFails, s.perAgent[i].fails, s.perAgent[j].criticalFails, s.perAgent[j].fails))
    && (forall i, j | 0 <= i < j < |s.topFailedItems| ::
          AtLeast(s.topFailedItems[i].agentsFailed, s.topFailedItems[i].callsFailed, s.topFailedItems[j].agentsFailed,
                  s.topFailedItems[j].callsFailed))
    && (forall i, j | 0 <= i < j < |s.worstCalls| ::
          AtLeast(s.worstCalls[i].critical, s.worstCalls[i].fails, s.worstCalls[j].critical, s.worstCalls[j].fails))
  }

  predicate AtLeast(a: int, b: int, c: int, d: int)
  {
    a > c || (a == c && b >= d)
  }

  lemma TopIsPrefix<T>(xs: seq<T>, k: nat)
    ensures |Top(xs, k)| == (if |xs| < k then |xs| else k)
    ensures forall i | 0 <= i < |Top(xs, k)| :: Top(xs, k)[i] == xs[i]
  {}

  lemma SortedIn<T>(xs: seq<T>, key: T -> Key, x: T)
    ensures x in Sort(xs, key) <==> x in xs
  {
    assert x in multiset(Sort(xs, key)) <==> x in multiset(xs);
  }

  lemma FailedItemIsTold(reports: seq<ReportRow>, items: seq<ItemRow>, upper: string -> string, x: FailedItem)
    requires var xs := IncidentsOf(CardsOf(reports, items, upper)); x in FailedItems(xs, FirstSeen(xs, IncidentKey))
    ensures FailedItemSays(x, reports, items)
  {
    var cards := CardsOf(reports, items, upper);
    var xs := IncidentsOf(cards);
    FailuresAreTold(reports, items, upper, x.key);
    FewerAgentsThanCalls(xs, x.key);
  }

  lemma {:induction false} SumIsPairs(cards: seq<Card>, f: Card -> int, rows: int -> set<int>)
    requires forall i | 0 <= i < |cards| :: f(cards[i]) == |rows(i)|
    ensures SumBy(cards, f) == |Pairs(FirstReports(|cards|), rows)|
    decreases |cards|
  {
    if cards == [] {
      assert Pairs(FirstReports(0), rows) == {};
    } else {
      var n := |cards| - 1;
      assert cards == cards[..n] + [cards[n]];
      SumIsPairs(cards[..n], f, rows);
      SumBySnoc(cards[..n], cards[n], f);
      PairsGrow(FirstReports(n), rows, n);
    }
  }

  lemma CriticalIsTold(reports: seq<ReportRow>, items: seq<ItemRow>, upper: string -> string)
    ensures SumBy(CardsOf(reports, items, upper), Critical)
         == |Pairs(FirstReports(|reports|), RowsCritical(reports, items, upper))|
  {
    var cards := CardsOf(reports, items, upper);
    forall i | 0 <= i < |cards|
      ensures Critical(cards[i]) == |RowsCritical(reports, items, upper)(i)|
    {
      CardCounts(reports[i], items, upper);
    }
    SumIsPairs(cards, Critical, RowsCritical(reports, items, upper));
  }

  lemma ListsAreTold(states: seq<Option<string>>, reports: seq<ReportRow>, items: seq<ItemRow>,
                     upper: string -> string)
    ensures ListsSay(Expected(states, reports, items, upper), reports, items, upper)
  {
    var s, cards := Expected(states, reports, items, upper), CardsOf(reports, items, upper);
    var xs := IncidentsOf(cards);
    AgentsAddUp(states, reports, items, upper);
    CriticalIsTold(reports, items, upper);
    forall r | r in s.perAgent
      ensures AgentRowSays(r, reports, items, upper)
    {
      RowIsListed(cards, r);
      AgentRowIsTold(r, reports, items, upper);
    }
    var found := FailedItems(xs, FirstSeen(xs, IncidentKey));
    TopIsPrefix(Sort(found, ByAgents), TOP_K);
    forall x | x in s.topFailedItems
      ensures FailedItemSays(x, reports, items)
    {
      SortedIn(found, ByAgents, x);
      FailedItemIsTold(reports, items, upper, x);
    }
    var calls := WorstCalls(cards);
    TopIsPrefix(Sort(calls, BySeverity), WORST_CALLS);
    SortKeepsLength(calls, BySeverity);
    forall w | w in s.worstCalls
      ensures exists i | 0 <= i < |reports| :: CallSays(w, reports[i], items, upper)
    {
      SortedIn(calls, BySeverity, w);
      var i :| 0 <= i < |calls| && calls[i] == w;
      CardCounts(reports[i], items, upper);
      assert CallSays(w, reports[i], items, upper);
    }
  }

  lemma TopRanks<T>(xs: seq<T>, key: T -> Key, k: nat)
    ensures forall i, j | 0 <= i < j < |Top(Sort(xs, key), k)| ::
              Leq(key(Top(Sort(xs, key), k)[i]), key(Top(Sort(xs, key), k)[j]))
  {
    TopIsPrefix(Sort(xs, key), k);
  }

  lemma ListsRank(states: seq<Option<string>>, reports: seq<ReportRow>, items: seq<ItemRow>, upper: string -> string)
    ensures ListsAreRanked(Expected(states, reports, items, upper))
  {
    var s, cards := Expected(states, reports, items, upper), CardsOf(reports, items, upper);
    var xs := IncidentsOf(cards);
    TopRanks(FailedItems(xs, FirstSeen(xs, IncidentKey)), ByAgents, TOP_K);
    TopRanks(WorstCalls(cards), BySeverity, WORST_CALLS);
    forall i, j | 0 <= i < j < |s.perAgent|
      ensures AtLeast(s.perAgent[i].criticalFails, s.perAgent[i].fails, s.perAgent[j].criticalFails,
                      s.perAgent[j].fails)
    {
      assert Leq(ByCritical(s.perAgent[i]), ByCritical(s.perAgent[j]));
    }
    forall i, j | 0 <= i < j < |s.topFailedItems|
      ensures AtLeast(s.topFailedItems[i].agentsFailed, s.topFailedItems[i].callsFailed,
                      s.topFailedItems[j].agentsFailed, s.topFailedItems[j].callsFailed)
    {
      assert Leq(ByAgents(s.topFailedItems[i]), ByAgents(s.topFailedItems[j]));
    }
    forall i, j | 0 <= i < j < |s.worstCalls|
      ensures AtLeast(s.worstCalls[i].critical, s.worstCalls[i].fails, s.worstCalls[j].critical, s.worstCalls[j].fails)
    {
      assert Leq(BySeverity(s.worstCalls[i]), BySeverity(s.worstCalls[j]));
    }
  }

  // The whole summary, as `checklist_summary` returns it.
  lemma SummaryIsTold(states: seq<Option<string>>, reports: seq<ReportRow>, items: seq<ItemRow>,
                      upper: string -> string)
    ensures var s := Expected(states, reports, items, upper);
            && TotalsSay(s, states, reports, items, upper) && ListsSay(s, reports, items, upper) && ListsAreRanked(s)
            && (forall i | 0 <= i < |reports| :: exists r <- s.perAgent :: r.agent == Named(reports[i]))
  {
    TotalsAreTold(states, reports, items, upper);
    ListsAreTold(states, reports, items, upper);
    ListsRank(states, reports, items, upper);
    forall i | 0 <= i < |reports|
      ensures exists r <- Expected(states, reports, items, upper).perAgent :: r.agent == Named(reports[i])
    {
      AgentIsListed(reports, items, upper, i);
    }
  }

  lemma AgentIsListed(reports: seq<ReportRow>, items: seq<ItemRow>, upper: string -> string, i: nat)
    requires i < |reports|
    ensures var cards := CardsOf(reports, items, upper);
            exists r <- Sort(AgentRows(cards, FirstSeen(cards, AgentKey)), ByCritical) :: r.agent == Named(reports[i])
  {
    var cards := CardsOf(reports, items, upper);
    var seen := FirstSeen(cards, AgentKey);
    CardCounts(reports[i], items, upper);
    FirstSeenIs(cards, AgentKey);
    assert AgentKey(cards[i]) == Named(reports[i]) && Named(reports[i]) in seen;
    var k :| 0 <= k < |seen| && seen[k] == Named(reports[i]);
    var r := AgentRows(cards, seen)[k];
    SortedIn(AgentRows(cards, seen), ByCritical, r);
    assert r.agent == Named(reports[i]);
  }
}
