/**
 * The checklist summary of a batch (reports/summary.py): totals, one row per agent, the items
 * failed by the most agents and the worst calls, all from rows already loaded.
 * Python's `str.upper` is the parameter `upper`.
 */
module Summary {
  import opened Sorting
  import opened Wrappers

  const TOP_K := 5
  const WORST_CALLS := 8

  datatype ReportRow = ReportRow(id: nat, callId: nat, agentName: Option<string>, flagged: bool, folder: Option<string>)

  datatype ItemRow = ItemRow(reportId: nat, text: string, section: string, risk: Option<string>,
                             answer: Option<string>, needsReview: bool)

  datatype ItemKey = ItemKey(text: string, section: string, risk: string)

  datatype Item = Item(key: ItemKey, answer: Option<string>, needsReview: bool)

  // A string column that is neither NULL nor empty.
  predicate Present(s: Option<string>) { s.Some? && s.value != "" }

  function ItemOf(row: ItemRow): Item
  {
    Item(ItemKey(row.text, row.section, if Present(row.risk) then row.risk.value else "NORMAL"), row.answer,
         row.needsReview)
  }

  function ItemsOf(rows: seq<ItemRow>, id: nat): seq<Item>
  {
    if rows == [] then [] else
    var last := |rows| - 1;
    if rows[last].reportId == id then ItemsOf(rows[..last], id) + [ItemOf(rows[last])] else ItemsOf(rows[..last], id)
  }

  function AgentOf(row: ReportRow): string
  {
    if Present(row.agentName) then row.agentName.value
    else if Present(row.folder) then row.folder.value
    else "\U{2014}"
  }

  function Answered(items: seq<Item>, answer: string): seq<Item>
  {
    if items == [] then [] else
    var last := |items| - 1;
    if items[last].answer == Some(answer) then Answered(items[..last], answer) + [items[last]]
    else Answered(items[..last], answer)
  }

  function CriticalIn(items: seq<Item>, upper: string -> string): nat
  {
    if items == [] then 0 else
    var last := |items| - 1;
    CriticalIn(items[..last], upper) + (if upper(items[last].key.risk) == "CRITICAL" then 1 else 0)
  }

  // What the summary uses of one report.
  datatype Card = Card(id: nat, callId: nat, agent: string, flagged: bool, needsReview: bool,
                       passes: nat, fails: seq<Item>, critical: nat)

  function CardOf(row: ReportRow, items: seq<Item>, upper: string -> string): Card
  {
    var fails := Answered(items, "FAIL");
    Card(row.id, row.callId, AgentOf(row), row.flagged, exists i | 0 <= i < |items| :: items[i].needsReview,
         |Answered(items, "PASS")|, fails, CriticalIn(fails, upper))
  }

  lemma {:induction false} AnsweredAre(items: seq<Item>, answer: string)
    ensures forall it :: it in Answered(items, answer) <==> it in items && it.answer == Some(answer)
    decreases |items|
  {
    if items != [] {
      var last := |items| - 1;
      AnsweredAre(items[..last], answer);
      assert items == items[..last] + [items[last]];
    }
  }

  lemma {:induction false} AnswersAreApart(items: seq<Item>, a: string, b: string)
    requires a != b
    ensures |Answered(items, a)| + |Answered(items, b)| <= |items|
    decreases |items|
  {
    if items != [] {
      AnswersAreApart(items[..|items| - 1], a, b);
    }
  }

  lemma {:induction false} CriticalAreFew(items: seq<Item>, upper: string -> string)
    ensures CriticalIn(items, upper) <= |items|
    ensures CriticalIn(items, upper) == 0 <==> forall it <- items :: upper(it.key.risk) != "CRITICAL"
    decreases |items|
  {
    if items != [] {
      var last := |items| - 1;
      CriticalAreFew(items[..last], upper);
      assert items == items[..last] + [items[last]];
    }
  }

  /** A report's failures are exactly its items answered FAIL; no item both passes and fails. */
  lemma CardIsConsistent(row: ReportRow, items: seq<Item>, upper: string -> string)
    ensures var c := CardOf(row, items, upper);
      && (forall it :: it in c.fails <==> it in items && it.answer == Some("FAIL"))
      && c.passes + |c.fails| <= |items|
      && c.critical <= |c.fails|
      && (c.critical > 0 <==> exists it <- items :: it.answer == Some("FAIL") && upper(it.key.risk) == "CRITICAL")
      && (Clean(c) == 1 <==> forall it <- items :: it.answer != Some("FAIL"))
  {
    var fails := Answered(items, "FAIL");
    AnsweredAre(items, "FAIL");
    AnswersAreApart(items, "PASS", "FAIL");
    CriticalAreFew(fails, upper);
    if fails != [] {
      assert fails[0] in fails;
    }
  }

  function CardsOf(reports: seq<ReportRow>, items: seq<ItemRow>, upper: string -> string): (cards: seq<Card>)
    ensures |cards| == |reports|
    ensures forall i | 0 <= i < |cards| :: cards[i] == CardOf(reports[i], ItemsOf(items, reports[i].id), upper)
  {
    seq(|reports|, i requires 0 <= i < |reports| => CardOf(reports[i], ItemsOf(items, reports[i].id), upper))
  }

  function AgentKey(c: Card): string { c.agent }

  function One(c: Card): int { 1 }

  function Passes(c: Card): int { c.passes }

  function Fails(c: Card): int { |c.fails| }

  function Critical(c: Card): int { c.critical }

  function MoreFails(c: Card): int { if |c.fails| > c.passes then 1 else 0 }

  function Clean(c: Card): int { if c.fails == [] then 1 else 0 }

  function NeedsReview(c: Card): int { if c.flagged || c.needsReview then 1 else 0 }

  // ---- Grouping by key, as a dictionary does: keys in order of first appearance ----

  function FirstSeen<T, K(==)>(xs: seq<T>, key: T -> K): seq<K>
  {
    if xs == [] then [] else
    var last := |xs| - 1;
    var seen := FirstSeen(xs[..last], key);
    if key(xs[last]) in seen then seen else seen + [key(xs[last])]
  }

  function SumWhere<T, K(==)>(xs: seq<T>, key: T -> K, k: K, f: T -> int): int
  {
    if xs == [] then 0 else
    var last := |xs| - 1;
    SumWhere(xs[..last], key, k, f) + (if key(xs[last]) == k then f(xs[last]) else 0)
  }

  predicate Distinct<K(==)>(ks: seq<K>)
  {
    forall i, j | 0 <= i < j < |ks| :: ks[i] != ks[j]
  }

  lemma {:induction false} FirstSeenIs<T, K>(xs: seq<T>, key: T -> K)
    ensures Distinct(FirstSeen(xs, key))
    ensures forall k :: k in FirstSeen(xs, key) <==> exists i :: 0 <= i < |xs| && key(xs[i]) == k
    decreases |xs|
  {
    if xs != [] {
      FirstSeenIs(xs[..|xs| - 1], key);
    }
  }

  lemma {:induction false} NothingWhere<T, K>(xs: seq<T>, key: T -> K, k: K, f: T -> int)
    requires k !in FirstSeen(xs, key)
    ensures SumWhere(xs, key, k, f) == 0
    decreases |xs|
  {
    if xs != [] {
      NothingWhere(xs[..|xs| - 1], key, k, f);
    }
  }

  // Raising one of the distinct summands raises the sum by as much.
  lemma {:induction false} SumByRaised<K>(ks: seq<K>, f: K -> int, g: K -> int, k: K, d: int)
    requires Distinct(ks)
    requires forall i | 0 <= i < |ks| :: g(ks[i]) == f(ks[i]) + (if ks[i] == k then d else 0)
    ensures SumBy(ks, g) == SumBy(ks, f) + (if k in ks then d else 0)
    decreases |ks|
  {
    if ks != [] {
      SumByRaised(ks[1..], f, g, k, d);
      assert k in ks <==> k == ks[0] || k in ks[1..];
    }
  }

  lemma SumGrows<T, K>(init: seq<T>, x: T, key: T -> K, k: K, f: T -> int)
    ensures SumWhere(init + [x], key, k, f) == SumWhere(init, key, k, f) + (if key(x) == k then f(x) else 0)
  {
    assert (init + [x])[..|init|] == init;
  }

  lemma SeenGrows<T, K>(init: seq<T>, x: T, key: T -> K)
    ensures var seen := FirstSeen(init, key);
      FirstSeen(init + [x], key) == if key(x) in seen then seen else seen + [key(x)]
  {
    assert (init + [x])[..|init|] == init;
  }

  /** The per-key sums add up to the sum over everything. */
  lemma {:induction false} SumsSplit<T, K(!new)>(xs: seq<T>, key: T -> K, f: T -> int, g: K -> int)
    requires forall k :: g(k) == SumWhere(xs, key, k, f)
    ensures SumBy(FirstSeen(xs, key), g) == SumBy(xs, f)
    decreases |xs|
  {
    if xs != [] {
      var last := |xs| - 1;
      var init, x := xs[..last], xs[last];
      var h := k => SumWhere(init, key, k, f);
      assert xs == init + [x];
      SumsSplit(init, key, f, h);
      SumBySnoc(init, x, f);
      FirstSeenIs(init, key);
      SeenGrows(init, x, key);
      var seen := FirstSeen(init, key);
      forall i | 0 <= i < |seen|
        ensures g(seen[i]) == h(seen[i]) + (if seen[i] == key(x) then f(x) else 0)
      {
        SumGrows(init, x, key, seen[i], f);
      }
      SumByRaised(seen, h, g, key(x), f(x));
      if key(x) !in seen {
        NothingWhere(init, key, key(x), f);
        SumGrows(init, x, key, key(x), f);
        SumBySnoc(seen, key(x), g);
      }
    }
  }

  // ---- One agent ----

  type Score = (int, int)

  predicate Above(a: Score, b: Score)
  {
    a.0 > b.0 || (a.0 == b.0 && a.1 > b.1)
  }

  function ScoreOf(c: Card): Score { (c.critical, |c.fails|) }

  datatype AgentStat = AgentStat(calls: int, passes: int, fails: int, critical: int, failGtPass: int,
                                 worst: Option<nat>, worstScore: Score)

  const NO_CALLS := AgentStat(0, 0, 0, 0, 0, None, (-1, -1))

  function WorstOf(cards: seq<Card>, agent: string): (Option<nat>, Score)
  {
    if cards == [] then (None, (-1, -1)) else
    var last := |cards| - 1;
    var worst := WorstOf(cards[..last], agent);
    if cards[last].agent == agent && Above(ScoreOf(cards[last]), worst.1)
    then (Some(cards[last].id), ScoreOf(cards[last])) else worst
  }

  // What the summary says of an agent, as sums over the agent's reports.
  function StatOf(cards: seq<Card>, agent: string): AgentStat
  {
    var worst := WorstOf(cards, agent);
    AgentStat(SumWhere(cards, AgentKey, agent, One), SumWhere(cards, AgentKey, agent, Passes),
              SumWhere(cards, AgentKey, agent, Fails), SumWhere(cards, AgentKey, agent, Critical),
              SumWhere(cards, AgentKey, agent, MoreFails), worst.0, worst.1)
  }

  function Added(a: AgentStat, c: Card): AgentStat
  {
    var b := AgentStat(a.calls + 1, a.passes + c.passes, a.fails + |c.fails|, a.critical + c.critical,
                       a.failGtPass + (if |c.fails| > c.passes then 1 else 0), a.worst, a.worstScore);
    if Above(ScoreOf(c), a.worstScore) then b.(worst := Some(c.id), worstScore := ScoreOf(c)) else b
  }

  lemma StatGrows(init: seq<Card>, c: Card, agent: string)
    ensures StatOf(init + [c], agent) == if c.agent == agent then Added(StatOf(init, agent), c) else StatOf(init, agent)
  {
    SumGrows(init, c, AgentKey, agent, One);
    SumGrows(init, c, AgentKey, agent, Passes);
    SumGrows(init, c, AgentKey, agent, Fails);
    SumGrows(init, c, AgentKey, agent, Critical);
    SumGrows(init, c, AgentKey, agent, MoreFails);
    assert (init + [c])[..|init|] == init;
  }

  lemma {:induction false} NoStatYet(cards: seq<Card>, agent: string)
    requires agent !in FirstSeen(cards, AgentKey)
    ensures StatOf(cards, agent) == NO_CALLS
    decreases |cards|
  {
    if cards != [] {
      var last := |cards| - 1;
      NoStatYet(cards[..last], agent);
      StatGrows(cards[..last], cards[last], agent);
      assert cards == cards[..last] + [cards[last]];
    }
  }

  ghost predicate IsWorst(cards: seq<Card>, agent: string, i: int)
  {
    && 0 <= i < |cards| && cards[i].agent == agent
    && (forall j | 0 <= j < |cards| && cards[j].agent == agent :: !Above(ScoreOf(cards[j]), ScoreOf(cards[i])))
    && (forall j | 0 <= j < i && cards[j].agent == agent :: Above(ScoreOf(cards[i]), ScoreOf(cards[j])))
  }

  /** An agent's worst report attains the agent's highest score, and is the first to do so. */
  lemma {:induction false} WorstIsHighest(cards: seq<Card>, agent: string) returns (i: int)
    ensures i < |cards|
    ensures i >= 0 ==> IsWorst(cards, agent, i) && WorstOf(cards, agent) == (Some(cards[i].id), ScoreOf(cards[i]))
    ensures i < 0 ==>
      WorstOf(cards, agent) == (None, (-1, -1)) && forall j | 0 <= j < |cards| :: cards[j].agent != agent
    decreases |cards|
  {
    i := -1;
    if cards != [] {
      var last := |cards| - 1;
      i := WorstIsHighest(cards[..last], agent);
      if cards[last].agent == agent && (i < 0 || Above(ScoreOf(cards[last]), ScoreOf(cards[i]))) {
        i := last;
      }
    }
  }

  // ---- Failed items ----

  datatype Incident = Incident(agent: string, key: ItemKey)

  function IncidentKey(x: Incident): ItemKey { x.key }

  function OneIncident(x: Incident): int { 1 }

  function FailuresOf(agent: string, fails: seq<Item>): (xs: seq<Incident>)
    ensures |xs| == |fails|
  {
    seq(|fails|, i requires 0 <= i < |fails| => Incident(agent, fails[i].key))
  }

  // Every failed item of every report, in order.
  function IncidentsOf(cards: seq<Card>): seq<Incident>
  {
    if cards == [] then [] else
    var last := |cards| - 1;
    IncidentsOf(cards[..last]) + FailuresOf(cards[last].agent, cards[last].fails)
  }

  function AgentsFailing(xs: seq<Incident>, k: ItemKey): set<string>
  {
    if xs == [] then {} else
    var last := |xs| - 1;
    AgentsFailing(xs[..last], k) + (if xs[last].key == k then {xs[last].agent} else {})
  }

  function CallsFailing(xs: seq<Incident>, k: ItemKey): int
  {
    SumWhere(xs, IncidentKey, k, OneIncident)
  }

  /** An item is not failed by more agents than by calls. */
  lemma {:induction false} FewerAgentsThanCalls(xs: seq<Incident>, k: ItemKey)
    ensures 0 <= |AgentsFailing(xs, k)| <= CallsFailing(xs, k)
    ensures k in FirstSeen(xs, IncidentKey) ==> 1 <= |AgentsFailing(xs, k)|
    decreases |xs|
  {
    if xs != [] {
      var last := |xs| - 1;
      FewerAgentsThanCalls(xs[..last], k);
      var before := AgentsFailing(xs[..last], k);
      if xs[last].agent in before {
        assert before + {xs[last].agent} == before;
      } else {
        assert |before + {xs[last].agent}| == |before| + 1;
      }
    }
  }

  // The two dictionaries of failed items; they have the same keys, in order of first failure.
  datatype FailIndex = FailIndex(order: seq<ItemKey>, agents: map<ItemKey, set<string>>, calls: map<ItemKey, int>)

  ghost predicate Indexed(ix: FailIndex, xs: seq<Incident>)
  {
    && ix.order == FirstSeen(xs, IncidentKey)
    && (forall k :: k in ix.agents <==> k in ix.order)
    && (forall k :: k in ix.calls <==> k in ix.order)
    && (forall k | k in ix.order :: ix.agents[k] == AgentsFailing(xs, k) && ix.calls[k] == CallsFailing(xs, k))
  }

  function Recorded(ix: FailIndex, agent: string, k: ItemKey): FailIndex
  {
    FailIndex(if k in ix.order then ix.order else ix.order + [k],
              ix.agents[k := (if k in ix.agents then ix.agents[k] else {}) + {agent}],
              ix.calls[k := (if k in ix.calls then ix.calls[k] else 0) + 1])
  }

  lemma {:induction false} NoIncidentYet(xs: seq<Incident>, k: ItemKey)
    requires k !in FirstSeen(xs, IncidentKey)
    ensures AgentsFailing(xs, k) == {} && CallsFailing(xs, k) == 0
    decreases |xs|
  {
    if xs != [] {
      NoIncidentYet(xs[..|xs| - 1], k);
    }
  }

  lemma IncidentGrows(xs: seq<Incident>, x: Incident, k: ItemKey)
    ensures AgentsFailing(xs + [x], k)
         == if x.key == k then AgentsFailing(xs, k) + {x.agent} else AgentsFailing(xs, k)
    ensures CallsFailing(xs + [x], k) == CallsFailing(xs, k) + (if x.key == k then 1 else 0)
  {
    assert (xs + [x])[..|xs|] == xs;
  }

  lemma IndexGrows(ix: FailIndex, xs: seq<Incident>, x: Incident)
    requires Indexed(ix, xs)
    ensures Indexed(Recorded(ix, x.agent, x.key), xs + [x])
  {
    SeenGrows(xs, x, IncidentKey);
    var after := Recorded(ix, x.agent, x.key);
    if x.key !in ix.order {
      NoIncidentYet(xs, x.key);
    }
    forall k | k in after.order
      ensures after.agents[k] == AgentsFailing(xs + [x], k) && after.calls[k] == CallsFailing(xs + [x], k)
    {
      IncidentGrows(xs, x, k);
    }
  }

  method RecordFailures(ix: FailIndex, agent: string, fails: seq<Item>, ghost xs: seq<Incident>)
    returns (after: FailIndex)
    requires Indexed(ix, xs)
    ensures Indexed(after, xs + FailuresOf(agent, fails))
  {
    after := ix;
    assert xs + FailuresOf(agent, fails[..0]) == xs;
    for j := 0 to |fails|
      invariant Indexed(after, xs + FailuresOf(agent, fails[..j]))
    {
      ghost var before := xs + FailuresOf(agent, fails[..j]);
      IndexGrows(after, before, Incident(agent, fails[j].key));
      assert before + [Incident(agent, fails[j].key)] == xs + FailuresOf(agent, fails[..j + 1]);
      after := Recorded(after, agent, fails[j].key);
    }
    assert fails[..|fails|] == fails;
  }

  // ---- The agents' dictionary ----

  ghost predicate AgentsIndexed(order: seq<string>, stats: map<string, AgentStat>, cards: seq<Card>)
  {
    && order == FirstSeen(cards, AgentKey)
    && (forall k :: k in stats <==> k in order)
    && (forall k | k in order :: stats[k] == StatOf(cards, k))
  }

  lemma AgentsGrow(order: seq<string>, stats: map<string, AgentStat>, cards: seq<Card>, c: Card)
    requires AgentsIndexed(order, stats, cards)
    ensures AgentsIndexed(if c.agent in stats then order else order + [c.agent],
                          stats[c.agent := Added(if c.agent in stats then stats[c.agent] else NO_CALLS, c)],
                          cards + [c])
  {
    SeenGrows(cards, c, AgentKey);
    if c.agent !in stats {
      NoStatYet(cards, c.agent);
    }
    forall k | k in order + [c.agent]
      ensures StatOf(cards + [c], k) == if c.agent == k then Added(StatOf(cards, k), c) else StatOf(cards, k)
    {
      StatGrows(cards, c, k);
    }
  }

  // ---- The summary ----

  datatype AgentRow = AgentRow(agent: string, calls: int, passes: int, fails: int, criticalFails: int,
                               callsFailGtPass: int, worstReportId: Option<nat>)

  datatype FailedItem = FailedItem(key: ItemKey, agentsFailed: int, callsFailed: int)

  datatype WorstCall = WorstCall(callId: nat, reportId: nat, agent: string, fails: int, critical: int,
                                 flagged: bool, needsReview: bool)

  datatype Summary = Summary(totalCalls: int, agents: int, clean: int, needReview: int, criticalFails: int,
                             failedProcessing: int, missingAgentName: int, perAgent: seq<AgentRow>,
                             topFailedItems: seq<FailedItem>, worstCalls: seq<WorstCall>)

  function RowOf(agent: string, a: AgentStat): AgentRow
  {
    AgentRow(agent, a.calls, a.passes, a.fails, a.critical, a.failGtPass, a.worst)
  }

  function AgentRows(cards: seq<Card>, agents: seq<string>): (rows: seq<AgentRow>)
    ensures |rows| == |agents| && forall i | 0 <= i < |rows| :: rows[i] == RowOf(agents[i], StatOf(cards, agents[i]))
  {
    seq(|agents|, i requires 0 <= i < |agents| => RowOf(agents[i], StatOf(cards, agents[i])))
  }

  function FailedItemOf(xs: seq<Incident>, k: ItemKey): FailedItem
  {
    FailedItem(k, |AgentsFailing(xs, k)|, CallsFailing(xs, k))
  }

  function FailedItems(xs: seq<Incident>, keys: seq<ItemKey>): (rows: seq<FailedItem>)
    ensures |rows| == |keys|
    ensures forall i | 0 <= i < |rows| :: rows[i] == FailedItemOf(xs, keys[i])
  {
    seq(|keys|, i requires 0 <= i < |keys| => FailedItemOf(xs, keys[i]))
  }

  function WorstCallOf(c: Card): WorstCall
  {
    WorstCall(c.callId, c.id, c.agent, |c.fails|, c.critical, c.flagged, c.needsReview)
  }

  function WorstCalls(cards: seq<Card>): (calls: seq<WorstCall>)
    ensures |calls| == |cards|
  {
    seq(|cards|, i requires 0 <= i < |cards| => WorstCallOf(cards[i]))
  }

  function ByCritical(r: AgentRow): Key { (-r.criticalFails, -r.fails) }

  function ByAgents(r: FailedItem): Key { (-r.agentsFailed, -r.callsFailed) }

  function BySeverity(r: WorstCall): Key { (-r.critical, -r.fails) }

  function Top<T>(xs: seq<T>, k: nat): seq<T>
  {
    if |xs| <= k then xs else xs[..k]
  }

  function IsFailed(state: Option<string>): int { if state == Some("FAILED") then 1 else 0 }

  function Unnamed(r: ReportRow): int { if Present(r.agentName) then 0 else 1 }

  function Expected(states: seq<Option<string>>, reports: seq<ReportRow>, items: seq<ItemRow>,
                    upper: string -> string): Summary
  {
    var cards := CardsOf(reports, items, upper);
    var incidents := IncidentsOf(cards);
    Summary(|states|, |FirstSeen(cards, AgentKey)|, SumBy(cards, Clean), SumBy(cards, NeedsReview),
            SumBy(cards, Critical), SumBy(states, IsFailed), SumBy(reports, Unnamed),
            Sort(AgentRows(cards, FirstSeen(cards, AgentKey)), ByCritical),
            Top(Sort(FailedItems(incidents, FirstSeen(incidents, IncidentKey)), ByAgents), TOP_K),
            Top(Sort(WorstCalls(cards), BySeverity), WORST_CALLS))
  }

  method GroupItems(items: seq<ItemRow>) returns (byReport: map<nat, seq<Item>>)
    ensures forall id: nat :: ItemsOf(items, id) == if id in byReport then byReport[id] else []
  {
    byReport := map[];
    assert items[..0] == [];
    for i := 0 to |items|
      invariant forall id: nat :: ItemsOf(items[..i], id) == if id in byReport then byReport[id] else []
    {
      var rid := items[i].reportId;
      assert items[..i + 1][..i] == items[..i];
      byReport := byReport[rid := (if rid in byReport then byReport[rid] else []) + [ItemOf(items[i])]];
    }
    assert items[..|items|] == items;
  }

  method CountIf<T>(xs: seq<T>, f: T -> int) returns (n: int)
    ensures n == SumBy(xs, f)
  {
    n := 0;
    assert xs[..0] == [];
    for i := 0 to |xs|
      invariant n == SumBy(xs[..i], f)
    {
      assert xs[..i + 1] == xs[..i] + [xs[i]];
      SumBySnoc(xs[..i], xs[i], f);
      n := n + f(xs[i]);
    }
    assert xs[..|xs|] == xs;
  }

  function ListedAgents(order: seq<string>, stats: map<string, AgentStat>): seq<AgentRow>
    requires forall i | 0 <= i < |order| :: order[i] in stats
  {
    seq(|order|, i requires 0 <= i < |order| => RowOf(order[i], stats[order[i]]))
  }

  lemma ListedAgentsAre(order: seq<string>, stats: map<string, AgentStat>, cards: seq<Card>)
    requires AgentsIndexed(order, stats, cards)
    ensures forall i | 0 <= i < |order| :: order[i] in stats
    ensures ListedAgents(order, stats) == AgentRows(cards, order)
  {
    assert forall i | 0 <= i < |order| :: order[i] in order;
  }

  function ListedItems(ix: FailIndex): seq<FailedItem>
    requires forall i | 0 <= i < |ix.order| :: ix.order[i] in ix.agents && ix.order[i] in ix.calls
  {
    seq(|ix.order|, i requires 0 <= i < |ix.order| =>
      FailedItem(ix.order[i], |ix.agents[ix.order[i]]|, ix.calls[ix.order[i]]))
  }

  lemma ListedItemsAre(ix: FailIndex, xs: seq<Incident>)
    requires Indexed(ix, xs)
    ensures forall i | 0 <= i < |ix.order| :: ix.order[i] in ix.agents && ix.order[i] in ix.calls
    ensures ListedItems(ix) == FailedItems(xs, ix.order)
  {
    assert forall i | 0 <= i < |ix.order| :: ix.order[i] in ix.order;
  }

  // The running dictionaries and counters of the pass over the reports.
  datatype RollUp = RollUp(order: seq<string>, stats: map<string, AgentStat>, failures: FailIndex,
                           calls: seq<WorstCall>, clean: int, needReview: int, critical: int)

  ghost predicate RolledUp(r: RollUp, cards: seq<Card>)
  {
    && AgentsIndexed(r.order, r.stats, cards)
    && Indexed(r.failures, IncidentsOf(cards))
    && r.calls == WorstCalls(cards)
    && r.clean == SumBy(cards, Clean) && r.needReview == SumBy(cards, NeedsReview)
    && r.critical == SumBy(cards, Critical)
  }

  method AddToAgent(order: seq<string>, stats: map<string, AgentStat>, c: Card, ghost cards: seq<Card>)
    returns (order2: seq<string>, stats2: map<string, AgentStat>)
    requires AgentsIndexed(order, stats, cards)
    ensures AgentsIndexed(order2, stats2, cards + [c])
  {
    AgentsGrow(order, stats, cards, c);
    order2, stats2 := order, stats;
    if c.agent !in stats {
      order2, stats2 := order + [c.agent], stats[c.agent := NO_CALLS];
    }
    stats2 := stats2[c.agent := Added(stats2[c.agent], c)];
    assert stats2 == stats[c.agent := Added(if c.agent in stats then stats[c.agent] else NO_CALLS, c)];
  }

  lemma CountersGrow(r: RollUp, c: Card, cards: seq<Card>)
    requires RolledUp(r, cards)
    ensures SumBy(cards + [c], Clean) == r.clean + Clean(c)
    ensures SumBy(cards + [c], NeedsReview) == r.needReview + NeedsReview(c)
    ensures SumBy(cards + [c], Critical) == r.critical + c.critical
    ensures WorstCalls(cards + [c]) == r.calls + [WorstCallOf(c)]
    ensures IncidentsOf(cards + [c]) == IncidentsOf(cards) + FailuresOf(c.agent, c.fails)
  {
    SumBySnoc(cards, c, Clean);
    SumBySnoc(cards, c, NeedsReview);
    SumBySnoc(cards, c, Critical);
    assert (cards + [c])[..|cards|] == cards;
  }

  /** One round of the loop over the reports. */
  method AddReport(r: RollUp, c: Card, ghost cards: seq<Card>) returns (after: RollUp)
    requires RolledUp(r, cards)
    ensures RolledUp(after, cards + [c])
  {
    CountersGrow(r, c, cards);
    var clean, needReview := r.clean, r.needReview;
    if c.fails == [] {
      clean := clean + 1;
    }
    if c.flagged || c.needsReview {
      needReview := needReview + 1;
    }
    var order, stats := AddToAgent(r.order, r.stats, c, cards);
    var failures := RecordFailures(r.failures, c.agent, c.fails, IncidentsOf(cards));
    after := RollUp(order, stats, failures, r.calls + [WorstCallOf(c)], clean, needReview, r.critical + c.critical);
  }

  method RollUpReports(reports: seq<ReportRow>, byReport: map<nat, seq<Item>>, upper: string -> string,
                       ghost items: seq<ItemRow>) returns (r: RollUp)
    requires forall id: nat :: ItemsOf(items, id) == if id in byReport then byReport[id] else []
    ensures RolledUp(r, CardsOf(reports, items, upper))
  {
    ghost var cards := CardsOf(reports, items, upper);
    r := RollUp([], map[], FailIndex([], map[], map[]), [], 0, 0, 0);
    assert cards[..0] == [];
    for n := 0 to |reports|
      invariant RolledUp(r, cards[..n])
    {
      var row := reports[n];
      var c := CardOf(row, if row.id in byReport then byReport[row.id] else [], upper);
      r := AddReport(r, c, cards[..n]);
      assert cards[..n + 1] == cards[..n] + [c];
    }
    assert cards[..|reports|] == cards;
  }

  /** One pass over the reports, then the sorts and the cuts. */
  method ChecklistSummary(states: seq<Option<string>>, reports: seq<ReportRow>, items: seq<ItemRow>,
                          upper: string -> string) returns (result: Summary)
    ensures result == Expected(states, reports, items, upper)
  {
    var failedProcessing := CountIf(states, IsFailed);
    var missingAgentName := CountIf(reports, Unnamed);
    var byReport := GroupItems(items);
    var r := RollUpReports(reports, byReport, upper, items);
    ghost var cards := CardsOf(reports, items, upper);
    ListedAgentsAre(r.order, r.stats, cards);
    ListedItemsAre(r.failures, IncidentsOf(cards));
    result := Summary(|states|, |r.order|, r.clean, r.needReview, r.critical, failedProcessing, missingAgentName,
                      Sort(ListedAgents(r.order, r.stats), ByCritical),
                      Top(Sort(ListedItems(r.failures), ByAgents), TOP_K),
                      Top(Sort(r.calls, BySeverity), WORST_CALLS));
  }

  // ---- Conservation ----

  function RowCalls(r: AgentRow): int { r.calls }

  function RowPasses(r: AgentRow): int { r.passes }

  function RowFails(r: AgentRow): int { r.fails }

  function RowCritical(r: AgentRow): int { r.criticalFails }

  function ItemCalls(r: FailedItem): int { r.callsFailed }

  lemma {:induction false} RowsSum(cards: seq<Card>, agents: seq<string>, f: AgentRow -> int, g: string -> int)
    requires forall k :: g(k) == f(RowOf(k, StatOf(cards, k)))
    ensures SumBy(AgentRows(cards, agents), f) == SumBy(agents, g)
    decreases |agents|
  {
    if agents != [] {
      assert AgentRows(cards, agents)[1..] == AgentRows(cards, agents[1..]);
      RowsSum(cards, agents[1..], f, g);
    }
  }

  lemma {:induction false} ItemsSum(xs: seq<Incident>, keys: seq<ItemKey>, g: ItemKey -> int)
    requires forall k :: g(k) == CallsFailing(xs, k)
    ensures SumBy(FailedItems(xs, keys), ItemCalls) == SumBy(keys, g)
    decreases |keys|
  {
    if keys != [] {
      assert FailedItems(xs, keys)[1..] == FailedItems(xs, keys[1..]);
      ItemsSum(xs, keys[1..], g);
    }
  }

  lemma ColumnAddsUp(cards: seq<Card>, column: AgentRow -> int, f: Card -> int)
    requires forall k :: column(RowOf(k, StatOf(cards, k))) == SumWhere(cards, AgentKey, k, f)
    ensures SumBy(Sort(AgentRows(cards, FirstSeen(cards, AgentKey)), ByCritical), column) == SumBy(cards, f)
  {
    var g := k => SumWhere(cards, AgentKey, k, f);
    var rows := AgentRows(cards, FirstSeen(cards, AgentKey));
    RowsSum(cards, FirstSeen(cards, AgentKey), column, g);
    SumsSplit(cards, AgentKey, f, g);
    SortKeepsSum(rows, ByCritical, column);
  }

  /** The agents' rows add up to the batch: every report, pass, failure and critical failure, once. */
  lemma AgentsAddUp(states: seq<Option<string>>, reports: seq<ReportRow>, items: seq<ItemRow>, upper: string -> string)
    ensures var s := Expected(states, reports, items, upper);
      var cards := CardsOf(reports, items, upper);
      && |s.perAgent| == s.agents
      && SumBy(s.perAgent, RowCalls) == |reports|
      && SumBy(s.perAgent, RowPasses) == SumBy(cards, Passes)
      && SumBy(s.perAgent, RowFails) == SumBy(cards, Fails)
      && SumBy(s.perAgent, RowCritical) == s.criticalFails
  {
    var cards := CardsOf(reports, items, upper);
    ColumnAddsUp(cards, RowCalls, One);
    ColumnAddsUp(cards, RowPasses, Passes);
    ColumnAddsUp(cards, RowFails, Fails);
    ColumnAddsUp(cards, RowCritical, Critical);
    OnesCount(cards);
    SortKeepsLength(AgentRows(cards, FirstSeen(cards, AgentKey)), ByCritical);
  }

  lemma {:induction false} OnesCount(cards: seq<Card>)
    ensures SumBy(cards, One) == |cards|
    decreases |cards|
  {
    if cards != [] {
      OnesCount(cards[1..]);
    }
  }

  lemma SortKeepsLength<T>(xs: seq<T>, key: T -> Key)
    ensures |Sort(xs, key)| == |xs|
  {
    assert |multiset(Sort(xs, key))| == |multiset(xs)|;
  }

  lemma {:induction false} IncidentsCount(cards: seq<Card>)
    ensures |IncidentsOf(cards)| == SumBy(cards, Fails)
    decreases |cards|
  {
    if cards != [] {
      var last := |cards| - 1;
      IncidentsCount(cards[..last]);
      SumBySnoc(cards[..last], cards[last], Fails);
      assert cards == cards[..last] + [cards[last]];
    }
  }

  lemma {:induction false} OneEach(xs: seq<Incident>)
    ensures SumBy(xs, OneIncident) == |xs|
    decreases |xs|
  {
    if xs != [] {
      OneEach(xs[1..]);
    }
  }

  /** Before the list is cut, the items' failures add up to the agents' failures. */
  lemma ItemsAddUp(cards: seq<Card>)
    ensures var xs := IncidentsOf(cards);
      SumBy(FailedItems(xs, FirstSeen(xs, IncidentKey)), ItemCalls) == SumBy(cards, Fails)
  {
    var xs := IncidentsOf(cards);
    var g := k => CallsFailing(xs, k);
    ItemsSum(xs, FirstSeen(xs, IncidentKey), g);
    SumsSplit(xs, IncidentKey, OneIncident, g);
    OneEach(xs);
    IncidentsCount(cards);
  }

  /** A cut keeps the list together with what it dropped, and nothing dropped ranks above anything kept. */
  lemma CutKeepsTheTop<T>(xs: seq<T>, key: T -> Key, k: nat)
    ensures var kept, cut := Top(Sort(xs, key), k), Sort(xs, key)[|Top(Sort(xs, key), k)|..];
      && multiset(kept) + multiset(cut) == multiset(xs)
      && (|kept| == k || cut == [])
      && forall i, j | 0 <= i < |kept| && 0 <= j < |cut| :: Leq(key(kept[i]), key(cut[j]))
  {
    var sorted := Sort(xs, key);
    var n := |Top(sorted, k)|;
    assert sorted == sorted[..n] + sorted[n..];
    assert Top(sorted, k) == sorted[..n];
  }

  lemma RowIsListed(cards: seq<Card>, r: AgentRow)
    requires r in Sort(AgentRows(cards, FirstSeen(cards, AgentKey)), ByCritical)
    ensures r.agent in FirstSeen(cards, AgentKey) && r == RowOf(r.agent, StatOf(cards, r.agent))
  {
    var rows := AgentRows(cards, FirstSeen(cards, AgentKey));
    assert r in multiset(Sort(rows, ByCritical));
    assert r in rows;
  }

  /** Each agent's row names the first report that attains the agent's highest score. */
  lemma WorstReportIsNamed(cards: seq<Card>, r: AgentRow)
    requires r in Sort(AgentRows(cards, FirstSeen(cards, AgentKey)), ByCritical)
    ensures exists i :: IsWorst(cards, r.agent, i) && r.worstReportId == Some(cards[i].id)
  {
    RowIsListed(cards, r);
    FirstSeenIs(cards, AgentKey);
    var i := WorstIsHighest(cards, r.agent);
    assert IsWorst(cards, r.agent, i);
  }
}
