/** Which judged items are escalated, and the circuit breaker (backend/app/judge/routing.py). */
module Routing {
  import opened Wrappers

  type ItemId = nat

  datatype Config = Config(confidenceThreshold: real, minEvidenceChars: int, maxEscalationFraction: real)

  datatype ItemMeta = ItemMeta(id: ItemId, isSubjective: bool, risk: string)

  datatype Verdict = Verdict(id: ItemId, answer: string, confidence: real, evidence: string, needsReview: bool)

  datatype Reason = LearnedOverride | SubjectiveItem | LowConfidence | CriticalFail | SelfFlagged | ThinEvidence

  datatype DecidedBy = Primary | Tier1

  datatype Decision = Decision(id: ItemId, needsHumanReview: bool, decidedBy: DecidedBy, reason: Option<Reason>)

  datatype RoutingResult = RoutingResult(decisions: seq<Decision>, flagged: bool, fraction: real)

  function RiskRank(risk: string): nat
  {
    if risk == "CRITICAL" then 2 else if risk == "ELEVATED" then 1 else 0
  }

  const ELEVATED := 1

  // Why an item should escalate, the first reason that applies; None accepts the primary verdict.
  function EscalationReason(m: ItemMeta, v: Verdict, cfg: Config, overrides: set<ItemId>): Option<Reason>
  {
    if m.id in overrides then Some(LearnedOverride)
    else if m.isSubjective then Some(SubjectiveItem)
    else if v.confidence < cfg.confidenceThreshold then Some(LowConfidence)
    else if m.risk == "CRITICAL" && v.answer == "FAIL" then Some(CriticalFail)
    else if v.needsReview then Some(SelfFlagged)
    else if (v.answer == "PASS" || v.answer == "FAIL") && |v.evidence| < cfg.minEvidenceChars then Some(ThinEvidence)
    else None
  }

  // A dictionary comprehension over a list: the last entry of a key wins.
  function ById<T>(xs: seq<T>, id: T -> ItemId): map<ItemId, T>
  {
    if xs == [] then map[] else ById(xs[..|xs| - 1], id)[id(xs[|xs| - 1]) := xs[|xs| - 1]]
  }

  function VerdictId(v: Verdict): ItemId { v.id }

  function MetaId(m: ItemMeta): ItemId { m.id }

  // The reason of one item, None also where it has no verdict.
  function ReasonOf(m: ItemMeta, verdicts: map<ItemId, Verdict>, cfg: Config, overrides: set<ItemId>): Option<Reason>
  {
    if m.id in verdicts then EscalationReason(m, verdicts[m.id], cfg, overrides) else None
  }

  // The dictionary of reasons the first loop builds.
  function Raw(metas: seq<ItemMeta>, verdicts: map<ItemId, Verdict>, cfg: Config, overrides: set<ItemId>):
          map<ItemId, Reason>
  {
    if metas == [] then map[] else
    var last := metas[|metas| - 1];
    var rest := Raw(metas[..|metas| - 1], verdicts, cfg, overrides);
    var reason := ReasonOf(last, verdicts, cfg, overrides);
    if reason.Some? then rest[last.id := reason.value] else rest
  }

  function Total(metas: seq<ItemMeta>): nat
  {
    if metas == [] then 1 else |metas|
  }

  function Decide(id: ItemId, reason: Option<Reason>, tierCount: int): Decision
  {
    if reason.None? then Decision(id, false, Primary, None)
    else if tierCount > 1 then Decision(id, false, Tier1, reason)
    else Decision(id, true, Primary, reason)
  }

  function Kept(raw: map<ItemId, Reason>, metas: map<ItemId, ItemMeta>): map<ItemId, Reason>
  {
    map id | id in raw && id in metas && RiskRank(metas[id].risk) >= ELEVATED :: raw[id]
  }

  // What the two loops and the breaker between them compute.
  ghost predicate Routes(result: RoutingResult, metas: seq<ItemMeta>, verdicts: seq<Verdict>, cfg: Config,
          overrides: set<ItemId>, tierCount: int)
  {
    var raw := Raw(metas, ById(verdicts, VerdictId), cfg, overrides);
    var escalated := if result.flagged then Kept(raw, ById(metas, MetaId)) else raw;
    && result.fraction == |raw| as real / Total(metas) as real
    && (result.flagged <==> result.fraction > cfg.maxEscalationFraction)
    && |result.decisions| == |metas|
    && forall i | 0 <= i < |metas| ::
         result.decisions[i] == Decide(metas[i].id, if metas[i].id in escalated then Some(escalated[metas[i].id])
             else None, tierCount)
  }

  // ---- With one row per item, as the item keys guarantee -------------------------------------------

  predicate Distinct(metas: seq<ItemMeta>)
  {
    forall i, j | 0 <= i < j < |metas| :: metas[i].id != metas[j].id
  }

  function CountReasons(metas: seq<ItemMeta>, verdicts: map<ItemId, Verdict>, cfg: Config, overrides: set<ItemId>): nat
  {
    if metas == [] then 0 else
    var n := |metas| - 1;
    CountReasons(metas[..n], verdicts, cfg, overrides) + if ReasonOf(metas[n], verdicts, cfg, overrides).Some?
        then 1 else 0
  }

  lemma {:induction false} RawHasReasons(metas: seq<ItemMeta>, verdicts: map<ItemId, Verdict>, cfg: Config,
          overrides: set<ItemId>)
    requires Distinct(metas)
    ensures var raw := Raw(metas, verdicts, cfg, overrides);
            && (forall id <- raw :: exists i | 0 <= i < |metas| :: metas[i].id == id)
            && forall i | 0 <= i < |metas| ::
                 ReasonOf(metas[i], verdicts, cfg, overrides) == if metas[i].id in raw then Some(raw[metas[i].id])
                     else None
  {
    if metas != [] {
      var n := |metas| - 1;
      RawHasReasons(metas[..n], verdicts, cfg, overrides);
      var rest := Raw(metas[..n], verdicts, cfg, overrides);
      assert forall i | 0 <= i < n :: metas[..n][i] == metas[i];
      assert metas[n].id !in rest;
    }
  }

  lemma {:induction false} RawIsCounted(metas: seq<ItemMeta>, verdicts: map<ItemId, Verdict>, cfg: Config,
          overrides: set<ItemId>)
    requires Distinct(metas)
    ensures |Raw(metas, verdicts, cfg, overrides)| == CountReasons(metas, verdicts, cfg, overrides)
  {
    if metas != [] {
      var n := |metas| - 1;
      RawIsCounted(metas[..n], verdicts, cfg, overrides);
      RawHasReasons(metas[..n], verdicts, cfg, overrides);
      assert metas[n].id !in Raw(metas[..n], verdicts, cfg, overrides);
    }
  }

  lemma RawIsPerItem(metas: seq<ItemMeta>, verdicts: map<ItemId, Verdict>, cfg: Config, overrides: set<ItemId>)
    requires Distinct(metas)
    ensures var raw := Raw(metas, verdicts, cfg, overrides);
            && |raw| == CountReasons(metas, verdicts, cfg, overrides)
            && (forall id <- raw :: exists i | 0 <= i < |metas| :: metas[i].id == id)
            && forall i | 0 <= i < |metas| ::
                 ReasonOf(metas[i], verdicts, cfg, overrides) == if metas[i].id in raw then Some(raw[metas[i].id])
                     else None
  {
    RawIsCounted(metas, verdicts, cfg, overrides);
    RawHasReasons(metas, verdicts, cfg, overrides);
  }

  lemma {:induction false} MetasById(metas: seq<ItemMeta>)
    requires Distinct(metas)
    ensures forall i | 0 <= i < |metas| ::
      metas[i].id in ById(metas, MetaId) && ById(metas, MetaId)[metas[i].id] == metas[i]
  {
    if metas != [] {
      var n := |metas| - 1;
      assert forall i | 0 <= i < n :: metas[..n][i] == metas[i];
      MetasById(metas[..n]);
    }
  }

  // Coverage: decisions are one per item in order; an item with a reason is escalated for that reason
  // or, when the breaker has tripped, its whole call is flagged; a critical-risk FAIL is escalated
  // even then; and the breaker trips exactly when the share of items with a reason is over the limit.
  lemma EveryReasonIsCovered(result: RoutingResult, metas: seq<ItemMeta>, verdicts: seq<Verdict>, cfg: Config,
          overrides: set<ItemId>, tierCount: int)
    requires Distinct(metas) && Routes(result, metas, verdicts, cfg, overrides, tierCount)
    ensures var vs := ById(verdicts, VerdictId);
            && result.fraction == CountReasons(metas, vs, cfg, overrides) as real / Total(metas) as real
            && (result.flagged <==> result.fraction > cfg.maxEscalationFraction)
            && |result.decisions| == |metas|
            && forall i | 0 <= i < |metas| ::
                 var reason, d := ReasonOf(metas[i], vs, cfg, overrides), result.decisions[i];
                 && d.id == metas[i].id
                 && (reason.Some? ==> d.reason == reason || (result.flagged && d.reason.None?))
                 && (reason.None? ==> d.reason.None?)
                 && (d.needsHumanReview <==> d.reason.Some? && tierCount <= 1)
                 && (d.decidedBy.Tier1? <==> d.reason.Some? && tierCount > 1)
                 && (metas[i].id in vs && vs[metas[i].id].answer == "FAIL" && metas[i].risk == "CRITICAL" ==>
                     d.reason == reason && d.reason.Some?)
  {
    RawIsPerItem(metas, ById(verdicts, VerdictId), cfg, overrides);
    MetasById(metas);
  }

  // ---- What is escalated, said of the items and verdicts alone -------------------------------------

  const ORDER := [LearnedOverride, SubjectiveItem, LowConfidence, CriticalFail, SelfFlagged, ThinEvidence]

  predicate Holds(reason: Reason, m: ItemMeta, v: Verdict, cfg: Config, overrides: set<ItemId>)
  {
    match reason
    case LearnedOverride => m.id in overrides
    case SubjectiveItem => m.isSubjective
    case LowConfidence => v.confidence < cfg.confidenceThreshold
    case CriticalFail => m.risk == "CRITICAL" && v.answer == "FAIL"
    case SelfFlagged => v.needsReview
    case ThinEvidence => v.answer in {"PASS", "FAIL"} && |v.evidence| < cfg.minEvidenceChars
  }

  // The first reason, in that order, that holds.
  predicate FirstToHold(n: int, m: ItemMeta, v: Verdict, cfg: Config, overrides: set<ItemId>)
  {
    && 0 <= n < |ORDER| && Holds(ORDER[n], m, v, cfg, overrides)
    && forall k | 0 <= k < n :: !Holds(ORDER[k], m, v, cfg, overrides)
  }

  // The item's verdict is the last one sent for it.
  predicate IsVerdictOf(k: int, verdicts: seq<Verdict>, id: ItemId)
  {
    0 <= k < |verdicts| && verdicts[k].id == id && forall j | k < j < |verdicts| :: verdicts[j].id != id
  }

  predicate HasReason(m: ItemMeta, verdicts: seq<Verdict>, cfg: Config, overrides: set<ItemId>)
  {
    exists k | 0 <= k < |verdicts| ::
      && IsVerdictOf(k, verdicts, m.id)
      && exists r <- ORDER :: Holds(r, m, verdicts[k], cfg, overrides)
  }

  predicate IsReasonOf(r: Reason, m: ItemMeta, verdicts: seq<Verdict>, cfg: Config, overrides: set<ItemId>)
  {
    exists k | 0 <= k < |verdicts| ::
      && IsVerdictOf(k, verdicts, m.id)
      && exists n | 0 <= n < |ORDER| :: FirstToHold(n, m, verdicts[k], cfg, overrides) && ORDER[n] == r
  }

  ghost function WithReasons(metas: seq<ItemMeta>, verdicts: seq<Verdict>, cfg: Config, overrides: set<ItemId>):
          set<int>
  {
    set i | 0 <= i < |metas| && HasReason(metas[i], verdicts, cfg, overrides)
  }

  // One decision: escalated if there is a reason and, once the breaker has tripped, the risk is raised; for
  // its first reason, to the next tier if there is one and to a person if not.
  predicate DecidedAs(d: Decision, m: ItemMeta, verdicts: seq<Verdict>, cfg: Config, overrides: set<ItemId>,
          flagged: bool, tierCount: int)
  {
    && d.id == m.id
    && (d.reason.Some? <==>
          HasReason(m, verdicts, cfg, overrides) && (flagged ==> m.risk == "ELEVATED" || m.risk == "CRITICAL"))
    && (d.reason.Some? ==> IsReasonOf(d.reason.value, m, verdicts, cfg, overrides))
    && (d.needsHumanReview <==> d.reason.Some? && tierCount <= 1)
    && (d.decidedBy == Tier1 <==> d.reason.Some? && tierCount > 1)
  }

  // The breaker trips exactly if the share of items with a reason is over the limit.
  ghost predicate RoutedAs(result: RoutingResult, metas: seq<ItemMeta>, verdicts: seq<Verdict>, cfg: Config,
          overrides: set<ItemId>, tierCount: int)
  {
    && result.fraction == |WithReasons(metas, verdicts, cfg, overrides)| as real
                          / (if metas == [] then 1 else |metas|) as real
    && (result.flagged <==> result.fraction > cfg.maxEscalationFraction)
    && |result.decisions| == |metas|
    && forall i | 0 <= i < |metas| ::
         DecidedAs(result.decisions[i], metas[i], verdicts, cfg, overrides, result.flagged, tierCount)
  }

  lemma {:induction false} LastVerdict(verdicts: seq<Verdict>, id: ItemId)
    ensures id in ById(verdicts, VerdictId) <==> exists k | 0 <= k < |verdicts| :: IsVerdictOf(k, verdicts, id)
    ensures forall k | IsVerdictOf(k, verdicts, id) :: id in ById(verdicts, VerdictId)
                && ById(verdicts, VerdictId)[id] == verdicts[k]
    decreases |verdicts|
  {
    if verdicts != [] {
      var n := |verdicts| - 1;
      LastVerdict(verdicts[..n], id);
      if verdicts[n].id == id {
        assert IsVerdictOf(n, verdicts, id);
      } else {
        forall k
          ensures IsVerdictOf(k, verdicts, id) <==> IsVerdictOf(k, verdicts[..n], id)
        {}
      }
    }
  }

  lemma FirstReasonHolds(m: ItemMeta, v: Verdict, cfg: Config, overrides: set<ItemId>)
    ensures var reason := EscalationReason(m, v, cfg, overrides);
            && (reason.Some? <==> exists r <- ORDER :: Holds(r, m, v, cfg, overrides))
            && (reason.Some? ==>
                  exists n | 0 <= n < |ORDER| :: FirstToHold(n, m, v, cfg, overrides) && ORDER[n] == reason.value)
  {
    assert ORDER[0] == LearnedOverride && ORDER[1] == SubjectiveItem && ORDER[2] == LowConfidence;
    assert ORDER[3] == CriticalFail && ORDER[4] == SelfFlagged && ORDER[5] == ThinEvidence;
    var reason := EscalationReason(m, v, cfg, overrides);
    match reason
    case None =>
    case Some(LearnedOverride) => assert FirstToHold(0, m, v, cfg, overrides);
    case Some(SubjectiveItem) => assert FirstToHold(1, m, v, cfg, overrides);
    case Some(LowConfidence) => assert FirstToHold(2, m, v, cfg, overrides);
    case Some(CriticalFail) => assert FirstToHold(3, m, v, cfg, overrides);
    case Some(SelfFlagged) => assert FirstToHold(4, m, v, cfg, overrides);
    case Some(ThinEvidence) => assert FirstToHold(5, m, v, cfg, overrides);
  }

  lemma ReasonIs(m: ItemMeta, verdicts: seq<Verdict>, cfg: Config, overrides: set<ItemId>)
    ensures var reason := ReasonOf(m, ById(verdicts, VerdictId), cfg, overrides);
            && (reason.Some? <==> HasReason(m, verdicts, cfg, overrides))
            && (reason.Some? ==> IsReasonOf(reason.value, m, verdicts, cfg, overrides))
  {
    LastVerdict(verdicts, m.id);
    var vs := ById(verdicts, VerdictId);
    if m.id in vs {
      var k :| 0 <= k < |verdicts| && IsVerdictOf(k, verdicts, m.id);
      FirstReasonHolds(m, verdicts[k], cfg, overrides);
      assert forall j | IsVerdictOf(j, verdicts, m.id) :: j == k;
    }
  }

  lemma OneMoreReason(metas: seq<ItemMeta>, verdicts: seq<Verdict>, cfg: Config, overrides: set<ItemId>)
    requires metas != []
    ensures var n := |metas| - 1;
            |WithReasons(metas, verdicts, cfg, overrides)|
            == |WithReasons(metas[..n], verdicts, cfg, overrides)|
             + if HasReason(metas[n], verdicts, cfg, overrides) then 1 else 0
  {
    var n := |metas| - 1;
    var all, before := WithReasons(metas, verdicts, cfg, overrides), WithReasons(metas[..n], verdicts, cfg, overrides);
    assert all == if HasReason(metas[n], verdicts, cfg, overrides) then before + {n} else before;
  }

  lemma {:induction false} ReasonsAreCounted(metas: seq<ItemMeta>, verdicts: seq<Verdict>, cfg: Config,
          overrides: set<ItemId>)
    ensures CountReasons(metas, ById(verdicts, VerdictId), cfg, overrides)
         == |WithReasons(metas, verdicts, cfg, overrides)|
    decreases |metas|
  {
    if metas == [] {
      assert WithReasons(metas, verdicts, cfg, overrides) == {};
    } else {
      ReasonsAreCounted(metas[..|metas| - 1], verdicts, cfg, overrides);
      OneMoreReason(metas, verdicts, cfg, overrides);
      ReasonIs(metas[|metas| - 1], verdicts, cfg, overrides);
    }
  }

  lemma RoutesAsTold(result: RoutingResult, metas: seq<ItemMeta>, verdicts: seq<Verdict>, cfg: Config,
          overrides: set<ItemId>, tierCount: int)
    requires Distinct(metas) && Routes(result, metas, verdicts, cfg, overrides, tierCount)
    ensures RoutedAs(result, metas, verdicts, cfg, overrides, tierCount)
  {
    ReasonsAreCounted(metas, verdicts, cfg, overrides);
    RawIsPerItem(metas, ById(verdicts, VerdictId), cfg, overrides);
    MetasById(metas);
    forall i | 0 <= i < |metas|
      ensures DecidedAs(result.decisions[i], metas[i], verdicts, cfg, overrides, result.flagged, tierCount)
    {
      ReasonIs(metas[i], verdicts, cfg, overrides);
    }
  }

  // `decide_routing`.
  method DecideRouting(metas: seq<ItemMeta>, verdicts: seq<Verdict>, cfg: Config, overrides: set<ItemId>,
          tierCount: int)
    returns (result: RoutingResult)
    ensures Routes(result, metas, verdicts, cfg, overrides, tierCount)
    ensures Distinct(metas) ==> RoutedAs(result, metas, verdicts, cfg, overrides, tierCount)
  {
    var byId, verdictById := ById(metas, MetaId), ById(verdicts, VerdictId);
    var raw: map<ItemId, Reason> := map[];
    for i := 0 to |metas|
      invariant raw == Raw(metas[..i], verdictById, cfg, overrides)
    {
      assert metas[..i + 1][..i] == metas[..i];
      var m := metas[i];
      if m.id in verdictById {
        var reason := EscalationReason(m, verdictById[m.id], cfg, overrides);
        if reason.Some? { raw := raw[m.id := reason.value]; }
      }
    }
    assert metas[..|metas|] == metas;
    var fraction := |raw| as real / Total(metas) as real;
    var flagged, escalated := false, raw;
    if fraction > cfg.maxEscalationFraction {
      flagged, escalated := true, Kept(raw, byId);
    }
    var decisions: seq<Decision> := [];
    for i := 0 to |metas|
      invariant |decisions| == i
      invariant forall k | 0 <= k < i ::
                  decisions[k] == Decide(metas[k].id, if metas[k].id in escalated then Some(escalated[metas[k].id])
                      else None, tierCount)
    {
      var id := metas[i].id;
      if id !in escalated {
        decisions := decisions + [Decision(id, false, Primary, None)];
      } else if tierCount > 1 {
        decisions := decisions + [Decision(id, false, Tier1, Some(escalated[id]))];
      } else {
        decisions := decisions + [Decision(id, true, Primary, Some(escalated[id]))];
      }
    }
    result := RoutingResult(decisions, flagged, fraction);
    if Distinct(metas) { RoutesAsTold(result, metas, verdicts, cfg, overrides, tierCount); }
  }
}
