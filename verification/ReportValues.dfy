/** The values a report's template is given, said of the report: verdicts, flags, texts and items. */
module ReportValues {
  import opened Wrappers
  import opened TemplateValidator
  import opened TemplateRenderer
  import opened ReportContext

  // ---- A value per name --------------------------------------------------------------------------

  const LIST_NAMES: seq<string> := ["strengths", "development", "items", "objections", "ideal_conversation", "extra"]

  predicate NamedAs(pairs: seq<(string, Value)>, names: seq<string>)
  {
    |pairs| == |names| && forall i | 0 <= i < |pairs| :: pairs[i].0 == names[i]
  }

  function NamesOf(kinds: seq<(string, Kind)>): seq<string>
  {
    seq(|kinds|, i requires 0 <= i < |kinds| => kinds[i].0)
  }

  predicate Apart(a: seq<string>, b: seq<string>)
  {
    forall i, j | 0 <= i < |a| && 0 <= j < |b| :: a[i] != b[j]
  }

  predicate Distinct(names: seq<string>)
  {
    forall i, j | 0 <= i < j < |names| :: names[i] != names[j]
  }

  lemma HeaderNames()
    ensures Distinct(NamesOf(HEADER_FIELDS))
  {}

  lemma NarrativeNames()
    ensures Distinct(NamesOf(NARRATIVE_FIELDS))
  {}

  lemma ListNames()
    ensures Distinct(LIST_NAMES)
  {}

  lemma HeaderAgainstNarrative()
    ensures Apart(NamesOf(HEADER_FIELDS), NamesOf(NARRATIVE_FIELDS))
  {}

  lemma HeaderAgainstLists()
    ensures Apart(NamesOf(HEADER_FIELDS), LIST_NAMES)
  {}

  lemma NarrativeAgainstLists()
    ensures Apart(NamesOf(NARRATIVE_FIELDS), LIST_NAMES)
  {}

  predicate Has(fields: map<string, Value>, name: string, val: Value)
  {
    name in fields && fields[name] == val
  }

  // Every name of a stretch has its own value.
  predicate Gives(fields: map<string, Value>, pairs: seq<(string, Value)>)
  {
    forall i | 0 <= i < |pairs| :: Has(fields, pairs[i].0, pairs[i].1)
  }

  lemma StretchGives(before: seq<(string, Value)>, pairs: seq<(string, Value)>, after: seq<(string, Value)>,
          names: seq<string>, later: seq<string>)
    requires NamedAs(pairs, names) && NamedAs(after, later) && Distinct(names) && Apart(names, later)
    ensures Gives(Entries(before + pairs + after), pairs)
  {
    var all := before + pairs + after;
    forall i | 0 <= i < |pairs|
      ensures Has(Entries(all), pairs[i].0, pairs[i].1)
    {
      assert all[|before| + i] == pairs[i];
      forall j | |before| + i < j < |all|
        ensures all[j].0 != pairs[i].0
      {
        if j < |before| + |pairs| { assert all[j] == pairs[j - |before|]; }
        else { assert all[j] == after[j - |before| - |pairs|]; }
      }
      EntryAt(all, |before| + i);
    }
  }

  lemma ApartFromBoth(a: seq<string>, b: seq<string>, c: seq<string>)
    requires Apart(a, b) && Apart(a, c)
    ensures Apart(a, b + c)
  {}

  function OrNone<T>(xs: Option<seq<T>>): seq<T> { if xs.None? then [] else xs.value }

  function ListsOf(r: Report, lib: Text): seq<(string, Value)>
  {
    ListEntries(r, Items(r.items, lib), Objections(r.objections), Turns(OrNone(r.narrative.idealConversation)))
  }

  lemma StretchesAreNamed(r: Report, lib: Text)
    ensures NamedAs(HeaderEntries(r, lib), NamesOf(HEADER_FIELDS))
    ensures NamedAs(NarrativeEntries(r), NamesOf(NARRATIVE_FIELDS))
  {
    assert Matches(HeaderEntries(r, lib), HEADER_FIELDS) && Matches(NarrativeEntries(r), NARRATIVE_FIELDS);
  }

  lemma ListsAreNamed(r: Report, items: Value, objections: Value, turns: Value)
    ensures NamedAs(ListEntries(r, items, objections, turns), LIST_NAMES)
  {}

  lemma StretchesGive(h: seq<(string, Value)>, n: seq<(string, Value)>, l: seq<(string, Value)>)
    requires NamedAs(h, NamesOf(HEADER_FIELDS)) && NamedAs(n, NamesOf(NARRATIVE_FIELDS)) && NamedAs(l, LIST_NAMES)
    ensures var ctx := Entries(h + n + l); Gives(ctx, h) && Gives(ctx, n) && Gives(ctx, l)
  {
    HeaderNames();
    NarrativeNames();
    ListNames();
    HeaderAgainstNarrative();
    HeaderAgainstLists();
    NarrativeAgainstLists();
    ApartFromBoth(NamesOf(HEADER_FIELDS), NamesOf(NARRATIVE_FIELDS), LIST_NAMES);
    StretchGives([], h, n + l, NamesOf(HEADER_FIELDS), NamesOf(NARRATIVE_FIELDS) + LIST_NAMES);
    StretchGives(h, n, l, NamesOf(NARRATIVE_FIELDS), LIST_NAMES);
    StretchGives(h + n, l, [], LIST_NAMES, []);
    assert [] + h + (n + l) == h + n + l && h + n + l + [] == h + n + l;
  }

  lemma ContextGives(r: Report, lib: Text)
    ensures var ctx := BuildContext(r, lib);
            Gives(ctx, HeaderEntries(r, lib)) && Gives(ctx, NarrativeEntries(r)) && Gives(ctx, ListsOf(r, lib))
  {
    StretchesAreNamed(r, lib);
    ListsAreNamed(r, Items(r.items, lib), Objections(r.objections), Turns(OrNone(r.narrative.idealConversation)));
    StretchesGive(HeaderEntries(r, lib), NarrativeEntries(r), ListsOf(r, lib));
  }

  // ---- Verdicts of the two sections --------------------------------------------------------------

  function Or(s: Option<string>): string { if s == None then "" else s.value }

  // Not a free-text item.
  predicate Graded(it: Item, lib: Text)
  {
    !it.isSubjective && lib.upper(Or(it.answerType)) != "TEXT"
  }

  ghost predicate Mentions(s: string, part: string)
  {
    exists before, after :: s == before + part + after
  }

  // Graded items of the compliance sections, or of the others.
  ghost predicate Counts(it: Item, compliance: bool, lib: Text)
  {
    Graded(it, lib) && (Mentions(lib.lower(Or(it.section)), "complian") <==> compliance)
  }

  // FAIL exactly if an item that counts failed, NA exactly if none counts.
  ghost predicate VerdictSays(v: Value, items: seq<Item>, compliance: bool, lib: Text)
  {
    && (v == Str("FAIL") <==> exists it <- items :: Counts(it, compliance, lib) && lib.upper(Or(it.answer)) == "FAIL")
    && (v == Str("NA") <==> forall it <- items :: !Counts(it, compliance, lib))
    && (v == Str("PASS") || v == Str("FAIL") || v == Str("NA"))
  }

  lemma MentionsIsContains(s: string, part: string)
    ensures Contains(s, part) <==> Mentions(s, part)
  {
    if Contains(s, part) {
      var i :| 0 <= i <= |s| && part <= s[i..];
      assert s == s[..i] + part + s[i..][|part|..];
    }
    if Mentions(s, part) {
      var before, after :| s == before + part + after;
      assert s[|before|..] == part + after;
    }
  }

  lemma VerdictIsTold(items: seq<Item>, compliance: bool, lib: Text)
    ensures VerdictSays(Str(Overall(items, compliance, lib)), items, compliance, lib)
  {
    forall it | it in items
      ensures InSection(it, compliance, lib) <==> Counts(it, compliance, lib)
      ensures Normalized(it.answer, lib) == "FAIL" <==> lib.upper(Or(it.answer)) == "FAIL"
    {
      MentionsIsContains(lib.lower(Or(it.section)), "complian");
    }
  }

  // ---- Values by name ----------------------------------------------------------------------------

  predicate HeaderSays(ctx: map<string, Value>, r: Report)
  {
    && Has(ctx, "agent_name", Str(r.agentName)) && Has(ctx, "call_id", Str(r.callId))
    && Has(ctx, "recording_filename", Str(Or(r.originalFilename))) && Has(ctx, "generated", Str(r.generated))
    && Has(ctx, "option", Str(Or(r.option))) && Has(ctx, "flagged_for_review", Bool(r.flaggedForReview))
    && Has(ctx, "flag_reason", Str(Or(r.flagReason)))
  }

  ghost predicate VerdictsSay(ctx: map<string, Value>, r: Report, lib: Text)
  {
    && "compliance_verdict" in ctx && VerdictSays(ctx["compliance_verdict"], r.items, true, lib)
    && "quality_verdict" in ctx && VerdictSays(ctx["quality_verdict"], r.items, false, lib)
  }

  predicate Given<T(==)>(xs: Option<seq<T>>) { xs != None && xs != Some([]) }

  predicate NarrativeSays(ctx: map<string, Value>, r: Report)
  {
    var n := r.narrative;
    && Has(ctx, "summary", Str(Or(n.summary))) && Has(ctx, "coaching", Str(Or(n.coaching)))
    && Has(ctx, "compliance", Str(Or(n.compliance))) && Has(ctx, "already_ideal", Bool(n.alreadyIdeal == Some(true)))
    && Has(ctx, "has_feedback",
           Bool(Given(n.coaching) || Given(n.compliance) || Given(n.strengths) || Given(n.development)))
    && Has(ctx, "has_checklist", Bool(|r.items| > 0)) && Has(ctx, "has_objections", Bool(|r.objections| > 0))
    && Has(ctx, "has_ideal", Bool(n.idealConversation != None || n.alreadyIdeal != None))
  }

  lemma HeaderIsTold(ctx: map<string, Value>, r: Report, lib: Text)
    requires Gives(ctx, HeaderEntries(r, lib))
    ensures HeaderSays(ctx, r)
  {
    var h := HeaderEntries(r, lib);
    assert h[0].0 == "agent_name" && h[1].0 == "call_id" && h[2].0 == "recording_filename" && h[3].0 == "generated";
    assert h[4].0 == "option" && h[5].0 == "flagged_for_review" && h[6].0 == "flag_reason";
  }

  lemma VerdictsAreTold(ctx: map<string, Value>, r: Report, lib: Text)
    requires Gives(ctx, HeaderEntries(r, lib))
    ensures VerdictsSay(ctx, r, lib)
  {
    VerdictIsTold(r.items, true, lib);
    VerdictIsTold(r.items, false, lib);
    var h := HeaderEntries(r, lib);
    assert h[7] == ("compliance_verdict", Str(Overall(r.items, true, lib)));
    assert h[8] == ("quality_verdict", Str(Overall(r.items, false, lib)));
  }

  lemma NarrativeIsTold(ctx: map<string, Value>, r: Report)
    requires Gives(ctx, NarrativeEntries(r))
    ensures NarrativeSays(ctx, r)
  {
    var n := NarrativeEntries(r);
    assert n[0].0 == "summary" && n[1].0 == "coaching" && n[2].0 == "compliance" && n[3].0 == "already_ideal";
    assert n[4].0 == "has_feedback" && n[5].0 == "has_checklist" && n[6].0 == "has_ideal";
    assert n[7].0 == "has_objections";
  }

  // ---- Lists -------------------------------------------------------------------------------------

  function AnswerOf(it: Item, lib: Text): string
  {
    var a := lib.upper(Or(it.answer));
    if a in {"PASS", "FAIL", "NA"} then a else "NA"
  }

  // One item as the template sees it; what is shown for a free-text one is what was written.
  predicate ItemTexts(fields: map<string, Value>, it: Item)
  {
    && Has(fields, "section", Str(Or(it.section))) && Has(fields, "text", Str(Or(it.text)))
    && Has(fields, "raw_answer", Str(Or(it.rawAnswer))) && Has(fields, "evidence_quote", Str(Or(it.evidenceQuote)))
    && Has(fields, "comment", Str(Or(it.comment)))
    && Has(fields, "evidence_offset_sec",
           if it.evidenceOffsetSec == None then Str("") else Num(it.evidenceOffsetSec.value))
  }

  predicate ItemGrades(fields: map<string, Value>, it: Item, lib: Text)
  {
    && Has(fields, "answer", Str(AnswerOf(it, lib)))
    && Has(fields, "confidence", if it.confidence == None then Str("") else Num(lib.round2(it.confidence.value)))
    && Has(fields, "needs_review", Bool(it.needsHumanReview)) && Has(fields, "is_subjective", Bool(!Graded(it, lib)))
    && Has(fields, "answer_display",
           Str(if Graded(it, lib) then AnswerOf(it, lib)
               else if Given(it.rawAnswer) then it.rawAnswer.value else "\U{2014}"))
  }

  predicate ItemSays(v: Value, it: Item, lib: Text)
  {
    v.Dict? && ItemTexts(v.fields, it) && ItemGrades(v.fields, it, lib)
  }

  predicate ObjectionSays(v: Value, o: Objection)
  {
    && v.Dict? && Has(v.fields, "text", Str(Or(o.text))) && Has(v.fields, "category", Str(Or(o.category)))
    && Has(v.fields, "cleared", Bool(o.cleared))
  }

  predicate TurnSays(v: Value, t: Turn)
  {
    v.Dict? && Has(v.fields, "speaker", Str(t.speaker)) && Has(v.fields, "text", Str(t.text))
  }

  lemma {:induction false} ObjectAt(rows: seq<seq<(string, Value)>>, kinds: seq<(string, Kind)>, i: nat)
    requires (forall row <- rows :: Matches(row, kinds)) && forall k | 0 <= k < |kinds| :: kinds[k].0 != ""
    requires i < |rows|
    ensures Objects(rows, kinds).items[i] == Dict(Entries(rows[i]))
    decreases |rows|
  {
    if i > 0 {
      assert rows[1..][i - 1] == rows[i];
      ObjectAt(rows[1..], kinds, i - 1);
    }
  }

  lemma ItemNames()
    ensures Distinct(NamesOf(ITEM_FIELDS))
  {}

  lemma EntriesGive(pairs: seq<(string, Value)>, names: seq<string>)
    requires NamedAs(pairs, names) && Distinct(names)
    ensures Gives(Entries(pairs), pairs)
  {
    forall i | 0 <= i < |pairs|
      ensures Has(Entries(pairs), pairs[i].0, pairs[i].1)
    {
      EntryAt(pairs, i);
    }
  }

  lemma ItemTextsAreTold(it: Item, lib: Text, fields: map<string, Value>)
    requires Gives(fields, ItemEntries(it, lib))
    ensures ItemTexts(fields, it)
  {
    var e := ItemEntries(it, lib);
    assert e[0].0 == "section" && e[1].0 == "text" && e[3].0 == "raw_answer" && e[5].0 == "evidence_quote";
    assert e[6].0 == "evidence_offset_sec" && e[7].0 == "comment";
  }

  lemma ItemGradesAreTold(it: Item, lib: Text, fields: map<string, Value>)
    requires Gives(fields, ItemEntries(it, lib))
    ensures ItemGrades(fields, it, lib)
  {
    var e := ItemEntries(it, lib);
    assert e[2].0 == "answer" && e[4].0 == "confidence" && e[8].0 == "needs_review" && e[9].0 == "is_subjective";
    assert e[10].0 == "answer_display";
    assert FreeText(it, lib) <==> !Graded(it, lib);
  }

  lemma ObjectionIsTold(o: Objection)
    ensures ObjectionSays(Dict(Entries(ObjectionEntries(o))), o)
  {
    var e := ObjectionEntries(o);
    EntryAt(e, 0);
    EntryAt(e, 1);
    EntryAt(e, 2);
  }

  lemma TurnIsTold(t: Turn)
    ensures TurnSays(Dict(Entries(TurnEntries(t))), t)
  {
    var e := TurnEntries(t);
    EntryAt(e, 0);
    EntryAt(e, 1);
  }

  predicate IsList<T>(ctx: map<string, Value>, name: string, xs: seq<T>)
  {
    name in ctx && ctx[name].List? && |ctx[name].items| == |xs|
  }

  predicate TextsSay(ctx: map<string, Value>, r: Report)
  {
    && IsList(ctx, "strengths", OrNone(r.narrative.strengths))
    && StringsSay(ctx["strengths"].items, OrNone(r.narrative.strengths))
    && IsList(ctx, "development", OrNone(r.narrative.development))
    && StringsSay(ctx["development"].items, OrNone(r.narrative.development))
    && Has(ctx, "extra", Dict(r.extra))
  }

  predicate StringsSay(vs: seq<Value>, ts: seq<string>)
  {
    |vs| == |ts| && forall i | 0 <= i < |ts| :: vs[i] == Str(ts[i])
  }

  lemma ItemsAreTold(items: seq<Item>, lib: Text)
    ensures ItemsSay(Items(items, lib), items, lib)
  {
    var rows := seq(|items|, i requires 0 <= i < |items| => ItemEntries(items[i], lib));
    forall i | 0 <= i < |items|
      ensures ItemSays(Items(items, lib).items[i], items[i], lib)
    {
      ObjectAt(rows, ITEM_FIELDS, i);
      ItemNames();
      EntriesGive(rows[i], NamesOf(ITEM_FIELDS));
      ItemTextsAreTold(items[i], lib, Entries(rows[i]));
      ItemGradesAreTold(items[i], lib, Entries(rows[i]));
    }
  }

  lemma ObjectionsAreTold(objections: seq<Objection>)
    ensures ObjectionsSay(Objections(objections), objections)
  {
    var rows := seq(|objections|, i requires 0 <= i < |objections| => ObjectionEntries(objections[i]));
    forall i | 0 <= i < |objections|
      ensures ObjectionSays(Objections(objections).items[i], objections[i])
    {
      ObjectAt(rows, OBJECTION_FIELDS, i);
      ObjectionIsTold(objections[i]);
    }
  }

  lemma TurnsAreTold(turns: seq<Turn>)
    ensures TurnsSay(Turns(turns), turns)
  {
    var rows := seq(|turns|, i requires 0 <= i < |turns| => TurnEntries(turns[i]));
    forall i | 0 <= i < |turns|
      ensures TurnSays(Turns(turns).items[i], turns[i])
    {
      ObjectAt(rows, TURN_FIELDS, i);
      TurnIsTold(turns[i]);
    }
  }

  lemma ListsAreGiven(ctx: map<string, Value>, r: Report, items: Value, objections: Value, turns: Value)
    requires Gives(ctx, ListEntries(r, items, objections, turns))
    ensures Has(ctx, "items", items) && Has(ctx, "objections", objections) && Has(ctx, "ideal_conversation", turns)
    ensures Has(ctx, "strengths", Strings(r.narrative.strengths))
    ensures Has(ctx, "development", Strings(r.narrative.development)) && Has(ctx, "extra", Dict(r.extra))
  {
    var l := ListEntries(r, items, objections, turns);
    assert l[0].0 == "strengths" && l[1].0 == "development" && l[2].0 == "items" && l[3].0 == "objections";
    assert l[4].0 == "ideal_conversation" && l[5].0 == "extra";
  }

  lemma TextsAreTold(ctx: map<string, Value>, r: Report)
    requires Has(ctx, "strengths", Strings(r.narrative.strengths)) && Has(ctx, "extra", Dict(r.extra))
    requires Has(ctx, "development", Strings(r.narrative.development))
    ensures TextsSay(ctx, r)
  {}

  predicate ItemsSay(v: Value, items: seq<Item>, lib: Text)
  {
    v.List? && |v.items| == |items| && forall i | 0 <= i < |items| :: ItemSays(v.items[i], items[i], lib)
  }

  predicate ObjectionsSay(v: Value, objections: seq<Objection>)
  {
    v.List? && |v.items| == |objections| && forall i | 0 <= i < |objections| :: ObjectionSays(v.items[i], objections[i])
  }

  predicate TurnsSay(v: Value, turns: seq<Turn>)
  {
    v.List? && |v.items| == |turns| && forall i | 0 <= i < |turns| :: TurnSays(v.items[i], turns[i])
  }

  predicate ListsSay(ctx: map<string, Value>, r: Report, lib: Text)
  {
    && "items" in ctx && ItemsSay(ctx["items"], r.items, lib)
    && "objections" in ctx && ObjectionsSay(ctx["objections"], r.objections)
    && "ideal_conversation" in ctx && TurnsSay(ctx["ideal_conversation"], OrNone(r.narrative.idealConversation))
  }

  lemma ListsAreTold(ctx: map<string, Value>, r: Report, lib: Text, items: Value, objections: Value, turns: Value)
    requires Gives(ctx, ListEntries(r, items, objections, turns)) && ItemsSay(items, r.items, lib)
    requires ObjectionsSay(objections, r.objections) && TurnsSay(turns, OrNone(r.narrative.idealConversation))
    ensures ListsSay(ctx, r, lib) && TextsSay(ctx, r)
  {
    ListsAreGiven(ctx, r, items, objections, turns);
    TextsAreTold(ctx, r);
  }

  // Every value of the context, by name.
  lemma ContextIsTold(r: Report, lib: Text)
    ensures var ctx := BuildContext(r, lib);
            && HeaderSays(ctx, r) && VerdictsSay(ctx, r, lib) && NarrativeSays(ctx, r)
            && ListsSay(ctx, r, lib) && TextsSay(ctx, r)
  {
    ContextGives(r, lib);
    HeaderIsTold(BuildContext(r, lib), r, lib);
    VerdictsAreTold(BuildContext(r, lib), r, lib);
    NarrativeIsTold(BuildContext(r, lib), r);
    var turns := OrNone(r.narrative.idealConversation);
    ItemsAreTold(r.items, lib);
    ObjectionsAreTold(r.objections);
    TurnsAreTold(turns);
    ListsAreTold(BuildContext(r, lib), r, lib, Items(r.items, lib), Objections(r.objections), Turns(turns));
  }
}
