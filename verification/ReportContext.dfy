/** The report data dictionary (`DATA_FIELDS`) and the data built for it (`build_context`). */
module ReportContext {
  import opened Wrappers
  import opened TemplateSyntax
  import opened TemplateValidator
  import opened TemplateRenderer
  import opened TemplateAgreement
  import opened TemplateDisagreement

  // A dictionary display: its entries in order, the last one winning.
  function Entries<T>(pairs: seq<(string, T)>): (m: map<string, T>)
    ensures forall n :: n in m <==> exists i | 0 <= i < |pairs| :: pairs[i].0 == n
  {
    if pairs == [] then map[] else
    var last := |pairs| - 1;
    var rest := Entries(pairs[..last]);
    assert forall i | 0 <= i < last :: pairs[..last][i] == pairs[i];
    rest[pairs[last].0 := pairs[last].1]
  }

  // Two displays with the same names in the same order, each value of its kind.
  predicate Matches(values: seq<(string, Value)>, kinds: seq<(string, Kind)>)
  {
    && |values| == |kinds|
    && forall i | 0 <= i < |values| ::
         values[i].0 == kinds[i].0 && kinds[i].0 != "" && HasKind(values[i].1, kinds[i].1)
  }

  lemma {:induction false} MatchingEntriesFit(values: seq<(string, Value)>, kinds: seq<(string, Kind)>)
    requires Matches(values, kinds)
    ensures HasKind(Dict(Entries(values)), Object(Entries(kinds)))
  {
    var v, k := Entries(values), Entries(kinds);
    if values == [] {
      assert v.Keys == k.Keys;
    } else {
      var last := |values| - 1;
      MatchingEntriesFit(values[..last], kinds[..last]);
      var v', k' := Entries(values[..last]), Entries(kinds[..last]);
      assert HasKind(Dict(v'), Object(k'));
      assert v.Keys == v'.Keys + {values[last].0} && k.Keys == k'.Keys + {kinds[last].0};
      forall n | n in k
        ensures HasKind(v[n], k[n])
      {
        assert n != kinds[last].0 ==> n in k' && v[n] == v'[n] && k[n] == k'[n];
      }
    }
  }

  const ITEM_FIELDS: seq<(string, Kind)> := [
    ("section", Scalar), ("text", Scalar), ("answer", Scalar), ("raw_answer", Scalar),
    ("confidence", Scalar), ("evidence_quote", Scalar), ("evidence_offset_sec", Scalar),
    ("comment", Scalar), ("needs_review", Flag), ("is_subjective", Flag), ("answer_display", Scalar)]

  const OBJECTION_FIELDS: seq<(string, Kind)> := [("text", Scalar), ("category", Scalar), ("cleared", Flag)]

  const TURN_FIELDS: seq<(string, Kind)> := [("speaker", Scalar), ("text", Scalar)]

  // The dictionary, in its own order and in three stretches.
  const HEADER_FIELDS: seq<(string, Kind)> := [
    ("agent_name", Scalar), ("call_id", Scalar), ("recording_filename", Scalar), ("generated", Scalar),
    ("option", Scalar), ("flagged_for_review", Flag), ("flag_reason", Scalar),
    ("compliance_verdict", Scalar), ("quality_verdict", Scalar)]

  const NARRATIVE_FIELDS: seq<(string, Kind)> := [
    ("summary", Scalar), ("coaching", Scalar), ("compliance", Scalar), ("already_ideal", Flag),
    ("has_feedback", Flag), ("has_checklist", Flag), ("has_ideal", Flag), ("has_objections", Flag)]

  function ListFields(item: Schema, objection: Schema, turn: Schema): seq<(string, Kind)>
  {
    [("strengths", ScalarList), ("development", ScalarList), ("items", ObjectList(item)),
     ("objections", ObjectList(objection)), ("ideal_conversation", ObjectList(turn)), ("extra", Dynamic)]
  }

  function DataFields(item: Schema, objection: Schema, turn: Schema): Schema
  {
    Entries(HEADER_FIELDS + NARRATIVE_FIELDS + ListFields(item, objection, turn))
  }

  const DATA_FIELDS: Schema := DataFields(Entries(ITEM_FIELDS), Entries(OBJECTION_FIELDS), Entries(TURN_FIELDS))

  datatype Item = Item(
    section: Option<string>, text: Option<string>, answer: Option<string>, rawAnswer: Option<string>,
    answerType: Option<string>, isSubjective: bool, confidence: Option<real>,
    evidenceQuote: Option<string>, evidenceOffsetSec: Option<real>, comment: Option<string>,
    needsHumanReview: bool)

  datatype Objection = Objection(text: Option<string>, category: Option<string>, cleared: bool)

  datatype Turn = Turn(speaker: string, text: string)

  // What the feedback and rewriting agents wrote; None where the key is absent.
  datatype Narrative = Narrative(
    summary: Option<string>, coaching: Option<string>, compliance: Option<string>,
    strengths: Option<seq<string>>, development: Option<seq<string>>,
    alreadyIdeal: Option<bool>, idealConversation: Option<seq<Turn>>)

  // `callId` is the id's first eight characters and `generated` the formatted date.
  datatype Report = Report(
    agentName: string, callId: string, originalFilename: Option<string>, generated: string,
    option: Option<string>, flaggedForReview: bool, flagReason: Option<string>,
    narrative: Narrative, items: seq<Item>, objections: seq<Objection>, extra: map<string, Value>)

  // Library calls the context is built with: upper- and lower-casing, and rounding to two places.
  datatype Text = Text(upper: string -> string, lower: string -> string, round2: real -> real)

  function OrEmpty(s: Option<string>): Value
  {
    Str(if s.Some? then s.value else "")
  }

  function Normalized(answer: Option<string>, lib: Text): string
  {
    var a := lib.upper(if answer.Some? then answer.value else "");
    if a == "PASS" || a == "FAIL" || a == "NA" then a else "NA"
  }

  predicate FreeText(it: Item, lib: Text)
  {
    it.isSubjective || lib.upper(if it.answerType.Some? then it.answerType.value else "") == "TEXT"
  }

  predicate Contains(s: string, part: string)
  {
    exists i | 0 <= i <= |s| :: part <= s[i..]
  }

  predicate InSection(it: Item, compliance: bool, lib: Text)
  {
    && !FreeText(it, lib)
    && (Contains(lib.lower(if it.section.Some? then it.section.value else ""), "complian") <==> compliance)
  }

  // A section's roll-up: NA without graded items, FAIL if one failed, else PASS.
  function Overall(items: seq<Item>, compliance: bool, lib: Text): string
  {
    if !exists it | it in items :: InSection(it, compliance, lib) then "NA"
    else if exists it | it in items :: InSection(it, compliance, lib) && Normalized(it.answer, lib) == "FAIL"
        then "FAIL"
    else "PASS"
  }

  function ItemEntries(it: Item, lib: Text): (entries: seq<(string, Value)>)
    ensures Matches(entries, ITEM_FIELDS)
  {
    [("section", OrEmpty(it.section)), ("text", OrEmpty(it.text)),
     ("answer", Str(Normalized(it.answer, lib))), ("raw_answer", OrEmpty(it.rawAnswer)),
     ("confidence", if it.confidence.Some? then Num(lib.round2(it.confidence.value)) else Str("")),
     ("evidence_quote", OrEmpty(it.evidenceQuote)),
     ("evidence_offset_sec", if it.evidenceOffsetSec.Some? then Num(it.evidenceOffsetSec.value) else Str("")),
     ("comment", OrEmpty(it.comment)), ("needs_review", Bool(it.needsHumanReview)),
     ("is_subjective", Bool(FreeText(it, lib))),
     ("answer_display", Str(
       if !FreeText(it, lib) then Normalized(it.answer, lib)
       else if NonEmpty(it.rawAnswer) then it.rawAnswer.value else "\U{2014}"))]
  }

  function ObjectionEntries(o: Objection): (entries: seq<(string, Value)>)
    ensures Matches(entries, OBJECTION_FIELDS)
  {
    [("text", OrEmpty(o.text)), ("category", OrEmpty(o.category)), ("cleared", Bool(o.cleared))]
  }

  function TurnEntries(t: Turn): (entries: seq<(string, Value)>)
    ensures Matches(entries, TURN_FIELDS)
  {
    [("speaker", Str(t.speaker)), ("text", Str(t.text))]
  }

  predicate NonEmpty<T(==)>(s: Option<seq<T>>)
  {
    s.Some? && s.value != []
  }

  function Strings(s: Option<seq<string>>): (v: Value)
    ensures HasKind(v, ScalarList)
  {
    List(if s.Some? then seq(|s.value|, i requires 0 <= i < |s.value| => Str(s.value[i])) else [])
  }

  // A list with one dictionary per entry list.
  function Objects(rows: seq<seq<(string, Value)>>, kinds: seq<(string, Kind)>): (v: Value)
    requires forall row <- rows :: Matches(row, kinds)
    requires forall i | 0 <= i < |kinds| :: kinds[i].0 != ""
    ensures HasKind(v, ObjectList(Entries(kinds))) && |v.items| == |rows|
  {
    if rows == [] then List([]) else
    MatchingEntriesFit(rows[0], kinds);
    List([Dict(Entries(rows[0]))] + Objects(rows[1..], kinds).items)
  }

  function HeaderEntries(r: Report, lib: Text): (entries: seq<(string, Value)>)
    ensures Matches(entries, HEADER_FIELDS)
  {
    [("agent_name", Str(r.agentName)), ("call_id", Str(r.callId)),
     ("recording_filename", OrEmpty(r.originalFilename)), ("generated", Str(r.generated)),
     ("option", OrEmpty(r.option)), ("flagged_for_review", Bool(r.flaggedForReview)),
     ("flag_reason", OrEmpty(r.flagReason)),
     ("compliance_verdict", Str(Overall(r.items, true, lib))),
     ("quality_verdict", Str(Overall(r.items, false, lib)))]
  }

  function NarrativeEntries(r: Report): (entries: seq<(string, Value)>)
    ensures Matches(entries, NARRATIVE_FIELDS)
  {
    var n := r.narrative;
    [("summary", OrEmpty(n.summary)), ("coaching", OrEmpty(n.coaching)), ("compliance", OrEmpty(n.compliance)),
     ("already_ideal", Bool(n.alreadyIdeal == Some(true))),
     ("has_feedback", Bool(NonEmpty(n.coaching) || NonEmpty(n.compliance) || NonEmpty(n.strengths)
         || NonEmpty(n.development))),
     ("has_checklist", Bool(r.items != [])),
     ("has_ideal", Bool(n.idealConversation.Some? || n.alreadyIdeal.Some?)),
     ("has_objections", Bool(r.objections != []))]
  }

  function Items(items: seq<Item>, lib: Text): (v: Value)
    ensures HasKind(v, ObjectList(Entries(ITEM_FIELDS))) && |v.items| == |items|
  {
    Objects(seq(|items|, i requires 0 <= i < |items| => ItemEntries(items[i], lib)), ITEM_FIELDS)
  }

  function Objections(objections: seq<Objection>): (v: Value)
    ensures HasKind(v, ObjectList(Entries(OBJECTION_FIELDS)))
  {
    Objects(seq(|objections|, i requires 0 <= i < |objections| => ObjectionEntries(objections[i])), OBJECTION_FIELDS)
  }

  function Turns(turns: seq<Turn>): (v: Value)
    ensures HasKind(v, ObjectList(Entries(TURN_FIELDS)))
  {
    Objects(seq(|turns|, i requires 0 <= i < |turns| => TurnEntries(turns[i])), TURN_FIELDS)
  }

  function ListEntries(r: Report, items: Value, objections: Value, turns: Value): seq<(string, Value)>
  {
    [("strengths", Strings(r.narrative.strengths)), ("development", Strings(r.narrative.development)),
     ("items", items), ("objections", objections), ("ideal_conversation", turns), ("extra", Dict(r.extra))]
  }

  lemma ListEntriesMatch(r: Report, items: Value, objections: Value, turns: Value, item: Schema, objection: Schema,
          turn: Schema)
    requires HasKind(items, ObjectList(item)) && HasKind(objections, ObjectList(objection))
        && HasKind(turns, ObjectList(turn))
    ensures Matches(ListEntries(r, items, objections, turns), ListFields(item, objection, turn))
  {}

  lemma MatchesAppended(v: seq<(string, Value)>, w: seq<(string, Value)>, k: seq<(string, Kind)>,
          l: seq<(string, Kind)>)
    requires Matches(v, k) && Matches(w, l)
    ensures Matches(v + w, k + l)
  {}

  function BuildContext(r: Report, lib: Text): map<string, Value>
  {
    var turns := r.narrative.idealConversation;
    Entries(HeaderEntries(r, lib) + NarrativeEntries(r) +
            ListEntries(r, Items(r.items, lib), Objections(r.objections),
                        Turns(if turns.Some? then turns.value else [])))
  }

  lemma DataFits(r: Report, lib: Text, items: Value, objections: Value, turns: Value, item: Schema, objection: Schema,
          turn: Schema)
    requires HasKind(items, ObjectList(item)) && HasKind(objections, ObjectList(objection))
        && HasKind(turns, ObjectList(turn))
    ensures HasKind(Dict(Entries(HeaderEntries(r, lib) + NarrativeEntries(r)
                                + ListEntries(r, items, objections, turns))),
                    Object(DataFields(item, objection, turn)))
  {
    var h, n, l := HeaderEntries(r, lib), NarrativeEntries(r), ListEntries(r, items, objections, turns);
    var lists := ListFields(item, objection, turn);
    ListEntriesMatch(r, items, objections, turns, item, objection, turn);
    MatchesAppended(h, n, HEADER_FIELDS, NARRATIVE_FIELDS);
    MatchesAppended(h + n, l, HEADER_FIELDS + NARRATIVE_FIELDS, lists);
    MatchingEntriesFit(h + n + l, HEADER_FIELDS + NARRATIVE_FIELDS + lists);
  }

  // Whatever the report, the data has the shape the dictionary promises: the same fields, each of
  // its kind, at every depth.
  lemma ContextHasDictionaryShape(r: Report, lib: Text)
    ensures HasKind(Dict(BuildContext(r, lib)), Object(DATA_FIELDS))
  {
    var turns := r.narrative.idealConversation;
    DataFits(r, lib, Items(r.items, lib), Objections(r.objections), Turns(if turns.Some? then turns.value else []),
             Entries(ITEM_FIELDS), Entries(OBJECTION_FIELDS), Entries(TURN_FIELDS));
  }

  // End to end, for each report: an accepted template and the report's data agree at every step exactly
  // when every reference rendered for that report is undisturbed.
  lemma TemplateAgreesExactlyWhen(tokens: seq<Token>, f: Forest, r: Report, lib: Text)
    requires Scan(tokens, [Object(DATA_FIELDS)], []).Accepted? && Flatten(f) == tokens
    ensures AlwaysAgrees(f, [Dict(BuildContext(r, lib))], [0], [Object(DATA_FIELDS)])
       <==> UndisturbedIn(f, [Dict(BuildContext(r, lib))], Whole(DATA_FIELDS))
  {
    ContextHasDictionaryShape(r, lib);
    AgreesExactlyWhen(tokens, f, DATA_FIELDS, Dict(BuildContext(r, lib)));
  }

  // And for every report at once: an accepted template that is undisturbed everywhere means the same to
  // validator and renderer.
  lemma AcceptedTemplateFitsEveryReport(tokens: seq<Token>, f: Forest, r: Report, lib: Text)
    requires Scan(tokens, [Object(DATA_FIELDS)], []).Accepted? && Flatten(f) == tokens
    requires UndisturbedEverywhere(f, Whole(DATA_FIELDS))
    ensures AlwaysAgrees(f, [Dict(BuildContext(r, lib))], [0], [Object(DATA_FIELDS)])
  {
    ContextHasDictionaryShape(r, lib);
    UndisturbedTemplateAgrees(tokens, f, DATA_FIELDS, Dict(BuildContext(r, lib)));
  }

  // ---- The disagreement, in the report's own dictionary ------------------------------------------

  lemma {:induction false} EntryAt<T>(pairs: seq<(string, T)>, i: nat)
    requires i < |pairs| && forall j | i < j < |pairs| :: pairs[j].0 != pairs[i].0
    ensures pairs[i].0 in Entries(pairs) && Entries(pairs)[pairs[i].0] == pairs[i].1
    decreases |pairs|
  {
    if i < |pairs| - 1 { EntryAt(pairs[..|pairs| - 1], i); }
  }

  lemma ListsEntries<T>(before: seq<(string, T)>, lists: seq<(string, T)>)
    requires |lists| == 6 && lists[2].0 == "items"
    requires lists[3].0 == "objections" && lists[4].0 == "ideal_conversation" && lists[5].0 == "extra"
    ensures "items" in Entries(before + lists) && Entries(before + lists)["items"] == lists[2].1
    ensures "objections" in Entries(before + lists) && Entries(before + lists)["objections"] == lists[3].1
  {
    var all := before + lists;
    assert forall j | |before| <= j < |all| :: all[j] == lists[j - |before|];
    assert all[|before| + 2] == lists[2] && all[|before| + 3] == lists[3];
    assert all[|before| + 4] == lists[4] && all[|before| + 5] == lists[5];
    EntryAt(all, |before| + 2);
    EntryAt(all, |before| + 3);
  }

  lemma NoAnswerDisplay(item: Schema, objection: Schema, turn: Schema)
    ensures "answer_display" !in DataFields(item, objection, turn)
  {
    var fields := HEADER_FIELDS + NARRATIVE_FIELDS + ListFields(item, objection, turn);
    assert forall i | 0 <= i < |HEADER_FIELDS| :: HEADER_FIELDS[i].0 != "answer_display";
    assert forall i | 0 <= i < |NARRATIVE_FIELDS| :: NARRATIVE_FIELDS[i].0 != "answer_display";
    var lists := ListFields(item, objection, turn);
    assert forall i | 0 <= i < |lists| :: lists[i].0 != "answer_display";
    assert forall i | 0 <= i < |fields| :: fields[i].0 != "answer_display";
  }

  lemma AnswerDisplayIsAnItemField()
    ensures "answer_display" in Entries(ITEM_FIELDS) && Entries(ITEM_FIELDS)["answer_display"] == Scalar
  {
    assert |ITEM_FIELDS| == 11 && ITEM_FIELDS[10] == ("answer_display", Scalar);
    EntryAt(ITEM_FIELDS, 10);
  }

  lemma ItemsOnlyField(item: Schema, objection: Schema, turn: Schema)
    requires "answer_display" in item && item["answer_display"] == Scalar
    ensures ItemsOnly("items", "answer_display", DataFields(item, objection, turn), item)
  {
    ListsEntries(HEADER_FIELDS + NARRATIVE_FIELDS, ListFields(item, objection, turn));
    NoAnswerDisplay(item, objection, turn);
  }

  lemma ListsOf(before: seq<(string, Value)>, r: Report, items: Value, objections: Value, turns: Value)
    ensures var m := Entries(before + ListEntries(r, items, objections, turns));
      && "items" in m && m["items"] == items
      && "objections" in m && m["objections"] == objections
  {
    ListsEntries(before, ListEntries(r, items, objections, turns));
  }

  lemma ContextItems(r: Report, lib: Text)
    ensures "items" in BuildContext(r, lib) && BuildContext(r, lib)["items"] == Items(r.items, lib)
    ensures "objections" in BuildContext(r, lib) && BuildContext(r, lib)["objections"] == Objections(r.objections)
  {
    var turns := r.narrative.idealConversation;
    ListsOf(HeaderEntries(r, lib) + NarrativeEntries(r), r, Items(r.items, lib), Objections(r.objections),
            Turns(if turns.Some? then turns.value else []));
  }

  lemma InvertedItems(item: Schema, objection: Schema, turn: Schema, context: Value, fmt: Format)
    requires "answer_display" in item && item["answer_display"] == Scalar
    requires HasKind(context, Object(DataFields(item, objection, turn)))
    requires "items" in context.fields && context.fields["items"] == List([])
    ensures var f, root := WhenEmpty("items", "answer_display"), DataFields(item, objection, turn);
            && Scan(Flatten(f), [Object(root)], []).Accepted?
            && !AlwaysAgrees(f, [context], [0], [Object(root)])
            && Meaning(f, [context], fmt) == ""
  {
    ItemsOnlyField(item, objection, turn);
    InvertedObjectListDisagrees("items", "answer_display", DataFields(item, objection, turn), item, context, fmt);
  }

  // `{{^items}}{{answer_display}}{{/items}}` is accepted, and a report without items reaches the
  // reference and finds nothing.
  lemma InvertedItemsDisagree(r: Report, lib: Text, fmt: Format)
    requires r.items == []
    ensures var f := WhenEmpty("items", "answer_display");
            && Scan(Flatten(f), [Object(DATA_FIELDS)], []).Accepted?
            && !AlwaysAgrees(f, [Dict(BuildContext(r, lib))], [0], [Object(DATA_FIELDS)])
            && Meaning(f, [Dict(BuildContext(r, lib))], fmt) == ""
  {
    AnswerDisplayIsAnItemField();
    ContextHasDictionaryShape(r, lib);
    ContextItems(r, lib);
    InvertedItems(Entries(ITEM_FIELDS), Entries(OBJECTION_FIELDS), Entries(TURN_FIELDS), Dict(BuildContext(r, lib)),
        fmt);
  }

  lemma TextFields()
    ensures "text" in Entries(ITEM_FIELDS) && "text" in Entries(OBJECTION_FIELDS)
    ensures "objections" !in Entries(ITEM_FIELDS)
  {
    assert ITEM_FIELDS[1].0 == "text" && OBJECTION_FIELDS[0].0 == "text";
    assert forall i | 0 <= i < |ITEM_FIELDS| :: ITEM_FIELDS[i].0 != "objections";
  }

  lemma BothHaveText(item: Schema, objection: Schema, turn: Schema)
    requires "text" in item && "text" in objection && "objections" !in item
    ensures BothHave("items", "objections", "text", DataFields(item, objection, turn), item, objection)
  {
    ListsEntries(HEADER_FIELDS + NARRATIVE_FIELDS, ListFields(item, objection, turn));
  }

  lemma InvertedObjections(item: Schema, objection: Schema, turn: Schema, context: Value, first: Value)
    requires "text" in item && "text" in objection && "objections" !in item
    requires HasKind(context, Object(DataFields(item, objection, turn)))
    requires "items" in context.fields && context.fields["items"].List? && first in context.fields["items"].items
    requires "objections" in context.fields && context.fields["objections"] == List([])
    ensures var f, root := Rebinding("items", "objections", "text"), DataFields(item, objection, turn);
            && Scan(Flatten(f), [Object(root)], []).Accepted?
            && !AlwaysAgrees(f, [context], [0], [Object(root)])
            && HasKind(Lookup("text", [context, first]), item["text"])
  {
    BothHaveText(item, objection, turn);
    InvertedInsideListRebinds("items", "objections", "text", DataFields(item, objection, turn), item, objection,
      context, first);
  }

  // `{{#items}}{{^objections}}{{text}}{{/objections}}{{/items}}` is accepted with the text of an objection
  // in mind; a report with items and no objections renders the text of the item.
  lemma InvertedObjectionsRebind(r: Report, lib: Text)
    requires r.items != [] && r.objections == []
    ensures var f := Rebinding("items", "objections", "text");
            && Scan(Flatten(f), [Object(DATA_FIELDS)], []).Accepted?
            && !AlwaysAgrees(f, [Dict(BuildContext(r, lib))], [0], [Object(DATA_FIELDS)])
  {
    TextFields();
    ContextHasDictionaryShape(r, lib);
    ContextItems(r, lib);
    var items := Items(r.items, lib);
    assert items.items[0] in items.items;
    InvertedObjections(Entries(ITEM_FIELDS), Entries(OBJECTION_FIELDS), Entries(TURN_FIELDS),
                       Dict(BuildContext(r, lib)), items.items[0]);
  }
}
