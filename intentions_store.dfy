/**
 * An in-memory stand-in for the second backend's intent tables, with the contract the
 * service relies on: ids are assigned on insert from one increasing counter; reading
 * an intent re-runs its constructor and attaches its articulation, prompts and
 * insights in table order; deleting an intent cascades to everything it owns; each
 * child insert first checks that the owning intent (or, for an output, its prompt)
 * exists. All child entity tables are kept as one table of rows tagged by kind.
 */
module IntentionsStore {
  import opened Wrappers
  import opened Text
  import opened Clock
  import opened IntentionsModels
  import DI = DeclaringIntents

  datatype Kind =
    | AspectKind | InputKind | ChoiceKind | PitfallKind | AssumptionKind | QualityKind
    | ExampleKind | PromptKind | InsightKind

  /** A child entity as stored in its table. */
  datatype Child =
    | AspectChild(aspect: Aspect)
    | InputChild(input: Input)
    | ChoiceChild(choice: Choice)
    | PitfallChild(pitfall: Pitfall)
    | AssumptionChild(assumption: Assumption)
    | QualityChild(quality: Quality)
    | ExampleChild(example: Example)
    | PromptChild(prompt: Prompt)
    | InsightChild(insight: Insight)

  function KindOf(c: Child): Kind
  {
    match c
    case AspectChild(_) => AspectKind
    case InputChild(_) => InputKind
    case ChoiceChild(_) => ChoiceKind
    case PitfallChild(_) => PitfallKind
    case AssumptionChild(_) => AssumptionKind
    case QualityChild(_) => QualityKind
    case ExampleChild(_) => ExampleKind
    case PromptChild(_) => PromptKind
    case InsightChild(_) => InsightKind
  }

  /** A stored child: the table's id and owning intent override the entity's own. */
  datatype ChildRow = ChildRow(id: int, intentId: int, child: Child)

  datatype IntentRow = IntentRow(id: int, name: string, description: string, createdAt: Instant, updatedAt: Instant)

  datatype OutputRow = OutputRow(id: int, promptId: int, content: string, createdAt: Instant, updatedAt: Instant)

  /** The rows of one kind owned by one intent, in table order. */
  function Owned(rows: seq<ChildRow>, intentId: int, k: Kind): (r: seq<ChildRow>)
    ensures forall x :: x in r ==> x in rows && x.intentId == intentId && KindOf(x.child) == k
    ensures forall x :: x in rows && x.intentId == intentId && KindOf(x.child) == k ==> x in r
  {
    if |rows| == 0 then []
    else
      var rest := Owned(rows[1..], intentId, k);
      assert forall x :: x in rows ==> x == rows[0] || x in rows[1..];
      if rows[0].intentId == intentId && KindOf(rows[0].child) == k then [rows[0]] + rest else rest
  }

  lemma {:induction false} OwnedAppend(a: seq<ChildRow>, b: seq<ChildRow>, intentId: int, k: Kind)
    ensures Owned(a + b, intentId, k) == Owned(a, intentId, k) + Owned(b, intentId, k)
  {
    if |a| > 0 {
      assert (a + b)[1..] == a[1..] + b;
      OwnedAppend(a[1..], b, intentId, k);
    } else {
      assert a + b == b;
    }
  }

  /** The ids of those rows. */
  function OwnedIds(rows: seq<ChildRow>, intentId: int, k: Kind): (r: seq<int>)
    ensures |r| == |Owned(rows, intentId, k)|
    ensures forall j :: 0 <= j < |r| ==> r[j] == Owned(rows, intentId, k)[j].id
  {
    var o := Owned(rows, intentId, k);
    seq(|o|, j requires 0 <= j < |o| => o[j].id)
  }

  /** `_to_<kind>_domain_model`: the kind's constructor runs again on the stored fields,
      under the table's id and owner. On a row its constructor built (every row the store
      holds, see `TablesValid`) that run succeeds and changes only an optional text left
      as "", which reads back absent: `Read<Kind>Rebuilds` below. */
  function ReadAspect(r: ChildRow): Aspect
    requires r.child.AspectChild?
  {
    r.child.aspect.(id := Some(r.id),
      intentId := r.intentId,
      description := DI.EmptyToNone(r.child.aspect.description))
  }

  function ReadInput(r: ChildRow): Input
    requires r.child.InputChild?
  {
    r.child.input.(id := Some(r.id),
      intentId := r.intentId,
      format := DI.EmptyToNone(r.child.input.format))
  }

  function ReadChoice(r: ChildRow): Choice
    requires r.child.ChoiceChild?
  {
    r.child.choice.(id := Some(r.id),
      intentId := r.intentId,
      options := DI.EmptyToNone(r.child.choice.options),
      selectedOption := DI.EmptyToNone(r.child.choice.selectedOption),
      rationale := DI.EmptyToNone(r.child.choice.rationale))
  }

  function ReadPitfall(r: ChildRow): Pitfall
    requires r.child.PitfallChild?
  {
    r.child.pitfall.(id := Some(r.id),
      intentId := r.intentId,
      mitigation := DI.EmptyToNone(r.child.pitfall.mitigation))
  }

  function ReadAssumption(r: ChildRow): Assumption
    requires r.child.AssumptionChild?
  {
    r.child.assumption.(id := Some(r.id),
      intentId := r.intentId,
      confidence := DI.EmptyToNone(r.child.assumption.confidence))
  }

  function ReadQuality(r: ChildRow): Quality
    requires r.child.QualityChild?
  {
    r.child.quality.(id := Some(r.id),
      intentId := r.intentId,
      measurement := DI.EmptyToNone(r.child.quality.measurement),
      priority := DI.EmptyToNone(r.child.quality.priority))
  }

  function ReadExample(r: ChildRow): Example
    requires r.child.ExampleChild?
  {
    r.child.example.(id := Some(r.id),
      intentId := r.intentId,
      explanation := DI.EmptyToNone(r.child.example.explanation),
      source := DI.EmptyToNone(r.child.example.source))
  }

  function ReadPrompt(r: ChildRow): Prompt
    requires r.child.PromptChild?
  {
    r.child.prompt.(id := Some(r.id),
      intentId := r.intentId)
  }

  function ReadInsight(r: ChildRow): Insight
    requires r.child.InsightChild?
  {
    r.child.insight.(id := Some(r.id),
      intentId := r.intentId,
      sourceType := DI.EmptyToNone(r.child.insight.sourceType),
      status := DI.EmptyToNone(r.child.insight.status))
  }

  /** A child as its constructor leaves it. */
  predicate IsNormalChild(c: Child)
  {
    match c
    case AspectChild(x) => IsNormalAspect(x)
    case InputChild(x) => IsNormalInput(x)
    case ChoiceChild(x) => IsNormalChoice(x)
    case PitfallChild(x) => IsNormalPitfall(x)
    case AssumptionChild(x) => IsNormalAssumption(x)
    case QualityChild(x) => IsNormalQuality(x)
    case ExampleChild(x) => IsNormalExample(x)
    case PromptChild(x) => IsNormalPrompt(x)
    case InsightChild(x) => IsNormalInsight(x)
  }

  /** Reading a stored row is its constructor run again: one lemma per kind. */
  lemma ReadAspectRebuilds(r: ChildRow)
    requires r.child.AspectChild? && IsNormalAspect(r.child.aspect)
    ensures var x := r.child.aspect;
      NewAspect(Some(r.id), r.intentId, x.name, x.description, Some(x.createdAt), Some(x.updatedAt), x.createdAt) == Ok(ReadAspect(r))
  {
    RebuildAspect(r.child.aspect, Some(r.id), r.intentId, r.child.aspect.createdAt);
  }

  lemma ReadInputRebuilds(r: ChildRow)
    requires r.child.InputChild? && IsNormalInput(r.child.input)
    ensures var x := r.child.input;
      NewInput(Some(r.id), r.intentId, x.name, x.description, x.aspectId, x.format, x.required, Some(x.createdAt), Some(x.updatedAt), x.createdAt) == Ok(ReadInput(r))
  {
    RebuildInput(r.child.input, Some(r.id), r.intentId, r.child.input.createdAt);
  }

  lemma ReadChoiceRebuilds(r: ChildRow)
    requires r.child.ChoiceChild? && IsNormalChoice(r.child.choice)
    ensures var x := r.child.choice;
      NewChoice(Some(r.id), r.intentId, x.name, x.description, x.aspectId, x.options, x.selectedOption, x.rationale, Some(x.createdAt), Some(x.updatedAt), x.createdAt) == Ok(ReadChoice(r))
  {
    RebuildChoice(r.child.choice, Some(r.id), r.intentId, r.child.choice.createdAt);
  }

  lemma ReadPitfallRebuilds(r: ChildRow)
    requires r.child.PitfallChild? && IsNormalPitfall(r.child.pitfall)
    ensures var x := r.child.pitfall;
      NewPitfall(Some(r.id), r.intentId, x.description, x.aspectId, x.mitigation, Some(x.createdAt), Some(x.updatedAt), x.createdAt) == Ok(ReadPitfall(r))
  {
    RebuildPitfall(r.child.pitfall, Some(r.id), r.intentId, r.child.pitfall.createdAt);
  }

  lemma ReadAssumptionRebuilds(r: ChildRow)
    requires r.child.AssumptionChild? && IsNormalAssumption(r.child.assumption)
    ensures var x := r.child.assumption;
      NewAssumption(Some(r.id), r.intentId, x.description, x.aspectId, x.confidence, Some(x.createdAt), Some(x.updatedAt), x.createdAt) == Ok(ReadAssumption(r))
  {
    RebuildAssumption(r.child.assumption, Some(r.id), r.intentId, r.child.assumption.createdAt);
  }

  lemma ReadQualityRebuilds(r: ChildRow)
    requires r.child.QualityChild? && IsNormalQuality(r.child.quality)
    ensures var x := r.child.quality;
      NewQuality(Some(r.id), r.intentId, x.criterion, x.aspectId, x.measurement, x.priority, Some(x.createdAt), Some(x.updatedAt), x.createdAt) == Ok(ReadQuality(r))
  {
    RebuildQuality(r.child.quality, Some(r.id), r.intentId, r.child.quality.createdAt);
  }

  lemma ReadExampleRebuilds(r: ChildRow)
    requires r.child.ExampleChild? && IsNormalExample(r.child.example)
    ensures var x := r.child.example;
      NewExample(Some(r.id), r.intentId, x.sample, x.aspectId, x.explanation, x.source, Some(x.createdAt), Some(x.updatedAt), x.createdAt) == Ok(ReadExample(r))
  {
    RebuildExample(r.child.example, Some(r.id), r.intentId, r.child.example.createdAt);
  }

  lemma ReadPromptRebuilds(r: ChildRow)
    requires r.child.PromptChild? && IsNormalPrompt(r.child.prompt)
    ensures var x := r.child.prompt;
      NewPrompt(Some(r.id), r.intentId, x.content, x.version, Some(x.createdAt), Some(x.updatedAt), x.createdAt) == Ok(ReadPrompt(r))
  {
    RebuildPrompt(r.child.prompt, Some(r.id), r.intentId, r.child.prompt.createdAt);
  }

  lemma ReadInsightRebuilds(r: ChildRow)
    requires r.child.InsightChild? && IsNormalInsight(r.child.insight)
    ensures var x := r.child.insight;
      NewInsight(Some(r.id), r.intentId, x.content, x.sourceType, x.sourceOutputId, x.sourcePromptId, x.sourceAssumptionId, x.status, Some(x.createdAt), Some(x.updatedAt), x.createdAt) == Ok(ReadInsight(r))
  {
    RebuildInsight(r.child.insight, Some(r.id), r.intentId, r.child.insight.createdAt);
  }

  /** A stored aspect whose description was left as "" reads back without one. */
  lemma StoredEmptyDescriptionReadsNone(r: ChildRow)
    requires r.child.AspectChild? && IsNormalAspect(r.child.aspect) && r.child.aspect.description == Some("")
    ensures var x := r.child.aspect;
      NewAspect(Some(r.id), r.intentId, x.name, x.description, Some(x.createdAt), Some(x.updatedAt), x.createdAt).Ok?
      && NewAspect(Some(r.id), r.intentId, x.name, x.description, Some(x.createdAt), Some(x.updatedAt), x.createdAt).value.description == None
  {
    ReadAspectRebuilds(r);
  }

  /** The intent's collections as its read attaches them, each row read back through its
      kind's constructor. */
  function AspectsOf(rows: seq<ChildRow>, i: int): seq<Aspect>
  { var o := Owned(rows, i, AspectKind); seq(|o|, j requires 0 <= j < |o| => ReadAspect(o[j])) }
  function InputsOf(rows: seq<ChildRow>, i: int): seq<Input>
  { var o := Owned(rows, i, InputKind); seq(|o|, j requires 0 <= j < |o| => ReadInput(o[j])) }
  function ChoicesOf(rows: seq<ChildRow>, i: int): seq<Choice>
  { var o := Owned(rows, i, ChoiceKind); seq(|o|, j requires 0 <= j < |o| => ReadChoice(o[j])) }
  function PitfallsOf(rows: seq<ChildRow>, i: int): seq<Pitfall>
  { var o := Owned(rows, i, PitfallKind); seq(|o|, j requires 0 <= j < |o| => ReadPitfall(o[j])) }
  function AssumptionsOf(rows: seq<ChildRow>, i: int): seq<Assumption>
  { var o := Owned(rows, i, AssumptionKind); seq(|o|, j requires 0 <= j < |o| => ReadAssumption(o[j])) }
  function QualitiesOf(rows: seq<ChildRow>, i: int): seq<Quality>
  { var o := Owned(rows, i, QualityKind); seq(|o|, j requires 0 <= j < |o| => ReadQuality(o[j])) }
  function ExamplesOf(rows: seq<ChildRow>, i: int): seq<Example>
  { var o := Owned(rows, i, ExampleKind); seq(|o|, j requires 0 <= j < |o| => ReadExample(o[j])) }
  function PromptsOf(rows: seq<ChildRow>, i: int): seq<Prompt>
  { var o := Owned(rows, i, PromptKind); seq(|o|, j requires 0 <= j < |o| => ReadPrompt(o[j])) }
  function InsightsOf(rows: seq<ChildRow>, i: int): seq<Insight>
  { var o := Owned(rows, i, InsightKind); seq(|o|, j requires 0 <= j < |o| => ReadInsight(o[j])) }

  function IntentIds(rows: seq<IntentRow>): set<int>
  {
    set k | 0 <= k < |rows| :: rows[k].id
  }

  /** The repository's "<entity> with id <id> not found". */
  function MissingError(entity: string, id: int): ValueError
  {
    ValueError(entity + " with id " + IntToString(id) + " not found")
  }

  /** The first slot holding the intent with this id. */
  function IntentIndex(rows: seq<IntentRow>, id: int): (r: Option<nat>)
    ensures r.Some? ==>
      r.value < |rows| && rows[r.value].id == id && forall k :: 0 <= k < r.value ==> rows[k].id != id
    ensures r.None? <==> id !in IntentIds(rows)
  {
    if |rows| == 0 then None
    else if rows[0].id == id then Some(0)
    else
      var t := IntentIndex(rows[1..], id);
      assert IntentIds(rows) == {rows[0].id} + IntentIds(rows[1..]);
      if t.None? then None else Some(t.value + 1)
  }

  /** `_to_intent_domain_model`: the constructor runs again on the stored name and
      description, with every collection attached. */
  function RowIntent(row: IntentRow, children: seq<ChildRow>): Result<Intent, ValueError>
  {
    NewIntent(Some(row.id), row.name, row.description, Some(row.createdAt), Some(row.updatedAt),
              Some(AspectsOf(children, row.id)), Some(InputsOf(children, row.id)),
              Some(ChoicesOf(children, row.id)), Some(PitfallsOf(children, row.id)),
              Some(AssumptionsOf(children, row.id)), Some(QualitiesOf(children, row.id)),
              Some(ExamplesOf(children, row.id)), Some(PromptsOf(children, row.id)),
              Some(InsightsOf(children, row.id)), row.createdAt)
  }

  /** `find_by_id`: None for an absent id; the constructor's error for a stored blank
      name or description. */
  function FindIntent(intents: seq<IntentRow>, children: seq<ChildRow>, id: int): (r: Result<Option<Intent>, ValueError>)
    ensures IntentIndex(intents, id).None? ==> r == Ok(None)
    ensures r.Ok? && r.value.Some? ==> r.value.value.id == Some(id)
  {
    var k := IntentIndex(intents, id);
    if k.None? then Ok(None)
    else
      var i := RowIntent(intents[k.value], children);
      if i.Err? then Err(i.error) else Ok(Some(i.value))
  }

  /** Every stored intent row read back, in table order. */
  function ReadAll(intents: seq<IntentRow>, children: seq<ChildRow>): (rs: seq<Result<Intent, ValueError>>)
    ensures |rs| == |intents| && forall j :: 0 <= j < |intents| ==> rs[j] == RowIntent(intents[j], children)
  {
    seq(|intents|, j requires 0 <= j < |intents| => RowIntent(intents[j], children))
  }

  /** `list_all`: every stored intent read back in table order (the reads of
      `ReadAll`); the first row that fails to read raises. */
  function AllIntents(intents: seq<IntentRow>, children: seq<ChildRow>): (r: Result<seq<Intent>, ValueError>)
    ensures var rs := ReadAll(intents, children);
      && (r.Ok? <==> forall j :: 0 <= j < |rs| ==> rs[j].Ok?)
      && (r.Ok? ==> |r.value| == |intents| && forall j :: 0 <= j < |rs| ==> r.value[j] == rs[j].value)
      && (r.Err? ==> exists j :: 0 <= j < |rs| && rs[j] == Err(r.error))
  {
    Collect(ReadAll(intents, children))
  }

  /** The listed intents carry the stored ids, in table order. */
  lemma AllIntentsIds(intents: seq<IntentRow>, children: seq<ChildRow>)
    ensures var r := AllIntents(intents, children);
      r.Ok? ==> forall j :: 0 <= j < |intents| ==> r.value[j].id == Some(intents[j].id)
  {
    var r := AllIntents(intents, children);
    if r.Ok? {
      forall j | 0 <= j < |intents| ensures r.value[j].id == Some(intents[j].id) {
        assert ReadAll(intents, children)[j] == RowIntent(intents[j], children);
      }
    }
  }

  /** A stored row whose name and description are stripped and non-blank reads back
      as exactly those fields. */
  lemma RowIntentNormal(row: IntentRow, children: seq<ChildRow>)
    requires row.name != "" && Strip(row.name) == row.name
    requires row.description != "" && Strip(row.description) == row.description
    ensures RowIntent(row, children).Ok?
    ensures var i := RowIntent(row, children).value;
      i.id == Some(row.id) && i.name == row.name && i.description == row.description
      && i.createdAt == row.createdAt && i.updatedAt == row.updatedAt
  {
    assert !IsBlank(row.name) && !IsBlank(row.description);
  }

  /** The rows of every table not owned by this intent. */
  function ChildrenNotOf(rows: seq<ChildRow>, intentId: int): (r: seq<ChildRow>)
    ensures forall x :: x in r <==> x in rows && x.intentId != intentId
  {
    if |rows| == 0 then []
    else
      var rest := ChildrenNotOf(rows[1..], intentId);
      assert forall x :: x in rows ==> x == rows[0] || x in rows[1..];
      if rows[0].intentId != intentId then [rows[0]] + rest else rest
  }

  function IntentsNot(rows: seq<IntentRow>, id: int): (r: seq<IntentRow>)
    ensures forall x :: x in r <==> x in rows && x.id != id
  {
    if |rows| == 0 then []
    else
      var rest := IntentsNot(rows[1..], id);
      assert forall x :: x in rows ==> x == rows[0] || x in rows[1..];
      if rows[0].id != id then [rows[0]] + rest else rest
  }

  /** The outputs whose prompt is not among these prompt ids. */
  function OutputsNotOf(rows: seq<OutputRow>, promptIds: seq<int>): (r: seq<OutputRow>)
    ensures forall x :: x in r <==> x in rows && x.promptId !in promptIds
  {
    if |rows| == 0 then []
    else
      var rest := OutputsNotOf(rows[1..], promptIds);
      assert forall x :: x in rows ==> x == rows[0] || x in rows[1..];
      if rows[0].promptId !in promptIds then [rows[0]] + rest else rest
  }

  /** The rows a delete by (intent, kind, id) keeps. */
  function WithoutIds(rows: seq<ChildRow>, intentId: int, k: Kind, ids: set<int>): (r: seq<ChildRow>)
    ensures forall x :: x in r <==> x in rows && !(x.intentId == intentId && KindOf(x.child) == k && x.id in ids)
  {
    if |rows| == 0 then []
    else
      var rest := WithoutIds(rows[1..], intentId, k, ids);
      assert forall x :: x in rows ==> x == rows[0] || x in rows[1..];
      if rows[0].intentId == intentId && KindOf(rows[0].child) == k && rows[0].id in ids then rest
      else [rows[0]] + rest
  }

  /** The rows that remain once every entity of one kind of one intent is deleted. */
  function WithoutKind(rows: seq<ChildRow>, intentId: int, k: Kind): (r: seq<ChildRow>)
    ensures forall x :: x in r <==> x in rows && !(x.intentId == intentId && KindOf(x.child) == k)
  {
    if |rows| == 0 then []
    else
      var rest := WithoutKind(rows[1..], intentId, k);
      assert forall x :: x in rows ==> x == rows[0] || x in rows[1..];
      if rows[0].intentId == intentId && KindOf(rows[0].child) == k then rest else [rows[0]] + rest
  }

  /** Deleting ids one at a time is deleting the set of them. */
  lemma {:induction false} WithoutIdsStep(rows: seq<ChildRow>, intentId: int, k: Kind, ids: set<int>, id: int)
    ensures WithoutIds(WithoutIds(rows, intentId, k, ids), intentId, k, {id}) == WithoutIds(rows, intentId, k, ids + {id})
  {
    if |rows| > 0 {
      WithoutIdsStep(rows[1..], intentId, k, ids, id);
    }
  }

  lemma {:induction false} WithoutIdsNone(rows: seq<ChildRow>, intentId: int, k: Kind)
    ensures WithoutIds(rows, intentId, k, {}) == rows
  {
    if |rows| > 0 {
      WithoutIdsNone(rows[1..], intentId, k);
      assert rows == [rows[0]] + rows[1..];
    }
  }

  /** Deleting a set of ids that covers every row of the kind deletes the kind. */
  lemma {:induction false} WithoutIdsCovering(rows: seq<ChildRow>, intentId: int, k: Kind, ids: set<int>)
    requires forall j :: 0 <= j < |rows| && rows[j].intentId == intentId && KindOf(rows[j].child) == k ==> rows[j].id in ids
    ensures WithoutIds(rows, intentId, k, ids) == WithoutKind(rows, intentId, k)
  {
    if |rows| > 0 {
      assert forall j :: 0 <= j < |rows| - 1 ==> rows[1..][j] == rows[j + 1];
      WithoutIdsCovering(rows[1..], intentId, k, ids);
    }
  }

  /** Rows for newly inserted children, ids counted up from `next`. */
  function RowsFor(cs: seq<Child>, intentId: int, next: int): (r: seq<ChildRow>)
    ensures |r| == |cs|
    ensures forall j :: 0 <= j < |cs| ==> r[j] == ChildRow(next + j, intentId, cs[j])
  {
    seq(|cs|, j requires 0 <= j < |cs| => ChildRow(next + j, intentId, cs[j]))
  }

  lemma RowsForSnoc(cs: seq<Child>, c: Child, intentId: int, next: int)
    ensures RowsFor(cs + [c], intentId, next) == RowsFor(cs, intentId, next) + [ChildRow(next + |cs|, intentId, c)]
  {
  }

  /** The highest stored version of the intent's prompts, 0 when it has none. */
  function MaxVersion(rows: seq<ChildRow>, intentId: int): (m: int)
    ensures m >= 0
    ensures forall j :: 0 <= j < |rows| && rows[j].intentId == intentId && rows[j].child.PromptChild? ==>
      rows[j].child.prompt.version <= m
  {
    if |rows| == 0 then 0
    else
      var rest := MaxVersion(rows[1..], intentId);
      assert forall j :: 1 <= j < |rows| ==> rows[j] == rows[1..][j - 1];
      if rows[0].intentId == intentId && rows[0].child.PromptChild? && rows[0].child.prompt.version > rest
      then rows[0].child.prompt.version
      else rest
  }

  /** A positive maximum is the version of one of the intent's prompts. */
  lemma {:induction false} MaxVersionAttained(rows: seq<ChildRow>, intentId: int)
    requires MaxVersion(rows, intentId) != 0
    ensures exists j :: (0 <= j < |rows| && rows[j].intentId == intentId && rows[j].child.PromptChild?
      && rows[j].child.prompt.version == MaxVersion(rows, intentId))
  {
    var rest := MaxVersion(rows[1..], intentId);
    if rows[0].intentId == intentId && rows[0].child.PromptChild? && rows[0].child.prompt.version > rest {
      assert rows[0].child.prompt.version == MaxVersion(rows, intentId);
    } else {
      MaxVersionAttained(rows[1..], intentId);
      var j :| 0 <= j < |rows[1..]| && rows[1..][j].intentId == intentId && rows[1..][j].child.PromptChild?
        && rows[1..][j].child.prompt.version == rest;
      assert rows[j + 1] == rows[1..][j];
    }
  }

  /** `get_next_prompt_version`. */
  function NextPromptVersion(rows: seq<ChildRow>, intentId: int): (v: int)
    ensures v >= 1
    ensures forall j :: 0 <= j < |rows| && rows[j].intentId == intentId && rows[j].child.PromptChild? ==>
      rows[j].child.prompt.version < v
  {
    MaxVersion(rows, intentId) + 1
  }

  /** An intent without prompts starts at version 1. */
  lemma FirstPromptVersion(rows: seq<ChildRow>, intentId: int)
    requires forall j :: 0 <= j < |rows| ==> !(rows[j].intentId == intentId && rows[j].child.PromptChild?)
    ensures NextPromptVersion(rows, intentId) == 1
  {
    if MaxVersion(rows, intentId) != 0 {
      MaxVersionAttained(rows, intentId);
    }
  }

  /** The first row in table order with this id, kind and owner. */
  function FindChild(rows: seq<ChildRow>, intentId: int, k: Kind, id: int): (r: Option<ChildRow>)
    ensures r.Some? ==> r.value in rows && r.value.id == id && r.value.intentId == intentId && KindOf(r.value.child) == k
    ensures r.None? ==> forall j :: 0 <= j < |rows| ==> !(rows[j].id == id && rows[j].intentId == intentId && KindOf(rows[j].child) == k)
  {
    if |rows| == 0 then None
    else if rows[0].id == id && rows[0].intentId == intentId && KindOf(rows[0].child) == k then Some(rows[0])
    else
      var t := FindChild(rows[1..], intentId, k, id);
      assert forall j :: 1 <= j < |rows| ==> rows[j] == rows[1..][j - 1];
      t
  }

  /** Whether a prompt with this id exists for any intent. */
  predicate PromptExists(rows: seq<ChildRow>, promptId: int)
  {
    exists j :: 0 <= j < |rows| && rows[j].id == promptId && rows[j].child.PromptChild?
  }

  /** The prompt an output belongs to. */
  function OutputPrompt(rows: seq<OutputRow>, outputId: int): (r: Option<int>)
    ensures r.Some? ==> exists j :: 0 <= j < |rows| && rows[j].id == outputId && rows[j].promptId == r.value
    ensures r.None? <==> forall j :: 0 <= j < |rows| ==> rows[j].id != outputId
  {
    if |rows| == 0 then None
    else if rows[0].id == outputId then Some(rows[0].promptId)
    else
      var t := OutputPrompt(rows[1..], outputId);
      assert forall j :: 1 <= j < |rows| ==> rows[j] == rows[1..][j - 1];
      t
  }

  /** Every id is below the counter; every child belongs to a stored intent and is as
      its constructor left it. */
  predicate TablesValid(intents: seq<IntentRow>, children: seq<ChildRow>, outputs: seq<OutputRow>, next: int)
  {
    1 <= next
    && (forall j :: 0 <= j < |intents| ==> intents[j].id < next)
    && (forall j :: 0 <= j < |children| ==> children[j].id < next && children[j].intentId in IntentIds(intents))
    && (forall j :: 0 <= j < |children| ==> IsNormalChild(children[j].child))
    && (forall j :: 0 <= j < |outputs| ==> outputs[j].id < next)
  }

  /** A freshly created intent owns nothing yet, so it reads back with empty collections. */
  lemma FreshIntentIsBare(children: seq<ChildRow>, intents: seq<IntentRow>, id: int, k: Kind)
    requires forall j :: 0 <= j < |children| ==> children[j].intentId in IntentIds(intents)
    requires id !in IntentIds(intents)
    ensures Owned(children, id, k) == []
  {
  }

  /** A fresh id reads back every collection empty. */
  lemma FreshIntentsAreBare(children: seq<ChildRow>, intents: seq<IntentRow>, id: int)
    requires forall j :: 0 <= j < |children| ==> children[j].intentId in IntentIds(intents)
    requires id !in IntentIds(intents)
    ensures AspectsOf(children, id) == [] && InputsOf(children, id) == [] && ChoicesOf(children, id) == []
    ensures PitfallsOf(children, id) == [] && AssumptionsOf(children, id) == [] && QualitiesOf(children, id) == []
    ensures ExamplesOf(children, id) == [] && PromptsOf(children, id) == [] && InsightsOf(children, id) == []
  {
    FreshIntentIsBare(children, intents, id, AspectKind);
    FreshIntentIsBare(children, intents, id, InputKind);
    FreshIntentIsBare(children, intents, id, ChoiceKind);
    FreshIntentIsBare(children, intents, id, PitfallKind);
    FreshIntentIsBare(children, intents, id, AssumptionKind);
    FreshIntentIsBare(children, intents, id, QualityKind);
    FreshIntentIsBare(children, intents, id, ExampleKind);
    FreshIntentIsBare(children, intents, id, PromptKind);
    FreshIntentIsBare(children, intents, id, InsightKind);
  }

  /** Appending a row under the counter's id keeps the tables valid once the counter
      moves on. */
  lemma AppendKeepsTables(
    intents: seq<IntentRow>, children: seq<ChildRow>, outputs: seq<OutputRow>, next: int, row: IntentRow)
    requires TablesValid(intents, children, outputs, next) && row.id == next
    ensures next !in IntentIds(intents)
    ensures TablesValid(intents + [row], children, outputs, next + 1)
  {
    var s := intents + [row];
    assert IntentIds(s) == IntentIds(intents) + {row.id} by {
      assert forall j :: 0 <= j < |intents| ==> s[j] == intents[j];
      assert s[|intents|] == row;
    }
  }

  /** Rewriting the row found for an id with a row of the same id keeps the tables
      valid and the row found at the same place. */
  lemma RewriteKeepsTables(
    intents: seq<IntentRow>, children: seq<ChildRow>, outputs: seq<OutputRow>, next: int,
    id: int, k: int, row: IntentRow)
    requires TablesValid(intents, children, outputs, next)
    requires IntentIndex(intents, id) == Some(k) && row.id == id
    ensures TablesValid(intents[k := row], children, outputs, next)
    ensures IntentIndex(intents[k := row], id) == Some(k)
  {
    var s := intents[k := row];
    assert forall j :: 0 <= j < |intents| ==> s[j].id == intents[j].id;
    assert IntentIds(s) == IntentIds(intents) by {
      forall x | x in IntentIds(intents) ensures x in IntentIds(s) {
        var j :| 0 <= j < |intents| && intents[j].id == x;
        assert s[j].id == x;
      }
    }
    IndexOfFirst(s, id, k);
  }

  /** Removing an intent with what it owns, and any set of outputs, keeps the tables
      consistent. */
  lemma DeleteKeepsValid(intents: seq<IntentRow>, children: seq<ChildRow>, outputs: seq<OutputRow>, nextId: int,
                         id: int, promptIds: seq<int>)
    requires TablesValid(intents, children, outputs, nextId)
    ensures TablesValid(IntentsNot(intents, id), ChildrenNotOf(children, id), OutputsNotOf(outputs, promptIds), nextId)
  {
    var newIntents := IntentsNot(intents, id);
    var newChildren := ChildrenNotOf(children, id);
    forall j | 0 <= j < |newChildren|
      ensures newChildren[j].id < nextId && newChildren[j].intentId in IntentIds(newIntents)
    {
      var x := newChildren[j];
      assert x in newChildren;
      var m :| 0 <= m < |children| && children[m] == x;
      var n :| 0 <= n < |intents| && intents[n].id == x.intentId;
      assert intents[n] in newIntents;
      var p :| 0 <= p < |newIntents| && newIntents[p] == intents[n];
    }
    forall j | 0 <= j < |newIntents| ensures newIntents[j].id < nextId {
      assert newIntents[j] in intents;
    }
    var newOutputs := OutputsNotOf(outputs, promptIds);
    forall j | 0 <= j < |newOutputs| ensures newOutputs[j].id < nextId {
      assert newOutputs[j] in outputs;
    }
  }

  class IntentStore {
    var intents: seq<IntentRow>
    var children: seq<ChildRow>
    var outputs: seq<OutputRow>
    var nextId: int

    ghost predicate Valid()
      reads this
    {
      TablesValid(intents, children, outputs, nextId)
    }

    constructor ()
      ensures Valid() && intents == [] && children == [] && outputs == [] && nextId == 1
    {
      intents := [];
      children := [];
      outputs := [];
      nextId := 1;
    }

    /** `find_by_id`. */
    method FindById(id: int) returns (r: Result<Option<Intent>, ValueError>)
      ensures r == FindIntent(intents, children, id)
    {
      r := FindIntent(intents, children, id);
    }

    /** `list_all`. */
    method ListAll() returns (r: Result<seq<Intent>, ValueError>)
      ensures r == AllIntents(intents, children)
    {
      ghost var rs := ReadAll(intents, children);
      var acc: seq<Intent> := [];
      var k := 0;
      while k < |intents|
        invariant 0 <= k <= |intents|
        invariant Collect(rs[..k]) == Ok(acc)
      {
        var x := RowIntent(intents[k], children);
        if x.Err? {
          CollectFirstError(rs, k);
          return Err(x.error);
        }
        CollectExtend(rs, k);
        acc := acc + [x.value];
        k := k + 1;
      }
      assert rs[..k] == rs;
      return Ok(acc);
    }

    /** `create`: a new row with the next id; read back from it, the intent has that id
        and owns nothing yet. */
    method Create(i: Intent) returns (r: Result<Intent, ValueError>)
      requires Valid() && IsNormalIntent(i)
      modifies this
      ensures Valid()
      ensures old(nextId) !in IntentIds(old(intents))
      ensures intents == old(intents) + [IntentRow(old(nextId), i.name, i.description, i.createdAt, i.updatedAt)]
      ensures children == old(children) && outputs == old(outputs) && nextId == old(nextId) + 1
      ensures r == Ok(i.(id := Some(old(nextId)), aspects := [], inputs := [], choices := [], pitfalls := [],
                         assumptions := [], qualities := [], examples := [], prompts := [], insights := []))
    {
      var row := IntentRow(nextId, i.name, i.description, i.createdAt, i.updatedAt);
      AppendKeepsTables(intents, children, outputs, nextId, row);
      FreshIntentsAreBare(children, intents, nextId);
      intents := intents + [row];
      nextId := nextId + 1;
      RowIntentNormal(row, children);
      r := RowIntent(row, children);
    }

    /** `update`: name and description are written as given; the update time is
        refreshed only when one of them changes. */
    method Update(id: int, i: Intent, now: Instant) returns (r: Result<Option<Intent>, ValueError>)
      requires Valid()
      modifies this
      ensures Valid() && children == old(children) && outputs == old(outputs) && nextId == old(nextId)
      ensures IntentIndex(old(intents), id).None? ==> intents == old(intents) && r == Ok(None)
      ensures IntentIndex(old(intents), id).Some? ==>
        var k := IntentIndex(old(intents), id).value;
        var row := old(intents)[k];
        var changed := row.name != i.name || row.description != i.description;
        intents == old(intents)[k := row.(name := i.name, description := i.description,
                                          updatedAt := if changed then now else row.updatedAt)]
        && r == FindIntent(intents, children, id)
    {
      var k := IntentIndex(intents, id);
      if k.None? {
        return Ok(None);
      }
      var row := intents[k.value];
      var changed := row.name != i.name || row.description != i.description;
      var newRow := row.(name := i.name, description := i.description,
                         updatedAt := if changed then now else row.updatedAt);
      RewriteKeepsTables(intents, children, outputs, nextId, id, k.value, newRow);
      intents := intents[k.value := newRow];
      r := FindIntent(intents, children, id);
    }

    /** `delete`: the intent rows with that id go, with everything the intent owns and
        the outputs of its prompts. */
    method Delete(id: int) returns (deleted: bool)
      requires Valid()
      modifies this
      ensures Valid() && nextId == old(nextId)
      ensures deleted <==> IntentIndex(old(intents), id).Some?
      ensures deleted ==>
        intents == IntentsNot(old(intents), id)
        && children == ChildrenNotOf(old(children), id)
        && outputs == OutputsNotOf(old(outputs), OwnedIds(old(children), id, PromptKind))
      ensures !deleted ==> intents == old(intents) && children == old(children) && outputs == old(outputs)
    {
      if IntentIndex(intents, id).None? {
        return false;
      }
      var promptIds := OwnedIds(children, id, PromptKind);
      var newIntents := IntentsNot(intents, id);
      var newChildren := ChildrenNotOf(children, id);
      var newOutputs := OutputsNotOf(outputs, promptIds);
      DeleteKeepsValid(intents, children, outputs, nextId, id, promptIds);
      intents := newIntents;
      children := newChildren;
      outputs := newOutputs;
      deleted := true;
    }

    /** `add_<kind>`: ValueError when the intent does not exist; otherwise a new row owned
        by the intent with the next id. */
    method AddChild(intentId: int, c: Child) returns (r: Result<ChildRow, ValueError>)
      requires Valid() && IsNormalChild(c)
      modifies this
      ensures Valid() && intents == old(intents) && outputs == old(outputs)
      ensures IntentIndex(intents, intentId).None? ==>
        r == Err(MissingError("Intent", intentId))
        && children == old(children) && nextId == old(nextId)
      ensures IntentIndex(intents, intentId).Some? ==>
        r == Ok(ChildRow(old(nextId), intentId, c))
        && children == old(children) + [ChildRow(old(nextId), intentId, c)] && nextId == old(nextId) + 1
    {
      if IntentIndex(intents, intentId).None? {
        return Err(MissingError("Intent", intentId));
      }
      var row := ChildRow(nextId, intentId, c);
      children := children + [row];
      nextId := nextId + 1;
      r := Ok(row);
    }

    /** `delete_<kind>`: removes the rows of that kind with that id and owner. */
    method DeleteChild(intentId: int, k: Kind, id: int) returns (deleted: bool)
      requires Valid()
      modifies this
      ensures Valid() && intents == old(intents) && outputs == old(outputs) && nextId == old(nextId)
      ensures children == WithoutIds(old(children), intentId, k, {id})
      ensures deleted <==> FindChild(old(children), intentId, k, id).Some?
    {
      var f := FindChild(children, intentId, k, id);
      var kept := WithoutIds(children, intentId, k, {id});
      forall j | 0 <= j < |kept|
        ensures kept[j].id < nextId && kept[j].intentId in IntentIds(intents) && IsNormalChild(kept[j].child)
      {
        assert kept[j] in children;
      }
      children := kept;
      deleted := f.Some?;
    }

    /** `get_next_prompt_version`. */
    method NextVersion(intentId: int) returns (v: int)
      ensures v == NextPromptVersion(children, intentId)
    {
      v := NextPromptVersion(children, intentId);
    }

    /** `find_<kind>_by_id`, scoped to the intent. */
    method FindChildById(intentId: int, k: Kind, id: int) returns (r: Option<ChildRow>)
      ensures r == FindChild(children, intentId, k, id)
    {
      r := FindChild(children, intentId, k, id);
    }

    /** The prompt an output belongs to, or None for an unknown output. */
    method PromptIdForOutput(outputId: int) returns (r: Option<int>)
      ensures r == OutputPrompt(outputs, outputId)
    {
      r := OutputPrompt(outputs, outputId);
    }

    /** `add_output`: ValueError when no prompt has that id; otherwise a new output row. */
    method AddOutput(promptId: int, o: Output) returns (r: Result<OutputRow, ValueError>)
      requires Valid()
      modifies this
      ensures Valid() && intents == old(intents) && children == old(children)
      ensures !PromptExists(children, promptId) ==>
        r == Err(MissingError("Prompt", promptId))
        && outputs == old(outputs) && nextId == old(nextId)
      ensures PromptExists(children, promptId) ==>
        var row := OutputRow(old(nextId), promptId, o.content, o.createdAt, o.updatedAt);
        r == Ok(row) && outputs == old(outputs) + [row] && nextId == old(nextId) + 1
    {
      if !PromptExists(children, promptId) {
        return Err(MissingError("Prompt", promptId));
      }
      var row := OutputRow(nextId, promptId, o.content, o.createdAt, o.updatedAt);
      outputs := outputs + [row];
      nextId := nextId + 1;
      r := Ok(row);
    }
  }

  /** A slot holding the id with no earlier slot holding it is the first-match index. */
  lemma {:induction false} IndexOfFirst(rows: seq<IntentRow>, id: int, k: nat)
    requires k < |rows| && rows[k].id == id
    requires forall j :: 0 <= j < k ==> rows[j].id != id
    ensures IntentIndex(rows, id) == Some(k)
  {
    if k > 0 {
      assert forall j :: 0 <= j < k - 1 ==> rows[1..][j] == rows[j + 1];
      IndexOfFirst(rows[1..], id, k - 1);
    }
  }
}
