/**
 * What the second backend's intent service writes when it creates an intent with its
 * articulation or replaces that articulation: the request's entity lists become
 * stages, one per entity type, run in a fixed order. A stage appends the entities it
 * builds (creation) or first deletes every entity of its type and then appends
 * (articulation update); building an entity may raise, which stops the run with the
 * rows added so far kept.
 */
module IntentionsStages {
  import opened Wrappers
  import opened Text
  import opened Clock
  import opened IntentionsModels
  import opened IntentionsStore
  import DI = DeclaringIntents

  // ---------------------------------------------------------------------------
  // Request payloads and `_create_*_domain`

  datatype AspectDraft = AspectDraft(name: string, description: Option<string>)
  datatype InputDraft = InputDraft(
    name: string, description: string, aspectId: Option<int>, format: Option<string>, required: bool)
  datatype ChoiceDraft = ChoiceDraft(
    name: string, description: string, aspectId: Option<int>, options: Option<string>,
    selectedOption: Option<string>, rationale: Option<string>)
  datatype PitfallDraft = PitfallDraft(description: string, aspectId: Option<int>, mitigation: Option<string>)
  datatype AssumptionDraft = AssumptionDraft(description: string, aspectId: Option<int>, confidence: Option<string>)
  datatype QualityDraft = QualityDraft(
    criterion: string, aspectId: Option<int>, measurement: Option<string>, priority: Option<string>)

  /** The entity lists of a create or articulation request; None is "not supplied". */
  datatype Articulation = Articulation(
    aspects: Option<seq<AspectDraft>>, inputs: Option<seq<InputDraft>>, choices: Option<seq<ChoiceDraft>>,
    pitfalls: Option<seq<PitfallDraft>>, assumptions: Option<seq<AssumptionDraft>>,
    qualities: Option<seq<QualityDraft>>)

  /** `_create_aspect_domain`: a new aspect of the intent, stamped now. */
  function AspectDomain(i: int, d: AspectDraft, now: Instant): (r: Result<Child, ValueError>)
    ensures r.Ok? <==> !IsBlank(d.name)
    ensures r.Ok? ==> r.value == AspectChild(Aspect(None, i, Strip(d.name), DI.StripOptional(d.description), now, now))
    ensures r.Ok? ==> IsNormalAspect(r.value.aspect)
  {
    var a := NewAspect(None, i, d.name, d.description, None, None, now);
    if a.Err? then Err(a.error) else Ok(AspectChild(a.value))
  }

  /** `_create_input_domain`. */
  function InputDomain(i: int, d: InputDraft, now: Instant): (r: Result<Child, ValueError>)
    ensures r.Ok? <==> !IsBlank(d.name) && !IsBlank(d.description)
    ensures r.Ok? ==> r.value == InputChild(Input(None, i, d.aspectId, Strip(d.name), Strip(d.description),
                                                  DI.StripOptional(d.format), d.required, now, now))
    ensures r.Ok? ==> IsNormalInput(r.value.input)
  {
    var a := NewInput(None, i, d.name, d.description, d.aspectId, d.format, d.required, None, None, now);
    if a.Err? then Err(a.error) else Ok(InputChild(a.value))
  }

  /** `_create_choice_domain`. */
  function ChoiceDomain(i: int, d: ChoiceDraft, now: Instant): (r: Result<Child, ValueError>)
    ensures r.Ok? <==> !IsBlank(d.name) && !IsBlank(d.description)
    ensures r.Ok? ==> r.value == ChoiceChild(Choice(None, i, d.aspectId, Strip(d.name), Strip(d.description),
                                                    DI.StripOptional(d.options), DI.StripOptional(d.selectedOption),
                                                    DI.StripOptional(d.rationale), now, now))
    ensures r.Ok? ==> IsNormalChoice(r.value.choice)
  {
    var a := NewChoice(None, i, d.name, d.description, d.aspectId, d.options, d.selectedOption, d.rationale,
                       None, None, now);
    if a.Err? then Err(a.error) else Ok(ChoiceChild(a.value))
  }

  /** `_create_pitfall_domain`. */
  function PitfallDomain(i: int, d: PitfallDraft, now: Instant): (r: Result<Child, ValueError>)
    ensures r.Ok? <==> !IsBlank(d.description)
    ensures r.Ok? ==> r.value == PitfallChild(Pitfall(None, i, d.aspectId, Strip(d.description),
                                                      DI.StripOptional(d.mitigation), now, now))
    ensures r.Ok? ==> IsNormalPitfall(r.value.pitfall)
  {
    var a := NewPitfall(None, i, d.description, d.aspectId, d.mitigation, None, None, now);
    if a.Err? then Err(a.error) else Ok(PitfallChild(a.value))
  }

  /** `_create_assumption_domain`: a confidence outside the closed set is refused. */
  function AssumptionDomain(i: int, d: AssumptionDraft, now: Instant): (r: Result<Child, ValueError>)
    ensures r.Ok? <==> !IsBlank(d.description) && InSetOrEmpty(DI.StripOptional(d.confidence), Confidences)
    ensures r.Ok? ==> r.value == AssumptionChild(Assumption(None, i, d.aspectId, Strip(d.description),
                                                            DI.StripOptional(d.confidence), now, now))
    ensures r.Ok? ==> IsNormalAssumption(r.value.assumption)
  {
    var a := NewAssumption(None, i, d.description, d.aspectId, d.confidence, None, None, now);
    if a.Err? then Err(a.error) else Ok(AssumptionChild(a.value))
  }

  /** `_create_quality_domain`: a priority outside the closed set is refused. */
  function QualityDomain(i: int, d: QualityDraft, now: Instant): (r: Result<Child, ValueError>)
    ensures r.Ok? <==> !IsBlank(d.criterion) && InSetOrEmpty(DI.StripOptional(d.priority), Priorities)
    ensures r.Ok? ==> r.value == QualityChild(Quality(None, i, d.aspectId, Strip(d.criterion),
                                                      DI.StripOptional(d.measurement), DI.StripOptional(d.priority),
                                                      now, now))
    ensures r.Ok? ==> IsNormalQuality(r.value.quality)
  {
    var a := NewQuality(None, i, d.criterion, d.aspectId, d.measurement, d.priority, None, None, now);
    if a.Err? then Err(a.error) else Ok(QualityChild(a.value))
  }

  // ---------------------------------------------------------------------------
  // Stages

  /** One entity type of a request: the converted payload in request order, or None when
      that type was not supplied. */
  datatype Stage = Stage(kind: Kind, results: Option<seq<Result<Child, ValueError>>>)

  /** Every entity a stage builds is of the stage's type, as its constructor left it. */
  predicate Kinded(s: Stage)
  {
    s.results.Some? ==>
      forall j :: 0 <= j < |s.results.value| && s.results.value[j].Ok? ==>
        KindOf(s.results.value[j].value) == s.kind && IsNormalChild(s.results.value[j].value)
  }

  function AspectStage(i: int, ds: Option<seq<AspectDraft>>, now: Instant): (s: Stage)
    ensures s.kind == AspectKind && Kinded(s) && (s.results.Some? <==> ds.Some?)
  {
    if ds.None? then Stage(AspectKind, None)
    else
      AspectsNormal(i, ds.value, now);
      Stage(AspectKind, Some(seq(|ds.value|, j requires 0 <= j < |ds.value| => AspectDomain(i, ds.value[j], now))))
  }

  /** Each entity a stage builds is of its type and as its constructor left it. */
  lemma AspectsNormal(i: int, ds: seq<AspectDraft>, now: Instant)
    ensures forall j :: 0 <= j < |ds| && AspectDomain(i, ds[j], now).Ok? ==>
      KindOf(AspectDomain(i, ds[j], now).value) == AspectKind && IsNormalChild(AspectDomain(i, ds[j], now).value)
  {
    forall j | 0 <= j < |ds| && AspectDomain(i, ds[j], now).Ok?
      ensures KindOf(AspectDomain(i, ds[j], now).value) == AspectKind && IsNormalChild(AspectDomain(i, ds[j], now).value)
    {
      var c := AspectDomain(i, ds[j], now).value;
      assert c.AspectChild? && IsNormalAspect(c.aspect);
    }
  }
  function InputStage(i: int, ds: Option<seq<InputDraft>>, now: Instant): (s: Stage)
    ensures s.kind == InputKind && Kinded(s) && (s.results.Some? <==> ds.Some?)
  {
    if ds.None? then Stage(InputKind, None)
    else
      InputsNormal(i, ds.value, now);
      Stage(InputKind, Some(seq(|ds.value|, j requires 0 <= j < |ds.value| => InputDomain(i, ds.value[j], now))))
  }

  lemma InputsNormal(i: int, ds: seq<InputDraft>, now: Instant)
    ensures forall j :: 0 <= j < |ds| && InputDomain(i, ds[j], now).Ok? ==>
      KindOf(InputDomain(i, ds[j], now).value) == InputKind && IsNormalChild(InputDomain(i, ds[j], now).value)
  {
    forall j | 0 <= j < |ds| && InputDomain(i, ds[j], now).Ok?
      ensures KindOf(InputDomain(i, ds[j], now).value) == InputKind && IsNormalChild(InputDomain(i, ds[j], now).value)
    {
      var c := InputDomain(i, ds[j], now).value;
      assert c.InputChild? && IsNormalInput(c.input);
    }
  }
  function ChoiceStage(i: int, ds: Option<seq<ChoiceDraft>>, now: Instant): (s: Stage)
    ensures s.kind == ChoiceKind && Kinded(s) && (s.results.Some? <==> ds.Some?)
  {
    if ds.None? then Stage(ChoiceKind, None)
    else
      ChoicesNormal(i, ds.value, now);
      Stage(ChoiceKind, Some(seq(|ds.value|, j requires 0 <= j < |ds.value| => ChoiceDomain(i, ds.value[j], now))))
  }

  lemma ChoicesNormal(i: int, ds: seq<ChoiceDraft>, now: Instant)
    ensures forall j :: 0 <= j < |ds| && ChoiceDomain(i, ds[j], now).Ok? ==>
      KindOf(ChoiceDomain(i, ds[j], now).value) == ChoiceKind && IsNormalChild(ChoiceDomain(i, ds[j], now).value)
  {
    forall j | 0 <= j < |ds| && ChoiceDomain(i, ds[j], now).Ok?
      ensures KindOf(ChoiceDomain(i, ds[j], now).value) == ChoiceKind && IsNormalChild(ChoiceDomain(i, ds[j], now).value)
    {
      var c := ChoiceDomain(i, ds[j], now).value;
      assert c.ChoiceChild? && IsNormalChoice(c.choice);
    }
  }
  function PitfallStage(i: int, ds: Option<seq<PitfallDraft>>, now: Instant): (s: Stage)
    ensures s.kind == PitfallKind && Kinded(s) && (s.results.Some? <==> ds.Some?)
  {
    if ds.None? then Stage(PitfallKind, None)
    else
      PitfallsNormal(i, ds.value, now);
      Stage(PitfallKind, Some(seq(|ds.value|, j requires 0 <= j < |ds.value| => PitfallDomain(i, ds.value[j], now))))
  }

  lemma PitfallsNormal(i: int, ds: seq<PitfallDraft>, now: Instant)
    ensures forall j :: 0 <= j < |ds| && PitfallDomain(i, ds[j], now).Ok? ==>
      KindOf(PitfallDomain(i, ds[j], now).value) == PitfallKind && IsNormalChild(PitfallDomain(i, ds[j], now).value)
  {
    forall j | 0 <= j < |ds| && PitfallDomain(i, ds[j], now).Ok?
      ensures KindOf(PitfallDomain(i, ds[j], now).value) == PitfallKind && IsNormalChild(PitfallDomain(i, ds[j], now).value)
    {
      var c := PitfallDomain(i, ds[j], now).value;
      assert c.PitfallChild? && IsNormalPitfall(c.pitfall);
    }
  }
  function AssumptionStage(i: int, ds: Option<seq<AssumptionDraft>>, now: Instant): (s: Stage)
    ensures s.kind == AssumptionKind && Kinded(s) && (s.results.Some? <==> ds.Some?)
  {
    if ds.None? then Stage(AssumptionKind, None)
    else
      AssumptionsNormal(i, ds.value, now);
      Stage(AssumptionKind, Some(seq(|ds.value|, j requires 0 <= j < |ds.value| => AssumptionDomain(i, ds.value[j], now))))
  }

  lemma AssumptionsNormal(i: int, ds: seq<AssumptionDraft>, now: Instant)
    ensures forall j :: 0 <= j < |ds| && AssumptionDomain(i, ds[j], now).Ok? ==>
      KindOf(AssumptionDomain(i, ds[j], now).value) == AssumptionKind && IsNormalChild(AssumptionDomain(i, ds[j], now).value)
  {
    forall j | 0 <= j < |ds| && AssumptionDomain(i, ds[j], now).Ok?
      ensures KindOf(AssumptionDomain(i, ds[j], now).value) == AssumptionKind && IsNormalChild(AssumptionDomain(i, ds[j], now).value)
    {
      var c := AssumptionDomain(i, ds[j], now).value;
      assert c.AssumptionChild? && IsNormalAssumption(c.assumption);
    }
  }
  function QualityStage(i: int, ds: Option<seq<QualityDraft>>, now: Instant): (s: Stage)
    ensures s.kind == QualityKind && Kinded(s) && (s.results.Some? <==> ds.Some?)
  {
    if ds.None? then Stage(QualityKind, None)
    else
      QualitiesNormal(i, ds.value, now);
      Stage(QualityKind, Some(seq(|ds.value|, j requires 0 <= j < |ds.value| => QualityDomain(i, ds.value[j], now))))
  }

  lemma QualitiesNormal(i: int, ds: seq<QualityDraft>, now: Instant)
    ensures forall j :: 0 <= j < |ds| && QualityDomain(i, ds[j], now).Ok? ==>
      KindOf(QualityDomain(i, ds[j], now).value) == QualityKind && IsNormalChild(QualityDomain(i, ds[j], now).value)
  {
    forall j | 0 <= j < |ds| && QualityDomain(i, ds[j], now).Ok?
      ensures KindOf(QualityDomain(i, ds[j], now).value) == QualityKind && IsNormalChild(QualityDomain(i, ds[j], now).value)
    {
      var c := QualityDomain(i, ds[j], now).value;
      assert c.QualityChild? && IsNormalQuality(c.quality);
    }
  }

  /** `create_intent` adds aspects, inputs, choices, pitfalls, assumptions, qualities. */
  function CreationStages(i: int, a: Articulation, now: Instant): seq<Stage>
  {
    [AspectStage(i, a.aspects, now), InputStage(i, a.inputs, now), ChoiceStage(i, a.choices, now),
     PitfallStage(i, a.pitfalls, now), AssumptionStage(i, a.assumptions, now), QualityStage(i, a.qualities, now)]
  }

  /** `update_intent_articulation` replaces inputs, choices, pitfalls, assumptions,
      qualities and, last, aspects. */
  function ArticulationStages(i: int, a: Articulation, now: Instant): seq<Stage>
  {
    [InputStage(i, a.inputs, now), ChoiceStage(i, a.choices, now), PitfallStage(i, a.pitfalls, now),
     AssumptionStage(i, a.assumptions, now), QualityStage(i, a.qualities, now), AspectStage(i, a.aspects, now)]
  }

  /** No entity type has two stages. */
  predicate DistinctKinds(ss: seq<Stage>)
  {
    forall j, l :: 0 <= j < l < |ss| ==> ss[j].kind != ss[l].kind
  }

  predicate AllKinded(ss: seq<Stage>)
  {
    forall j :: 0 <= j < |ss| ==> Kinded(ss[j])
  }

  // ---------------------------------------------------------------------------
  // Running stages

  datatype Tables = Tables(children: seq<ChildRow>, nextId: int)

  /** The tables so far and the error that stopped the run, if one did. */
  datatype Progress = Progress(tables: Tables, error: Option<ValueError>)

  /** The add loop of one stage: what was built before the first raise is stored, each
      with the next id; the raise, if any, is the error. */
  function Append(t: Tables, i: int, rs: seq<Result<Child, ValueError>>): Progress
  {
    var cs := OkPrefix(rs);
    Progress(Tables(t.children + RowsFor(cs, i, t.nextId), t.nextId + |cs|), FirstError(rs))
  }

  function StepAppend(p: Progress, i: int, s: Stage): Progress
  {
    if p.error.Some? || s.results.None? then p else Append(p.tables, i, s.results.value)
  }

  function StepReplace(p: Progress, i: int, s: Stage): Progress
  {
    if p.error.Some? || s.results.None? then p
    else Append(Tables(WithoutKind(p.tables.children, i, s.kind), p.tables.nextId), i, s.results.value)
  }

  function RunAppend(p: Progress, i: int, ss: seq<Stage>): Progress
    decreases |ss|
  {
    if |ss| == 0 then p else RunAppend(StepAppend(p, i, ss[0]), i, ss[1..])
  }

  function RunReplace(p: Progress, i: int, ss: seq<Stage>): Progress
    decreases |ss|
  {
    if |ss| == 0 then p else RunReplace(StepReplace(p, i, ss[0]), i, ss[1..])
  }

  /** The children of rows, in order. */
  function Kids(rows: seq<ChildRow>): (r: seq<Child>)
    ensures |r| == |rows| && forall j :: 0 <= j < |rows| ==> r[j] == rows[j].child
  {
    seq(|rows|, j requires 0 <= j < |rows| => rows[j].child)
  }

  /** Every entity the stages of this type build succeeds. */
  predicate StagesSucceed(ss: seq<Stage>)
  {
    forall j, l :: 0 <= j < |ss| && ss[j].results.Some? && 0 <= l < |ss[j].results.value| ==> ss[j].results.value[l].Ok?
  }

  // ---------------------------------------------------------------------------
  // Facts about Owned

  lemma {:induction false} OwnedAll(rows: seq<ChildRow>, i: int, k: Kind)
    requires forall j :: 0 <= j < |rows| ==> rows[j].intentId == i && KindOf(rows[j].child) == k
    ensures Owned(rows, i, k) == rows
  {
    if |rows| > 0 {
      assert forall j :: 0 <= j < |rows| - 1 ==> rows[1..][j] == rows[j + 1];
      OwnedAll(rows[1..], i, k);
      assert rows == [rows[0]] + rows[1..];
    }
  }

  lemma {:induction false} OwnedNone(rows: seq<ChildRow>, i: int, k: Kind)
    requires forall j :: 0 <= j < |rows| ==> !(rows[j].intentId == i && KindOf(rows[j].child) == k)
    ensures Owned(rows, i, k) == []
  {
    if |rows| > 0 {
      assert forall j :: 0 <= j < |rows| - 1 ==> rows[1..][j] == rows[j + 1];
      OwnedNone(rows[1..], i, k);
    }
  }

  /** Removing one type of one intent leaves every other (intent, type) as it was and
      that one empty. */
  lemma {:induction false} OwnedWithoutKind(rows: seq<ChildRow>, i: int, k: Kind, i': int, k': Kind)
    ensures i' == i && k' == k ==> Owned(WithoutKind(rows, i, k), i', k') == []
    ensures i' != i || k' != k ==> Owned(WithoutKind(rows, i, k), i', k') == Owned(rows, i', k')
  {
    if |rows| > 0 {
      OwnedWithoutKind(rows[1..], i, k, i', k');
    }
  }

  /** The rows a stage adds hold exactly its built entities, all of its type and owner. */
  lemma OwnedAdded(cs: seq<Child>, k: Kind, i: int, n: int, i': int, k': Kind)
    requires forall j :: 0 <= j < |cs| ==> KindOf(cs[j]) == k
    ensures i' != i || k' != k ==> Owned(RowsFor(cs, i, n), i', k') == []
    ensures Kids(Owned(RowsFor(cs, i, n), i, k)) == cs
  {
    var rs := RowsFor(cs, i, n);
    if i' != i || k' != k {
      OwnedNone(rs, i', k');
    }
    OwnedAll(rs, i, k);
  }

  lemma KidsAppend(a: seq<ChildRow>, b: seq<ChildRow>)
    ensures Kids(a + b) == Kids(a) + Kids(b)
  {
  }

  // ---------------------------------------------------------------------------
  // One stage

  /** A stage leaves every other (intent, type) as it was; a skipped stage changes
      nothing; a run that stopped stays stopped. */
  lemma StepReplaceKeeps(p: Progress, i: int, s: Stage)
    requires Kinded(s)
    ensures p.error.Some? || s.results.None? ==> StepReplace(p, i, s) == p
    ensures forall i', k' {:trigger Owned(StepReplace(p, i, s).tables.children, i', k')} ::
      i' != i || k' != s.kind ==>
        Owned(StepReplace(p, i, s).tables.children, i', k') == Owned(p.tables.children, i', k')
  {
    if p.error.None? && s.results.Some? {
      var cs := OkPrefix(s.results.value);
      var w := WithoutKind(p.tables.children, i, s.kind);
      forall i', k' | i' != i || k' != s.kind
        ensures Owned(StepReplace(p, i, s).tables.children, i', k') == Owned(p.tables.children, i', k')
      {
        OwnedAppend(w, RowsFor(cs, i, p.tables.nextId), i', k');
        OwnedWithoutKind(p.tables.children, i, s.kind, i', k');
        OwnedAdded(cs, s.kind, i, p.tables.nextId, i', k');
      }
    }
  }

  /** A stage that runs replaces its type of the intent by what it built. */
  lemma StepReplaceSets(p: Progress, i: int, s: Stage)
    requires Kinded(s) && p.error.None? && s.results.Some?
    ensures Kids(Owned(StepReplace(p, i, s).tables.children, i, s.kind)) == OkPrefix(s.results.value)
    ensures StepReplace(p, i, s).error == FirstError(s.results.value)
  {
    var cs := OkPrefix(s.results.value);
    var w := WithoutKind(p.tables.children, i, s.kind);
    OwnedAppend(w, RowsFor(cs, i, p.tables.nextId), i, s.kind);
    OwnedWithoutKind(p.tables.children, i, s.kind, i, s.kind);
    OwnedAdded(cs, s.kind, i, p.tables.nextId, i, s.kind);
  }

  lemma StepAppendKeeps(p: Progress, i: int, s: Stage)
    requires Kinded(s)
    ensures p.error.Some? || s.results.None? ==> StepAppend(p, i, s) == p
    ensures forall i', k' {:trigger Owned(StepAppend(p, i, s).tables.children, i', k')} ::
      i' != i || k' != s.kind ==>
        Owned(StepAppend(p, i, s).tables.children, i', k') == Owned(p.tables.children, i', k')
  {
    if p.error.None? && s.results.Some? {
      var cs := OkPrefix(s.results.value);
      forall i', k' | i' != i || k' != s.kind
        ensures Owned(StepAppend(p, i, s).tables.children, i', k') == Owned(p.tables.children, i', k')
      {
        OwnedAppend(p.tables.children, RowsFor(cs, i, p.tables.nextId), i', k');
        OwnedAdded(cs, s.kind, i, p.tables.nextId, i', k');
      }
    }
  }

  /** A creation stage that runs appends what it built after what the type held. */
  lemma StepAppendExtends(p: Progress, i: int, s: Stage)
    requires Kinded(s) && p.error.None? && s.results.Some?
    ensures Kids(Owned(StepAppend(p, i, s).tables.children, i, s.kind))
         == Kids(Owned(p.tables.children, i, s.kind)) + OkPrefix(s.results.value)
    ensures StepAppend(p, i, s).error == FirstError(s.results.value)
  {
    var cs := OkPrefix(s.results.value);
    OwnedAppend(p.tables.children, RowsFor(cs, i, p.tables.nextId), i, s.kind);
    OwnedAdded(cs, s.kind, i, p.tables.nextId, i, s.kind);
    KidsAppend(Owned(p.tables.children, i, s.kind), Owned(RowsFor(cs, i, p.tables.nextId), i, s.kind));
  }

  // ---------------------------------------------------------------------------
  // Whole runs

  lemma {:induction false} RunReplaceStopped(p: Progress, i: int, ss: seq<Stage>)
    requires p.error.Some?
    ensures RunReplace(p, i, ss) == p
    decreases |ss|
  {
    if |ss| > 0 {
      RunReplaceStopped(StepReplace(p, i, ss[0]), i, ss[1..]);
    }
  }

  lemma {:induction false} RunAppendStopped(p: Progress, i: int, ss: seq<Stage>)
    requires p.error.Some?
    ensures RunAppend(p, i, ss) == p
    decreases |ss|
  {
    if |ss| > 0 {
      RunAppendStopped(StepAppend(p, i, ss[0]), i, ss[1..]);
    }
  }

  /** A run ends without error exactly when it starts without one and every entity of
      every supplied type is built. */
  lemma {:induction false} RunReplaceError(p: Progress, i: int, ss: seq<Stage>)
    ensures RunReplace(p, i, ss).error.None? <==> p.error.None? && StagesSucceed(ss)
    decreases |ss|
  {
    if |ss| > 0 {
      var q := StepReplace(p, i, ss[0]);
      RunReplaceError(q, i, ss[1..]);
      assert forall j :: 1 <= j < |ss| ==> ss[j] == ss[1..][j - 1];
      if StagesSucceed(ss[1..]) && !StagesSucceed(ss) {
        var j, l :| 0 <= j < |ss| && ss[j].results.Some? && 0 <= l < |ss[j].results.value| && !ss[j].results.value[l].Ok?;
        if j > 0 {
          assert ss[1..][j - 1] == ss[j];
        }
      }
    }
  }

  lemma {:induction false} RunAppendError(p: Progress, i: int, ss: seq<Stage>)
    ensures RunAppend(p, i, ss).error.None? <==> p.error.None? && StagesSucceed(ss)
    decreases |ss|
  {
    if |ss| > 0 {
      var q := StepAppend(p, i, ss[0]);
      RunAppendError(q, i, ss[1..]);
      assert forall j :: 1 <= j < |ss| ==> ss[j] == ss[1..][j - 1];
      if StagesSucceed(ss[1..]) && !StagesSucceed(ss) {
        var j, l :| 0 <= j < |ss| && ss[j].results.Some? && 0 <= l < |ss[j].results.value| && !ss[j].results.value[l].Ok?;
        if j > 0 {
          assert ss[1..][j - 1] == ss[j];
        }
      }
    }
  }

  /** A type with no supplied stage, and every type of every other intent, is as it was. */
  lemma {:induction false} RunReplaceKeeps(p: Progress, i: int, ss: seq<Stage>, i': int, k: Kind)
    requires AllKinded(ss)
    requires i' != i || forall j :: 0 <= j < |ss| && ss[j].kind == k ==> ss[j].results.None?
    ensures Owned(RunReplace(p, i, ss).tables.children, i', k) == Owned(p.tables.children, i', k)
    decreases |ss|
  {
    if |ss| > 0 {
      StepReplaceKeeps(p, i, ss[0]);
      assert forall j :: 1 <= j < |ss| ==> ss[j] == ss[1..][j - 1];
      RunReplaceKeeps(StepReplace(p, i, ss[0]), i, ss[1..], i', k);
    }
  }

  lemma {:induction false} RunAppendKeeps(p: Progress, i: int, ss: seq<Stage>, i': int, k: Kind)
    requires AllKinded(ss)
    requires i' != i || forall j :: 0 <= j < |ss| && ss[j].kind == k ==> ss[j].results.None?
    ensures Owned(RunAppend(p, i, ss).tables.children, i', k) == Owned(p.tables.children, i', k)
    decreases |ss|
  {
    if |ss| > 0 {
      StepAppendKeeps(p, i, ss[0]);
      assert forall j :: 1 <= j < |ss| ==> ss[j] == ss[1..][j - 1];
      RunAppendKeeps(StepAppend(p, i, ss[0]), i, ss[1..], i', k);
    }
  }

  /** After a run without error, a supplied type holds exactly what its stage built. */
  lemma {:induction false} RunReplaceSets(p: Progress, i: int, ss: seq<Stage>, m: nat)
    requires AllKinded(ss) && DistinctKinds(ss)
    requires m < |ss| && ss[m].results.Some?
    requires RunReplace(p, i, ss).error.None?
    ensures Kids(Owned(RunReplace(p, i, ss).tables.children, i, ss[m].kind)) == OkPrefix(ss[m].results.value)
    decreases |ss|
  {
    var q := StepReplace(p, i, ss[0]);
    assert forall j :: 1 <= j < |ss| ==> ss[j] == ss[1..][j - 1];
    if p.error.Some? {
      RunReplaceStopped(p, i, ss);
    }
    if q.error.Some? {
      RunReplaceStopped(q, i, ss[1..]);
    }
    if m == 0 {
      StepReplaceSets(p, i, ss[0]);
      RunReplaceKeeps(q, i, ss[1..], i, ss[0].kind);
    } else {
      RunReplaceSets(q, i, ss[1..], m - 1);
    }
  }

  /** After a creation run without error, a supplied type holds what it held before
      followed by what its stage built. */
  lemma {:induction false} RunAppendSets(p: Progress, i: int, ss: seq<Stage>, m: nat)
    requires AllKinded(ss) && DistinctKinds(ss)
    requires m < |ss| && ss[m].results.Some?
    requires RunAppend(p, i, ss).error.None?
    ensures Kids(Owned(RunAppend(p, i, ss).tables.children, i, ss[m].kind))
         == Kids(Owned(p.tables.children, i, ss[m].kind)) + OkPrefix(ss[m].results.value)
    decreases |ss|
  {
    var q := StepAppend(p, i, ss[0]);
    assert forall j :: 1 <= j < |ss| ==> ss[j] == ss[1..][j - 1];
    if p.error.Some? {
      RunAppendStopped(p, i, ss);
    }
    if q.error.Some? {
      RunAppendStopped(q, i, ss[1..]);
    }
    if m == 0 {
      StepAppendExtends(p, i, ss[0]);
      RunAppendKeeps(q, i, ss[1..], i, ss[0].kind);
    } else {
      StepAppendKeeps(p, i, ss[0]);
      RunAppendSets(q, i, ss[1..], m - 1);
    }
  }

  // ---------------------------------------------------------------------------
  // The two request shapes

  /** The stage of one type in a request, whichever order it runs in. */
  function StageOf(i: int, a: Articulation, k: Kind, now: Instant): Stage
  {
    match k
    case AspectKind => AspectStage(i, a.aspects, now)
    case InputKind => InputStage(i, a.inputs, now)
    case ChoiceKind => ChoiceStage(i, a.choices, now)
    case PitfallKind => PitfallStage(i, a.pitfalls, now)
    case AssumptionKind => AssumptionStage(i, a.assumptions, now)
    case QualityKind => QualityStage(i, a.qualities, now)
    case _ => Stage(k, None)
  }

  /** The request carries a list for this type. */
  predicate Supplies(a: Articulation, k: Kind)
  {
    match k
    case AspectKind => a.aspects.Some?
    case InputKind => a.inputs.Some?
    case ChoiceKind => a.choices.Some?
    case PitfallKind => a.pitfalls.Some?
    case AssumptionKind => a.assumptions.Some?
    case QualityKind => a.qualities.Some?
    case _ => false
  }

  /** The slot of a type in the articulation order. */
  function ArticulationSlot(k: Kind): (m: nat)
    requires k in {AspectKind, InputKind, ChoiceKind, PitfallKind, AssumptionKind, QualityKind}
    ensures m < 6
  {
    match k
    case InputKind => 0
    case ChoiceKind => 1
    case PitfallKind => 2
    case AssumptionKind => 3
    case QualityKind => 4
    case AspectKind => 5
  }

  lemma ArticulationStagesShape(i: int, a: Articulation, now: Instant)
    ensures AllKinded(ArticulationStages(i, a, now)) && DistinctKinds(ArticulationStages(i, a, now))
    ensures |ArticulationStages(i, a, now)| == 6
    ensures forall k :: k in {AspectKind, InputKind, ChoiceKind, PitfallKind, AssumptionKind, QualityKind} ==>
      ArticulationStages(i, a, now)[ArticulationSlot(k)] == StageOf(i, a, k, now)
    ensures forall j :: 0 <= j < 6 ==>
      (ArticulationStages(i, a, now)[j].results.Some? <==> Supplies(a, ArticulationStages(i, a, now)[j].kind))
  {
  }

  lemma CreationStagesShape(i: int, a: Articulation, now: Instant)
    ensures AllKinded(CreationStages(i, a, now)) && DistinctKinds(CreationStages(i, a, now))
    ensures |CreationStages(i, a, now)| == 6
    ensures forall k :: k in {AspectKind, InputKind, ChoiceKind, PitfallKind, AssumptionKind, QualityKind} ==>
      CreationStages(i, a, now)[(ArticulationSlot(k) + 1) % 6] == StageOf(i, a, k, now)
    ensures forall j :: 0 <= j < 6 ==>
      (CreationStages(i, a, now)[j].results.Some? <==> Supplies(a, CreationStages(i, a, now)[j].kind))
  {
  }

  /** `update_intent_articulation` as a whole: a type the request leaves out, and every
      other intent, keeps its entities; when no entity fails to build, each supplied
      type holds exactly the entities built from its list (so [] clears it); the run
      fails exactly when some supplied entity fails to build. */
  lemma ArticulationOutcome(t: Tables, i: int, a: Articulation, now: Instant, i': int, k: Kind)
    ensures var r := RunReplace(Progress(t, None), i, ArticulationStages(i, a, now));
      (i' != i || !Supplies(a, k)) ==> Owned(r.tables.children, i', k) == Owned(t.children, i', k)
    ensures var r := RunReplace(Progress(t, None), i, ArticulationStages(i, a, now));
      r.error.None? && Supplies(a, k) ==>
        Kids(Owned(r.tables.children, i, k)) == OkPrefix(StageOf(i, a, k, now).results.value)
    ensures var r := RunReplace(Progress(t, None), i, ArticulationStages(i, a, now));
      r.error.None? <==> StagesSucceed(ArticulationStages(i, a, now))
  {
    var ss := ArticulationStages(i, a, now);
    ArticulationStagesShape(i, a, now);
    RunReplaceError(Progress(t, None), i, ss);
    if i' != i || !Supplies(a, k) {
      RunReplaceKeeps(Progress(t, None), i, ss, i', k);
    }
    if RunReplace(Progress(t, None), i, ss).error.None? && Supplies(a, k) {
      assert k in {AspectKind, InputKind, ChoiceKind, PitfallKind, AssumptionKind, QualityKind};
      RunReplaceSets(Progress(t, None), i, ss, ArticulationSlot(k));
    }
  }

  /** `create_intent`'s articulation: for an intent that owns nothing yet, a run without
      error leaves each type holding the entities built from its list (an absent list
      adds none), and the run fails exactly when some entity fails to build. */
  lemma CreationOutcome(t: Tables, i: int, a: Articulation, now: Instant, k: Kind)
    requires forall k' :: Owned(t.children, i, k') == []
    ensures var r := RunAppend(Progress(t, None), i, CreationStages(i, a, now));
      r.error.None? && Supplies(a, k) ==>
        Kids(Owned(r.tables.children, i, k)) == OkPrefix(StageOf(i, a, k, now).results.value)
    ensures var r := RunAppend(Progress(t, None), i, CreationStages(i, a, now));
      !Supplies(a, k) ==> Owned(r.tables.children, i, k) == []
    ensures var r := RunAppend(Progress(t, None), i, CreationStages(i, a, now));
      r.error.None? <==> StagesSucceed(CreationStages(i, a, now))
  {
    var ss := CreationStages(i, a, now);
    CreationStagesShape(i, a, now);
    RunAppendError(Progress(t, None), i, ss);
    if !Supplies(a, k) {
      RunAppendKeeps(Progress(t, None), i, ss, i, k);
    }
    if RunAppend(Progress(t, None), i, ss).error.None? && Supplies(a, k) {
      assert k in {AspectKind, InputKind, ChoiceKind, PitfallKind, AssumptionKind, QualityKind};
      RunAppendSets(Progress(t, None), i, ss, (ArticulationSlot(k) + 1) % 6);
    }
  }
}
