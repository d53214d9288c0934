/**
 * Domain objects of the second backend's intents: an intent and the articulation that
 * sharpens it (aspects, inputs, choices, pitfalls, assumptions, qualities, examples),
 * the prompts generated from it, their outputs, and insights fed back. Every
 * constructor validates and normalises: a required text must be non-blank and is kept
 * stripped; an optional text is stripped when non-empty and otherwise absent; some
 * optional texts must, when non-empty after stripping, lie in a closed set.
 */
module IntentionsModels {
  import opened Wrappers
  import opened Text
  import opened Clock
  import DI = DeclaringIntents

  datatype Aspect = Aspect(
    id: Option<int>, intentId: int, name: string, description: Option<string>,
    createdAt: Instant, updatedAt: Instant)

  datatype Input = Input(
    id: Option<int>, intentId: int, aspectId: Option<int>, name: string, description: string,
    format: Option<string>, required: bool, createdAt: Instant, updatedAt: Instant)

  datatype Choice = Choice(
    id: Option<int>, intentId: int, aspectId: Option<int>, name: string, description: string,
    options: Option<string>, selectedOption: Option<string>, rationale: Option<string>,
    createdAt: Instant, updatedAt: Instant)

  datatype Pitfall = Pitfall(
    id: Option<int>, intentId: int, aspectId: Option<int>, description: string,
    mitigation: Option<string>, createdAt: Instant, updatedAt: Instant)

  datatype Assumption = Assumption(
    id: Option<int>, intentId: int, aspectId: Option<int>, description: string,
    confidence: Option<string>, createdAt: Instant, updatedAt: Instant)

  datatype Quality = Quality(
    id: Option<int>, intentId: int, aspectId: Option<int>, criterion: string,
    measurement: Option<string>, priority: Option<string>, createdAt: Instant, updatedAt: Instant)

  datatype Example = Example(
    id: Option<int>, intentId: int, aspectId: Option<int>, sample: string,
    explanation: Option<string>, source: Option<string>, createdAt: Instant, updatedAt: Instant)

  datatype Prompt = Prompt(
    id: Option<int>, intentId: int, content: string, version: int, createdAt: Instant, updatedAt: Instant)

  datatype Output = Output(
    id: Option<int>, promptId: int, content: string, createdAt: Instant, updatedAt: Instant)

  datatype Insight = Insight(
    id: Option<int>, intentId: int, content: string, sourceType: Option<string>,
    sourceOutputId: Option<int>, sourcePromptId: Option<int>, sourceAssumptionId: Option<int>,
    status: Option<string>, createdAt: Instant, updatedAt: Instant)

  datatype Intent = Intent(
    id: Option<int>, name: string, description: string, createdAt: Instant, updatedAt: Instant,
    aspects: seq<Aspect>, inputs: seq<Input>, choices: seq<Choice>, pitfalls: seq<Pitfall>,
    assumptions: seq<Assumption>, qualities: seq<Quality>, examples: seq<Example>,
    prompts: seq<Prompt>, insights: seq<Insight>)

  const Confidences: set<string> := {"verified", "likely", "uncertain"}
  const Priorities: set<string> := {"must_have", "should_have", "nice_to_have"}
  const ExampleSources: set<string> := {"user_provided", "llm_generated", "from_output"}
  const InsightSourceTypes: set<string> := {"sharpening", "output", "prompt", "assumption"}
  const InsightStatuses: set<string> := {"pending", "incorporated", "dismissed"}

  /** The error a blank required field raises. */
  function EmptyError(fieldName: string): ValueError
  {
    ValueError(fieldName + " cannot be empty")
  }

  /** `_require_non_empty`: a blank value raises "<field> cannot be empty"; otherwise
      the stripped value, which is non-empty. */
  function RequireNonEmpty(value: string, fieldName: string): (r: Result<string, ValueError>)
    ensures r.Ok? <==> !IsBlank(value)
    ensures r.Err? ==> r.error == EmptyError(fieldName)
    ensures r.Ok? ==> r.value == Strip(value) && r.value != "" && DI.IsStripped(r.value)
  {
    if IsBlank(value) then Err(EmptyError(fieldName))
    else
      StripIdempotent(value);
      Ok(Strip(value))
  }

  /** An optional text passes a closed-set check: absent or "" after stripping skips
      the check. */
  predicate InSetOrEmpty(x: Option<string>, allowed: set<string>)
  {
    x.None? || x.value == "" || x.value in allowed
  }

  /** Strip an optional text and check it against a closed set. */
  function CheckedOptional(x: Option<string>, allowed: set<string>, message: string)
    : (r: Result<Option<string>, ValueError>)
    ensures r.Ok? <==> InSetOrEmpty(DI.StripOptional(x), allowed)
    ensures r.Ok? ==> r.value == DI.StripOptional(x) && DI.IsStrippedOptional(r.value)
    ensures r.Err? ==> r.error == ValueError(message)
  {
    var s := DI.StripOptional(x);
    DI.StripOptionalNormal(x);
    if s.Some? && s.value != "" && s.value !in allowed then Err(ValueError(message)) else Ok(s)
  }

  /** A whitespace-only optional value becomes "" and so is never checked against its
      set. */
  lemma WhitespaceSkipsEnum(x: string, allowed: set<string>, message: string)
    requires x != "" && AllSpace(x)
    ensures CheckedOptional(Some(x), allowed, message) == Ok(Some(""))
  {
    BlankIffAllSpace(x);
  }

  function CollectionOrEmpty<T>(xs: Option<seq<T>>): seq<T>
  {
    if xs.Some? then xs.value else []
  }

  /** The constructor `Intent(...)`: name, then description, must be non-blank; each
      omitted collection becomes empty. */
  function NewIntent(
    id: Option<int>, name: string, description: string,
    createdAt: Option<Instant>, updatedAt: Option<Instant>,
    aspects: Option<seq<Aspect>>, inputs: Option<seq<Input>>, choices: Option<seq<Choice>>,
    pitfalls: Option<seq<Pitfall>>, assumptions: Option<seq<Assumption>>, qualities: Option<seq<Quality>>,
    examples: Option<seq<Example>>, prompts: Option<seq<Prompt>>, insights: Option<seq<Insight>>,
    now: Instant): (r: Result<Intent, ValueError>)
    ensures r.Ok? <==> !IsBlank(name) && !IsBlank(description)
    ensures IsBlank(name) ==> r == Err(EmptyError("Name"))
    ensures !IsBlank(name) && IsBlank(description) ==> r == Err(EmptyError("Description"))
    ensures r.Ok? ==> r.value.id == id && r.value.name == Strip(name) && r.value.description == Strip(description)
    ensures r.Ok? ==> IsNormalIntent(r.value)
    ensures r.Ok? ==>
      r.value.createdAt == DI.OrNow(createdAt, now) && r.value.updatedAt == DI.OrNow(updatedAt, now)
    ensures r.Ok? ==>
      r.value.aspects == CollectionOrEmpty(aspects) && r.value.inputs == CollectionOrEmpty(inputs)
      && r.value.choices == CollectionOrEmpty(choices) && r.value.pitfalls == CollectionOrEmpty(pitfalls)
      && r.value.assumptions == CollectionOrEmpty(assumptions) && r.value.qualities == CollectionOrEmpty(qualities)
      && r.value.examples == CollectionOrEmpty(examples) && r.value.prompts == CollectionOrEmpty(prompts)
      && r.value.insights == CollectionOrEmpty(insights)
  {
    var n := RequireNonEmpty(name, "Name");
    if n.Err? then Err(n.error)
    else
      var d := RequireNonEmpty(description, "Description");
      if d.Err? then Err(d.error)
      else
        Ok(Intent(id, n.value, d.value, DI.OrNow(createdAt, now), DI.OrNow(updatedAt, now),
                  CollectionOrEmpty(aspects), CollectionOrEmpty(inputs), CollectionOrEmpty(choices),
                  CollectionOrEmpty(pitfalls), CollectionOrEmpty(assumptions), CollectionOrEmpty(qualities),
                  CollectionOrEmpty(examples), CollectionOrEmpty(prompts), CollectionOrEmpty(insights)))
  }

  /** Name and description stripped and non-empty. */
  predicate IsNormalIntent(i: Intent)
  {
    i.name != "" && DI.IsStripped(i.name) && i.description != "" && DI.IsStripped(i.description)
  }

  /** Building an intent again from the fields of a constructed one gives it back
      unchanged, as every read of the store does. */
  lemma RebuildIntentIdentity(i: Intent, now: Instant)
    requires IsNormalIntent(i)
    ensures NewIntent(i.id, i.name, i.description, Some(i.createdAt), Some(i.updatedAt),
                      Some(i.aspects), Some(i.inputs), Some(i.choices), Some(i.pitfalls),
                      Some(i.assumptions), Some(i.qualities), Some(i.examples), Some(i.prompts),
                      Some(i.insights), now) == Ok(i)
  {
    assert !IsBlank(i.name) && !IsBlank(i.description);
  }

  /** The constructor `Aspect(...)`. */
  function NewAspect(id: Option<int>, intentId: int, name: string, description: Option<string>,
                     createdAt: Option<Instant>, updatedAt: Option<Instant>, now: Instant)
    : (r: Result<Aspect, ValueError>)
    ensures r.Ok? <==> !IsBlank(name)
    ensures r.Err? ==> r.error == EmptyError("Name")
    ensures r.Ok? ==> IsNormalAspect(r.value)
    ensures r.Ok? ==>
      r.value == Aspect(id, intentId, Strip(name), DI.StripOptional(description),
                        DI.OrNow(createdAt, now), DI.OrNow(updatedAt, now))
  {
    var n := RequireNonEmpty(name, "Name");
    if n.Err? then Err(n.error)
    else
      DI.StripOptionalNormal(description);
      Ok(Aspect(id, intentId, n.value, DI.StripOptional(description), DI.OrNow(createdAt, now), DI.OrNow(updatedAt, now)))
  }

  /** The constructor `Input(...)`; `required` defaults to true at the call sites that
      omit it. */
  function NewInput(id: Option<int>, intentId: int, name: string, description: string,
                    aspectId: Option<int>, format: Option<string>, required: bool,
                    createdAt: Option<Instant>, updatedAt: Option<Instant>, now: Instant)
    : (r: Result<Input, ValueError>)
    ensures r.Ok? <==> !IsBlank(name) && !IsBlank(description)
    ensures IsBlank(name) ==> r == Err(EmptyError("Name"))
    ensures !IsBlank(name) && IsBlank(description) ==> r == Err(EmptyError("Description"))
    ensures r.Ok? ==> IsNormalInput(r.value)
    ensures r.Ok? ==>
      r.value == Input(id, intentId, aspectId, Strip(name), Strip(description), DI.StripOptional(format),
                       required, DI.OrNow(createdAt, now), DI.OrNow(updatedAt, now))
  {
    var n := RequireNonEmpty(name, "Name");
    if n.Err? then Err(n.error)
    else
      var d := RequireNonEmpty(description, "Description");
      if d.Err? then Err(d.error)
      else
        DI.StripOptionalNormal(format);
        Ok(Input(id, intentId, aspectId, n.value, d.value, DI.StripOptional(format), required,
                    DI.OrNow(createdAt, now), DI.OrNow(updatedAt, now)))
  }

  /** The constructor `Choice(...)`. */
  function NewChoice(id: Option<int>, intentId: int, name: string, description: string,
                     aspectId: Option<int>, options: Option<string>, selectedOption: Option<string>,
                     rationale: Option<string>, createdAt: Option<Instant>, updatedAt: Option<Instant>,
                     now: Instant): (r: Result<Choice, ValueError>)
    ensures r.Ok? <==> !IsBlank(name) && !IsBlank(description)
    ensures IsBlank(name) ==> r == Err(EmptyError("Name"))
    ensures !IsBlank(name) && IsBlank(description) ==> r == Err(EmptyError("Description"))
    ensures r.Ok? ==> IsNormalChoice(r.value)
    ensures r.Ok? ==>
      r.value == Choice(id, intentId, aspectId, Strip(name), Strip(description), DI.StripOptional(options),
                        DI.StripOptional(selectedOption), DI.StripOptional(rationale),
                        DI.OrNow(createdAt, now), DI.OrNow(updatedAt, now))
  {
    var n := RequireNonEmpty(name, "Name");
    if n.Err? then Err(n.error)
    else
      var d := RequireNonEmpty(description, "Description");
      if d.Err? then Err(d.error)
      else
        DI.StripOptionalNormal(options);
        DI.StripOptionalNormal(selectedOption);
        DI.StripOptionalNormal(rationale);
        Ok(Choice(id, intentId, aspectId, n.value, d.value, DI.StripOptional(options),
                     DI.StripOptional(selectedOption), DI.StripOptional(rationale),
                     DI.OrNow(createdAt, now), DI.OrNow(updatedAt, now)))
  }

  /** The constructor `Pitfall(...)`. */
  function NewPitfall(id: Option<int>, intentId: int, description: string, aspectId: Option<int>,
                      mitigation: Option<string>, createdAt: Option<Instant>, updatedAt: Option<Instant>,
                      now: Instant): (r: Result<Pitfall, ValueError>)
    ensures r.Ok? <==> !IsBlank(description)
    ensures r.Err? ==> r.error == EmptyError("Description")
    ensures r.Ok? ==> IsNormalPitfall(r.value)
    ensures r.Ok? ==>
      r.value == Pitfall(id, intentId, aspectId, Strip(description), DI.StripOptional(mitigation),
                         DI.OrNow(createdAt, now), DI.OrNow(updatedAt, now))
  {
    var d := RequireNonEmpty(description, "Description");
    if d.Err? then Err(d.error)
    else
      DI.StripOptionalNormal(mitigation);
      Ok(Pitfall(id, intentId, aspectId, d.value, DI.StripOptional(mitigation),
                    DI.OrNow(createdAt, now), DI.OrNow(updatedAt, now)))
  }

  /** The constructor `Assumption(...)`: the description is checked first, then the
      confidence. */
  function NewAssumption(id: Option<int>, intentId: int, description: string, aspectId: Option<int>,
                         confidence: Option<string>, createdAt: Option<Instant>, updatedAt: Option<Instant>,
                         now: Instant): (r: Result<Assumption, ValueError>)
    ensures r.Ok? <==> !IsBlank(description) && InSetOrEmpty(DI.StripOptional(confidence), Confidences)
    ensures IsBlank(description) ==> r == Err(EmptyError("Description"))
    ensures !IsBlank(description) && !InSetOrEmpty(DI.StripOptional(confidence), Confidences) ==>
      r == Err(ValueError("confidence must be verified, likely, or uncertain"))
    ensures r.Ok? ==> IsNormalAssumption(r.value)
    ensures r.Ok? ==>
      r.value == Assumption(id, intentId, aspectId, Strip(description), DI.StripOptional(confidence),
                            DI.OrNow(createdAt, now), DI.OrNow(updatedAt, now))
  {
    var d := RequireNonEmpty(description, "Description");
    if d.Err? then Err(d.error)
    else
      var c := CheckedOptional(confidence, Confidences, "confidence must be verified, likely, or uncertain");
      if c.Err? then Err(c.error)
      else Ok(Assumption(id, intentId, aspectId, d.value, c.value, DI.OrNow(createdAt, now), DI.OrNow(updatedAt, now)))
  }

  /** The constructor `Quality(...)`: the criterion is checked first, then the priority. */
  function NewQuality(id: Option<int>, intentId: int, criterion: string, aspectId: Option<int>,
                      measurement: Option<string>, priority: Option<string>,
                      createdAt: Option<Instant>, updatedAt: Option<Instant>, now: Instant)
    : (r: Result<Quality, ValueError>)
    ensures r.Ok? <==> !IsBlank(criterion) && InSetOrEmpty(DI.StripOptional(priority), Priorities)
    ensures IsBlank(criterion) ==> r == Err(EmptyError("Criterion"))
    ensures !IsBlank(criterion) && !InSetOrEmpty(DI.StripOptional(priority), Priorities) ==>
      r == Err(ValueError("priority must be must_have, should_have, or nice_to_have"))
    ensures r.Ok? ==> IsNormalQuality(r.value)
    ensures r.Ok? ==>
      r.value == Quality(id, intentId, aspectId, Strip(criterion), DI.StripOptional(measurement),
                         DI.StripOptional(priority), DI.OrNow(createdAt, now), DI.OrNow(updatedAt, now))
  {
    var c := RequireNonEmpty(criterion, "Criterion");
    if c.Err? then Err(c.error)
    else
      var p := CheckedOptional(priority, Priorities, "priority must be must_have, should_have, or nice_to_have");
      if p.Err? then Err(p.error)
      else
        DI.StripOptionalNormal(measurement);
        Ok(Quality(id, intentId, aspectId, c.value, DI.StripOptional(measurement), p.value,
                      DI.OrNow(createdAt, now), DI.OrNow(updatedAt, now)))
  }

  /** The constructor `Example(...)`: the sample is checked first, then the source. */
  function NewExample(id: Option<int>, intentId: int, sample: string, aspectId: Option<int>,
                      explanation: Option<string>, source: Option<string>,
                      createdAt: Option<Instant>, updatedAt: Option<Instant>, now: Instant)
    : (r: Result<Example, ValueError>)
    ensures r.Ok? <==> !IsBlank(sample) && InSetOrEmpty(DI.StripOptional(source), ExampleSources)
    ensures IsBlank(sample) ==> r == Err(EmptyError("Sample"))
    ensures !IsBlank(sample) && !InSetOrEmpty(DI.StripOptional(source), ExampleSources) ==>
      r == Err(ValueError("source must be user_provided, llm_generated, or from_output"))
    ensures r.Ok? ==> IsNormalExample(r.value)
    ensures r.Ok? ==>
      r.value == Example(id, intentId, aspectId, Strip(sample), DI.StripOptional(explanation),
                         DI.StripOptional(source), DI.OrNow(createdAt, now), DI.OrNow(updatedAt, now))
  {
    var s := RequireNonEmpty(sample, "Sample");
    if s.Err? then Err(s.error)
    else
      var src := CheckedOptional(source, ExampleSources, "source must be user_provided, llm_generated, or from_output");
      if src.Err? then Err(src.error)
      else
        DI.StripOptionalNormal(explanation);
        Ok(Example(id, intentId, aspectId, s.value, DI.StripOptional(explanation), src.value,
                      DI.OrNow(createdAt, now), DI.OrNow(updatedAt, now)))
  }

  /** The constructor `Prompt(...)`. */
  function NewPrompt(id: Option<int>, intentId: int, content: string, version: int,
                     createdAt: Option<Instant>, updatedAt: Option<Instant>, now: Instant)
    : (r: Result<Prompt, ValueError>)
    ensures r.Ok? <==> !IsBlank(content)
    ensures r.Err? ==> r.error == EmptyError("Content")
    ensures r.Ok? ==> IsNormalPrompt(r.value)
    ensures r.Ok? ==>
      r.value == Prompt(id, intentId, Strip(content), version, DI.OrNow(createdAt, now), DI.OrNow(updatedAt, now))
  {
    var c := RequireNonEmpty(content, "Content");
    if c.Err? then Err(c.error)
    else Ok(Prompt(id, intentId, c.value, version, DI.OrNow(createdAt, now), DI.OrNow(updatedAt, now)))
  }

  /** The constructor `Output(...)`. */
  function NewOutput(id: Option<int>, promptId: int, content: string,
                     createdAt: Option<Instant>, updatedAt: Option<Instant>, now: Instant)
    : (r: Result<Output, ValueError>)
    ensures r.Ok? <==> !IsBlank(content)
    ensures r.Err? ==> r.error == EmptyError("Content")
    ensures r.Ok? ==>
      r.value == Output(id, promptId, Strip(content), DI.OrNow(createdAt, now), DI.OrNow(updatedAt, now))
  {
    var c := RequireNonEmpty(content, "Content");
    if c.Err? then Err(c.error)
    else Ok(Output(id, promptId, c.value, DI.OrNow(createdAt, now), DI.OrNow(updatedAt, now)))
  }

  /** The constructor `Insight(...)`: content, then source type, then status. */
  function NewInsight(id: Option<int>, intentId: int, content: string, sourceType: Option<string>,
                      sourceOutputId: Option<int>, sourcePromptId: Option<int>, sourceAssumptionId: Option<int>,
                      status: Option<string>, createdAt: Option<Instant>, updatedAt: Option<Instant>,
                      now: Instant): (r: Result<Insight, ValueError>)
    ensures r.Ok? <==>
      !IsBlank(content) && InSetOrEmpty(DI.StripOptional(sourceType), InsightSourceTypes)
      && InSetOrEmpty(DI.StripOptional(status), InsightStatuses)
    ensures IsBlank(content) ==> r == Err(EmptyError("Content"))
    ensures !IsBlank(content) && !InSetOrEmpty(DI.StripOptional(sourceType), InsightSourceTypes) ==>
      r == Err(ValueError("source_type must be sharpening, output, prompt, or assumption"))
    ensures (!IsBlank(content) && InSetOrEmpty(DI.StripOptional(sourceType), InsightSourceTypes)
             && !InSetOrEmpty(DI.StripOptional(status), InsightStatuses)) ==>
      r == Err(ValueError("status must be pending, incorporated, or dismissed"))
    ensures r.Ok? ==> IsNormalInsight(r.value)
    ensures r.Ok? ==>
      r.value == Insight(id, intentId, Strip(content), DI.StripOptional(sourceType), sourceOutputId,
                         sourcePromptId, sourceAssumptionId, DI.StripOptional(status),
                         DI.OrNow(createdAt, now), DI.OrNow(updatedAt, now))
  {
    var c := RequireNonEmpty(content, "Content");
    if c.Err? then Err(c.error)
    else
      var t := CheckedOptional(sourceType, InsightSourceTypes, "source_type must be sharpening, output, prompt, or assumption");
      if t.Err? then Err(t.error)
      else
        var s := CheckedOptional(status, InsightStatuses, "status must be pending, incorporated, or dismissed");
        if s.Err? then Err(s.error)
        else Ok(Insight(id, intentId, c.value, t.value, sourceOutputId, sourcePromptId, sourceAssumptionId,
                        s.value, DI.OrNow(createdAt, now), DI.OrNow(updatedAt, now)))
  }

  // ---------------------------------------------------------------------------
  // What the constructors leave behind, and constructing it again

  /** A required text as a constructor keeps it: stripped and non-empty. */
  predicate IsRequiredText(s: string)
  {
    s != "" && DI.IsStripped(s)
  }

  /** An optional text with a closed set as a constructor keeps it. */
  predicate IsCheckedOptional(x: Option<string>, allowed: set<string>)
  {
    DI.IsStrippedOptional(x) && InSetOrEmpty(x, allowed)
  }

  predicate IsNormalAspect(a: Aspect)
  {
    IsRequiredText(a.name) && DI.IsStrippedOptional(a.description)
  }

  predicate IsNormalInput(x: Input)
  {
    IsRequiredText(x.name) && IsRequiredText(x.description) && DI.IsStrippedOptional(x.format)
  }

  predicate IsNormalChoice(x: Choice)
  {
    IsRequiredText(x.name) && IsRequiredText(x.description) && DI.IsStrippedOptional(x.options)
    && DI.IsStrippedOptional(x.selectedOption) && DI.IsStrippedOptional(x.rationale)
  }

  predicate IsNormalPitfall(x: Pitfall)
  {
    IsRequiredText(x.description) && DI.IsStrippedOptional(x.mitigation)
  }

  predicate IsNormalAssumption(x: Assumption)
  {
    IsRequiredText(x.description) && IsCheckedOptional(x.confidence, Confidences)
  }

  predicate IsNormalQuality(x: Quality)
  {
    IsRequiredText(x.criterion) && DI.IsStrippedOptional(x.measurement) && IsCheckedOptional(x.priority, Priorities)
  }

  predicate IsNormalExample(x: Example)
  {
    IsRequiredText(x.sample) && DI.IsStrippedOptional(x.explanation) && IsCheckedOptional(x.source, ExampleSources)
  }

  predicate IsNormalPrompt(x: Prompt)
  {
    IsRequiredText(x.content)
  }

  predicate IsNormalInsight(x: Insight)
  {
    IsRequiredText(x.content) && IsCheckedOptional(x.sourceType, InsightSourceTypes)
    && IsCheckedOptional(x.status, InsightStatuses)
  }

  /** A required text as kept passes `_require_non_empty` unchanged. */
  lemma RequiredTextAgain(s: string, fieldName: string)
    requires IsRequiredText(s)
    ensures RequireNonEmpty(s, fieldName) == Ok(s)
  {
    assert !IsBlank(s);
  }

  /** An optional text with a closed set, as kept, passes its check again, "" becoming
      absent. */
  lemma CheckedOptionalAgain(x: Option<string>, allowed: set<string>, message: string)
    requires IsCheckedOptional(x, allowed)
    ensures CheckedOptional(x, allowed, message) == Ok(DI.EmptyToNone(x))
  {
    DI.StripOptionalOfStripped(x);
  }

  /** Constructing a constructed aspect again, under any id and owner, succeeds and only
      drops a description left as "" (a whitespace-only input). */
  lemma RebuildAspect(a: Aspect, id: Option<int>, intentId: int, now: Instant)
    requires IsNormalAspect(a)
    ensures NewAspect(id, intentId, a.name, a.description, Some(a.createdAt), Some(a.updatedAt), now)
      == Ok(a.(id := id, intentId := intentId, description := DI.EmptyToNone(a.description)))
  {
    RequiredTextAgain(a.name, "Name");
    DI.StripOptionalOfStripped(a.description);
  }

  /** The same for an input: only a format left as "" is dropped. */
  lemma RebuildInput(x: Input, id: Option<int>, intentId: int, now: Instant)
    requires IsNormalInput(x)
    ensures NewInput(id, intentId, x.name, x.description, x.aspectId, x.format, x.required,
                     Some(x.createdAt), Some(x.updatedAt), now)
      == Ok(x.(id := id, intentId := intentId, format := DI.EmptyToNone(x.format)))
  {
    RequiredTextAgain(x.name, "Name");
    RequiredTextAgain(x.description, "Description");
    DI.StripOptionalOfStripped(x.format);
  }

  /** The same for a choice: options, selected option and rationale left as "" are dropped. */
  lemma RebuildChoice(x: Choice, id: Option<int>, intentId: int, now: Instant)
    requires IsNormalChoice(x)
    ensures NewChoice(id, intentId, x.name, x.description, x.aspectId, x.options, x.selectedOption,
                      x.rationale, Some(x.createdAt), Some(x.updatedAt), now)
      == Ok(x.(id := id, intentId := intentId, options := DI.EmptyToNone(x.options),
               selectedOption := DI.EmptyToNone(x.selectedOption), rationale := DI.EmptyToNone(x.rationale)))
  {
    RequiredTextAgain(x.name, "Name");
    RequiredTextAgain(x.description, "Description");
    DI.StripOptionalOfStripped(x.options);
    DI.StripOptionalOfStripped(x.selectedOption);
    DI.StripOptionalOfStripped(x.rationale);
  }

  /** The same for a pitfall: only a mitigation left as "" is dropped. */
  lemma RebuildPitfall(x: Pitfall, id: Option<int>, intentId: int, now: Instant)
    requires IsNormalPitfall(x)
    ensures NewPitfall(id, intentId, x.description, x.aspectId, x.mitigation, Some(x.createdAt), Some(x.updatedAt), now)
      == Ok(x.(id := id, intentId := intentId, mitigation := DI.EmptyToNone(x.mitigation)))
  {
    RequiredTextAgain(x.description, "Description");
    DI.StripOptionalOfStripped(x.mitigation);
  }

  /** The same for an assumption: only a confidence left as "" is dropped. */
  lemma RebuildAssumption(x: Assumption, id: Option<int>, intentId: int, now: Instant)
    requires IsNormalAssumption(x)
    ensures NewAssumption(id, intentId, x.description, x.aspectId, x.confidence, Some(x.createdAt), Some(x.updatedAt), now)
      == Ok(x.(id := id, intentId := intentId, confidence := DI.EmptyToNone(x.confidence)))
  {
    RequiredTextAgain(x.description, "Description");
    CheckedOptionalAgain(x.confidence, Confidences, "confidence must be verified, likely, or uncertain");
  }

  /** The same for a quality: a measurement or priority left as "" is dropped. */
  lemma RebuildQuality(x: Quality, id: Option<int>, intentId: int, now: Instant)
    requires IsNormalQuality(x)
    ensures NewQuality(id, intentId, x.criterion, x.aspectId, x.measurement, x.priority,
                       Some(x.createdAt), Some(x.updatedAt), now)
      == Ok(x.(id := id, intentId := intentId, measurement := DI.EmptyToNone(x.measurement),
               priority := DI.EmptyToNone(x.priority)))
  {
    RequiredTextAgain(x.criterion, "Criterion");
    DI.StripOptionalOfStripped(x.measurement);
    CheckedOptionalAgain(x.priority, Priorities, "priority must be must_have, should_have, or nice_to_have");
  }

  /** The same for an example: an explanation or source left as "" is dropped. */
  lemma RebuildExample(x: Example, id: Option<int>, intentId: int, now: Instant)
    requires IsNormalExample(x)
    ensures NewExample(id, intentId, x.sample, x.aspectId, x.explanation, x.source,
                       Some(x.createdAt), Some(x.updatedAt), now)
      == Ok(x.(id := id, intentId := intentId, explanation := DI.EmptyToNone(x.explanation),
               source := DI.EmptyToNone(x.source)))
  {
    RequiredTextAgain(x.sample, "Sample");
    DI.StripOptionalOfStripped(x.explanation);
    CheckedOptionalAgain(x.source, ExampleSources, "source must be user_provided, llm_generated, or from_output");
  }

  /** A prompt has no optional text: constructing it again gives it back. */
  lemma RebuildPrompt(x: Prompt, id: Option<int>, intentId: int, now: Instant)
    requires IsNormalPrompt(x)
    ensures NewPrompt(id, intentId, x.content, x.version, Some(x.createdAt), Some(x.updatedAt), now)
      == Ok(x.(id := id, intentId := intentId))
  {
    RequiredTextAgain(x.content, "Content");
  }

  /** The same for an insight: a source type or status left as "" is dropped. */
  lemma RebuildInsight(x: Insight, id: Option<int>, intentId: int, now: Instant)
    requires IsNormalInsight(x)
    ensures NewInsight(id, intentId, x.content, x.sourceType, x.sourceOutputId, x.sourcePromptId,
                       x.sourceAssumptionId, x.status, Some(x.createdAt), Some(x.updatedAt), now)
      == Ok(x.(id := id, intentId := intentId, sourceType := DI.EmptyToNone(x.sourceType),
               status := DI.EmptyToNone(x.status)))
  {
    RequiredTextAgain(x.content, "Content");
    CheckedOptionalAgain(x.sourceType, InsightSourceTypes, "source_type must be sharpening, output, prompt, or assumption");
    CheckedOptionalAgain(x.status, InsightStatuses, "status must be pending, incorporated, or dismissed");
  }

  /** A whitespace-only optional text is kept as "" by the first construction and read
      back absent by the next: an aspect built with description "   ". */
  lemma WhitespaceDescriptionDropped(name: string, d: string, i: int, id: Option<int>, now: Instant)
    requires !IsBlank(name) && d != "" && AllSpace(d)
    ensures NewAspect(None, i, name, Some(d), None, None, now).Ok?
    ensures var a := NewAspect(None, i, name, Some(d), None, None, now).value;
      a.description == Some("")
      && NewAspect(id, i, a.name, a.description, Some(a.createdAt), Some(a.updatedAt), now).value.description == None
  {
    BlankIffAllSpace(d);
    var a := NewAspect(None, i, name, Some(d), None, None, now).value;
    RebuildAspect(a, id, i, now);
  }
}
