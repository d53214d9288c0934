/**
 * Domain objects of the first backend's intents: an intent (what a user wants
 * produced, in which format) and its facts. Both constructors validate and
 * normalise their text: required fields must be non-blank and are stored
 * stripped; optional fields are stripped when non-empty and otherwise absent.
 */
module DeclaringIntents {
  import opened Wrappers
  import opened Text
  import opened Clock

  datatype Fact = Fact(id: Option<int>, intentId: int, value: string, createdAt: Instant, updatedAt: Instant)

  datatype Intent = Intent(
    id: Option<int>,
    name: string,
    description: string,
    outputFormat: string,
    outputStructure: Option<string>,
    context: Option<string>,
    constraints: Option<string>,
    createdAt: Instant,
    updatedAt: Instant,
    facts: seq<Fact>)

  /** `x.strip() if x else None`: absent and "" become absent; anything else is stripped,
      so a whitespace-only value becomes "". */
  function StripOptional(x: Option<string>): (r: Option<string>)
    ensures r.None? <==> x.None? || x.value == ""
    ensures r.Some? ==> r.value == Strip(x.value)
  {
    if x.None? || x.value == "" then None else Some(Strip(x.value))
  }

  /** `created_at or now`. */
  function OrNow(t: Option<Instant>, now: Instant): Instant
  {
    if t.Some? then t.value else now
  }

  /** The constructor `Intent(...)`: the first blank required field, in the order name,
      description, output format, raises; otherwise the fields are normalised. */
  function NewIntent(id: Option<int>, name: string, description: string, outputFormat: string,
                     outputStructure: Option<string>, context: Option<string>, constraints: Option<string>,
                     createdAt: Option<Instant>, updatedAt: Option<Instant>, facts: seq<Fact>,
                     now: Instant): (r: Result<Intent, ValueError>)
    ensures r.Ok? <==> !IsBlank(name) && !IsBlank(description) && !IsBlank(outputFormat)
    ensures IsBlank(name) ==> r == Err(ValueError("Name cannot be empty"))
    ensures !IsBlank(name) && IsBlank(description) ==> r == Err(ValueError("Description cannot be empty"))
    ensures !IsBlank(name) && !IsBlank(description) && IsBlank(outputFormat) ==>
      r == Err(ValueError("Output format cannot be empty"))
    ensures r.Ok? ==> IsNormalIntent(r.value)
    ensures r.Ok? ==>
      r.value.name == Strip(name) && r.value.description == Strip(description)
      && r.value.outputFormat == Strip(outputFormat)
    ensures r.Ok? ==>
      r.value.outputStructure == StripOptional(outputStructure)
      && r.value.context == StripOptional(context) && r.value.constraints == StripOptional(constraints)
    ensures r.Ok? ==>
      r.value.id == id && r.value.facts == facts
      && r.value.createdAt == OrNow(createdAt, now) && r.value.updatedAt == OrNow(updatedAt, now)
  {
    if IsBlank(name) then Err(ValueError("Name cannot be empty"))
    else if IsBlank(description) then Err(ValueError("Description cannot be empty"))
    else if IsBlank(outputFormat) then Err(ValueError("Output format cannot be empty"))
    else
      StripIdempotent(name);
      StripIdempotent(description);
      StripIdempotent(outputFormat);
      StripOptionalNormal(outputStructure);
      StripOptionalNormal(context);
      StripOptionalNormal(constraints);
      Ok(Intent(id, Strip(name), Strip(description), Strip(outputFormat),
                StripOptional(outputStructure), StripOptional(context), StripOptional(constraints),
                OrNow(createdAt, now), OrNow(updatedAt, now), facts))
  }

  /** A stripped text: stripping changes nothing. */
  predicate IsStripped(s: string)
  {
    Strip(s) == s
  }

  predicate IsStrippedOptional(x: Option<string>)
  {
    x.None? || IsStripped(x.value)
  }

  lemma StripOptionalNormal(x: Option<string>)
    ensures IsStrippedOptional(StripOptional(x))
  {
    if x.Some? {
      StripIdempotent(x.value);
    }
  }

  /** The shape every constructed intent has: required fields stripped and non-empty,
      optional fields stripped. */
  predicate IsNormalIntent(i: Intent)
  {
    i.name != "" && IsStripped(i.name) && i.description != "" && IsStripped(i.description)
    && i.outputFormat != "" && IsStripped(i.outputFormat)
    && IsStrippedOptional(i.outputStructure) && IsStrippedOptional(i.context) && IsStrippedOptional(i.constraints)
  }

  /** Building an intent again from the fields of an intent, as the repository does on
      every read. */
  function Rebuild(i: Intent): Result<Intent, ValueError>
  {
    NewIntent(i.id, i.name, i.description, i.outputFormat, i.outputStructure, i.context, i.constraints,
              Some(i.createdAt), Some(i.updatedAt), i.facts, i.createdAt)
  }

  /** An optional field that holds "" is dropped when the intent is built again. */
  function EmptyToNone(x: Option<string>): Option<string>
  {
    if x == Some("") then None else x
  }

  /** Rebuilding a constructed intent succeeds and changes it only by dropping optional
      fields left as "" (a whitespace-only input). */
  lemma RebuildNormal(i: Intent)
    requires IsNormalIntent(i)
    ensures Rebuild(i) == Ok(i.(outputStructure := EmptyToNone(i.outputStructure),
                               context := EmptyToNone(i.context),
                               constraints := EmptyToNone(i.constraints)))
  {
    assert !IsBlank(i.name) && !IsBlank(i.description) && !IsBlank(i.outputFormat);
    StripOptionalOfStripped(i.outputStructure);
    StripOptionalOfStripped(i.context);
    StripOptionalOfStripped(i.constraints);
  }

  lemma StripOptionalOfStripped(x: Option<string>)
    requires IsStrippedOptional(x)
    ensures StripOptional(x) == EmptyToNone(x)
  {
  }

  /** Reads settle after the second one: the first read may turn a whitespace-only
      optional field into "", the second turns "" into absent, and later reads change
      nothing. */
  lemma RebuildSettles(i: Intent)
    requires Rebuild(i).Ok?
    ensures Rebuild(Rebuild(i).value).Ok?
    ensures var k := Rebuild(Rebuild(i).value).value; Rebuild(k) == Ok(k)
  {
    var j := Rebuild(i).value;
    RebuildNormal(j);
    var k := Rebuild(j).value;
    RebuildNormal(k);
  }

  /** A whitespace-only optional field survives the constructor as "", not as absent;
      the next rebuild then drops it. */
  lemma WhitespaceOptionalKept(name: string, description: string, outputFormat: string, x: string,
                               now: Instant)
    requires !IsBlank(name) && !IsBlank(description) && !IsBlank(outputFormat)
    requires x != "" && AllSpace(x)
    ensures var r := NewIntent(None, name, description, outputFormat, Some(x), None, None, None, None, [], now);
      r.Ok? && r.value.outputStructure == Some("")
      && Rebuild(r.value).Ok? && Rebuild(r.value).value.outputStructure == None
  {
    BlankIffAllSpace(x);
    var r := NewIntent(None, name, description, outputFormat, Some(x), None, None, None, None, [], now);
    RebuildNormal(r.value);
  }

  /** The constructor `Fact(...)`: a blank value raises; otherwise it is stored stripped. */
  function NewFact(id: Option<int>, intentId: int, value: string, createdAt: Option<Instant>,
                   updatedAt: Option<Instant>, now: Instant): (r: Result<Fact, ValueError>)
    ensures r.Err? <==> IsBlank(value)
    ensures r.Err? ==> r.error == ValueError("Value cannot be empty")
    ensures r.Ok? ==> r.value.value == Strip(value) && r.value.value != "" && IsStripped(r.value.value)
    ensures r.Ok? ==>
      r.value.id == id && r.value.intentId == intentId
      && r.value.createdAt == OrNow(createdAt, now) && r.value.updatedAt == OrNow(updatedAt, now)
  {
    if IsBlank(value) then Err(ValueError("Value cannot be empty"))
    else
      StripIdempotent(value);
      Ok(Fact(id, intentId, Strip(value), OrNow(createdAt, now), OrNow(updatedAt, now)))
  }
}
