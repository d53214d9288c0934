/**
 * The first backend's intent service: fixed sequences of repository reads and writes
 * followed by at most one published event. A field setter assigns the raw value to the
 * fetched intent and hands it to the repository, which stores it before converting it
 * back; the conversion is where a blank required value raises.
 */
module DeclaringIntentService {
  import opened Wrappers
  import opened Text
  import opened Clock
  import opened DeclaringIntents
  import opened DeclaringIntentRepository
  import opened DomainEvents

  /** One of the six `update_intent_*` setters, with the value it assigns. */
  datatype IntentField =
    | SetName(name: string)
    | SetDescription(description: string)
    | SetOutputFormat(outputFormat: string)
    | SetOutputStructure(outputStructure: Option<string>)
    | SetContext(context: Option<string>)
    | SetConstraints(constraints: Option<string>)

  datatype FieldTag = Name | Description | OutputFormat | OutputStructure | Context | Constraints

  function TagOf(f: IntentField): FieldTag
  {
    match f
    case SetName(_) => Name
    case SetDescription(_) => Description
    case SetOutputFormat(_) => OutputFormat
    case SetOutputStructure(_) => OutputStructure
    case SetContext(_) => Context
    case SetConstraints(_) => Constraints
  }

  /** The field name the event reports. */
  function FieldName(t: FieldTag): string
  {
    match t
    case Name => "name"
    case Description => "description"
    case OutputFormat => "output_format"
    case OutputStructure => "output_structure"
    case Context => "context"
    case Constraints => "constraints"
  }

  /** A field of an intent, the required ones as present values. */
  function Get(i: Intent, t: FieldTag): Option<string>
  {
    match t
    case Name => Some(i.name)
    case Description => Some(i.description)
    case OutputFormat => Some(i.outputFormat)
    case OutputStructure => i.outputStructure
    case Context => i.context
    case Constraints => i.constraints
  }

  /** The value a setter assigns, in the same form. */
  function Assigned(f: IntentField): Option<string>
  {
    match f
    case SetName(s) => Some(s)
    case SetDescription(s) => Some(s)
    case SetOutputFormat(s) => Some(s)
    case SetOutputStructure(x) => x
    case SetContext(x) => x
    case SetConstraints(x) => x
  }

  /** `setattr(intent, field, value)`: no validation. */
  function ApplyField(i: Intent, f: IntentField): (r: Intent)
    ensures Get(r, TagOf(f)) == Assigned(f)
    ensures forall t :: t != TagOf(f) ==> Get(r, t) == Get(i, t)
    ensures r.id == i.id && r.createdAt == i.createdAt && r.updatedAt == i.updatedAt && r.facts == i.facts
  {
    match f
    case SetName(s) => i.(name := s)
    case SetDescription(s) => i.(description := s)
    case SetOutputFormat(s) => i.(outputFormat := s)
    case SetOutputStructure(x) => i.(outputStructure := x)
    case SetContext(x) => i.(context := x)
    case SetConstraints(x) => i.(constraints := x)
  }

  /** A setter value the constructor accepts: only the required fields can be blank. */
  predicate Acceptable(f: IntentField)
  {
    match f
    case SetName(s) => !IsBlank(s)
    case SetDescription(s) => !IsBlank(s)
    case SetOutputFormat(s) => !IsBlank(s)
    case _ => true
  }

  /** The value a field holds after the constructor has normalised it. */
  function Normalised(t: FieldTag, x: Option<string>): Option<string>
  {
    if t in {Name, Description, OutputFormat} && x.Some? then Some(Strip(x.value)) else StripOptional(x)
  }

  /** A field as a later read sees it: an optional "" reads back as absent. */
  function View(i: Intent, t: FieldTag): Option<string>
  {
    EmptyToNone(Get(i, t))
  }

  /** A field of a stored row, in the same form. */
  function RowGet(row: IntentRow, t: FieldTag): Option<string>
  {
    match t
    case Name => Some(row.name)
    case Description => Some(row.description)
    case OutputFormat => Some(row.outputFormat)
    case OutputStructure => row.outputStructure
    case Context => row.context
    case Constraints => row.constraints
  }

  /** Every field a read returns is the stored field normalised. */
  lemma GetOfRead(row: IntentRow, t: FieldTag)
    requires IntentOfRow(row).Ok?
    ensures Get(IntentOfRow(row).value, t) == Normalised(t, RowGet(row, t))
  {
    match t {
      case Name =>
      case Description =>
      case OutputFormat =>
      case OutputStructure =>
      case Context =>
      case Constraints =>
    }
  }

  /** Normalising a field of a constructed intent only drops an optional "". */
  lemma NormalisedOfNormal(x: Intent, t: FieldTag)
    requires IsNormalIntent(x)
    ensures Normalised(t, Get(x, t)) == EmptyToNone(Get(x, t))
  {
    match t {
      case Name =>
      case Description =>
      case OutputFormat =>
      case OutputStructure => StripOptionalOfStripped(x.outputStructure);
      case Context => StripOptionalOfStripped(x.context);
      case Constraints => StripOptionalOfStripped(x.constraints);
    }
  }

  /** The setter's write reads back iff its value is acceptable. */
  lemma SetterAccepts(x: Intent, f: IntentField, id: int, createdAt: Instant)
    requires IsNormalIntent(x)
    ensures IntentOfRow(IntentRowOf(ApplyField(x, f), id, createdAt)).Ok? <==> Acceptable(f)
  {
    var z := ApplyField(x, f);
    assert !IsBlank(x.name) && !IsBlank(x.description) && !IsBlank(x.outputFormat);
    match f {
      case SetName(s) => assert z.description == x.description && z.outputFormat == x.outputFormat;
      case SetDescription(s) => assert z.name == x.name && z.outputFormat == x.outputFormat;
      case SetOutputFormat(s) => assert z.name == x.name && z.description == x.description;
      case SetOutputStructure(_) =>
        assert z.name == x.name && z.description == x.description && z.outputFormat == x.outputFormat;
      case SetContext(_) =>
        assert z.name == x.name && z.description == x.description && z.outputFormat == x.outputFormat;
      case SetConstraints(_) =>
        assert z.name == x.name && z.description == x.description && z.outputFormat == x.outputFormat;
    }
  }

  /** The field a setter names reads back as the assigned value, normalised. */
  lemma SetterSetsField(x: Intent, f: IntentField, id: int, createdAt: Instant)
    requires IntentOfRow(IntentRowOf(ApplyField(x, f), id, createdAt)).Ok?
    ensures Get(IntentOfRow(IntentRowOf(ApplyField(x, f), id, createdAt)).value, TagOf(f))
         == Normalised(TagOf(f), Assigned(f))
  {
    var nrow := IntentRowOf(ApplyField(x, f), id, createdAt);
    GetOfRead(nrow, TagOf(f));
    assert RowGet(nrow, TagOf(f)) == Get(ApplyField(x, f), TagOf(f));
  }

  /** Every other field of a constructed intent reads back as before. */
  lemma SetterKeepsOthers(x: Intent, f: IntentField, id: int, createdAt: Instant, t: FieldTag)
    requires IsNormalIntent(x) && t != TagOf(f)
    requires IntentOfRow(IntentRowOf(ApplyField(x, f), id, createdAt)).Ok?
    ensures View(IntentOfRow(IntentRowOf(ApplyField(x, f), id, createdAt)).value, t) == View(x, t)
  {
    var nrow := IntentRowOf(ApplyField(x, f), id, createdAt);
    GetOfRead(nrow, t);
    assert RowGet(nrow, t) == Get(ApplyField(x, f), t) == Get(x, t);
    NormalisedOfNormal(x, t);
  }

  /** What a setter does to the intent a later read returns: the named field holds the
      assigned value normalised, every other field reads as before, and the id and both
      timestamps are kept (the update time is never refreshed). A blank required value
      makes the read raise. */
  lemma SetterEffect(row: IntentRow, f: IntentField)
    requires IntentOfRow(row).Ok?
    ensures var x := IntentOfRow(row).value;
      var y := IntentOfRow(IntentRowOf(ApplyField(x, f), row.id, row.createdAt));
      (y.Ok? <==> Acceptable(f))
      && (y.Ok? ==>
        Get(y.value, TagOf(f)) == Normalised(TagOf(f), Assigned(f))
        && (forall t :: t != TagOf(f) ==> View(y.value, t) == View(x, t))
        && y.value.id == x.id && y.value.createdAt == x.createdAt && y.value.updatedAt == x.updatedAt)
  {
    var x := IntentOfRow(row).value;
    SetterAccepts(x, f, row.id, row.createdAt);
    if IntentOfRow(IntentRowOf(ApplyField(x, f), row.id, row.createdAt)).Ok? {
      SetterSetsField(x, f, row.id, row.createdAt);
      forall t | t != TagOf(f)
        ensures View(IntentOfRow(IntentRowOf(ApplyField(x, f), row.id, row.createdAt)).value, t) == View(x, t)
      {
        SetterKeepsOthers(x, f, row.id, row.createdAt, t);
      }
    }
  }

  /** A created intent's stored row always converts back. */
  lemma NormalRowConverts(i: Intent, id: int, createdAt: Instant)
    requires IsNormalIntent(i)
    ensures IntentOfRow(IntentRowOf(i, id, createdAt)).Ok?
  {
    assert !IsBlank(i.name) && !IsBlank(i.description) && !IsBlank(i.outputFormat);
  }

  /** `get_all_intents`: the repository's listing, unchanged. */
  method GetAllIntents(repo: IntentRepository) returns (r: Result<seq<Intent>, ValueError>)
    ensures r == AllIntents(repo.intents)
    ensures r.Ok? <==> forall k :: 0 <= k < |repo.intents| ==> IntentOfRow(repo.intents[k]).Ok?
  {
    r := repo.FindAll();
  }

  /** `get_intent`: the repository's answer, unchanged; None for an absent id. */
  method GetIntent(repo: IntentRepository, id: int) returns (r: Result<Option<Intent>, ValueError>)
    ensures r == FindIntent(repo.intents, id)
    ensures IntentIndex(repo.intents, id).None? ==> r == Ok(None)
  {
    r := repo.FindById(id);
  }

  /** `create_intent`: build and validate the intent, persist it, publish one creation
      event with the stored id and the normalised required fields. A rejected request
      writes nothing and publishes nothing. */
  method CreateIntent(repo: IntentRepository, log: EventLog, name: string, description: string,
                      outputFormat: string, outputStructure: Option<string>, context: Option<string>,
                      constraints: Option<string>, now: Instant) returns (r: Result<Intent, ValueError>)
    requires repo.Valid()
    modifies repo, log
    ensures repo.Valid()
    ensures var built := NewIntent(None, name, description, outputFormat, outputStructure, context, constraints,
                                   None, None, [], now);
      if built.Err? then
        r == built && repo.intents == old(repo.intents) && repo.nextIntentId == old(repo.nextIntentId)
        && log.published == old(log.published)
      else
        var row := IntentRowOf(built.value, old(repo.nextIntentId), now);
        repo.intents == old(repo.intents) + [row] && repo.nextIntentId == old(repo.nextIntentId) + 1
        && r == IntentOfRow(row) && r.Ok? && r.value.id == Some(old(repo.nextIntentId))
        && log.published == old(log.published)
             + [IntentCreated(old(repo.nextIntentId), built.value.name, built.value.description, built.value.outputFormat)]
    ensures repo.facts == old(repo.facts) && repo.nextFactId == old(repo.nextFactId)
  {
    var built := NewIntent(None, name, description, outputFormat, outputStructure, context, constraints,
                           None, None, [], now);
    if built.Err? {
      return built;
    }
    var intent := built.value;
    NormalRowConverts(intent, repo.nextIntentId, intent.createdAt);
    r := repo.Create(intent);
    var created := r.value;
    log.Publish(IntentCreated(created.id.value, created.name, created.description, created.outputFormat));
    StripIdempotent(name);
    StripIdempotent(description);
    StripIdempotent(outputFormat);
  }

  /** `_update_intent_field` with one of the setters: a missing intent returns None and
      neither writes nor publishes; a failing read raises as it is; otherwise the slot is
      rewritten and the event naming the field is published iff the written intent reads
      back. */
  method UpdateIntentField(repo: IntentRepository, log: EventLog, intentId: int, f: IntentField)
    returns (r: Result<Option<Intent>, ValueError>)
    requires repo.Valid()
    modifies repo, log
    ensures repo.Valid()
    ensures repo.facts == old(repo.facts) && repo.nextIntentId == old(repo.nextIntentId)
    ensures repo.nextFactId == old(repo.nextFactId)
    ensures var found := FindIntent(old(repo.intents), intentId);
      if found.Err? then
        r == Err(found.error) && repo.intents == old(repo.intents) && log.published == old(log.published)
      else if found.value.None? then
        r == Ok(None) && repo.intents == old(repo.intents) && log.published == old(log.published)
      else
        var k := IntentIndex(old(repo.intents), intentId).value;
        var row := IntentRowOf(ApplyField(found.value.value, f), intentId, old(repo.intents)[k].createdAt);
        repo.intents == old(repo.intents)[k := row] && r == Found(IntentOfRow(row))
        && (r.Ok? ==> log.published == old(log.published) + [IntentUpdated(intentId, FieldName(TagOf(f)))])
        && (r.Err? ==> log.published == old(log.published))
  {
    var existing := repo.FindById(intentId);
    if existing.Err? {
      return Err(existing.error);
    }
    if existing.value.None? {
      return Ok(None);
    }
    r := WriteField(repo, log, intentId, existing.value.value, f);
  }

  /** The write half of `_update_intent_field`, once the intent has been read. */
  method WriteField(repo: IntentRepository, log: EventLog, intentId: int, existing: Intent, f: IntentField)
    returns (r: Result<Option<Intent>, ValueError>)
    requires repo.Valid() && IntentIndex(repo.intents, intentId).Some?
    modifies repo, log
    ensures repo.Valid()
    ensures repo.facts == old(repo.facts) && repo.nextIntentId == old(repo.nextIntentId)
    ensures repo.nextFactId == old(repo.nextFactId)
    ensures var k := IntentIndex(old(repo.intents), intentId).value;
      var row := IntentRowOf(ApplyField(existing, f), intentId, old(repo.intents)[k].createdAt);
      repo.intents == old(repo.intents)[k := row] && r == Found(IntentOfRow(row))
      && (r.Ok? ==> log.published == old(log.published) + [IntentUpdated(intentId, FieldName(TagOf(f)))])
      && (r.Err? ==> log.published == old(log.published))
  {
    ghost var k := IntentIndex(repo.intents, intentId).value;
    ghost var intents0 := repo.intents;
    var changed := ApplyField(existing, f);
    ghost var row := IntentRowOf(changed, intentId, intents0[k].createdAt);
    r := repo.Update(intentId, changed);
    assert repo.intents == intents0[k := row] && r == Found(IntentOfRow(row));
    assert repo.Valid();
    if r.Ok? && r.value.Some? {
      log.Publish(IntentUpdated(intentId, FieldName(TagOf(f))));
    }
    assert repo.intents == intents0[k := row];
  }

  /** `add_fact_to_intent`: a missing intent returns None without a write; a blank value
      raises before the write; otherwise the fact is stored under the next fact id and one
      event carries its id and stripped value. */
  method AddFactToIntent(repo: IntentRepository, log: EventLog, intentId: int, value: string, now: Instant)
    returns (r: Result<Option<Fact>, ValueError>)
    requires repo.Valid()
    modifies repo, log
    ensures repo.Valid()
    ensures repo.intents == old(repo.intents) && repo.nextIntentId == old(repo.nextIntentId)
    ensures var found := FindIntent(old(repo.intents), intentId);
      if found.Err? then
        r == Err(found.error) && repo.facts == old(repo.facts) && log.published == old(log.published)
      else if found.value.None? then
        r == Ok(None) && repo.facts == old(repo.facts) && log.published == old(log.published)
      else if IsBlank(value) then
        r == Err(ValueError("Value cannot be empty")) && repo.facts == old(repo.facts)
        && log.published == old(log.published)
      else
        var row := FactRow(old(repo.nextFactId), intentId, Strip(value), now, now);
        repo.facts == old(repo.facts) + [row] && repo.nextFactId == old(repo.nextFactId) + 1
        && r.Ok? && r.value == Some(FactOfRow(row).value)
        && log.published == old(log.published) + [FactAdded(intentId, old(repo.nextFactId), Strip(value))]
    ensures repo.facts == old(repo.facts) ==> repo.nextFactId == old(repo.nextFactId)
  {
    var existing := repo.FindById(intentId);
    if existing.Err? {
      return Err(existing.error);
    }
    if existing.value.None? {
      return Ok(None);
    }
    var fact := NewFact(None, intentId, value, None, None, now);
    if fact.Err? {
      return Err(fact.error);
    }
    StripIdempotent(value);
    var created := repo.AddFact(intentId, fact.value);
    var c := created.value;
    log.Publish(FactAdded(intentId, c.id.value, c.value));
    r := Ok(Some(c));
  }

  /** `update_fact_value`: the intent and then the (intent, fact) pair must exist, else
      None; the raw value is written into the matching slot, and the event is published
      iff the written fact reads back (a blank value raises after the write). */
  method UpdateFactValue(repo: IntentRepository, log: EventLog, intentId: int, factId: int, value: string)
    returns (r: Result<Option<Fact>, ValueError>)
    requires repo.Valid()
    modifies repo, log
    ensures repo.Valid()
    ensures repo.intents == old(repo.intents) && repo.nextIntentId == old(repo.nextIntentId)
    ensures repo.nextFactId == old(repo.nextFactId)
    ensures var found := FindIntent(old(repo.intents), intentId);
      var fact := FindFact(old(repo.facts), intentId, factId);
      if found.Err? then
        r == Err(found.error) && repo.facts == old(repo.facts) && log.published == old(log.published)
      else if found.value.None? then
        r == Ok(None) && repo.facts == old(repo.facts) && log.published == old(log.published)
      else if fact.Err? then
        r == Err(fact.error) && repo.facts == old(repo.facts) && log.published == old(log.published)
      else if fact.value.None? then
        r == Ok(None) && repo.facts == old(repo.facts) && log.published == old(log.published)
      else
        var k := FactIndex(old(repo.facts), intentId, factId).value;
        var row := FactRow(factId, intentId, value, old(repo.facts)[k].createdAt, fact.value.value.updatedAt);
        repo.facts == old(repo.facts)[k := row] && r == Found(FactOfRow(row))
        && (r.Ok? ==> log.published == old(log.published) + [FactUpdated(intentId, factId)])
        && (r.Err? ==> log.published == old(log.published))
  {
    var existing := repo.FindById(intentId);
    if existing.Err? {
      return Err(existing.error);
    }
    if existing.value.None? {
      return Ok(None);
    }
    var fact := repo.FindFactById(intentId, factId);
    if fact.Err? {
      return Err(fact.error);
    }
    if fact.value.None? {
      return Ok(None);
    }
    r := WriteFactValue(repo, log, intentId, factId, value, fact.value.value);
  }

  /** The last step of `update_fact_value`, once the fact has been read back. */
  method WriteFactValue(repo: IntentRepository, log: EventLog, intentId: int, factId: int, value: string,
                        fact: Fact)
    returns (r: Result<Option<Fact>, ValueError>)
    requires repo.Valid()
    requires FindFact(repo.facts, intentId, factId) == Ok(Some(fact))
    modifies repo, log
    ensures repo.Valid()
    ensures repo.intents == old(repo.intents) && repo.nextIntentId == old(repo.nextIntentId)
    ensures repo.nextFactId == old(repo.nextFactId)
    ensures FactIndex(old(repo.facts), intentId, factId).Some?
    ensures var k := FactIndex(old(repo.facts), intentId, factId).value;
      var row := FactRow(factId, intentId, value, old(repo.facts)[k].createdAt, fact.updatedAt);
      repo.facts == old(repo.facts)[k := row] && r == Found(FactOfRow(row))
      && (r.Ok? ==> log.published == old(log.published) + [FactUpdated(intentId, factId)])
      && (r.Err? ==> log.published == old(log.published))
  {
    ghost var k := FactIndex(repo.facts, intentId, factId).value;
    assert fact.updatedAt == repo.facts[k].updatedAt;
    var changed := fact.(value := value);
    r := repo.UpdateFact(intentId, factId, changed);
    if r.Ok? && r.value.Some? {
      log.Publish(FactUpdated(intentId, factId));
    }
  }

  /** `remove_fact_from_intent`: False without calling remove when the intent or the fact
      is missing; otherwise the fact is removed and one event published. */
  method RemoveFactFromIntent(repo: IntentRepository, log: EventLog, intentId: int, factId: int)
    returns (r: Result<bool, ValueError>)
    requires repo.Valid()
    modifies repo, log
    ensures repo.Valid()
    ensures repo.intents == old(repo.intents) && repo.nextIntentId == old(repo.nextIntentId)
    ensures repo.nextFactId == old(repo.nextFactId)
    ensures var found := FindIntent(old(repo.intents), intentId);
      var fact := FindFact(old(repo.facts), intentId, factId);
      if found.Err? then
        r == Err(found.error) && repo.facts == old(repo.facts) && log.published == old(log.published)
      else if found.value.None? then
        r == Ok(false) && repo.facts == old(repo.facts) && log.published == old(log.published)
      else if fact.Err? then
        r == Err(fact.error) && repo.facts == old(repo.facts) && log.published == old(log.published)
      else if fact.value.None? then
        r == Ok(false) && repo.facts == old(repo.facts) && log.published == old(log.published)
      else
        r == Ok(true)
        && repo.facts == RemoveAt(old(repo.facts), FactIndex(old(repo.facts), intentId, factId).value)
        && log.published == old(log.published) + [FactRemoved(intentId, factId)]
  {
    var existing := repo.FindById(intentId);
    if existing.Err? {
      return Err(existing.error);
    }
    if existing.value.None? {
      return Ok(false);
    }
    var fact := repo.FindFactById(intentId, factId);
    if fact.Err? {
      return Err(fact.error);
    }
    if fact.value.None? {
      return Ok(false);
    }
    var removed := repo.RemoveFact(intentId, factId);
    if removed {
      log.Publish(FactRemoved(intentId, factId));
    }
    r := Ok(removed);
  }
}
