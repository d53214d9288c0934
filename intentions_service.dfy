/**
 * The second backend's intent service over the intent store: creation with an initial
 * articulation, deletion, name and description updates, articulation replacement, and
 * adding prompts, outputs and insights. A raise is modelled as an `Err` result; rows
 * written before it stay written.
 */
module IntentionsService {
  import opened Wrappers
  import opened Text
  import opened Clock
  import opened IntentionsModels
  import opened IntentionsStore
  import opened IntentionsStages
  import opened DomainEvents

  // ---------------------------------------------------------------------------
  // Running one stage against the store

  /** The add loop of one stage: each entity is built and added in request order; the
      first that fails to build stops the loop with the earlier ones added. */
  method AppendRows(store: IntentStore, i: int, rs: seq<Result<Child, ValueError>>) returns (e: Option<ValueError>)
    requires store.Valid() && IntentIndex(store.intents, i).Some?
    requires forall j :: 0 <= j < |rs| && rs[j].Ok? ==> IsNormalChild(rs[j].value)
    modifies store
    ensures store.Valid() && store.intents == old(store.intents) && store.outputs == old(store.outputs)
    ensures Progress(Tables(store.children, store.nextId), e) == Append(Tables(old(store.children), old(store.nextId)), i, rs)
  {
    var c0 := store.children;
    var n0 := store.nextId;
    ghost var cs: seq<Child> := [];
    var j := 0;
    while j < |rs|
      invariant 0 <= j <= |rs| && |cs| == j
      invariant store.Valid() && store.intents == old(store.intents) && store.outputs == old(store.outputs)
      invariant forall l :: 0 <= l < j ==> rs[l].Ok? && cs[l] == rs[l].value
      invariant store.nextId == n0 + j && store.children == c0 + RowsFor(cs, i, n0)
    {
      if rs[j].Err? {
        OkPrefixIs(rs, cs);
        return Some(rs[j].error);
      }
      var added := store.AddChild(i, rs[j].value);
      RowsForSnoc(cs, rs[j].value, i, n0);
      cs := cs + [rs[j].value];
      j := j + 1;
    }
    OkPrefixIs(rs, cs);
    e := None;
  }

  /** The values before the first error are the ok prefix. */
  lemma OkPrefixIs(rs: seq<Result<Child, ValueError>>, cs: seq<Child>)
    requires |cs| <= |rs| && (|cs| == |rs| || rs[|cs|].Err?)
    requires forall l :: 0 <= l < |cs| ==> rs[l].Ok? && cs[l] == rs[l].value
    ensures OkPrefix(rs) == cs && OkCount(rs) == |cs|
  {
  }

  /** A run over stages, from the j-th on, is that stage followed by the rest. */
  lemma RunFrom(p: Progress, i: int, ss: seq<Stage>, j: nat)
    requires j < |ss|
    ensures RunAppend(p, i, ss[j..]) == RunAppend(StepAppend(p, i, ss[j]), i, ss[j + 1..])
    ensures RunReplace(p, i, ss[j..]) == RunReplace(StepReplace(p, i, ss[j]), i, ss[j + 1..])
  {
    assert ss[j..][0] == ss[j] && ss[j..][1..] == ss[j + 1..];
  }

  /** A run of six creation stages is the six steps in order. */
  lemma AppendSix(p: Progress, i: int, ss: seq<Stage>)
    requires |ss| == 6
    ensures RunAppend(p, i, ss)
         == StepAppend(StepAppend(StepAppend(StepAppend(StepAppend(StepAppend(p,
              i, ss[0]), i, ss[1]), i, ss[2]), i, ss[3]), i, ss[4]), i, ss[5])
  {
    var p1 := StepAppend(p, i, ss[0]);
    var p2 := StepAppend(p1, i, ss[1]);
    var p3 := StepAppend(p2, i, ss[2]);
    var p4 := StepAppend(p3, i, ss[3]);
    var p5 := StepAppend(p4, i, ss[4]);
    assert ss[0..] == ss;
    RunFrom(p, i, ss, 0);
    RunFrom(p1, i, ss, 1);
    RunFrom(p2, i, ss, 2);
    RunFrom(p3, i, ss, 3);
    RunFrom(p4, i, ss, 4);
    RunFrom(p5, i, ss, 5);
    assert ss[6..] == [];
  }

  /** A run of six articulation stages is the six steps in order. */
  lemma ReplaceSix(p: Progress, i: int, ss: seq<Stage>)
    requires |ss| == 6
    ensures RunReplace(p, i, ss)
         == StepReplace(StepReplace(StepReplace(StepReplace(StepReplace(StepReplace(p,
              i, ss[0]), i, ss[1]), i, ss[2]), i, ss[3]), i, ss[4]), i, ss[5])
  {
    var p1 := StepReplace(p, i, ss[0]);
    var p2 := StepReplace(p1, i, ss[1]);
    var p3 := StepReplace(p2, i, ss[2]);
    var p4 := StepReplace(p3, i, ss[3]);
    var p5 := StepReplace(p4, i, ss[4]);
    assert ss[0..] == ss;
    RunFrom(p, i, ss, 0);
    RunFrom(p1, i, ss, 1);
    RunFrom(p2, i, ss, 2);
    RunFrom(p3, i, ss, 3);
    RunFrom(p4, i, ss, 4);
    RunFrom(p5, i, ss, 5);
    assert ss[6..] == [];
  }

  /** A creation stage: nothing happens for an absent list. */
  method AppendStage(store: IntentStore, i: int, s: Stage) returns (e: Option<ValueError>)
    requires store.Valid() && IntentIndex(store.intents, i).Some? && Kinded(s)
    modifies store
    ensures store.Valid() && store.intents == old(store.intents) && store.outputs == old(store.outputs)
    ensures Progress(Tables(store.children, store.nextId), e)
         == StepAppend(Progress(Tables(old(store.children), old(store.nextId)), None), i, s)
  {
    if s.results.None? {
      return None;
    }
    e := AppendRows(store, i, s.results.value);
  }

  /** The intent's entities of every type outside `done` are still those of the snapshot. */
  ghost predicate Untouched(children: seq<ChildRow>, snapshot: seq<ChildRow>, i: int, done: set<Kind>)
  {
    forall k :: k !in done ==> Owned(children, i, k) == Owned(snapshot, i, k)
  }

  /** The delete loop of a replacement: each listed id of that type is deleted in turn. */
  method DeleteListed(store: IntentStore, i: int, k: Kind, ids: seq<int>)
    requires store.Valid()
    modifies store
    ensures store.Valid() && store.intents == old(store.intents) && store.outputs == old(store.outputs)
    ensures store.nextId == old(store.nextId)
    ensures store.children == WithoutIds(old(store.children), i, k, set x | x in ids)
  {
    var c0 := store.children;
    var n := 0;
    ghost var gone: set<int> := {};
    WithoutIdsNone(c0, i, k);
    ListedSetAll(ids);
    while n < |ids|
      invariant 0 <= n <= |ids| && gone == ListedSet(ids, n)
      invariant store.Valid() && store.intents == old(store.intents) && store.outputs == old(store.outputs)
      invariant store.nextId == old(store.nextId)
      invariant store.children == WithoutIds(c0, i, k, gone)
    {
      var deleted := store.DeleteChild(i, k, ids[n]);
      WithoutIdsStep(c0, i, k, gone, ids[n]);
      ListedSetStep(ids, n);
      gone := gone + {ids[n]};
      n := n + 1;
    }
    ListedSetAll(ids);
  }

  /** The ids among the first n listed. */
  ghost function ListedSet(ids: seq<int>, n: nat): set<int>
    requires n <= |ids|
  {
    set x | x in ids[..n]
  }

  lemma ListedSetStep(ids: seq<int>, n: nat)
    requires n < |ids|
    ensures ListedSet(ids, n + 1) == ListedSet(ids, n) + {ids[n]}
  {
    assert ids[..n + 1] == ids[..n] + [ids[n]];
  }

  lemma ListedSetAll(ids: seq<int>)
    ensures ListedSet(ids, 0) == {} && ListedSet(ids, |ids|) == set x | x in ids
  {
    assert ids[..|ids|] == ids;
  }

  /** Deleting every id the snapshot lists for a type removes the whole type, as long as
      the type is unchanged since the snapshot. */
  lemma ListedCoversKind(c0: seq<ChildRow>, snapshot: seq<ChildRow>, i: int, k: Kind)
    requires Owned(c0, i, k) == Owned(snapshot, i, k)
    ensures var ids := OwnedIds(snapshot, i, k);
      WithoutIds(c0, i, k, set x | x in ids) == WithoutKind(c0, i, k)
  {
    var ids := OwnedIds(snapshot, i, k);
    forall m | 0 <= m < |c0| && c0[m].intentId == i && KindOf(c0[m].child) == k
      ensures c0[m].id in set x | x in ids
    {
      assert c0[m] in Owned(snapshot, i, k);
      var l :| 0 <= l < |Owned(snapshot, i, k)| && Owned(snapshot, i, k)[l] == c0[m];
      assert ids[l] == c0[m].id;
    }
    WithoutIdsCovering(c0, i, k, (set x | x in ids));
  }

  /** An articulation stage: for a supplied list, every entity of that type listed in the
      intent as read at the start is deleted, then the list is added. */
  method ReplaceStage(store: IntentStore, i: int, s: Stage, snapshot: seq<ChildRow>, ghost done: set<Kind>)
    returns (e: Option<ValueError>)
    requires store.Valid() && IntentIndex(store.intents, i).Some? && Kinded(s)
    requires s.kind !in done && Untouched(store.children, snapshot, i, done)
    modifies store
    ensures store.Valid() && store.intents == old(store.intents) && store.outputs == old(store.outputs)
    ensures Progress(Tables(store.children, store.nextId), e)
         == StepReplace(Progress(Tables(old(store.children), old(store.nextId)), None), i, s)
    ensures Untouched(store.children, snapshot, i, done + {s.kind})
  {
    StepReplaceKeeps(Progress(Tables(store.children, store.nextId), None), i, s);
    if s.results.None? {
      return None;
    }
    ListedCoversKind(store.children, snapshot, i, s.kind);
    DeleteListed(store, i, s.kind, OwnedIds(snapshot, i, s.kind));
    e := AppendRows(store, i, s.results.value);
  }

  /** The six add loops of `create_intent`, in order: aspects, inputs, choices, pitfalls,
      assumptions, qualities. */
  method AddArticulation(store: IntentStore, i: int, a: Articulation, now: Instant) returns (e: Option<ValueError>)
    requires store.Valid() && IntentIndex(store.intents, i).Some?
    modifies store
    ensures store.Valid() && store.intents == old(store.intents) && store.outputs == old(store.outputs)
    ensures Progress(Tables(store.children, store.nextId), e)
         == RunAppend(Progress(Tables(old(store.children), old(store.nextId)), None), i, CreationStages(i, a, now))
  {
    var ss := CreationStages(i, a, now);
    AppendSix(Progress(Tables(store.children, store.nextId), None), i, ss);
    e := AppendStage(store, i, ss[0]);
    if e.Some? { return; }
    e := AppendStage(store, i, ss[1]);
    if e.Some? { return; }
    e := AppendStage(store, i, ss[2]);
    if e.Some? { return; }
    e := AppendStage(store, i, ss[3]);
    if e.Some? { return; }
    e := AppendStage(store, i, ss[4]);
    if e.Some? { return; }
    e := AppendStage(store, i, ss[5]);
  }

  /** The six replacements of `update_intent_articulation`, in order: inputs, choices,
      pitfalls, assumptions, qualities, aspects; each deletes what the intent listed when
      it was read at the start. */
  method ReplaceArticulation(store: IntentStore, i: int, a: Articulation, now: Instant) returns (e: Option<ValueError>)
    requires store.Valid() && IntentIndex(store.intents, i).Some?
    modifies store
    ensures store.Valid() && store.intents == old(store.intents) && store.outputs == old(store.outputs)
    ensures Progress(Tables(store.children, store.nextId), e)
         == RunReplace(Progress(Tables(old(store.children), old(store.nextId)), None), i, ArticulationStages(i, a, now))
  {
    var ss := ArticulationStages(i, a, now);
    var snapshot := store.children;
    ArticulationKinds(i, a, now);
    ReplaceSix(Progress(Tables(store.children, store.nextId), None), i, ss);
    e := ReplaceThree(store, i, ss[0], ss[1], ss[2], snapshot, {});
    if e.Some? { return; }
    e := ReplaceThree(store, i, ss[3], ss[4], ss[5], snapshot, {InputKind, ChoiceKind, PitfallKind});
  }

  /** Three replacements in a row, stopping at the first error. */
  method ReplaceThree(store: IntentStore, i: int, s0: Stage, s1: Stage, s2: Stage, snapshot: seq<ChildRow>,
                      ghost done: set<Kind>)
    returns (e: Option<ValueError>)
    requires store.Valid() && IntentIndex(store.intents, i).Some? && Kinded(s0) && Kinded(s1) && Kinded(s2)
    requires s0.kind !in done && s1.kind !in done + {s0.kind} && s2.kind !in done + {s0.kind, s1.kind}
    requires Untouched(store.children, snapshot, i, done)
    modifies store
    ensures store.Valid() && store.intents == old(store.intents) && store.outputs == old(store.outputs)
    ensures Progress(Tables(store.children, store.nextId), e)
         == StepReplace(StepReplace(StepReplace(Progress(Tables(old(store.children), old(store.nextId)), None),
              i, s0), i, s1), i, s2)
    ensures e.None? ==> Untouched(store.children, snapshot, i, done + {s0.kind, s1.kind, s2.kind})
  {
    e := ReplaceStage(store, i, s0, snapshot, done);
    if e.Some? { return; }
    e := ReplaceStage(store, i, s1, snapshot, done + {s0.kind});
    if e.Some? { return; }
    e := ReplaceStage(store, i, s2, snapshot, done + {s0.kind, s1.kind});
    assert done + {s0.kind, s1.kind} + {s2.kind} == done + {s0.kind, s1.kind, s2.kind};
  }

  /** The types of the six articulation stages, in order. */
  lemma ArticulationKinds(i: int, a: Articulation, now: Instant)
    ensures var ss := ArticulationStages(i, a, now);
      |ss| == 6 && (forall j :: 0 <= j < 6 ==> Kinded(ss[j]))
      && ss[0].kind == InputKind && ss[1].kind == ChoiceKind && ss[2].kind == PitfallKind
      && ss[3].kind == AssumptionKind && ss[4].kind == QualityKind && ss[5].kind == AspectKind
  {
  }

  // ---------------------------------------------------------------------------
  // Intents

  /** The intent a create request builds before it is stored. */
  function RequestedIntent(name: string, description: string, now: Instant): Result<Intent, ValueError>
  {
    NewIntent(None, name, description, None, None, None, None, None, None, None, None, None, None, None, now)
  }

  /** The intent a create request builds: refused for a blank name or description,
      otherwise the stripped name and description, stamped now, owning nothing. */
  lemma RequestedIntentIs(name: string, description: string, now: Instant)
    ensures RequestedIntent(name, description, now).Ok? <==> !IsBlank(name) && !IsBlank(description)
    ensures IsBlank(name) ==> RequestedIntent(name, description, now) == Err(EmptyError("Name"))
    ensures !IsBlank(name) && IsBlank(description) ==> RequestedIntent(name, description, now) == Err(EmptyError("Description"))
    ensures RequestedIntent(name, description, now).Ok? ==>
      RequestedIntent(name, description, now).value
      == Intent(None, Strip(name), Strip(description), now, now, [], [], [], [], [], [], [], [], [])
  {
  }

  /** A row appended under a fresh id is the one found for that id. */
  lemma FreshRowFound(intents: seq<IntentRow>, row: IntentRow)
    requires row.id !in IntentIds(intents)
    ensures IntentIndex(intents + [row], row.id) == Some(|intents|)
  {
    var s := intents + [row];
    forall j | 0 <= j < |intents| ensures s[j].id != row.id {
      assert s[j] == intents[j];
    }
    IndexOfFirst(s, row.id, |intents|);
  }

  /** An intent row stored under a fresh id with a stripped, non-blank name and
      description is found, and reads back with that id, name and description. */
  lemma FreshRowReadsBack(intents: seq<IntentRow>, row: IntentRow, children: seq<ChildRow>)
    requires row.id !in IntentIds(intents)
    requires row.name != "" && Strip(row.name) == row.name
    requires row.description != "" && Strip(row.description) == row.description
    ensures var r := FindIntent(intents + [row], children, row.id);
      r.Ok? && r.value.Some? && r.value.value.id == Some(row.id)
      && r.value.value.name == row.name && r.value.value.description == row.description
  {
    FreshRowFound(intents, row);
    RowIntentNormal(row, children);
  }

  /** `create_intent`: a blank name or description is refused before anything is
      written; otherwise the intent is stored, its aspects, inputs, choices, pitfalls,
      assumptions and qualities are added in that order, one creation event is
      published, and the intent is read back. */
  method CreateIntent(store: IntentStore, name: string, description: string, a: Articulation, now: Instant)
    returns (r: Result<Option<Intent>, ValueError>, events: seq<EventKind>)
    requires store.Valid()
    modifies store
    ensures store.Valid() && store.outputs == old(store.outputs)
    ensures RequestedIntent(name, description, now).Err? ==>
      r == Err(RequestedIntent(name, description, now).error)
      && store.intents == old(store.intents) && store.children == old(store.children)
      && store.nextId == old(store.nextId) && events == []
    ensures RequestedIntent(name, description, now).Ok? ==>
      var i := RequestedIntent(name, description, now).value;
      var id := old(store.nextId);
      var p := CreationRun(old(store.children), id, a, now);
      store.intents == old(store.intents) + [IntentRow(id, i.name, i.description, i.createdAt, i.updatedAt)]
      && store.children == p.tables.children && store.nextId == p.tables.nextId
      && (p.error.Some? ==> r == Err(p.error.value) && events == [])
      && (p.error.None? ==>
            r.Ok? && r.value.Some? && r.value.value.id == Some(id)
            && r.value.value.name == i.name && r.value.value.description == i.description
            && events == [IntentCreatedV2(id, i.name, i.description)])
  {
    var requested := RequestedIntent(name, description, now);
    if requested.Err? {
      return Err(requested.error), [];
    }
    var i := requested.value;
    var id, e := CreateArticulated(store, i, a, now);
    if e.Some? {
      return Err(e.value), [];
    }
    events := [IntentCreatedV2(id, i.name, i.description)];
    r := store.FindById(id);
  }

  /** The creation stages run over the children as they were, the intent row having
      taken the id `id`. */
  ghost function CreationRun(children: seq<ChildRow>, id: int, a: Articulation, now: Instant): Progress
  {
    RunAppend(Progress(Tables(children, id + 1), None), id, CreationStages(id, a, now))
  }

  /** The two writes of `create_intent`: the intent row, then its articulation stages. */
  method CreateArticulated(store: IntentStore, i: Intent, a: Articulation, now: Instant)
    returns (id: int, e: Option<ValueError>)
    requires store.Valid() && IsNormalIntent(i)
    modifies store
    ensures store.Valid() && store.outputs == old(store.outputs) && id == old(store.nextId)
    ensures store.intents == old(store.intents) + [IntentRow(id, i.name, i.description, i.createdAt, i.updatedAt)]
    ensures var p := CreationRun(old(store.children), id, a, now);
      store.children == p.tables.children && store.nextId == p.tables.nextId && e == p.error
    ensures var r := FindIntent(store.intents, store.children, id);
      r.Ok? && r.value.Some? && r.value.value.id == Some(id)
      && r.value.value.name == i.name && r.value.value.description == i.description
  {
    id := store.nextId;
    ghost var row := IntentRow(id, i.name, i.description, i.createdAt, i.updatedAt);
    ghost var before := store.intents;
    ghost var children0 := store.children;
    var created := store.Create(i);
    assert store.intents == before + [row] && store.children == children0 && store.nextId == id + 1;
    FreshRowFound(before, row);
    e := AddArticulation(store, id, a, now);
    assert Progress(Tables(store.children, store.nextId), e) == CreationRun(children0, id, a, now);
    assert store.intents == before + [row];
    FreshRowReadsBack(before, row, store.children);
  }

  /** A deleted intent is no longer found, and nothing owned by another intent moves. */
  lemma {:induction false} DeleteIsolated(intents: seq<IntentRow>, children: seq<ChildRow>, id: int, i': int, k: Kind)
    requires i' != id
    ensures FindIntent(IntentsNot(intents, id), children, id) == Ok(None)
    ensures Owned(ChildrenNotOf(children, id), i', k) == Owned(children, i', k)
  {
    var rest := IntentsNot(intents, id);
    forall j | 0 <= j < |rest| ensures rest[j].id != id {
      assert rest[j] in rest;
    }
    if |children| > 0 {
      DeleteIsolated(intents, children[1..], id, i', k);
    }
  }

  /** `list_intents`: the store's listing, unchanged. */
  method ListIntents(store: IntentStore) returns (r: Result<seq<Intent>, ValueError>)
    ensures r == AllIntents(store.intents, store.children)
    ensures r.Ok? ==> (|r.value| == |store.intents|
      && forall j :: 0 <= j < |r.value| ==> r.value[j].id == Some(store.intents[j].id))
  {
    r := store.ListAll();
    AllIntentsIds(store.intents, store.children);
  }

  /** `get_intent`: the stored intent with that id, or None. */
  method GetIntent(store: IntentStore, id: int) returns (r: Result<Option<Intent>, ValueError>)
    ensures r == FindIntent(store.intents, store.children, id)
    ensures id !in IntentIds(store.intents) ==> r == Ok(None)
    ensures r.Ok? && r.value.Some? ==> r.value.value.id == Some(id)
  {
    r := store.FindById(id);
  }

  /** `delete_intent`: false without deleting when the intent is missing; otherwise the
      intent and all it owns are deleted and one deletion event is published. */
  method DeleteIntent(store: IntentStore, id: int) returns (r: Result<bool, ValueError>, events: seq<EventKind>)
    requires store.Valid()
    modifies store
    ensures store.Valid() && store.nextId == old(store.nextId)
    ensures var found := FindIntent(old(store.intents), old(store.children), id);
      if found.Err? || found.value.None? then
        (if found.Err? then r == Err(found.error) else r == Ok(false))
        && store.intents == old(store.intents) && store.children == old(store.children)
        && store.outputs == old(store.outputs) && events == []
      else
        r == Ok(true)
        && store.intents == IntentsNot(old(store.intents), id)
        && store.children == ChildrenNotOf(old(store.children), id)
        && store.outputs == OutputsNotOf(old(store.outputs), OwnedIds(old(store.children), id, PromptKind))
        && events == [IntentDeleted(id)]
  {
    var existing := store.FindById(id);
    if existing.Err? {
      return Err(existing.error), [];
    }
    if existing.value.None? {
      return Ok(false), [];
    }
    var deleted := store.Delete(id);
    events := [];
    if deleted {
      events := [IntentDeleted(id)];
    }
    r := Ok(deleted);
  }

  /** The two intent fields the service updates one at a time. */
  datatype IntentField = NameField | DescriptionField

  function FieldName(f: IntentField): string
  {
    match f
    case NameField => "name"
    case DescriptionField => "description"
  }

  function FieldLabel(f: IntentField): string
  {
    match f
    case NameField => "Name"
    case DescriptionField => "Description"
  }

  /** The row `update` writes when one field of the intent as read is set to `value`:
      the other field goes back as read, that is stripped, and the update time moves only
      when the name or description differs from what was stored. */
  function WrittenRow(row: IntentRow, f: IntentField, value: string, now: Instant): IntentRow
  {
    var name := if f == NameField then value else Strip(row.name);
    var description := if f == DescriptionField then value else Strip(row.description);
    var changed := row.name != name || row.description != description;
    row.(name := name, description := description, updatedAt := if changed then now else row.updatedAt)
  }

  /** After a field write, the read refuses a blank value with that field's error and
      otherwise gives the value stripped, the other field unchanged. */
  lemma FieldWriteReadsBack(intents: seq<IntentRow>, children: seq<ChildRow>, id: int, f: IntentField, value: string, now: Instant)
    requires FindIntent(intents, children, id).Ok? && FindIntent(intents, children, id).value.Some?
    ensures var k := IntentIndex(intents, id).value;
      var before := FindIntent(intents, children, id).value.value;
      var after := FindIntent(intents[k := WrittenRow(intents[k], f, value, now)], children, id);
      (IsBlank(value) ==> after == Err(EmptyError(FieldLabel(f))))
      && (!IsBlank(value) ==>
            after.Ok? && after.value.Some?
            && after.value.value.name == (if f == NameField then Strip(value) else before.name)
            && after.value.value.description == (if f == DescriptionField then Strip(value) else before.description))
  {
    var k := IntentIndex(intents, id).value;
    var row := intents[k];
    IndexAfterWrite(intents, id, k, WrittenRow(row, f, value, now));
    if f == NameField {
      NameWriteReadsBack(row, children, value, now);
    } else {
      DescriptionWriteReadsBack(row, children, value, now);
    }
  }

  /** Rewriting the row found for an id with one carrying the same id keeps it found there. */
  lemma IndexAfterWrite(intents: seq<IntentRow>, id: int, k: int, row: IntentRow)
    requires IntentIndex(intents, id) == Some(k) && row.id == id
    ensures IntentIndex(intents[k := row], id) == Some(k)
  {
    var w := intents[k := row];
    forall j | 0 <= j < k ensures w[j].id != id {
      assert w[j] == intents[j];
    }
    IndexOfFirst(w, id, k);
  }

  lemma NameWriteReadsBack(row: IntentRow, children: seq<ChildRow>, value: string, now: Instant)
    requires RowIntent(row, children).Ok?
    ensures var after := RowIntent(WrittenRow(row, NameField, value, now), children);
      (IsBlank(value) ==> after == Err(EmptyError("Name")))
      && (!IsBlank(value) ==>
            after.Ok? && after.value.name == Strip(value)
            && after.value.description == RowIntent(row, children).value.description)
  {
    StripIdempotent(row.description);
  }

  lemma DescriptionWriteReadsBack(row: IntentRow, children: seq<ChildRow>, value: string, now: Instant)
    requires RowIntent(row, children).Ok?
    ensures var after := RowIntent(WrittenRow(row, DescriptionField, value, now), children);
      (IsBlank(value) ==> after == Err(EmptyError("Description")))
      && (!IsBlank(value) ==>
            after.Ok? && after.value.description == Strip(value)
            && after.value.name == RowIntent(row, children).value.name)
  {
    StripIdempotent(row.name);
  }

  /** The row `update` writes for the intent as read with one field set is `WrittenRow`. */
  lemma WrittenRowIs(row: IntentRow, f: IntentField, value: string, now: Instant,
                     name: string, description: string, name': string, description': string)
    requires name == Strip(row.name) && description == Strip(row.description)
    requires name' == (if f == NameField then value else name)
    requires description' == (if f == DescriptionField then value else description)
    ensures WrittenRow(row, f, value, now)
      == row.(name := name', description := description',
              updatedAt := if row.name != name' || row.description != description' then now else row.updatedAt)
  {
  }

  /** The intent found for an id carries the stored name and description, stripped. */
  lemma FoundFields(intents: seq<IntentRow>, children: seq<ChildRow>, id: int)
    requires FindIntent(intents, children, id).Ok? && FindIntent(intents, children, id).value.Some?
    ensures IntentIndex(intents, id).Some?
    ensures var k := IntentIndex(intents, id).value;
      var i := FindIntent(intents, children, id).value.value;
      i.name == Strip(intents[k].name) && i.description == Strip(intents[k].description)
  {
  }

  /** `_update_intent_field` with `update_intent_name` or `update_intent_description`:
      a missing intent gives None with no write; otherwise the row is rewritten with the
      value as given and the intent read back, so a blank value is stored and then
      refused by the read; the update event is published only for a successful read. */
  method UpdateIntentField(store: IntentStore, id: int, f: IntentField, value: string, now: Instant)
    returns (r: Result<Option<Intent>, ValueError>, events: seq<EventKind>)
    requires store.Valid()
    modifies store
    ensures store.Valid() && store.children == old(store.children) && store.outputs == old(store.outputs)
    ensures store.nextId == old(store.nextId)
    ensures var found := FindIntent(old(store.intents), old(store.children), id);
      if found.Err? || found.value.None? then
        (if found.Err? then r == Err(found.error) else r == Ok(None))
        && store.intents == old(store.intents) && events == []
      else
        var k := IntentIndex(old(store.intents), id).value;
        store.intents == old(store.intents)[k := WrittenRow(old(store.intents)[k], f, value, now)]
        && r == FindIntent(store.intents, store.children, id)
        && (r.Ok? && r.value.Some? ==> events == [IntentUpdated(id, FieldName(f))])
        && (!(r.Ok? && r.value.Some?) ==> events == [])
  {
    var existing := store.FindById(id);
    if existing.Err? {
      return Err(existing.error), [];
    }
    if existing.value.None? {
      return Ok(None), [];
    }
    r, events := WriteIntentField(store, id, f, value, now, existing.value.value);
  }

  /** The write half of `_update_intent_field`, once the intent has been read. */
  method WriteIntentField(store: IntentStore, id: int, f: IntentField, value: string, now: Instant, e: Intent)
    returns (r: Result<Option<Intent>, ValueError>, events: seq<EventKind>)
    requires store.Valid() && FindIntent(store.intents, store.children, id) == Ok(Some(e))
    modifies store
    ensures store.Valid() && store.children == old(store.children) && store.outputs == old(store.outputs)
    ensures store.nextId == old(store.nextId)
    ensures IntentIndex(old(store.intents), id).Some?
    ensures var k := IntentIndex(old(store.intents), id).value;
      store.intents == old(store.intents)[k := WrittenRow(old(store.intents)[k], f, value, now)]
      && r == FindIntent(store.intents, store.children, id)
      && (r.Ok? && r.value.Some? ==> events == [IntentUpdated(id, FieldName(f))])
      && (!(r.Ok? && r.value.Some?) ==> events == [])
  {
    FoundFields(store.intents, store.children, id);
    ghost var k := IntentIndex(store.intents, id).value;
    ghost var intents0 := store.intents;
    ghost var written := WrittenRow(intents0[k], f, value, now);
    var changedIntent := if f == NameField then e.(name := value) else e.(description := value);
    WrittenRowIs(intents0[k], f, value, now, e.name, e.description, changedIntent.name, changedIntent.description);
    var updated := store.Update(id, changedIntent, now);
    assert store.intents == intents0[k := written];
    events := [];
    if updated.Ok? && updated.value.Some? {
      events := [IntentUpdated(id, FieldName(f))];
    }
    r := updated;
  }

  /** `update_intent_articulation`: None for a missing intent; otherwise each supplied
      type is replaced in the order inputs, choices, pitfalls, assumptions, qualities,
      aspects, one articulation event is published whatever was supplied, and the intent
      is read back. */
  method UpdateIntentArticulation(store: IntentStore, id: int, a: Articulation, now: Instant)
    returns (r: Result<Option<Intent>, ValueError>, events: seq<EventKind>)
    requires store.Valid()
    modifies store
    ensures store.Valid() && store.intents == old(store.intents) && store.outputs == old(store.outputs)
    ensures var found := FindIntent(old(store.intents), old(store.children), id);
      if found.Err? || found.value.None? then
        (if found.Err? then r == Err(found.error) else r == Ok(None))
        && store.children == old(store.children) && store.nextId == old(store.nextId)
        && events == []
      else
        var p := RunReplace(Progress(Tables(old(store.children), old(store.nextId)), None), id, ArticulationStages(id, a, now));
        store.children == p.tables.children && store.nextId == p.tables.nextId
        && (p.error.Some? ==> r == Err(p.error.value) && events == [])
        && (p.error.None? ==>
              r == FindIntent(store.intents, store.children, id) && r.Ok? && r.value.Some?
              && events == [IntentArticulationUpdated(id)])
  {
    var existing := store.FindById(id);
    if existing.Err? {
      return Err(existing.error), [];
    }
    if existing.value.None? {
      return Ok(None), [];
    }
    var e := ReplaceArticulation(store, id, a, now);
    if e.Some? {
      return Err(e.value), [];
    }
    ghost var k := IntentIndex(store.intents, id).value;
    ChildrenDoNotAffectRead(store.intents[k], old(store.children), store.children);
    events := [IntentArticulationUpdated(id)];
    r := store.FindById(id);
  }

  /** Replacing an intent's children never changes whether its stored name and
      description read back, nor what they read back as. */
  lemma ChildrenDoNotAffectRead(row: IntentRow, c1: seq<ChildRow>, c2: seq<ChildRow>)
    ensures RowIntent(row, c1).Ok? <==> RowIntent(row, c2).Ok?
    ensures RowIntent(row, c1).Ok? ==>
      RowIntent(row, c1).value.name == RowIntent(row, c2).value.name
      && RowIntent(row, c1).value.description == RowIntent(row, c2).value.description
  {
  }

  // ---------------------------------------------------------------------------
  // Prompts, outputs, insights

  /** `add_prompt`: None for a missing intent; otherwise a prompt with the next version
      (one above the intent's highest, 1 for its first) is added and one event published;
      blank content is refused before anything is written. */
  method AddPrompt(store: IntentStore, intentId: int, content: string, now: Instant)
    returns (r: Result<Option<Prompt>, ValueError>, events: seq<EventKind>)
    requires store.Valid()
    modifies store
    ensures store.Valid() && store.intents == old(store.intents) && store.outputs == old(store.outputs)
    ensures var found := FindIntent(old(store.intents), old(store.children), intentId);
      var version := NextPromptVersion(old(store.children), intentId);
      if found.Err? || found.value.None? || IsBlank(content) then
        (if found.Err? then r == Err(found.error)
         else if found.value.None? then r == Ok(None)
         else r == Err(EmptyError("Content")))
        && store.children == old(store.children) && store.nextId == old(store.nextId)
        && events == []
      else
        var added := ChildRow(old(store.nextId), intentId, PromptChild(Prompt(None, intentId, Strip(content), version, now, now)));
        store.children == old(store.children) + [added] && store.nextId == old(store.nextId) + 1
        && r == Ok(Some(ReadPrompt(added)))
        && (forall j :: (0 <= j < |old(store.children)| && old(store.children)[j].intentId == intentId
              && old(store.children)[j].child.PromptChild?) ==> old(store.children)[j].child.prompt.version < version)
        && events == [PromptCreated(intentId, old(store.nextId), version)]
  {
    var existing := store.FindById(intentId);
    if existing.Err? {
      return Err(existing.error), [];
    }
    if existing.value.None? {
      return Ok(None), [];
    }
    var version := store.NextVersion(intentId);
    var prompt := NewPrompt(None, intentId, content, version, None, None, now);
    if prompt.Err? {
      return Err(prompt.error), [];
    }
    var added := store.AddChild(intentId, PromptChild(prompt.value));
    var created := ReadPrompt(added.value);
    events := [PromptCreated(intentId, created.id.value, created.version)];
    r := Ok(Some(created));
  }

  /** `add_output`: blank content raises before the store is touched; a missing prompt
      gives None with no write and no event; otherwise the output is added and one event
      published. */
  method AddOutput(store: IntentStore, promptId: int, content: string, now: Instant)
    returns (r: Result<Option<Output>, ValueError>, events: seq<EventKind>)
    requires store.Valid()
    modifies store
    ensures store.Valid() && store.intents == old(store.intents) && store.children == old(store.children)
    ensures IsBlank(content) || !PromptExists(old(store.children), promptId) ==>
      (if IsBlank(content) then r == Err(EmptyError("Content")) else r == Ok(None))
      && store.outputs == old(store.outputs) && store.nextId == old(store.nextId)
      && events == []
    ensures !IsBlank(content) && PromptExists(old(store.children), promptId) ==>
      var row := OutputRow(old(store.nextId), promptId, Strip(content), now, now);
      store.outputs == old(store.outputs) + [row] && store.nextId == old(store.nextId) + 1
      && r == Ok(Some(Output(Some(row.id), promptId, row.content, now, now)))
      && events == [OutputCreated(promptId, row.id)]
  {
    var output := NewOutput(None, promptId, content, None, None, now);
    if output.Err? {
      return Err(output.error), [];
    }
    var created := store.AddOutput(promptId, output.value);
    if created.Err? {
      return Ok(None), [];
    }
    var row := created.value;
    events := [OutputCreated(promptId, row.id)];
    r := Ok(Some(Output(Some(row.id), row.promptId, row.content, row.createdAt, row.updatedAt)));
  }

  /** The ids of the prompts listed in an intent, as `[p.id for p in intent.prompts]`. */
  function PromptIds(prompts: seq<Prompt>): (r: seq<Option<int>>)
    ensures |r| == |prompts| && forall j :: 0 <= j < |prompts| ==> r[j] == prompts[j].id
  {
    seq(|prompts|, j requires 0 <= j < |prompts| => prompts[j].id)
  }

  /** The prompt ids an intent lists are exactly the ids of its stored prompts. */
  lemma PromptIdsOfIntent(children: seq<ChildRow>, i: int, x: int)
    ensures Some(x) in PromptIds(PromptsOf(children, i)) <==>
      exists j :: 0 <= j < |children| && children[j].id == x && children[j].intentId == i && children[j].child.PromptChild?
  {
    var o := Owned(children, i, PromptKind);
    var ps := PromptIds(PromptsOf(children, i));
    if Some(x) in ps {
      var l :| 0 <= l < |ps| && ps[l] == Some(x);
      assert o[l] in o;
      var j :| 0 <= j < |children| && children[j] == o[l];
    }
    if exists j :: 0 <= j < |children| && children[j].id == x && children[j].intentId == i && children[j].child.PromptChild? {
      var j :| 0 <= j < |children| && children[j].id == x && children[j].intentId == i && children[j].child.PromptChild?;
      assert children[j] in o;
      var l :| 0 <= l < |o| && o[l] == children[j];
      assert ps[l] == Some(x);
    }
  }

  /** "<field> <id> not found or does not belong to intent". */
  function NotOwnedError(field: string, id: int): ValueError
  {
    ValueError(field + " " + IntToString(id) + " not found or does not belong to intent")
  }

  /** "source_output_id <id> not found". */
  function OutputMissingError(id: int): ValueError
  {
    ValueError("source_output_id " + IntToString(id) + " not found")
  }

  /** "source_output_id <id> does not belong to this intent". */
  function OutputForeignError(id: int): ValueError
  {
    ValueError("source_output_id " + IntToString(id) + " does not belong to this intent")
  }

  /** The output check as intended: the output exists and its prompt is one the intent
      lists. */
  predicate OutputOfIntent(outputs: seq<OutputRow>, prompts: seq<Prompt>, outputId: int)
  {
    OutputPrompt(outputs, outputId).Some? && Some(OutputPrompt(outputs, outputId).value) in PromptIds(prompts)
  }

  /** The source checks of `add_insight`, in order: the source prompt and the source
      assumption must be the intent's own, the source output must exist and its prompt
      must be among those the intent lists. */
  function InsightSourceError(
    children: seq<ChildRow>, outputs: seq<OutputRow>, intentId: int, prompts: seq<Prompt>,
    sourcePromptId: Option<int>, sourceAssumptionId: Option<int>, sourceOutputId: Option<int>)
    : (r: Option<ValueError>)
    ensures r.None? <==>
      (sourcePromptId.None? || FindChild(children, intentId, PromptKind, sourcePromptId.value).Some?)
      && (sourceAssumptionId.None? || FindChild(children, intentId, AssumptionKind, sourceAssumptionId.value).Some?)
      && (sourceOutputId.None? || OutputOfIntent(outputs, prompts, sourceOutputId.value))
    ensures sourcePromptId.Some? && FindChild(children, intentId, PromptKind, sourcePromptId.value).None? ==>
      r == Some(NotOwnedError("source_prompt_id", sourcePromptId.value))
    ensures ((sourcePromptId.None? || FindChild(children, intentId, PromptKind, sourcePromptId.value).Some?)
            && sourceAssumptionId.Some? && FindChild(children, intentId, AssumptionKind, sourceAssumptionId.value).None?) ==>
      r == Some(NotOwnedError("source_assumption_id", sourceAssumptionId.value))
  {
    if sourcePromptId.Some? && FindChild(children, intentId, PromptKind, sourcePromptId.value).None? then
      Some(NotOwnedError("source_prompt_id", sourcePromptId.value))
    else if sourceAssumptionId.Some? && FindChild(children, intentId, AssumptionKind, sourceAssumptionId.value).None? then
      Some(NotOwnedError("source_assumption_id", sourceAssumptionId.value))
    else if sourceOutputId.Some? && OutputPrompt(outputs, sourceOutputId.value).None? then
      Some(OutputMissingError(sourceOutputId.value))
    else if sourceOutputId.Some? && !OutputOfIntent(outputs, prompts, sourceOutputId.value) then
      Some(OutputForeignError(sourceOutputId.value))
    else None
  }

  /** What `add_insight` ends with as written: the output check calls a repository
      operation that the repository does not define. */
  datatype SourceFailure = Invalid(error: ValueError) | MissingOperation(name: string)

  function InsightSourceErrorAsWritten(
    children: seq<ChildRow>, outputs: seq<OutputRow>, intentId: int, prompts: seq<Prompt>,
    sourcePromptId: Option<int>, sourceAssumptionId: Option<int>, sourceOutputId: Option<int>)
    : (r: Option<SourceFailure>)
    ensures sourceOutputId.None? ==>
      r == (var e := InsightSourceError(children, outputs, intentId, prompts, sourcePromptId, sourceAssumptionId, None);
            if e.Some? then Some(Invalid(e.value)) else None)
  {
    if sourcePromptId.Some? && FindChild(children, intentId, PromptKind, sourcePromptId.value).None? then
      Some(Invalid(NotOwnedError("source_prompt_id", sourcePromptId.value)))
    else if sourceAssumptionId.Some? && FindChild(children, intentId, AssumptionKind, sourceAssumptionId.value).None? then
      Some(Invalid(NotOwnedError("source_assumption_id", sourceAssumptionId.value)))
    else if sourceOutputId.Some? then Some(MissingOperation("get_prompt_id_for_output"))
    else None
  }

  /** As written, every insight that names a source output fails once the other checks
      pass, even one whose output belongs to one of the intent's prompts, which the
      intended checks accept. */
  lemma OutputSourceAlwaysFails(
    children: seq<ChildRow>, outputs: seq<OutputRow>, intentId: int, prompts: seq<Prompt>,
    sourcePromptId: Option<int>, sourceAssumptionId: Option<int>, outputId: int)
    requires sourcePromptId.None? || FindChild(children, intentId, PromptKind, sourcePromptId.value).Some?
    requires sourceAssumptionId.None? || FindChild(children, intentId, AssumptionKind, sourceAssumptionId.value).Some?
    ensures InsightSourceErrorAsWritten(children, outputs, intentId, prompts, sourcePromptId, sourceAssumptionId, Some(outputId))
         == Some(MissingOperation("get_prompt_id_for_output"))
    ensures OutputOfIntent(outputs, prompts, outputId) ==>
      InsightSourceError(children, outputs, intentId, prompts, sourcePromptId, sourceAssumptionId, Some(outputId)).None?
  {
  }

  /** A concrete case: intent 1 with prompt 2, and output 3 of that prompt. */
  lemma OutputSourceCounterexample(t: Instant)
    ensures var children := [ChildRow(2, 1, PromptChild(Prompt(None, 1, "p", 1, t, t)))];
      var outputs := [OutputRow(3, 2, "o", t, t)];
      var prompts := PromptsOf(children, 1);
      InsightSourceErrorAsWritten(children, outputs, 1, prompts, None, None, Some(3)).Some?
      && InsightSourceError(children, outputs, 1, prompts, None, None, Some(3)).None?
  {
    var children := [ChildRow(2, 1, PromptChild(Prompt(None, 1, "p", 1, t, t)))];
    var outputs := [OutputRow(3, 2, "o", t, t)];
    assert Owned(children[1..], 1, PromptKind) == [];
    assert Owned(children, 1, PromptKind) == children;
    PromptIdsOfIntent(children, 1, 2);
    assert children[0].id == 2;
    assert OutputPrompt(outputs, 3) == Some(2);
  }

  /** The checks of `add_insight` against the store, in source order. */
  method CheckInsightSources(store: IntentStore, intentId: int, prompts: seq<Prompt>,
                             sourcePromptId: Option<int>, sourceAssumptionId: Option<int>, sourceOutputId: Option<int>)
    returns (e: Option<ValueError>)
    ensures e == InsightSourceError(store.children, store.outputs, intentId, prompts, sourcePromptId, sourceAssumptionId, sourceOutputId)
  {
    if sourcePromptId.Some? {
      var prompt := store.FindChildById(intentId, PromptKind, sourcePromptId.value);
      if prompt.None? {
        return Some(NotOwnedError("source_prompt_id", sourcePromptId.value));
      }
    }
    if sourceAssumptionId.Some? {
      var assumption := store.FindChildById(intentId, AssumptionKind, sourceAssumptionId.value);
      if assumption.None? {
        return Some(NotOwnedError("source_assumption_id", sourceAssumptionId.value));
      }
    }
    if sourceOutputId.Some? {
      var outputPromptId := store.PromptIdForOutput(sourceOutputId.value);
      if outputPromptId.None? {
        return Some(OutputMissingError(sourceOutputId.value));
      }
      var intentPromptIds := PromptIds(prompts);
      if Some(outputPromptId.value) !in intentPromptIds {
        return Some(OutputForeignError(sourceOutputId.value));
      }
    }
    e := None;
  }

  /** An insight request. */
  datatype InsightRequest = InsightRequest(
    content: string, sourceType: Option<string>, sourceOutputId: Option<int>, sourcePromptId: Option<int>,
    sourceAssumptionId: Option<int>, status: Option<string>)

  function RequestedInsight(intentId: int, q: InsightRequest, now: Instant): Result<Insight, ValueError>
  {
    NewInsight(None, intentId, q.content, q.sourceType, q.sourceOutputId, q.sourcePromptId, q.sourceAssumptionId,
               q.status, None, None, now)
  }

  /** `add_insight`: None for a missing intent; a failed source check, then an invalid
      insight, raise before anything is written; otherwise the insight is added and one
      event published. */
  method AddInsight(store: IntentStore, intentId: int, q: InsightRequest, now: Instant)
    returns (r: Result<Option<Insight>, ValueError>, events: seq<EventKind>)
    requires store.Valid()
    modifies store
    ensures store.Valid() && store.intents == old(store.intents) && store.outputs == old(store.outputs)
    ensures var found := FindIntent(old(store.intents), old(store.children), intentId);
      if found.Err? || found.value.None? then
        (if found.Err? then r == Err(found.error) else r == Ok(None))
        && store.children == old(store.children) && store.nextId == old(store.nextId)
        && events == []
      else
        var check := InsightSourceError(old(store.children), old(store.outputs), intentId, found.value.value.prompts,
                                        q.sourcePromptId, q.sourceAssumptionId, q.sourceOutputId);
        var insight := RequestedInsight(intentId, q, now);
        if check.Some? || insight.Err? then
          (if check.Some? then r == Err(check.value) else r == Err(insight.error))
          && store.children == old(store.children) && store.nextId == old(store.nextId)
          && events == []
        else
          var added := ChildRow(old(store.nextId), intentId, InsightChild(insight.value));
          store.children == old(store.children) + [added] && store.nextId == old(store.nextId) + 1
          && r == Ok(Some(ReadInsight(added)))
          && events == [InsightCreated(intentId, old(store.nextId))]
  {
    var existing := store.FindById(intentId);
    if existing.Err? {
      return Err(existing.error), [];
    }
    if existing.value.None? {
      return Ok(None), [];
    }
    var check := CheckInsightSources(store, intentId, existing.value.value.prompts,
                                     q.sourcePromptId, q.sourceAssumptionId, q.sourceOutputId);
    if check.Some? {
      return Err(check.value), [];
    }
    var insight := RequestedInsight(intentId, q, now);
    if insight.Err? {
      return Err(insight.error), [];
    }
    r, events := WriteInsight(store, intentId, insight.value);
  }

  /** The write of `add_insight`, once the intent is found and the insight checked. */
  method WriteInsight(store: IntentStore, intentId: int, insight: Insight)
    returns (r: Result<Option<Insight>, ValueError>, events: seq<EventKind>)
    requires store.Valid() && IntentIndex(store.intents, intentId).Some? && IsNormalInsight(insight)
    modifies store
    ensures store.Valid() && store.intents == old(store.intents) && store.outputs == old(store.outputs)
    ensures var added := ChildRow(old(store.nextId), intentId, InsightChild(insight));
      store.children == old(store.children) + [added] && store.nextId == old(store.nextId) + 1
      && r == Ok(Some(ReadInsight(added)))
      && events == [InsightCreated(intentId, old(store.nextId))]
  {
    var added := store.AddChild(intentId, InsightChild(insight));
    var created := ReadInsight(added.value);
    events := [InsightCreated(intentId, created.id.value)];
    r := Ok(Some(created));
  }
}
