/**
 * The first backend's in-memory intent repository: two lists of stored rows
 * (intents and facts) and two id counters. Every read converts a stored row back
 * into a domain object by running its constructor again, so a read can raise the
 * constructor's ValueError; intents come back without their facts.
 */
module DeclaringIntentRepository {
  import opened Wrappers
  import opened Text
  import opened Clock
  import opened DeclaringIntents

  /** A stored intent row (the fields of the intent's DB model). */
  datatype IntentRow = IntentRow(
    id: int,
    name: string,
    description: string,
    outputFormat: string,
    outputStructure: Option<string>,
    context: Option<string>,
    constraints: Option<string>,
    createdAt: Instant,
    updatedAt: Instant)

  /** A stored fact row. */
  datatype FactRow = FactRow(id: int, intentId: int, value: string, createdAt: Instant, updatedAt: Instant)

  // ---------------------------------------------------------------------------
  // Conversions between stored rows and domain objects

  /** The DB row of a domain intent, with the id and creation time the repository forces. */
  function IntentRowOf(i: Intent, id: int, createdAt: Instant): IntentRow
  {
    IntentRow(id, i.name, i.description, i.outputFormat, i.outputStructure, i.context, i.constraints,
              createdAt, i.updatedAt)
  }

  /** The domain intent of a stored row: the constructor runs again and no facts are
      attached. */
  function IntentOfRow(row: IntentRow): (r: Result<Intent, ValueError>)
    ensures r.Ok? <==> !IsBlank(row.name) && !IsBlank(row.description) && !IsBlank(row.outputFormat)
    ensures r.Ok? ==>
      r.value.id == Some(row.id) && r.value.facts == []
      && r.value.createdAt == row.createdAt && r.value.updatedAt == row.updatedAt
      && r.value.name == Strip(row.name) && r.value.description == Strip(row.description)
      && r.value.outputFormat == Strip(row.outputFormat)
      && r.value.outputStructure == StripOptional(row.outputStructure)
      && r.value.context == StripOptional(row.context)
      && r.value.constraints == StripOptional(row.constraints)
  {
    NewIntent(Some(row.id), row.name, row.description, row.outputFormat, row.outputStructure, row.context,
              row.constraints, Some(row.createdAt), Some(row.updatedAt), [], row.createdAt)
  }

  /** The domain fact of a stored row: the constructor runs again. */
  function FactOfRow(row: FactRow): (r: Result<Fact, ValueError>)
    ensures r.Ok? <==> !IsBlank(row.value)
    ensures r.Ok? ==>
      r.value.id == Some(row.id) && r.value.intentId == row.intentId && r.value.value == Strip(row.value)
      && r.value.createdAt == row.createdAt && r.value.updatedAt == row.updatedAt
  {
    NewFact(Some(row.id), row.intentId, row.value, Some(row.createdAt), Some(row.updatedAt), row.createdAt)
  }

  /** An `Optional[...]` result of a lookup whose conversion may raise. */
  function Found<T>(r: Result<T, ValueError>): (f: Result<Option<T>, ValueError>)
    ensures f.Ok? <==> r.Ok?
    ensures f.Ok? ==> f.value == Some(r.value)
    ensures f.Err? ==> f.error == r.error
  {
    if r.Ok? then Ok(Some(r.value)) else Err(r.error)
  }

  // ---------------------------------------------------------------------------
  // Specification of the lookups over the stored lists

  /** The first slot holding the intent with this id. */
  function IntentIndex(rows: seq<IntentRow>, id: int): (r: Option<nat>)
    ensures r.Some? ==>
      r.value < |rows| && rows[r.value].id == id && forall k :: 0 <= k < r.value ==> rows[k].id != id
    ensures r.None? <==> id !in IntentIds(rows)
  {
    if |rows| == 0 then None
    else if rows[0].id == id then Some(0)
    else
      var t := IntentIndex(rows[1..], id);
      assert IntentIds(rows) == {rows[0].id} + IntentIds(rows[1..]);
      if t.None? then None else Some(t.value + 1)
  }

  function IntentIds(rows: seq<IntentRow>): set<int>
  {
    set k | 0 <= k < |rows| :: rows[k].id
  }

  /** The first slot holding the fact with this id under this intent. */
  function FactIndex(rows: seq<FactRow>, intentId: int, factId: int): (r: Option<nat>)
    ensures r.Some? ==>
      r.value < |rows| && rows[r.value].id == factId && rows[r.value].intentId == intentId
      && forall k :: 0 <= k < r.value ==> !(rows[k].id == factId && rows[k].intentId == intentId)
    ensures r.None? ==> forall k :: 0 <= k < |rows| ==> !(rows[k].id == factId && rows[k].intentId == intentId)
  {
    if |rows| == 0 then None
    else if rows[0].id == factId && rows[0].intentId == intentId then Some(0)
    else
      var t := FactIndex(rows[1..], intentId, factId);
      if t.None? then None else Some(t.value + 1)
  }

  /** `find_by_id`: absent is `None`; a present row is converted. */
  function FindIntent(rows: seq<IntentRow>, id: int): Result<Option<Intent>, ValueError>
  {
    var k := IntentIndex(rows, id);
    if k.None? then Ok(None) else Found(IntentOfRow(rows[k.value]))
  }

  function FindFact(rows: seq<FactRow>, intentId: int, factId: int): Result<Option<Fact>, ValueError>
  {
    var k := FactIndex(rows, intentId, factId);
    if k.None? then Ok(None) else Found(FactOfRow(rows[k.value]))
  }

  /** Each stored intent row converted on its own. */
  function IntentResults(rows: seq<IntentRow>): (r: seq<Result<Intent, ValueError>>)
    ensures |r| == |rows| && forall k :: 0 <= k < |rows| ==> r[k] == IntentOfRow(rows[k])
  {
    seq(|rows|, k requires 0 <= k < |rows| => IntentOfRow(rows[k]))
  }

  function FactResults(rows: seq<FactRow>): (r: seq<Result<Fact, ValueError>>)
    ensures |r| == |rows| && forall k :: 0 <= k < |rows| ==> r[k] == FactOfRow(rows[k])
  {
    seq(|rows|, k requires 0 <= k < |rows| => FactOfRow(rows[k]))
  }

  /** The list comprehension over intent rows: the first row that fails to convert raises
      (`Collect` states what that means). */
  function AllIntents(rows: seq<IntentRow>): Result<seq<Intent>, ValueError>
  {
    Collect(IntentResults(rows))
  }

  /** The same for fact rows. */
  function AllFacts(rows: seq<FactRow>): Result<seq<Fact>, ValueError>
  {
    Collect(FactResults(rows))
  }

  /** `[f for f in facts if f.intent_id == intent_id]`. */
  function FactsOfIntent(rows: seq<FactRow>, intentId: int): (r: seq<FactRow>)
    ensures |r| <= |rows|
    ensures forall f :: f in r <==> f in rows && f.intentId == intentId
  {
    if |rows| == 0 then []
    else if rows[0].intentId == intentId then [rows[0]] + FactsOfIntent(rows[1..], intentId)
    else FactsOfIntent(rows[1..], intentId)
  }

  /** `[f for f in facts if f.intent_id != intent_id]`: the cascade of a delete. */
  function FactsNotOfIntent(rows: seq<FactRow>, intentId: int): (r: seq<FactRow>)
    ensures |r| <= |rows|
    ensures forall f :: f in r <==> f in rows && f.intentId != intentId
  {
    if |rows| == 0 then []
    else if rows[0].intentId != intentId then [rows[0]] + FactsNotOfIntent(rows[1..], intentId)
    else FactsNotOfIntent(rows[1..], intentId)
  }

  // ---------------------------------------------------------------------------
  // The invariant the repository keeps

  /** Ids lie in [1, next) and increase along the list, so they are unique. */
  predicate IntentIdsValid(rows: seq<IntentRow>, next: int)
  {
    1 <= next
    && (forall k :: 0 <= k < |rows| ==> 1 <= rows[k].id < next)
    && (forall i, j :: 0 <= i < j < |rows| ==> rows[i].id < rows[j].id)
  }

  predicate FactIdsValid(rows: seq<FactRow>, next: int)
  {
    1 <= next
    && (forall k :: 0 <= k < |rows| ==> 1 <= rows[k].id < next)
    && (forall i, j :: 0 <= i < j < |rows| ==> rows[i].id < rows[j].id)
  }

  /** Every stored fact belongs to a stored intent. */
  predicate FactsOwned(facts: seq<FactRow>, intents: seq<IntentRow>)
  {
    forall k :: 0 <= k < |facts| ==> facts[k].intentId in IntentIds(intents)
  }

  lemma IdsOfAppend(rows: seq<IntentRow>, row: IntentRow)
    ensures IntentIds(rows + [row]) == IntentIds(rows) + {row.id}
  {
    var s := rows + [row];
    forall x | x in IntentIds(s) ensures x in IntentIds(rows) + {row.id} {
      var j :| 0 <= j < |s| && s[j].id == x;
      if j < |rows| { assert s[j] == rows[j]; }
    }
    forall x | x in IntentIds(rows) + {row.id} ensures x in IntentIds(s) {
      if x != row.id {
        var j :| 0 <= j < |rows| && rows[j].id == x;
        assert s[j] == rows[j];
      } else {
        assert s[|rows|] == row;
      }
    }
  }

  /** The counter is never an id already in use, so created ids are never reused, and the
      row created with it keeps the ids valid. */
  lemma CounterIsFresh(rows: seq<IntentRow>, next: int, row: IntentRow)
    requires IntentIdsValid(rows, next) && row.id == next
    ensures next !in IntentIds(rows)
    ensures IntentIdsValid(rows + [row], next + 1)
  {
    var s := rows + [row];
    assert forall k :: 0 <= k < |rows| ==> s[k] == rows[k];
    assert s[|rows|] == row;
  }

  /** A fact appended under a stored intent with the counter as id keeps the invariant. */
  lemma FactAppendKeepsValid(facts: seq<FactRow>, next: int, intents: seq<IntentRow>, row: FactRow)
    requires FactIdsValid(facts, next) && FactsOwned(facts, intents)
    requires row.id == next && row.intentId in IntentIds(intents)
    ensures FactIdsValid(facts + [row], next + 1) && FactsOwned(facts + [row], intents)
  {
    var s := facts + [row];
    assert forall k :: 0 <= k < |facts| ==> s[k] == facts[k];
    assert s[|facts|] == row;
  }

  /** After a create, looking the new id up finds the new row. */
  lemma FindAfterAppend(rows: seq<IntentRow>, row: IntentRow)
    requires row.id !in IntentIds(rows)
    ensures IntentIndex(rows + [row], row.id) == Some(|rows|)
    ensures FindIntent(rows + [row], row.id) == Found(IntentOfRow(row))
  {
    var s := rows + [row];
    assert s[|rows|] == row;
    assert forall k :: 0 <= k < |rows| ==> s[k] == rows[k];
    IdsOfAppend(rows, row);
    assert row.id in IntentIds(s);
    forall k | 0 <= k < |rows| ensures s[k].id != row.id {
      assert rows[k].id in IntentIds(rows);
    }
  }

  /** Appending a row does not change the lookup of any other id. */
  lemma FindOtherAfterAppend(rows: seq<IntentRow>, row: IntentRow, id: int)
    requires id != row.id
    ensures IntentIndex(rows + [row], id) == IntentIndex(rows, id)
  {
    var s := rows + [row];
    assert forall k :: 0 <= k < |rows| ==> s[k] == rows[k];
    IdsOfAppend(rows, row);
  }

  /** A slot holding the id with no earlier slot holding it is the one found. */
  lemma {:induction false} FirstMatch(rows: seq<IntentRow>, id: int, k: nat)
    requires k < |rows| && rows[k].id == id
    requires forall j :: 0 <= j < k ==> rows[j].id != id
    ensures IntentIndex(rows, id) == Some(k)
  {
    if k > 0 {
      FirstMatch(rows[1..], id, k - 1);
    }
  }

  /** Removing a slot keeps the ids increasing and below the counter. */
  lemma RemoveKeepsOrder(rows: seq<IntentRow>, next: int, k: nat)
    requires IntentIdsValid(rows, next) && k < |rows|
    ensures IntentIdsValid(RemoveAt(rows, k), next)
  {
    var r := RemoveAt(rows, k);
    forall i, j | 0 <= i < j < |r| ensures r[i].id < r[j].id {
      var i' := if i < k then i else i + 1;
      var j' := if j < k then j else j + 1;
      assert r[i] == rows[i'] && r[j] == rows[j'];
    }
  }

  /** With unique ids, removing the found slot leaves no intent with that id. */
  lemma DeleteLeavesNone(rows: seq<IntentRow>, next: int, id: int)
    requires IntentIdsValid(rows, next)
    requires IntentIndex(rows, id).Some?
    ensures var r := RemoveAt(rows, IntentIndex(rows, id).value);
      id !in IntentIds(r) && FindIntent(r, id) == Ok(None)
      && IntentIds(r) == IntentIds(rows) - {id} && IntentIdsValid(r, next)
  {
    var k := IntentIndex(rows, id).value;
    RemoveKeepsOrder(rows, next, k);
    RemoveDropsId(rows, next, k);
  }

  /** With unique ids, removing a slot removes exactly its id. */
  lemma RemoveDropsId(rows: seq<IntentRow>, next: int, k: nat)
    requires IntentIdsValid(rows, next) && k < |rows|
    ensures IntentIds(RemoveAt(rows, k)) == IntentIds(rows) - {rows[k].id}
  {
    var r := RemoveAt(rows, k);
    var id := rows[k].id;
    forall x | x in IntentIds(r) ensures x in IntentIds(rows) - {id} {
      var j :| 0 <= j < |r| && r[j].id == x;
      if j < k { assert r[j] == rows[j]; } else { assert r[j] == rows[j + 1]; }
    }
    forall x | x in IntentIds(rows) - {id} ensures x in IntentIds(r) {
      var j :| 0 <= j < |rows| && rows[j].id == x;
      assert j != k;
      if j < k { assert r[j] == rows[j]; } else { assert r[j - 1] == rows[j]; }
    }
  }

  /** The delete cascade keeps every surviving fact owned. */
  lemma CascadeKeepsOwned(facts: seq<FactRow>, intents: seq<IntentRow>, id: int, rest: seq<IntentRow>)
    requires FactsOwned(facts, intents)
    requires IntentIds(rest) == IntentIds(intents) - {id}
    ensures FactsOwned(FactsNotOfIntent(facts, id), rest)
  {
    var r := FactsNotOfIntent(facts, id);
    forall k | 0 <= k < |r| ensures r[k].intentId in IntentIds(rest) {
      assert r[k] in r;
      var j :| 0 <= j < |facts| && facts[j] == r[k];
    }
  }

  /** The cascade keeps fact ids increasing. */
  lemma {:induction false} CascadeKeepsIds(facts: seq<FactRow>, next: int, id: int)
    requires FactIdsValid(facts, next)
    ensures FactIdsValid(FactsNotOfIntent(facts, id), next)
  {
    if |facts| > 0 {
      var t := facts[1..];
      assert forall k :: 0 <= k < |t| ==> t[k] == facts[k + 1];
      CascadeKeepsIds(t, next, id);
      var u := FactsNotOfIntent(t, id);
      if facts[0].intentId != id {
        forall j | 0 <= j < |u| ensures facts[0].id < u[j].id {
          assert u[j] in u;
        }
        var r := [facts[0]] + u;
        assert forall j :: 0 < j < |r| ==> r[j] == u[j - 1];
      }
    }
  }

  /** After a delete, no fact of the deleted intent is left. */
  lemma CascadeRemovesAll(facts: seq<FactRow>, id: int)
    ensures FactsOfIntent(FactsNotOfIntent(facts, id), id) == []
  {
  }

  /** Slot updates keep the ids, so lookups of every id are unchanged. */
  lemma {:induction false} SameIdsSameIndex(rows: seq<IntentRow>, k: nat, row: IntentRow, id: int)
    requires k < |rows| && row.id == rows[k].id
    ensures IntentIndex(rows[k := row], id) == IntentIndex(rows, id)
    ensures IntentIds(rows[k := row]) == IntentIds(rows)
  {
    var s := rows[k := row];
    assert forall j :: 0 <= j < |rows| ==> s[j].id == rows[j].id;
    assert IntentIds(s) == IntentIds(rows) by {
      forall x | x in IntentIds(s) ensures x in IntentIds(rows) {
        var j :| 0 <= j < |s| && s[j].id == x;
      }
      forall x | x in IntentIds(rows) ensures x in IntentIds(s) {
        var j :| 0 <= j < |rows| && rows[j].id == x;
        assert s[j].id == x;
      }
    }
  }

  /** The first slot matching both ids is the one a fact lookup finds, and rewriting its
      value keeps the stored facts valid. */
  lemma FactSlotUpdate(facts: seq<FactRow>, intents: seq<IntentRow>, next: int, k: nat, row: FactRow)
    requires FactIdsValid(facts, next) && FactsOwned(facts, intents) && k < |facts|
    requires row.id == facts[k].id && row.intentId == facts[k].intentId
    requires forall j :: 0 <= j < k ==> !(facts[j].id == row.id && facts[j].intentId == row.intentId)
    ensures FactIndex(facts, row.intentId, row.id) == Some(k)
    ensures FactIdsValid(facts[k := row], next) && FactsOwned(facts[k := row], intents)
  {
    var s := facts[k := row];
    assert forall j :: 0 <= j < |facts| ==> s[j].id == facts[j].id && s[j].intentId == facts[j].intentId;
  }

  /** Rewriting a slot under its own id keeps the ids valid. */
  lemma IntentSlotKeepsValid(rows: seq<IntentRow>, next: int, k: nat, row: IntentRow)
    requires IntentIdsValid(rows, next) && k < |rows| && row.id == rows[k].id
    ensures IntentIdsValid(rows[k := row], next)
  {
    var s := rows[k := row];
    assert forall j :: 0 <= j < |rows| ==> s[j].id == rows[j].id;
  }

  /** After an update of a present id, looking it up finds the updated row. */
  lemma FindAfterUpdate(rows: seq<IntentRow>, id: int, i: Intent)
    requires IntentIndex(rows, id).Some?
    ensures var k := IntentIndex(rows, id).value;
      FindIntent(rows[k := IntentRowOf(i, id, rows[k].createdAt)], id)
      == Found(IntentOfRow(IntentRowOf(i, id, rows[k].createdAt)))
  {
    var k := IntentIndex(rows, id).value;
    SameIdsSameIndex(rows, k, IntentRowOf(i, id, rows[k].createdAt), id);
  }

  // ---------------------------------------------------------------------------
  // The repository object

  class IntentRepository {
    var intents: seq<IntentRow>
    var facts: seq<FactRow>
    var nextIntentId: int
    var nextFactId: int

    ghost predicate Valid()
      reads this
    {
      IntentIdsValid(intents, nextIntentId) && FactIdsValid(facts, nextFactId)
      && FactsOwned(facts, intents) && nextFactId >= 1
    }

    constructor ()
      ensures Valid()
      ensures intents == [] && facts == [] && nextIntentId == 1 && nextFactId == 1
    {
      intents := [];
      facts := [];
      nextIntentId := 1;
      nextFactId := 1;
    }

    /** `find_all`: every stored intent, in insertion order. */
    method FindAll() returns (r: Result<seq<Intent>, ValueError>)
      ensures r == AllIntents(intents)
    {
      ghost var rs := IntentResults(intents);
      var out: seq<Intent> := [];
      var k := 0;
      while k < |intents|
        invariant 0 <= k <= |intents|
        invariant Collect(rs[..k]) == Ok(out)
      {
        var c := IntentOfRow(intents[k]);
        assert c == rs[k];
        if c.Err? {
          CollectFirstError(rs, k);
          assert Collect(rs) == Err(c.error);
          return Err(c.error);
        }
        CollectExtend(rs, k);
        out := out + [c.value];
        k := k + 1;
      }
      assert rs[..k] == rs;
      r := Ok(out);
    }

    /** `find_by_id`. */
    method FindById(id: int) returns (r: Result<Option<Intent>, ValueError>)
      ensures r == FindIntent(intents, id)
    {
      var k := 0;
      while k < |intents|
        invariant 0 <= k <= |intents|
        invariant forall j :: 0 <= j < k ==> intents[j].id != id
      {
        if intents[k].id == id {
          FirstMatch(intents, id, k);
          return Found(IntentOfRow(intents[k]));
        }
        k := k + 1;
      }
      return Ok(None);
    }

    /** `create`: the counter becomes the new id and is then incremented. */
    method Create(intent: Intent) returns (r: Result<Intent, ValueError>)
      requires Valid()
      modifies this
      ensures Valid()
      ensures old(nextIntentId) !in IntentIds(old(intents))
      ensures intents == old(intents) + [IntentRowOf(intent, old(nextIntentId), intent.createdAt)]
      ensures nextIntentId == old(nextIntentId) + 1
      ensures facts == old(facts) && nextFactId == old(nextFactId)
      ensures r == IntentOfRow(IntentRowOf(intent, old(nextIntentId), intent.createdAt))
    {
      var row := IntentRowOf(intent, nextIntentId, intent.createdAt);
      CounterIsFresh(intents, nextIntentId, row);
      IdsOfAppend(intents, row);
      nextIntentId := nextIntentId + 1;
      intents := intents + [row];
      r := IntentOfRow(row);
    }

    /** `update`: the slot of a present id is replaced by the argument, with the id and the
        stored creation time forced; an absent id changes nothing. */
    method Update(id: int, intent: Intent) returns (r: Result<Option<Intent>, ValueError>)
      requires Valid()
      modifies this
      ensures Valid()
      ensures facts == old(facts) && nextIntentId == old(nextIntentId) && nextFactId == old(nextFactId)
      ensures IntentIndex(old(intents), id).None? ==> intents == old(intents) && r == Ok(None)
      ensures IntentIndex(old(intents), id).Some? ==>
        var k := IntentIndex(old(intents), id).value;
        var row := IntentRowOf(intent, id, old(intents)[k].createdAt);
        intents == old(intents)[k := row] && r == Found(IntentOfRow(row))
    {
      var k := 0;
      while k < |intents|
        invariant 0 <= k <= |intents|
        invariant forall j :: 0 <= j < k ==> intents[j].id != id
      {
        if intents[k].id == id {
          var row := IntentRowOf(intent, id, intents[k].createdAt);
          SameIdsSameIndex(intents, k, row, id);
          FirstMatch(intents, id, k);
          IntentSlotKeepsValid(intents, nextIntentId, k, row);
          intents := intents[k := row];
          return Found(IntentOfRow(row));
        }
        k := k + 1;
      }
      return Ok(None);
    }

    /** `delete`: removes the intent and every fact of it. */
    method Delete(id: int) returns (deleted: bool)
      requires Valid()
      modifies this
      ensures Valid()
      ensures deleted <==> IntentIndex(old(intents), id).Some?
      ensures deleted ==>
        intents == RemoveAt(old(intents), IntentIndex(old(intents), id).value)
        && facts == FactsNotOfIntent(old(facts), id)
      ensures !deleted ==> intents == old(intents) && facts == old(facts)
      ensures nextIntentId == old(nextIntentId) && nextFactId == old(nextFactId)
    {
      var k := 0;
      while k < |intents|
        invariant 0 <= k <= |intents|
        invariant forall j :: 0 <= j < k ==> intents[j].id != id
      {
        if intents[k].id == id {
          DeleteLeavesNone(intents, nextIntentId, id);
          var rest := RemoveAt(intents, k);
          CascadeKeepsOwned(facts, intents, id, rest);
          CascadeKeepsIds(facts, nextFactId, id);
          intents := rest;
          facts := FactsNotOfIntent(facts, id);
          return true;
        }
        k := k + 1;
      }
      return false;
    }

    /** `add_fact`: the intent must exist (a failing lookup raises as it is); the fact gets
        the next fact id and the argument's intent id. */
    method AddFact(intentId: int, fact: Fact) returns (r: Result<Fact, ValueError>)
      requires Valid()
      modifies this
      ensures Valid()
      ensures intents == old(intents) && nextIntentId == old(nextIntentId)
      ensures FindIntent(old(intents), intentId).Err? ==>
        r == Err(FindIntent(old(intents), intentId).error) && facts == old(facts) && nextFactId == old(nextFactId)
      ensures FindIntent(old(intents), intentId) == Ok(None) ==>
        r == Err(ValueError("Intent with id " + IntToString(intentId) + " not found"))
        && facts == old(facts) && nextFactId == old(nextFactId)
      ensures FindIntent(old(intents), intentId).Ok? && FindIntent(old(intents), intentId).value.Some? ==>
        var row := FactRow(old(nextFactId), intentId, fact.value, fact.createdAt, fact.updatedAt);
        facts == old(facts) + [row] && nextFactId == old(nextFactId) + 1 && r == FactOfRow(row)
    {
      var found := FindById(intentId);
      if found.Err? {
        return Err(found.error);
      }
      if found.value.None? {
        return Err(ValueError("Intent with id " + IntToString(intentId) + " not found"));
      }
      r := AppendFact(intentId, fact);
    }

    /** The write half of `add_fact`, once the intent is known to exist. */
    method AppendFact(intentId: int, fact: Fact) returns (r: Result<Fact, ValueError>)
      requires Valid() && intentId in IntentIds(intents)
      modifies this
      ensures Valid()
      ensures intents == old(intents) && nextIntentId == old(nextIntentId)
      ensures var row := FactRow(old(nextFactId), intentId, fact.value, fact.createdAt, fact.updatedAt);
        facts == old(facts) + [row] && nextFactId == old(nextFactId) + 1 && r == FactOfRow(row)
    {
      var row := FactRow(nextFactId, intentId, fact.value, fact.createdAt, fact.updatedAt);
      FactAppendKeepsValid(facts, nextFactId, intents, row);
      facts := facts + [row];
      nextFactId := nextFactId + 1;
      r := FactOfRow(row);
    }

    /** `find_facts_by_intent_id`: the intent's facts in insertion order. */
    method FindFactsByIntentId(intentId: int) returns (r: Result<seq<Fact>, ValueError>)
      ensures r == AllFacts(FactsOfIntent(facts, intentId))
    {
      var mine: seq<FactRow> := [];
      var k := 0;
      while k < |facts|
        invariant 0 <= k <= |facts|
        invariant mine == FactsOfIntent(facts[..k], intentId)
      {
        FactsOfIntentExtend(facts, k, intentId);
        if facts[k].intentId == intentId {
          mine := mine + [facts[k]];
        }
        k := k + 1;
      }
      assert facts[..k] == facts;
      r := ConvertFacts(mine);
    }

    /** `find_fact_by_id`: both ids must match. */
    method FindFactById(intentId: int, factId: int) returns (r: Result<Option<Fact>, ValueError>)
      ensures r == FindFact(facts, intentId, factId)
    {
      var k := 0;
      while k < |facts|
        invariant 0 <= k <= |facts|
        invariant forall j :: 0 <= j < k ==> !(facts[j].id == factId && facts[j].intentId == intentId)
      {
        if facts[k].id == factId && facts[k].intentId == intentId {
          return Found(FactOfRow(facts[k]));
        }
        k := k + 1;
      }
      return Ok(None);
    }

    /** `update_fact`: the matching slot is replaced; id, intent id and creation time are
        kept from storage. */
    method UpdateFact(intentId: int, factId: int, fact: Fact) returns (r: Result<Option<Fact>, ValueError>)
      requires Valid()
      modifies this
      ensures Valid()
      ensures intents == old(intents) && nextIntentId == old(nextIntentId) && nextFactId == old(nextFactId)
      ensures FactIndex(old(facts), intentId, factId).None? ==> facts == old(facts) && r == Ok(None)
      ensures FactIndex(old(facts), intentId, factId).Some? ==>
        var k := FactIndex(old(facts), intentId, factId).value;
        var row := FactRow(factId, intentId, fact.value, old(facts)[k].createdAt, fact.updatedAt);
        facts == old(facts)[k := row] && r == Found(FactOfRow(row))
    {
      var k := 0;
      while k < |facts|
        invariant 0 <= k <= |facts|
        invariant forall j :: 0 <= j < k ==> !(facts[j].id == factId && facts[j].intentId == intentId)
      {
        if facts[k].id == factId && facts[k].intentId == intentId {
          var row := FactRow(factId, intentId, fact.value, facts[k].createdAt, fact.updatedAt);
          FactSlotUpdate(facts, intents, nextFactId, k, row);
          facts := facts[k := row];
          return Found(FactOfRow(row));
        }
        k := k + 1;
      }
      return Ok(None);
    }

    /** `remove_fact`: both ids must match. */
    method RemoveFact(intentId: int, factId: int) returns (removed: bool)
      requires Valid()
      modifies this
      ensures Valid()
      ensures intents == old(intents) && nextIntentId == old(nextIntentId) && nextFactId == old(nextFactId)
      ensures removed <==> FactIndex(old(facts), intentId, factId).Some?
      ensures removed ==> facts == RemoveAt(old(facts), FactIndex(old(facts), intentId, factId).value)
      ensures !removed ==> facts == old(facts)
    {
      var k := 0;
      while k < |facts|
        invariant 0 <= k <= |facts|
        invariant forall j :: 0 <= j < k ==> !(facts[j].id == factId && facts[j].intentId == intentId)
      {
        if facts[k].id == factId && facts[k].intentId == intentId {
          var rest := RemoveAt(facts, k);
          assert forall j :: 0 <= j < |rest| ==> rest[j] == facts[if j < k then j else j + 1];
          facts := rest;
          return true;
        }
        k := k + 1;
      }
      return false;
    }
  }

  /** Each selected row converted in order; the first row that fails raises. */
  method ConvertFacts(mine: seq<FactRow>) returns (r: Result<seq<Fact>, ValueError>)
    ensures r == AllFacts(mine)
  {
    ghost var rs := FactResults(mine);
    var out: seq<Fact> := [];
    var k := 0;
    while k < |mine|
      invariant 0 <= k <= |mine|
      invariant Collect(rs[..k]) == Ok(out)
    {
      var c := FactOfRow(mine[k]);
      assert c == rs[k];
      if c.Err? {
        CollectFirstError(rs, k);
        assert Collect(rs) == Err(c.error);
        return Err(c.error);
      }
      CollectExtend(rs, k);
      out := out + [c.value];
      k := k + 1;
    }
    assert rs[..k] == rs;
    r := Ok(out);
  }

  // ---------------------------------------------------------------------------
  // Loop lemmas

  lemma {:induction false} FactsOfIntentExtend(rows: seq<FactRow>, k: nat, intentId: int)
    requires k < |rows|
    ensures FactsOfIntent(rows[..k + 1], intentId)
         == FactsOfIntent(rows[..k], intentId) + (if rows[k].intentId == intentId then [rows[k]] else [])
    decreases k
  {
    var a := rows[..k + 1];
    if k > 0 {
      assert a[1..] == rows[1..][..k];
      assert rows[..k][1..] == rows[1..][..k - 1];
      FactsOfIntentExtend(rows[1..], k - 1, intentId);
    }
  }
}
