/**
 * Domain events of the first backend's shared event system: the base event record
 * and its dictionary form, the in-memory event bus (handlers kept in a list per event
 * type and called in order, a failing handler skipped), and the events the services
 * publish, seen as an append-only log.
 */
module DomainEvents {
  import opened Wrappers
  import opened Clock
  import opened OrderedDicts

  /** An attribute value of an event (the Python values events carry). */
  datatype Attr = IntAttr(i: int) | StrAttr(s: string) | RealAttr(x: real) | BoolAttr(b: bool)
                | TimeAttr(t: Instant) | NoneAttr

  /** The base event: a timestamp, the event type, then the subclass's own attributes in
      the order its constructor assigns them. */
  datatype DomainEvent = DomainEvent(timestamp: Instant, eventType: string, fields: seq<(string, Attr)>)

  // ---------------------------------------------------------------------------
  // to_dict

  /** Datetime values are rendered in ISO format, everything else is kept. */
  function Serialized(v: Attr): (r: Attr)
    ensures !r.TimeAttr?
    ensures !v.TimeAttr? ==> r == v
    ensures v.TimeAttr? ==> r == StrAttr(v.t.isoFormat)
  {
    if v.TimeAttr? then StrAttr(v.t.isoFormat) else v
  }

  function DictBase(e: DomainEvent): seq<(string, Attr)>
  {
    [("timestamp", StrAttr(e.timestamp.isoFormat)), ("event_type", StrAttr(e.eventType))]
  }

  /** The dictionary after the first `n` attributes have been visited. */
  function DictAfter(e: DomainEvent, n: nat): seq<(string, Attr)>
    requires n <= |e.fields|
  {
    if n == 0 then DictBase(e)
    else
      var d := DictAfter(e, n - 1);
      var (key, value) := e.fields[n - 1];
      if key == "timestamp" || key == "event_type" then d else DictSet(d, key, Serialized(value))
  }

  function EventDict(e: DomainEvent): seq<(string, Attr)>
  {
    DictAfter(e, |e.fields|)
  }

  /** `to_dict`: starts from timestamp and event type, then visits every other attribute. */
  method ToDict(e: DomainEvent) returns (d: seq<(string, Attr)>)
    ensures d == EventDict(e)
  {
    d := [("timestamp", StrAttr(e.timestamp.isoFormat)), ("event_type", StrAttr(e.eventType))];
    var n := 0;
    while n < |e.fields|
      invariant 0 <= n <= |e.fields|
      invariant d == DictAfter(e, n)
    {
      var (key, value) := e.fields[n];
      if key != "timestamp" && key != "event_type" {
        if value.TimeAttr? {
          d := DictSet(d, key, StrAttr(value.t.isoFormat));
        } else {
          d := DictSet(d, key, value);
        }
      }
      n := n + 1;
    }
  }

  /** Attribute names are distinct and none is reserved. */
  predicate PlainFields(fields: seq<(string, Attr)>)
  {
    (forall i, j :: 0 <= i < j < |fields| ==> fields[i].0 != fields[j].0)
    && (forall i :: 0 <= i < |fields| ==> fields[i].0 != "timestamp" && fields[i].0 != "event_type")
  }

  function SerializedFields(fields: seq<(string, Attr)>): (r: seq<(string, Attr)>)
    ensures |r| == |fields| && forall k :: 0 <= k < |fields| ==> r[k] == (fields[k].0, Serialized(fields[k].1))
  {
    seq(|fields|, k requires 0 <= k < |fields| => (fields[k].0, Serialized(fields[k].1)))
  }

  /** For the attributes every event class has, the dictionary is the timestamp (ISO), the
      event type, then each attribute in order with datetimes ISO-formatted. */
  lemma {:induction false} EventDictShape(e: DomainEvent, n: nat)
    requires n <= |e.fields| && PlainFields(e.fields)
    ensures DictAfter(e, n) == DictBase(e) + SerializedFields(e.fields[..n])
  {
    if n > 0 {
      EventDictShape(e, n - 1);
      var field := e.fields[n - 1];
      NextKeyAbsent(e, n);
      assert e.fields[..n] == e.fields[..n - 1] + [field];
      SerializedSnoc(e.fields[..n - 1], field);
    }
  }

  /** The next attribute's name is not yet in the dictionary. */
  lemma NextKeyAbsent(e: DomainEvent, n: nat)
    requires 0 < n <= |e.fields| && PlainFields(e.fields)
    ensures KeyIndex(DictBase(e) + SerializedFields(e.fields[..n - 1]), e.fields[n - 1].0).None?
  {
    var done := SerializedFields(e.fields[..n - 1]);
    var d := DictBase(e) + done;
    var key := e.fields[n - 1].0;
    forall k | 0 <= k < |d| ensures d[k].0 != key {
      if k >= 2 {
        assert d[k] == done[k - 2];
        assert e.fields[..n - 1][k - 2] == e.fields[k - 2];
      }
    }
  }

  lemma SerializedSnoc(fields: seq<(string, Attr)>, field: (string, Attr))
    ensures SerializedFields(fields + [field]) == SerializedFields(fields) + [(field.0, Serialized(field.1))]
  {
  }

  /** Whatever the attributes, the first two entries are the timestamp and the event
      type (an attribute with a reserved name is skipped) and no value is a datetime. */
  lemma {:induction false} EventDictHead(e: DomainEvent, n: nat)
    requires n <= |e.fields|
    ensures var d := DictAfter(e, n);
      |d| >= 2 && d[0] == ("timestamp", StrAttr(e.timestamp.isoFormat))
      && d[1] == ("event_type", StrAttr(e.eventType))
      && forall k :: 0 <= k < |d| ==> !d[k].1.TimeAttr?
  {
    if n > 0 {
      EventDictHead(e, n - 1);
      var d := DictAfter(e, n - 1);
      var key := e.fields[n - 1].0;
      if key != "timestamp" && key != "event_type" {
        var k := KeyIndex(d, key);
        if k.Some? {
          assert k.value >= 2;
        }
      }
    }
  }

  // ---------------------------------------------------------------------------
  // The event bus

  /** A subscribed handler, known only by identity. */
  type HandlerId = nat

  function HandlersFor(handlers: map<string, seq<HandlerId>>, eventType: string): seq<HandlerId>
  {
    if eventType in handlers then handlers[eventType] else []
  }

  /** The handlers among `hs` that raise on this event, in calling order. */
  function Failing(hs: seq<HandlerId>, raises: HandlerId -> bool): (r: seq<HandlerId>)
    ensures |r| <= |hs|
    ensures forall h :: h in r <==> h in hs && raises(h)
  {
    if |hs| == 0 then [] else Failing(hs[..|hs| - 1], raises) + (if raises(hs[|hs| - 1]) then [hs[|hs| - 1]] else [])
  }

  class EventBus {
    var handlers: map<string, seq<HandlerId>>

    constructor ()
      ensures handlers == map[]
    {
      handlers := map[];
    }

    /** `subscribe`: the list for the type is created on first use and the handler goes
        last; duplicates are kept; other types are untouched. */
    method Subscribe(eventType: string, handler: HandlerId)
      modifies this
      ensures handlers == old(handlers)[eventType := HandlersFor(old(handlers), eventType) + [handler]]
    {
      if eventType !in handlers {
        handlers := handlers[eventType := []];
      }
      handlers := handlers[eventType := handlers[eventType] + [handler]];
    }

    /** `publish`: every handler registered for the event type is called, in subscription
        order; one that raises is logged and skipped and the call itself never fails.
        `raises` is each handler's outcome on this event. */
    method Publish(e: DomainEvent, raises: HandlerId -> bool) returns (called: seq<HandlerId>, failed: seq<HandlerId>)
      ensures called == HandlersFor(handlers, e.eventType)
      ensures failed == Failing(called, raises)
    {
      var hs := if e.eventType in handlers then handlers[e.eventType] else [];
      called := [];
      failed := [];
      var k := 0;
      while k < |hs|
        invariant 0 <= k <= |hs|
        invariant called == hs[..k]
        invariant failed == Failing(hs[..k], raises)
      {
        var h := hs[k];
        called := called + [h];
        if raises(h) {
          failed := failed + [h];
        }
        assert hs[..k + 1][..k] == hs[..k];
        k := k + 1;
      }
      assert hs[..k] == hs;
    }
  }

  /** Subscribing twice the same handler makes publish call it twice, after the handlers
      already there. */
  lemma SubscribeOrder(handlers: map<string, seq<HandlerId>>, t: string, h: HandlerId, u: string)
    ensures HandlersFor(handlers[t := HandlersFor(handlers, t) + [h]], u)
         == if u == t then HandlersFor(handlers, t) + [h] else HandlersFor(handlers, u)
  {
  }

  /** No handler raising means none is reported failed; an event type nobody subscribed
      to calls nothing. */
  lemma {:induction false} NoFailures(hs: seq<HandlerId>, raises: HandlerId -> bool)
    requires forall h :: h in hs ==> !raises(h)
    ensures Failing(hs, raises) == []
  {
    if |hs| > 0 {
      assert hs[|hs| - 1] in hs;
      assert forall h :: h in hs[..|hs| - 1] ==> h in hs;
      NoFailures(hs[..|hs| - 1], raises);
    }
  }

  // ---------------------------------------------------------------------------
  // The events the services publish

  datatype EventKind =
    | IntentCreated(intentId: int, name: string, description: string, outputFormat: string)
    | IntentUpdated(intentId: int, fieldUpdated: string)
    | IntentDeleted(intentId: int)
    | FactAdded(intentId: int, factId: int, value: string)
    | FactUpdated(intentId: int, factId: int)
    | FactRemoved(intentId: int, factId: int)
    | ItemCreated(itemId: int, name: string, price: real, isAvailable: bool)
    | ItemUpdated(itemId: int, name: string, price: real, isAvailable: bool)
    | ItemDeleted(itemId: int)
    | UserCreated(userId: int, username: string, email: string)
    | UserUpdated(userId: int, username: string, email: string)
    | UserDeleted(userId: int)
    | IntentCreatedV2(intentId: int, name: string, description: string)
    | IntentArticulationUpdated(intentId: int)
    | PromptCreated(intentId: int, promptId: int, version: int)
    | OutputCreated(promptId: int, outputId: int)
    | InsightCreated(intentId: int, insightId: int)

  /** The event type string each event class sets; the second backend's articulation,
      prompt, output and insight event classes are not part of this model. */
  function EventType(k: EventKind): Option<string>
  {
    match k
    case IntentCreated(_, _, _, _) => Some("intent.created")
    case IntentUpdated(_, _) => Some("intent.updated")
    case IntentDeleted(_) => Some("intent.deleted")
    case FactAdded(_, _, _) => Some("fact.added")
    case FactUpdated(_, _) => Some("fact.updated")
    case FactRemoved(_, _) => Some("fact.removed")
    case ItemCreated(_, _, _, _) => Some("item.created")
    case ItemUpdated(_, _, _, _) => Some("item.updated")
    case ItemDeleted(_) => Some("item.deleted")
    case UserCreated(_, _, _) => Some("user.created")
    case UserUpdated(_, _, _) => Some("user.updated")
    case UserDeleted(_) => Some("user.deleted")
    case IntentCreatedV2(_, _, _) => Some("intent.created")
    case _ => None
  }

  /** The attributes each event class assigns after its type and timestamp. */
  function Fields(k: EventKind): seq<(string, Attr)>
  {
    match k
    case IntentCreated(i, n, d, f) =>
      [("intent_id", IntAttr(i)), ("name", StrAttr(n)), ("description", StrAttr(d)), ("output_format", StrAttr(f))]
    case IntentUpdated(i, f) => [("intent_id", IntAttr(i)), ("field_updated", StrAttr(f))]
    case IntentDeleted(i) => [("intent_id", IntAttr(i))]
    case FactAdded(i, f, v) => [("intent_id", IntAttr(i)), ("fact_id", IntAttr(f)), ("value", StrAttr(v))]
    case FactUpdated(i, f) => [("intent_id", IntAttr(i)), ("fact_id", IntAttr(f))]
    case FactRemoved(i, f) => [("intent_id", IntAttr(i)), ("fact_id", IntAttr(f))]
    case ItemCreated(i, n, p, a) =>
      [("item_id", IntAttr(i)), ("name", StrAttr(n)), ("price", RealAttr(p)), ("is_available", BoolAttr(a))]
    case ItemUpdated(i, n, p, a) =>
      [("item_id", IntAttr(i)), ("name", StrAttr(n)), ("price", RealAttr(p)), ("is_available", BoolAttr(a))]
    case ItemDeleted(i) => [("item_id", IntAttr(i))]
    case UserCreated(i, u, e) => [("user_id", IntAttr(i)), ("username", StrAttr(u)), ("email", StrAttr(e))]
    case UserUpdated(i, u, e) => [("user_id", IntAttr(i)), ("username", StrAttr(u)), ("email", StrAttr(e))]
    case UserDeleted(i) => [("user_id", IntAttr(i))]
    case IntentCreatedV2(i, n, d) => [("intent_id", IntAttr(i)), ("name", StrAttr(n)), ("description", StrAttr(d))]
    case IntentArticulationUpdated(i) => [("intent_id", IntAttr(i))]
    case PromptCreated(i, p, v) => [("intent_id", IntAttr(i)), ("prompt_id", IntAttr(p)), ("version", IntAttr(v))]
    case OutputCreated(p, o) => [("prompt_id", IntAttr(p)), ("output_id", IntAttr(o))]
    case InsightCreated(i, s) => [("intent_id", IntAttr(i)), ("insight_id", IntAttr(s))]
  }

  /** An event of a known class as the bus sees it, stamped with the clock reading. */
  function AsDomainEvent(k: EventKind, now: Instant): (e: DomainEvent)
    requires EventType(k).Some?
    ensures e.eventType == EventType(k).value && e.timestamp == now && PlainFields(e.fields)
  {
    DomainEvent(now, EventType(k).value, Fields(k))
  }

  /** The dictionary of every known event is its timestamp, its type, and then its own
      attributes, in order. */
  lemma KnownEventDict(k: EventKind, now: Instant)
    requires EventType(k).Some?
    ensures EventDict(AsDomainEvent(k, now))
         == [("timestamp", StrAttr(now.isoFormat)), ("event_type", StrAttr(EventType(k).value))] + Fields(k)
  {
    var e := AsDomainEvent(k, now);
    EventDictShape(e, |e.fields|);
    assert e.fields[..|e.fields|] == e.fields;
    assert SerializedFields(e.fields) == Fields(k);
  }

  /** The bus as the services see it: every publish appends one event. */
  class EventLog {
    var published: seq<EventKind>

    constructor ()
      ensures published == []
    {
      published := [];
    }

    method Publish(k: EventKind)
      modifies this
      ensures published == old(published) + [k]
    {
      published := published + [k];
    }
  }
}
