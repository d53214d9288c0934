/**
 * The first backend's JSON log formatter: which fields a log line carries. The
 * base fields come first, then every non-standard record attribute in the
 * record's own order, then the exception. The clock reading is a parameter and the
 * final `json.dumps` is left out: the result is the ordered dictionary it would
 * serialise.
 */
module StructuredLogging {
  import opened Wrappers
  import opened Clock
  import opened Text
  import opened OrderedDicts

  /** A value in the log line: a string, a Python value known by its rendering, `None`,
      or the exception object. */
  datatype LogValue = StrValue(s: string) | OtherValue(repr: string) | NullValue
                    | ExceptionValue(excType: Option<string>, message: Option<string>, traceback: string)

  /** `record.exc_info` when set: the exception class name and message when present,
      and the formatted traceback. */
  datatype ExcInfo = ExcInfo(excType: Option<string>, message: Option<string>, traceback: string)

  /** The parts of a `LogRecord` the formatter reads; `attrs` is `record.__dict__` in
      its own order, standard attributes included. */
  datatype LogRecord = LogRecord(levelname: string, name: string, message: string,
                                 attrs: seq<(string, LogValue)>, excInfo: Option<ExcInfo>)

  /** The attributes every `LogRecord` has, which are never copied. */
  const StandardAttrs: set<string> := {
    "name", "msg", "args", "created", "filename", "funcName", "levelname", "levelno", "lineno",
    "module", "msecs", "message", "pathname", "process", "processName", "relativeCreated",
    "thread", "threadName", "exc_info", "exc_text", "stack_info", "getMessage", "asctime" }

  /** An attribute the loop copies. */
  predicate Copied(key: string)
  {
    key !in StandardAttrs && !StartsWith(key, "_")
  }

  /** The key a copied attribute is written under. */
  function Target(key: string): string
  {
    if key == "duration" then "duration_seconds" else key
  }

  function BaseFields(record: LogRecord, now: Instant): seq<(string, LogValue)>
  {
    [("timestamp", StrValue(now.isoFormat + "Z")), ("level", StrValue(record.levelname)),
     ("logger", StrValue(record.name)), ("message", StrValue(record.message))]
  }

  /** One turn of the attribute loop. */
  function CopyStep(d: seq<(string, LogValue)>, attr: (string, LogValue)): seq<(string, LogValue)>
  {
    if Copied(attr.0) then DictSet(d, Target(attr.0), attr.1) else d
  }

  /** The fields after the first `n` attributes have been visited. */
  function CopyAttrs(d: seq<(string, LogValue)>, attrs: seq<(string, LogValue)>, n: nat): seq<(string, LogValue)>
    requires n <= |attrs|
  {
    if n == 0 then d else CopyStep(CopyAttrs(d, attrs, n - 1), attrs[n - 1])
  }

  function ExceptionField(e: ExcInfo): LogValue
  {
    ExceptionValue(e.excType, e.message, e.traceback)
  }

  /** The dictionary `format` serialises. */
  function LogFields(record: LogRecord, now: Instant): seq<(string, LogValue)>
  {
    var d := CopyAttrs(BaseFields(record, now), record.attrs, |record.attrs|);
    if record.excInfo.Some? then DictSet(d, "exception", ExceptionField(record.excInfo.value)) else d
  }

  /** `StructuredFormatter.format`, the loop over the record's attributes included. */
  method Format(record: LogRecord, now: Instant) returns (logData: seq<(string, LogValue)>)
    ensures logData == LogFields(record, now)
  {
    logData := [("timestamp", StrValue(now.isoFormat + "Z")), ("level", StrValue(record.levelname)),
                ("logger", StrValue(record.name)), ("message", StrValue(record.message))];
    for n := 0 to |record.attrs|
      invariant logData == CopyAttrs(BaseFields(record, now), record.attrs, n)
    {
      var (key, value) := record.attrs[n];
      if key !in StandardAttrs && !StartsWith(key, "_") {
        if key == "duration" {
          logData := DictSet(logData, "duration_seconds", value);
        } else {
          logData := DictSet(logData, key, value);
        }
      }
    }
    if record.excInfo.Some? {
      var e := record.excInfo.value;
      logData := DictSet(logData, "exception", ExceptionValue(e.excType, e.message, e.traceback));
    }
  }

  // ---------------------------------------------------------------------------
  // What a log line carries

  /** The last of the first `n` attributes that the loop writes under `key`. */
  function LastWriter(attrs: seq<(string, LogValue)>, n: nat, key: string): (r: Option<nat>)
    requires n <= |attrs|
    ensures r.Some? ==> r.value < n && Copied(attrs[r.value].0) && Target(attrs[r.value].0) == key
    ensures r.Some? ==> forall j :: r.value < j < n ==> !(Copied(attrs[j].0) && Target(attrs[j].0) == key)
    ensures r.None? ==> forall j :: 0 <= j < n ==> !(Copied(attrs[j].0) && Target(attrs[j].0) == key)
  {
    if n == 0 then None
    else if Copied(attrs[n - 1].0) && Target(attrs[n - 1].0) == key then Some(n - 1)
    else LastWriter(attrs, n - 1, key)
  }

  /** Reading a key of the fields: the last attribute written under it wins, otherwise
      the starting value is kept; existing slots keep their keys. */
  lemma {:induction false} CopyAttrsLookup(d: seq<(string, LogValue)>, attrs: seq<(string, LogValue)>, n: nat, key: string)
    requires n <= |attrs|
    ensures var w := LastWriter(attrs, n, key);
      Get(CopyAttrs(d, attrs, n), key) == (if w.Some? then Some(attrs[w.value].1) else Get(d, key))
  {
    if n > 0 {
      CopyAttrsLookup(d, attrs, n - 1, key);
      var attr := attrs[n - 1];
      if Copied(attr.0) {
        GetAfterSet(CopyAttrs(d, attrs, n - 1), Target(attr.0), attr.1, key);
      }
    }
  }

  lemma {:induction false} CopyAttrsSlots(d: seq<(string, LogValue)>, attrs: seq<(string, LogValue)>, n: nat)
    requires n <= |attrs|
    ensures var r := CopyAttrs(d, attrs, n);
      |r| >= |d| && forall k :: 0 <= k < |d| ==> r[k].0 == d[k].0
  {
    if n > 0 {
      CopyAttrsSlots(d, attrs, n - 1);
      var attr := attrs[n - 1];
      if Copied(attr.0) {
        SetKeepsSlots(CopyAttrs(d, attrs, n - 1), Target(attr.0), attr.1);
      }
    }
  }

  /** The line always starts with timestamp, level, logger and message, in that order,
      whatever the attributes. */
  lemma BaseFieldsFirst(record: LogRecord, now: Instant)
    ensures var out := LogFields(record, now);
      |out| >= 4 && out[0].0 == "timestamp" && out[1].0 == "level" && out[2].0 == "logger" && out[3].0 == "message"
  {
    var base := BaseFields(record, now);
    CopyAttrsSlots(base, record.attrs, |record.attrs|);
    if record.excInfo.Some? {
      SetKeepsSlots(CopyAttrs(base, record.attrs, |record.attrs|), "exception", ExceptionField(record.excInfo.value));
    }
  }

  /** Every value of the line: the exception wins when `exc_info` is set; otherwise
      the last attribute written under the key, or the base value. In particular an
      attribute named timestamp, level or logger overrides the base value, while the
      message cannot be overridden (it is a standard attribute). */
  lemma LogFieldsLookup(record: LogRecord, now: Instant, key: string)
    ensures var out := LogFields(record, now);
      var w := LastWriter(record.attrs, |record.attrs|, key);
      Get(out, key) ==
        (if key == "exception" && record.excInfo.Some? then Some(ExceptionField(record.excInfo.value))
         else if w.Some? then Some(record.attrs[w.value].1)
         else Get(BaseFields(record, now), key))
  {
    var base := BaseFields(record, now);
    var d := CopyAttrs(base, record.attrs, |record.attrs|);
    CopyAttrsLookup(base, record.attrs, |record.attrs|, key);
    if record.excInfo.Some? {
      GetAfterSet(d, "exception", ExceptionField(record.excInfo.value), key);
    }
  }

  /** No line has a "duration" key: that attribute is written as "duration_seconds". */
  lemma NoDurationKey(record: LogRecord, now: Instant)
    ensures Get(LogFields(record, now), "duration").None?
  {
    LogFieldsLookup(record, now, "duration");
    var w := LastWriter(record.attrs, |record.attrs|, "duration");
    assert w.None?;
  }

  /** An attribute that the formatter copies appears in the line with its value, as
      long as no later attribute is written under the same key; a "duration"
      attribute is found under "duration_seconds". */
  lemma ExtraCopied(record: LogRecord, now: Instant, j: nat)
    requires j < |record.attrs| && Copied(record.attrs[j].0)
    requires record.attrs[j].0 != "exception" || record.excInfo.None?
    requires forall i :: j < i < |record.attrs| ==> Target(record.attrs[i].0) != Target(record.attrs[j].0)
    ensures Get(LogFields(record, now), Target(record.attrs[j].0)) == Some(record.attrs[j].1)
  {
    var key := Target(record.attrs[j].0);
    LogFieldsLookup(record, now, key);
    var w := LastWriter(record.attrs, |record.attrs|, key);
    assert w.Some? && w.value == j;
  }

  /** A standard attribute or a private one (leading "_") never reaches the line: the
      key keeps its base value, so the message always comes from `getMessage`. */
  lemma SkippedNotCopied(record: LogRecord, now: Instant, key: string)
    requires !Copied(key)
    ensures Get(LogFields(record, now), key) == Get(BaseFields(record, now), key)
  {
    LogFieldsLookup(record, now, key);
    RenamedKeysCopied();
    assert LastWriter(record.attrs, |record.attrs|, key).None?;
  }

  /** The two keys the formatter writes itself are not standard attribute names. */
  lemma RenamedKeysCopied()
    ensures Copied("exception") && Copied("duration_seconds")
  {
    assert "exception"[0] == 'e' && "duration_seconds"[0] == 'd';
  }

  /** The exception object is present exactly when `exc_info` is set, unless an
      attribute itself is named "exception". */
  lemma ExceptionPresence(record: LogRecord, now: Instant)
    requires forall i :: 0 <= i < |record.attrs| ==> record.attrs[i].0 != "exception"
    ensures Get(LogFields(record, now), "exception").Some? <==> record.excInfo.Some?
    ensures record.excInfo.Some? ==> Get(LogFields(record, now), "exception") == Some(ExceptionField(record.excInfo.value))
  {
    LogFieldsLookup(record, now, "exception");
    var w := LastWriter(record.attrs, |record.attrs|, "exception");
    assert w.None?;
  }
}
