/** The JSON event formatter: fields collected by the visitor, folded into one object, with
    the values of sensitive fields replaced. */
module Redaction {
  import opened Ascii
  import opened Values

  const SENSITIVE_FIELD_NAMES: seq<string> :=
    ["password", "token", "secret", "ssn", "email", "credit_card", "authorization", "api_key"]

  const REDACTED: Json := Str("[REDACTED]")

  type U64 = n: int | 0 <= n <= U64_MAX

  datatype Level = ERROR | WARN | INFO | DEBUG | TRACE

  function LevelName(level: Level): string {
    match level
    case ERROR => "ERROR"
    case WARN => "WARNING"
    case INFO => "INFO"
    case DEBUG => "DEBUG"
    case TRACE => "TRACE"
  }

  // What a tracing macro records; `text` is the value's printed form.
  datatype Raw =
    | RawStr(s: string)
    | RawBool(b: bool)
    | RawI64(n: I64)
    | RawU64(u: U64)
    | RawI128(wide: int, text: string)
    | RawU128(uwide: nat, text: string)
    | RawF64(f: F64)
    | RawError(text: string)
    | RawDebug(text: string)

  datatype Event = Event(level: Level, target: string, fields: seq<(string, Raw)>)

  datatype Formatter = Formatter(service: string, environment: string)

  function ToJson(raw: Raw): Json {
    match raw
    case RawStr(s) => Str(s)
    case RawBool(b) => Bool(b)
    case RawI64(n) => Int(n)
    case RawU64(u) => Int(u)
    case RawI128(n, text) => if I64_MIN <= n <= I64_MAX then Int(n) else Str(text)
    case RawU128(n, text) => if n <= U64_MAX then Int(n) else Str(text)
    case RawF64(f) => if f.Finite? then Float(f.r) else Null
    case RawError(text) => Str(text)
    case RawDebug(text) => Str(text)
  }

  // ---------------------------------------------------------------- the denylist

  predicate At(s: string, needle: string, i: nat) {
    i + |needle| <= |s| && s[i..i + |needle|] == needle
  }

  predicate Contains(s: string, needle: string) {
    exists i :: 0 <= i <= |s| && At(s, needle, i)
  }

  predicate IsSensitive(name: string) {
    exists needle :: needle in SENSITIVE_FIELD_NAMES && Contains(Lower(name), needle)
  }

  predicate SpelledAt(name: string, word: string, i: nat) {
    i + |word| <= |name| && EqIgnoreCase(name[i..i + |word|], word)
  }

  // A name is sensitive exactly if some stretch of it spells a denylisted word, in any
  // mixture of letter cases.
  lemma SensitiveInAnyCase(name: string)
    ensures IsSensitive(name) <==> exists word, i :: word in SENSITIVE_FIELD_NAMES && 0 <= i <= |name| && SpelledAt(name, word, i)
  {
    forall word | word in SENSITIVE_FIELD_NAMES
      ensures Contains(Lower(name), word) <==> exists i :: 0 <= i <= |name| && SpelledAt(name, word, i)
    {
      DenylistIsLower(word);
      forall i | 0 <= i <= |name| ensures At(Lower(name), word, i) <==> SpelledAt(name, word, i) {
        LowerMatches(name, word, i);
      }
    }
  }

  ghost predicate Spells(name: string, word: string) {
    exists i: nat :: SpelledAt(name, word, i)
  }

  lemma Listed(word: string)
    ensures word in SENSITIVE_FIELD_NAMES
            <==> || word == "password" || word == "token" || word == "secret" || word == "ssn"
                 || word == "email" || word == "credit_card" || word == "authorization" || word == "api_key"
  {
  }

  // The denylist, written out.
  lemma SensitiveExactly(name: string)
    ensures IsSensitive(name)
            <==> || Spells(name, "password") || Spells(name, "token") || Spells(name, "secret") || Spells(name, "ssn")
                 || Spells(name, "email") || Spells(name, "credit_card") || Spells(name, "authorization") || Spells(name, "api_key")
  {
    SensitiveInAnyCase(name);
    forall word, i | word in SENSITIVE_FIELD_NAMES && 0 <= i <= |name| && SpelledAt(name, word, i) ensures Spells(name, word) {
    }
    forall word: string ensures word in SENSITIVE_FIELD_NAMES
            <==> || word == "password" || word == "token" || word == "secret" || word == "ssn"
                 || word == "email" || word == "credit_card" || word == "authorization" || word == "api_key"
    {
      Listed(word);
    }
    SpelledIsSensitive(name, "password");
    SpelledIsSensitive(name, "token");
    SpelledIsSensitive(name, "secret");
    SpelledIsSensitive(name, "ssn");
    SpelledIsSensitive(name, "email");
    SpelledIsSensitive(name, "credit_card");
    SpelledIsSensitive(name, "authorization");
    SpelledIsSensitive(name, "api_key");
  }

  lemma SpelledIsSensitive(name: string, word: string)
    requires word in SENSITIVE_FIELD_NAMES
    ensures Spells(name, word) ==> IsSensitive(name)
  {
    SensitiveInAnyCase(name);
  }

  lemma LowerMatches(name: string, word: string, i: nat)
    requires forall j :: 0 <= j < |word| ==> LowerChar(word[j]) == word[j]
    ensures At(Lower(name), word, i) <==> SpelledAt(name, word, i)
  {
  }

  lemma DenylistIsLower(word: string)
    requires word in SENSITIVE_FIELD_NAMES
    ensures forall j :: 0 <= j < |word| ==> LowerChar(word[j]) == word[j]
  {
  }

  // One letter of each denylisted word, none of which occurs in the name.
  lemma NotSensitive(name: string, letters: string)
    requires forall j :: 0 <= j < |name| ==> LowerChar(name[j]) == name[j]
    requires |letters| == |SENSITIVE_FIELD_NAMES|
    requires forall k :: 0 <= k < |letters| ==> letters[k] in SENSITIVE_FIELD_NAMES[k] && letters[k] !in name
    ensures !IsSensitive(name)
  {
  }

  predicate Fixed(key: string) {
    key == "timestamp" || key == "level" || key == "logger" || key == "service" || key == "environment" || key == "event"
  }

  lemma MessageIsNotSensitive()
    ensures !IsSensitive("message")
  {
    NotSensitive("message", "ptrnlcup");
  }

  lemma TimestampIsNotSensitive()
    ensures !IsSensitive("timestamp")
  {
    NotSensitive("timestamp", "wocnlcuk");
  }

  lemma LevelIsNotSensitive()
    ensures !IsSensitive("level")
  {
    NotSensitive("level", "ptssmcaa");
  }

  lemma LoggerIsNotSensitive()
    ensures !IsSensitive("logger")
  {
    NotSensitive("logger", "ptssmcaa");
  }

  lemma ServiceIsNotSensitive()
    ensures !IsSensitive("service")
  {
    NotSensitive("service", "pttnmdaa");
  }

  lemma EnvironmentIsNotSensitive()
    ensures !IsSensitive("environment")
  {
    NotSensitive("environment", "pkssacaa");
  }

  lemma EventIsNotSensitive()
    ensures !IsSensitive("event")
  {
    NotSensitive("event", "pkssmcaa");
  }

  // None of the formatter's own keys, nor the message field, is caught by the denylist.
  lemma OwnKeysAreNotSensitive()
    ensures !IsSensitive("message")
    ensures forall key :: Fixed(key) ==> !IsSensitive(key)
  {
    MessageIsNotSensitive();
    TimestampIsNotSensitive();
    LevelIsNotSensitive();
    LoggerIsNotSensitive();
    ServiceIsNotSensitive();
    EnvironmentIsNotSensitive();
    EventIsNotSensitive();
  }

  // ---------------------------------------------------------------- the fold

  function Base(f: Formatter, ts: string, e: Event): map<string, Json> {
    map["timestamp" := Str(ts), "level" := Str(LevelName(e.level)), "logger" := Str(e.target),
        "service" := Str(f.service), "environment" := Str(f.environment)]
  }

  // Where a field goes, and what is written there.
  function KeyOf(name: string): string {
    if name == "message" then "event" else name
  }

  function Shown(name: string, v: Json): Json {
    if name != "message" && IsSensitive(name) then REDACTED else v
  }

  function Fold(obj: map<string, Json>, fields: seq<(string, Raw)>): map<string, Json> {
    if fields == [] then obj
    else
      var last := fields[|fields| - 1];
      Fold(obj, fields[..|fields| - 1])[KeyOf(last.0) := Shown(last.0, ToJson(last.1))]
  }

  function Format(f: Formatter, ts: string, e: Event): map<string, Json> {
    Fold(Base(f, ts, e), e.fields)
  }

  class JsonVisitor {
    var fields: seq<(string, Json)>

    constructor ()
      ensures fields == []
    {
      fields := [];
    }

    method Record(name: string, raw: Raw)
      modifies this
      ensures fields == old(fields) + [(name, ToJson(raw))]
    {
      fields := fields + [(name, ToJson(raw))];
    }
  }

  method InsertFixed(f: Formatter, ts: string, e: Event) returns (obj: map<string, Json>)
    ensures obj == Base(f, ts, e)
  {
    obj := map[];
    obj := obj["timestamp" := Str(ts)];
    obj := obj["level" := Str(LevelName(e.level))];
    obj := obj["logger" := Str(e.target)];
    obj := obj["service" := Str(f.service)];
    obj := obj["environment" := Str(f.environment)];
  }

  method VisitFields(e: Event) returns (visitor: JsonVisitor)
    ensures |visitor.fields| == |e.fields|
    ensures forall k :: 0 <= k < |e.fields| ==> visitor.fields[k] == (e.fields[k].0, ToJson(e.fields[k].1))
  {
    visitor := new JsonVisitor();
    for i := 0 to |e.fields|
      invariant |visitor.fields| == i
      invariant forall k :: 0 <= k < i ==> visitor.fields[k] == (e.fields[k].0, ToJson(e.fields[k].1))
    {
      visitor.Record(e.fields[i].0, e.fields[i].1);
    }
  }

  method FormatEvent(f: Formatter, ts: string, e: Event) returns (obj: map<string, Json>)
    ensures obj == Format(f, ts, e)
  {
    obj := InsertFixed(f, ts, e);
    var visitor := VisitFields(e);
    for i := 0 to |visitor.fields|
      invariant obj == Fold(Base(f, ts, e), e.fields[..i])
    {
      assert e.fields[..i + 1][..i] == e.fields[..i];
      var (k, v) := visitor.fields[i];
      if k == "message" {
        obj := obj["event" := v];
      } else if IsSensitive(k) {
        obj := obj[k := REDACTED];
      } else {
        obj := obj[k := v];
      }
    }
    assert e.fields[..|e.fields|] == e.fields;
  }

  // ---------------------------------------------------------------- the theorems

  // Two field lists that differ at most in the values of sensitive fields.
  predicate SameButSecrets(a: seq<(string, Raw)>, b: seq<(string, Raw)>) {
    |a| == |b| && forall i :: 0 <= i < |a| ==> a[i].0 == b[i].0 && (IsSensitive(a[i].0) || a[i].1 == b[i].1)
  }

  lemma {:induction false} FoldHidesSecrets(obj: map<string, Json>, a: seq<(string, Raw)>, b: seq<(string, Raw)>)
    requires SameButSecrets(a, b) && !IsSensitive("message")
    ensures Fold(obj, a) == Fold(obj, b)
  {
    if a != [] {
      FoldHidesSecrets(obj, a[..|a| - 1], b[..|b| - 1]);
    }
  }

  // Non-interference: at the same timestamp the output is the same whatever the values of
  // the sensitive fields.
  lemma SecretsDoNotInterfere(f: Formatter, ts: string, e: Event, other: Event)
    requires e.level == other.level && e.target == other.target && SameButSecrets(e.fields, other.fields)
    ensures Format(f, ts, e) == Format(f, ts, other)
  {
    OwnKeysAreNotSensitive();
    FoldHidesSecrets(Base(f, ts, e), e.fields, other.fields);
  }

  lemma {:induction false} FoldRedacts(obj: map<string, Json>, fields: seq<(string, Raw)>, key: string)
    requires !IsSensitive("event") && (key in obj && IsSensitive(key) ==> obj[key] == REDACTED)
    ensures key in Fold(obj, fields) && IsSensitive(key) ==> Fold(obj, fields)[key] == REDACTED
  {
    if fields != [] {
      FoldRedacts(obj, fields[..|fields| - 1], key);
    }
  }

  // Every key of the output that spells a denylisted word holds the marker, however often
  // it was recorded.
  lemma SensitiveKeysAreRedacted(f: Formatter, ts: string, e: Event, key: string)
    requires key in Format(f, ts, e) && IsSensitive(key)
    ensures Format(f, ts, e)[key] == REDACTED
  {
    OwnKeysAreNotSensitive();
    FoldRedacts(Base(f, ts, e), e.fields, key);
  }

  predicate LastWithKey(fields: seq<(string, Raw)>, key: string, i: nat) {
    && i < |fields| && KeyOf(fields[i].0) == key
    && forall j :: i < j < |fields| ==> KeyOf(fields[j].0) != key
  }

  lemma {:induction false} LastFieldWins(obj: map<string, Json>, fields: seq<(string, Raw)>, i: nat)
    requires i < |fields| && LastWithKey(fields, KeyOf(fields[i].0), i)
    ensures var key := KeyOf(fields[i].0);
            key in Fold(obj, fields) && Fold(obj, fields)[key] == Shown(fields[i].0, ToJson(fields[i].1))
  {
    var n := |fields| - 1;
    if i < n {
      LastFieldWins(obj, fields[..n], i);
    }
  }

  lemma {:induction false} UnnamedKeysSurvive(obj: map<string, Json>, fields: seq<(string, Raw)>, key: string)
    requires forall i :: 0 <= i < |fields| ==> KeyOf(fields[i].0) != key
    ensures key in Fold(obj, fields) <==> key in obj
    ensures key in obj ==> Fold(obj, fields)[key] == obj[key]
  {
    if fields != [] {
      UnnamedKeysSurvive(obj, fields[..|fields| - 1], key);
    }
  }

  lemma {:induction false} HasLast(fields: seq<(string, Raw)>, key: string, i: nat) returns (k: nat)
    requires i < |fields| && KeyOf(fields[i].0) == key
    ensures LastWithKey(fields, key, k)
  {
    var n := |fields| - 1;
    if KeyOf(fields[n].0) == key {
      k := n;
    } else {
      k := HasLast(fields[..n], key, i);
    }
  }

  lemma LastFieldShown(f: Formatter, ts: string, e: Event, key: string)
    ensures var obj := Format(f, ts, e);
            && (key in obj <==> key in Base(f, ts, e) || exists i :: 0 <= i < |e.fields| && KeyOf(e.fields[i].0) == key)
            && (forall i :: 0 <= i < |e.fields| && LastWithKey(e.fields, key, i) ==>
                  key in obj && obj[key] == Shown(e.fields[i].0, ToJson(e.fields[i].1)))
            && ((forall i :: 0 <= i < |e.fields| ==> KeyOf(e.fields[i].0) != key) && key in obj ==> obj[key] == Base(f, ts, e)[key])
  {
    var obj := Base(f, ts, e);
    if i :| 0 <= i < |e.fields| && KeyOf(e.fields[i].0) == key {
      var k := HasLast(e.fields, key, i);
      LastFieldWins(obj, e.fields, k);
      forall j | 0 <= j < |e.fields| && LastWithKey(e.fields, key, j) ensures j == k {}
    } else {
      UnnamedKeysSurvive(obj, e.fields, key);
    }
  }

  // What a recorded value looks like in the output: numbers that JSON carries stay numbers,
  // wider ones become text, NaN and the infinities null.
  ghost predicate Looks(raw: Raw, v: Json) {
    match raw
    case RawStr(s) => v == Str(s)
    case RawBool(b) => v == Bool(b)
    case RawI64(n) => v == Int(n)
    case RawU64(u) => v == Int(u)
    case RawI128(n, text) =>
      if I64_MIN <= n <= I64_MAX then v.Int? && v.n == n else v == Str(text)
    case RawU128(n, text) => if n <= U64_MAX then v.Int? && v.n == n else v == Str(text)
    case RawF64(f) => if f.Finite? then v.Float? && v.f == f.r else v.Null?
    case RawError(text) => v == Str(text)
    case RawDebug(text) => v == Str(text)
  }

  // Is this field's entry in the output `key`?
  ghost predicate Writes(name: string, key: string) {
    if name == "message" then key == "event" else key == name
  }

  ghost predicate LastToWrite(fields: seq<(string, Raw)>, key: string, i: nat) {
    && i < |fields| && Writes(fields[i].0, key)
    && forall j :: i < j < |fields| ==> !Writes(fields[j].0, key)
  }

  ghost predicate Own(f: Formatter, ts: string, e: Event, key: string, v: Json) {
    || (key == "timestamp" && v == Str(ts))
    || (key == "level" && ((e.level.ERROR? && v == Str("ERROR")) || (e.level.WARN? && v == Str("WARNING")) || (e.level.INFO? && v == Str("INFO"))
                           || (e.level.DEBUG? && v == Str("DEBUG")) || (e.level.TRACE? && v == Str("TRACE"))))
    || (key == "logger" && v == Str(e.target))
    || (key == "service" && v == Str(f.service))
    || (key == "environment" && v == Str(f.environment))
  }

  lemma KeysWritten(name: string, key: string)
    ensures KeyOf(name) == key <==> Writes(name, key)
  {
  }

  lemma LastWrites(fields: seq<(string, Raw)>, key: string, i: nat)
    requires LastToWrite(fields, key, i)
    ensures LastWithKey(fields, key, i)
  {
    forall j | i <= j < |fields| ensures KeyOf(fields[j].0) == key <==> Writes(fields[j].0, key) {
      KeysWritten(fields[j].0, key);
    }
  }

  lemma BaseIsOwn(f: Formatter, ts: string, e: Event, key: string)
    ensures key in Base(f, ts, e) <==> OwnKey(key)
    ensures key in Base(f, ts, e) ==> Own(f, ts, e, key, Base(f, ts, e)[key])
  {
  }

  ghost predicate OwnKey(key: string) {
    key == "timestamp" || key == "level" || key == "logger" || key == "service" || key == "environment"
  }

  // A field's value in the output: the marker if its name is sensitive.
  ghost predicate ShowsField(name: string, raw: Raw, v: Json) {
    if name != "message" && IsSensitive(name) then v == Str("[REDACTED]") else Looks(raw, v)
  }

  lemma ShownIsField(name: string, raw: Raw)
    ensures ShowsField(name, raw, Shown(name, ToJson(raw)))
  {
  }

  lemma WritersAreKeys(fields: seq<(string, Raw)>, key: string)
    ensures (exists i :: 0 <= i < |fields| && KeyOf(fields[i].0) == key) <==> (exists i :: 0 <= i < |fields| && Writes(fields[i].0, key))
  {
    forall i | 0 <= i < |fields| ensures KeyOf(fields[i].0) == key <==> Writes(fields[i].0, key) {
      KeysWritten(fields[i].0, key);
    }
  }

  // The whole output, key by key. Its keys are the formatter's own five and those the fields
  // write, a message under "event". A key written by fields shows the last of them, the
  // marker if its name is sensitive; any other shows the formatter's value.
  lemma OutputExactly(f: Formatter, ts: string, e: Event, key: string)
    ensures var obj := Format(f, ts, e);
            && (key in obj <==> OwnKey(key) || exists i :: 0 <= i < |e.fields| && Writes(e.fields[i].0, key))
            && (forall i :: 0 <= i < |e.fields| && LastToWrite(e.fields, key, i) ==>
                  key in obj && ShowsField(e.fields[i].0, e.fields[i].1, obj[key]))
            && ((forall i :: 0 <= i < |e.fields| ==> !Writes(e.fields[i].0, key)) && key in obj ==> Own(f, ts, e, key, obj[key]))
  {
    LastFieldShown(f, ts, e, key);
    BaseIsOwn(f, ts, e, key);
    WritersAreKeys(e.fields, key);
    forall i | 0 <= i < |e.fields| && LastToWrite(e.fields, key, i)
      ensures LastWithKey(e.fields, key, i) && ShowsField(e.fields[i].0, e.fields[i].1, Shown(e.fields[i].0, ToJson(e.fields[i].1)))
    {
      LastWrites(e.fields, key, i);
      ShownIsField(e.fields[i].0, e.fields[i].1);
    }
  }
}
