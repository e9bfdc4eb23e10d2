/** Conversion between JSON values and SQLite values, and parameter binding. */
module Values {
  import opened Prelude

  const I64_MIN := -0x8000_0000_0000_0000
  const I64_MAX := 0x7fff_ffff_ffff_ffff
  const U64_MAX := 0xffff_ffff_ffff_ffff

  type I64 = n: int | I64_MIN <= n <= I64_MAX
  // serde_json keeps integers as u64 or negative i64.
  type JsonInt = n: int | I64_MIN <= n <= U64_MAX

  datatype F64 = Finite(r: real) | NotANumber | Infinite(negative: bool)

  datatype Json =
    | Null
    | Bool(b: bool)
    | Int(n: JsonInt)
    | Float(f: real)
    | Str(s: string)
    | Arr(items: seq<Json>)
    | Obj(fields: map<string, Json>)

  datatype SqlValue = SqlNull | Integer(n: I64) | Real(f: F64) | Text(s: string) | Blob(bytes: seq<bv8>)

  function SqlToJson(v: SqlValue): Json {
    match v
    case Integer(n) => Int(n)
    case Real(f) => if f.Finite? then Float(f.r) else Null
    case Text(s) => Str(s)
    case SqlNull => Null
    case Blob(_) => Null
  }

  // `Err` carries the value that cannot be bound.
  function JsonToSql(v: Json): Result<SqlValue, Json> {
    match v
    case Null => Ok(SqlNull)
    case Bool(b) => Ok(Integer(if b then 1 else 0))
    case Int(n) => if n <= I64_MAX then Ok(Integer(n)) else Ok(Real(Finite(n as real)))
    case Float(f) => Ok(Real(Finite(f)))
    case Str(s) => Ok(Text(s))
    case Arr(_) => Err(v)
    case Obj(_) => Err(v)
  }

  predicate Bindable(v: Json) { !v.Arr? && !v.Obj? }

  // A JSON value and a SQLite value that stand for the same thing. A bool is the integer 0
  // or 1, and an integer beyond 64 signed bits the real of the same value.
  ghost predicate SameValue(j: Json, v: SqlValue) {
    || (j.Null? && v.SqlNull?)
    || (j.Int? && v.Integer? && j.n == v.n)
    || (j == Bool(false) && v == Integer(0))
    || (j == Bool(true) && v == Integer(1))
    || (j.Int? && j.n > I64_MAX && v.Real? && v.f.Finite? && v.f.r == j.n as real)
    || (j.Float? && v.Real? && v.f.Finite? && v.f.r == j.f)
    || (j.Str? && v.Text? && j.s == v.s)
  }

  // Both conversions keep the value; what has no counterpart in JSON is sent as null, and
  // what has none in SQLite is refused. A bool comes back as 0 or 1.
  lemma ConversionsKeepTheValue(j: Json, v: SqlValue)
    ensures JsonToSql(j).Ok? ==> SameValue(j, JsonToSql(j).value)
    ensures SqlToJson(v).Null? <==> v.SqlNull? || v.Blob? || (v.Real? && !v.f.Finite?)
    ensures !SqlToJson(v).Null? ==> SameValue(SqlToJson(v), v) && !SqlToJson(v).Bool?
    ensures JsonToSql(j).Err? ==> JsonToSql(j).error == j
    ensures j.Bool? ==> SqlToJson(JsonToSql(j).value) == Int(if j.b then 1 else 0)
  {
  }

  // Exactly which JSON values come back from SQLite as they were sent.
  lemma JsonRoundTrip(v: Json)
    ensures JsonToSql(v).Ok? <==> Bindable(v)
    ensures JsonToSql(v).Ok? ==>
              (SqlToJson(JsonToSql(v).value) == v
               <==> v.Null? || v.Str? || v.Float? || (v.Int? && v.n <= I64_MAX))
  {
  }

  // Normalisation settles after one trip.
  lemma JsonNormalisationIdempotent(v: Json)
    requires Bindable(v)
    ensures var once := SqlToJson(JsonToSql(v).value);
            Bindable(once) && SqlToJson(JsonToSql(once).value) == once
  {
  }

  // Exactly which SQLite values survive the trip to the client and back; a real never
  // comes back as an integer.
  lemma SqlRoundTrip(v: SqlValue)
    ensures var back := JsonToSql(SqlToJson(v));
            && back.Ok?
            && (back.value == v <==> !v.Blob? && (v.Real? ==> v.f.Finite?))
            && (v.Real? ==> !back.value.Integer?)
  {
  }

  // `Ok` holds every bound value in order; `Err` the first value that cannot be bound.
  function BindAll(params: seq<Json>): (r: Result<seq<SqlValue>, Json>)
    ensures r.Ok? <==> forall i :: 0 <= i < |params| ==> Bindable(params[i])
    ensures r.Ok? ==> |r.value| == |params| && forall i :: 0 <= i < |params| ==> JsonToSql(params[i]) == Ok(r.value[i])
    ensures r.Err? ==> exists i :: 0 <= i < |params| && r.error == params[i] && !Bindable(params[i])
                                   && forall j :: 0 <= j < i ==> Bindable(params[j])
  {
    if params == [] then Ok([])
    else
      match BindAll(params[..|params| - 1])
      case Err(e) => Err(e)
      case Ok(vs) =>
        match JsonToSql(params[|params| - 1])
        case Err(e) => Err(e)
        case Ok(v) => Ok(vs + [v])
  }

  // The collecting loop of `run_exec`: stops at the first value that cannot be bound.
  method BindParams(params: seq<Json>) returns (r: Result<seq<SqlValue>, Json>)
    ensures r == BindAll(params)
  {
    var bound: seq<SqlValue> := [];
    for i := 0 to |params|
      invariant BindAll(params[..i]) == Ok(bound)
    {
      assert params[..i + 1][..i] == params[..i];
      var v := JsonToSql(params[i]);
      if v.Err? {
        BindAllStops(params, i + 1);
        return Err(v.error);
      }
      bound := bound + [v.value];
    }
    assert params[..|params|] == params;
    return Ok(bound);
  }

  lemma {:induction false} BindAllStops(params: seq<Json>, i: nat)
    requires i <= |params| && BindAll(params[..i]).Err?
    ensures BindAll(params) == BindAll(params[..i])
    decreases |params|
  {
  }
}
