/** Materialisation of a result set: the capped cursor loop and the two row formats. */
module Rows {
  import opened Prelude
  import opened Values

  datatype RowsFormat = Objects | Arrays

  // What stepping the statement yields: rows in order, then the end of the result or a
  // fault (an interrupt is the code the progress handler provokes).
  datatype CursorEnd = Exhausted | Faults(interrupt: bool)
  datatype Cursor = Cursor(columns: seq<string>, rows: seq<seq<SqlValue>>, end: CursorEnd)

  // Every row SQLite yields has one value per column.
  predicate WellFormed(c: Cursor) {
    forall i :: 0 <= i < |c.rows| ==> |c.rows[i]| == |c.columns|
  }

  datatype FetchError = RowCap(cap: nat) | Fetch(interrupt: bool)

  function ArrayRow(vals: seq<SqlValue>): (r: seq<Json>)
    ensures |r| == |vals| && forall i :: 0 <= i < |vals| ==> r[i] == SqlToJson(vals[i])
  {
    seq(|vals|, i requires 0 <= i < |vals| => SqlToJson(vals[i]))
  }

  predicate LastPosition(columns: seq<string>, name: string, i: nat) {
    i < |columns| && columns[i] == name && forall j :: i < j < |columns| ==> columns[j] != name
  }

  // The meaning of an object row: the keys are the column names, and each key holds the
  // value at that name's last position.
  ghost predicate IsObjectRow(columns: seq<string>, vals: seq<SqlValue>, obj: map<string, Json>)
    requires |columns| == |vals|
  {
    && (forall name :: name in obj <==> name in columns)
    && (forall i :: 0 <= i < |columns| && LastPosition(columns, columns[i], i) ==> columns[i] in obj && obj[columns[i]] == SqlToJson(vals[i]))
  }

  function ObjectRow(columns: seq<string>, vals: seq<SqlValue>): map<string, Json>
    requires |columns| == |vals|
  {
    if columns == [] then map[]
    else
      var n := |columns| - 1;
      ObjectRow(columns[..n], vals[..n])[columns[n] := SqlToJson(vals[n])]
  }

  lemma {:induction false} ObjectRowKeys(columns: seq<string>, vals: seq<SqlValue>)
    requires |columns| == |vals|
    ensures forall name :: name in ObjectRow(columns, vals) <==> name in columns
  {
    if columns != [] {
      var n := |columns| - 1;
      ObjectRowKeys(columns[..n], vals[..n]);
      assert columns == columns[..n] + [columns[n]];
    }
  }

  lemma {:induction false} ObjectRowAt(columns: seq<string>, vals: seq<SqlValue>, i: nat)
    requires |columns| == |vals| && i < |columns| && LastPosition(columns, columns[i], i)
    ensures columns[i] in ObjectRow(columns, vals) && ObjectRow(columns, vals)[columns[i]] == SqlToJson(vals[i])
  {
    var n := |columns| - 1;
    if i < n {
      assert columns[n] != columns[i];
      ObjectRowAt(columns[..n], vals[..n], i);
    }
  }

  lemma ObjectRowMeaning(columns: seq<string>, vals: seq<SqlValue>)
    requires |columns| == |vals|
    ensures IsObjectRow(columns, vals, ObjectRow(columns, vals))
  {
    ObjectRowKeys(columns, vals);
    forall i | 0 <= i < |columns| && LastPosition(columns, columns[i], i)
      ensures columns[i] in ObjectRow(columns, vals) && ObjectRow(columns, vals)[columns[i]] == SqlToJson(vals[i])
    {
      ObjectRowAt(columns, vals, i);
    }
  }

  predicate Distinct(columns: seq<string>) {
    forall i, j :: 0 <= i < j < |columns| ==> columns[i] != columns[j]
  }

  // With distinct names the array row can be read back from the object row; with a
  // repeated name two different rows give the same object.
  lemma ArrayRecoverableIffDistinct(columns: seq<string>)
    ensures Distinct(columns) <==>
            forall v: seq<SqlValue>, w: seq<SqlValue> ::
              |v| == |w| == |columns| && ObjectRow(columns, v) == ObjectRow(columns, w) ==> ArrayRow(v) == ArrayRow(w)
  {
    if Distinct(columns) {
      forall v: seq<SqlValue>, w: seq<SqlValue> | |v| == |w| == |columns| && ObjectRow(columns, v) == ObjectRow(columns, w)
        ensures ArrayRow(v) == ArrayRow(w)
      {
        ObjectRowMeaning(columns, v);
        ObjectRowMeaning(columns, w);
        forall i | 0 <= i < |columns| ensures ArrayRow(v)[i] == ArrayRow(w)[i] {
          assert LastPosition(columns, columns[i], i);
        }
      }
    } else {
      var i, j :| 0 <= i < j < |columns| && columns[i] == columns[j];
      var v: seq<SqlValue> := seq(|columns|, _ => SqlNull);
      var w := v[i := Integer(1)];
      HiddenPosition(columns, v, w, i, j);
      assert ArrayRow(v)[i] != ArrayRow(w)[i];
    }
  }

  lemma {:induction false} HiddenPosition(columns: seq<string>, v: seq<SqlValue>, w: seq<SqlValue>, i: nat, j: nat)
    requires |v| == |w| == |columns| && i < j < |columns| && columns[i] == columns[j]
    requires forall k :: 0 <= k < |columns| && k != i ==> v[k] == w[k]
    ensures ObjectRow(columns, v) == ObjectRow(columns, w)
  {
    var n := |columns| - 1;
    if j < n {
      HiddenPosition(columns[..n], v[..n], w[..n], i, j);
    } else {
      SameExceptAt(columns[..n], v[..n], w[..n], i);
      assert columns[..n][i] == columns[n] && v[n] == w[n];
      assert ObjectRow(columns, v) == ObjectRow(columns, w);
    }
  }

  ghost predicate AgreeExcept(a: map<string, Json>, b: map<string, Json>, key: string) {
    && (forall name :: name in a && name != key ==> name in b && b[name] == a[name])
    && (forall name :: name in b && name != key ==> name in a)
  }

  lemma {:induction false} SameExceptAt(columns: seq<string>, v: seq<SqlValue>, w: seq<SqlValue>, i: nat)
    requires |v| == |w| == |columns| && i < |columns|
    requires forall k :: 0 <= k < |columns| && k != i ==> v[k] == w[k]
    ensures AgreeExcept(ObjectRow(columns, v), ObjectRow(columns, w), columns[i])
  {
    var n := |columns| - 1;
    if i < n {
      SameExceptAt(columns[..n], v[..n], w[..n], i);
      assert v[n] == w[n];
    } else {
      assert v[..n] == w[..n];
    }
  }

  function EncodeRow(columns: seq<string>, vals: seq<SqlValue>, format: RowsFormat): Json
    requires |columns| == |vals|
  {
    match format
    case Objects => Obj(ObjectRow(columns, vals))
    case Arrays => Arr(ArrayRow(vals))
  }

  // The whole result arrives and fits under the cap.
  predicate Fits(cursor: Cursor, cap: Option<nat>) {
    cursor.end.Exhausted? && (cap.None? || |cursor.rows| <= cap.value)
  }

  // What the requested format promises: an object under the column names, or one value per
  // column in order.
  ghost predicate IsRow(columns: seq<string>, vals: seq<SqlValue>, format: RowsFormat, row: Json)
    requires |columns| == |vals|
  {
    match format
    case Objects => row.Obj? && IsObjectRow(columns, vals, row.fields)
    case Arrays => row.Arr? && |row.items| == |vals| && forall i :: 0 <= i < |vals| ==> row.items[i] == SqlToJson(vals[i])
  }

  // Every row of the cursor, in order, in the requested format.
  ghost predicate Renders(c: Cursor, format: RowsFormat, rows: seq<Json>)
    requires WellFormed(c)
  {
    |rows| == |c.rows| && forall i :: 0 <= i < |rows| ==> IsRow(c.columns, c.rows[i], format, rows[i])
  }

  lemma EncodedIsRow(columns: seq<string>, vals: seq<SqlValue>, format: RowsFormat)
    requires |columns| == |vals|
    ensures IsRow(columns, vals, format, EncodeRow(columns, vals, format))
  {
    ObjectRowMeaning(columns, vals);
  }

  // The row cap is met before the fault only when there are more rows than the cap.
  function Materialize(c: Cursor, cap: Option<nat>, format: RowsFormat): Result<seq<Json>, FetchError>
    requires WellFormed(c)
  {
    if cap.Some? && |c.rows| > cap.value then Err(RowCap(cap.value))
    else if c.end.Faults? then Err(Fetch(c.end.interrupt))
    else Ok(seq(|c.rows|, i requires 0 <= i < |c.rows| => EncodeRow(c.columns, c.rows[i], format)))
  }

  lemma MaterializedRenders(c: Cursor, cap: Option<nat>, format: RowsFormat)
    requires WellFormed(c) && Materialize(c, cap, format).Ok?
    ensures Renders(c, format, Materialize(c, cap, format).value)
  {
    forall i | 0 <= i < |c.rows| ensures IsRow(c.columns, c.rows[i], format, EncodeRow(c.columns, c.rows[i], format)) {
      EncodedIsRow(c.columns, c.rows[i], format);
    }
  }

  // The `while let` loop of `run_exec`. `peak` is the largest number of rows ever held.
  method FetchRows(c: Cursor, cap: Option<nat>, format: RowsFormat)
    returns (r: Result<seq<Json>, FetchError>, peak: nat)
    requires WellFormed(c)
    ensures r == Materialize(c, cap, format)
    ensures cap.Some? ==> peak <= cap.value
    ensures r.Ok? <==> Fits(c, cap)
    ensures r.Ok? ==> peak == |c.rows| && Renders(c, format, r.value)
    ensures r == Err(Fetch(true)) || r == Err(Fetch(false)) ==> c.end == Faults(r.error.interrupt)
    ensures r.Err? && r.error.RowCap? <==> cap.Some? && |c.rows| > cap.value
    ensures r.Err? && r.error.RowCap? ==> Some(r.error.cap) == cap
  {
    var rows: seq<Json> := [];
    var next := 0;
    while next < |c.rows|
      invariant next == |rows| <= |c.rows|
      invariant cap.Some? ==> |rows| <= cap.value
      invariant forall i :: 0 <= i < |rows| ==> rows[i] == EncodeRow(c.columns, c.rows[i], format)
    {
      if cap.Some? && |rows| >= cap.value {
        return Err(RowCap(cap.value)), |rows|;
      }
      var value: Json;
      match format {
        case Objects =>
          var obj := FillObject(c.columns, c.rows[next]);
          value := Obj(obj);
        case Arrays =>
          var arr := FillArray(c.rows[next]);
          value := Arr(arr);
      }
      rows := rows + [value];
      next := next + 1;
    }
    peak := |rows|;
    if c.end.Faults? {
      return Err(Fetch(c.end.interrupt)), peak;
    }
    assert rows == seq(|c.rows|, i requires 0 <= i < |c.rows| => EncodeRow(c.columns, c.rows[i], format));
    MaterializedRenders(c, cap, format);
    r := Ok(rows);
  }

  method FillObject(columns: seq<string>, vals: seq<SqlValue>) returns (obj: map<string, Json>)
    requires |columns| == |vals|
    ensures obj == ObjectRow(columns, vals)
  {
    obj := map[];
    for i := 0 to |columns|
      invariant obj == ObjectRow(columns[..i], vals[..i])
    {
      assert columns[..i + 1][..i] == columns[..i] && vals[..i + 1][..i] == vals[..i];
      obj := obj[columns[i] := SqlToJson(vals[i])];
    }
    assert columns[..|columns|] == columns && vals[..|vals|] == vals;
  }

  method FillArray(vals: seq<SqlValue>) returns (arr: seq<Json>)
    ensures arr == ArrayRow(vals)
  {
    arr := [];
    for i := 0 to |vals|
      invariant |arr| == i && forall k :: 0 <= k < i ==> arr[k] == SqlToJson(vals[k])
    {
      arr := arr + [SqlToJson(vals[i])];
    }
  }
}
