/** `calculate_distance_duration` of docs/misc/fetch_osm_dd.py: filling a
    CSV table of driving distances in place.

    Row 0 is the header; every other row holds a route id (column 0), the
    latitude and longitude of a stop (columns 2 and 3) and, in columns 4
    and 5, the distance and duration to the next stop of the same route, or
    "-" while unknown.  Rows of one route are contiguous.  The loop visits
    rows 1 .. n-1, skips rows already filled, and gives each other row the
    distance to the row after it when that row is of the same route, or
    else the distance back to the first row of its route, closing the cycle.

    The routing service is an oracle; so are Python's `float` on a text and
    `round`.  Each call of the service is recorded as the row it fills and
    the row it measures to. */
module FetchOsmDd {
  import opened Errors
  import Utils

  /** A CSV cell: text as read, or a number the loop wrote. */
  datatype Cell = Text(text: string) | Number(number: real)

  type Row = seq<Cell>

  const Unknown: Cell := Text("-")

  /** An end point as handed to the routing service: converted with
      `float`, or the two cells as they are. */
  datatype Coordinate = Floats(lat: real, lon: real) | Cells(latCell: Cell, lonCell: Cell)

  datatype Env = Env(
    fetch: (Coordinate, Coordinate) -> Utils.OsmResponse,   // the HTTP request, answered
    parseFloat: string -> Option<real>,                     // float(text); None raises ValueError
    round3: real -> real,                                   // round(x, 3)
    round0: real -> real)                                   // round(x, 0)

  /** The loop as the script has it, or with both of its faults corrected:
      a skipped row keeps the route bookkeeping, and the cycle-closing
      call gets floats like the other one. */
  datatype Variant = AsWritten | Corrected

  /** One call of the routing service: the row being filled and the row
      whose stop is the destination. */
  datatype Call = Call(row: nat, target: nat)

  /** What the loop leaves: the table, the calls made in order, and the
      exception that ended it, if any. */
  datatype Filled = Filled(rows: seq<Row>, calls: seq<Call>, error: Option<Error>)

  /** `f"{c:.6f}"`: a text cell raises ValueError. */
  function FormatCell(c: Cell): Option<Error> {
    match c
    case Number(_) => None
    case Text(t) => Some(FloatFormatOfText(t))
  }

  function FormatPoint(p: Coordinate): Option<Error> {
    match p
    case Floats(_, _) => None
    case Cells(lat, lon) => if FormatCell(lat).Some? then FormatCell(lat) else FormatCell(lon)
  }

  /** The progress line of `drive_distance_osm`, which formats the origin
      and then the destination with `:.6f`. */
  function FormatPoints(origin: Coordinate, destination: Coordinate): (r: Option<Error>)
    ensures r.None? <==> FormatPoint(origin).None? && FormatPoint(destination).None?
    ensures (origin.Floats? && destination.Floats?) ==> r.None?
  {
    if FormatPoint(origin).Some? then FormatPoint(origin) else FormatPoint(destination)
  }

  /** The script's `drive_distance_osm` on the service's answer: a code
      other than "Ok" raises ValueError, an answer without routes cannot be
      indexed, the progress line may raise; otherwise the first route's
      distance in km and duration in minutes. */
  function DriveDistance(res: Utils.OsmResponse, origin: Coordinate, destination: Coordinate): (r: Result<(real, real)>)
    ensures r.Ok? <==> res.code == "Ok" && res.routes != [] && FormatPoints(origin, destination).None?
    ensures res.code != "Ok" ==> r == Err(RouteNotFound(res.code)) && r.error.Class() == ValueError
    ensures r.Ok? ==> r.value == (res.routes[0].distance / 1000.0, res.routes[0].duration / 60.0)
  {
    if res.code != "Ok" then Err(RouteNotFound(res.code))
    else if res.routes == [] then Err(IndexOutOfRange)
    else if FormatPoints(origin, destination).Some? then Err(FormatPoints(origin, destination).value)
    else Ok((res.routes[0].distance / 1000.0, res.routes[0].duration / 60.0))
  }

  /** `float(cell)`. */
  function ToFloat(c: Cell, env: Env): Result<real> {
    match c
    case Number(x) => Ok(x)
    case Text(t) =>
      match env.parseFloat(t)
      case None => Err(NotAFloat(t))
      case Some(x) => Ok(x)
  }

  /** `(float(row[2]), float(row[3]))`, converted in that order. */
  function FloatPoint(row: Row, env: Env): Result<Coordinate>
    requires |row| >= 4
  {
    match ToFloat(row[2], env)
    case Err(e) => Err(e)
    case Ok(lat) =>
      match ToFloat(row[3], env)
      case Err(e) => Err(e)
      case Ok(lon) => Ok(Floats(lat, lon))
  }

  /** The input the loop needs: a header and at least one data row, row n
      present (row i + 1 is read for i = n - 1), and six columns in every
      data row. */
  ghost predicate WellFormed(rows: seq<Row>, n: nat) {
    |rows| >= 2 && |rows| > n && forall r :: 1 <= r < |rows| ==> |rows[r]| >= 6
  }

  /** The end points of the call filling row `i` towards row `target`: the
      successor is converted with `float`; the first row of the route is
      converted only by the corrected loop. */
  function Query(rows: seq<Row>, i: nat, target: nat, v: Variant, env: Env): Result<(Coordinate, Coordinate)>
    requires 1 <= i < |rows| && 1 <= target < |rows|
    requires |rows[i]| >= 6 && |rows[target]| >= 6
  {
    if target == i + 1 || v == Corrected then
      match FloatPoint(rows[i], env)
      case Err(e) => Err(e)
      case Ok(origin) =>
        match FloatPoint(rows[target], env)
        case Err(e) => Err(e)
        case Ok(destination) => Ok((origin, destination))
    else Ok((Cells(rows[i][2], rows[i][3]), Cells(rows[target][2], rows[target][3])))
  }

  /** A row with its distance and duration written. */
  function WriteRow(row: Row, answer: (real, real), env: Env): Row
    requires |row| >= 6
  {
    row[4 := Number(env.round3(answer.0))][5 := Number(env.round0(answer.1))]
  }

  /** The loop from row `i` on, with the current `route` and
      `route_begin_index`. */
  function FillFrom(rows: seq<Row>, n: nat, i: nat, route: Cell, begin: nat, v: Variant, env: Env): Filled
    requires WellFormed(rows, n) && 1 <= begin <= i
    decreases n - i
  {
    if i >= n then Filled(rows, [], None)
    else if rows[i][4] != Unknown then
      if v == AsWritten then FillFrom(rows, n, i + 1, route, i, v, env)
      else if rows[i + 1][0] == route then FillFrom(rows, n, i + 1, route, begin, v, env)
      else FillFrom(rows, n, i + 1, rows[i + 1][0], i + 1, v, env)
    else
      var same := rows[i + 1][0] == route;
      var target := if same then i + 1 else begin;
      match Query(rows, i, target, v, env)
      case Err(e) => Filled(rows, [], Some(e))
      case Ok(ends) =>
        match DriveDistance(env.fetch(ends.0, ends.1), ends.0, ends.1)
        case Err(e) => Filled(rows, [Call(i, target)], Some(e))
        case Ok(answer) =>
          var rest := FillFrom(rows[i := WriteRow(rows[i], answer, env)], n, i + 1,
                               if same then route else rows[i + 1][0], if same then begin else i + 1, v, env);
          Filled(rest.rows, [Call(i, target)] + rest.calls, rest.error)
  }

  /** `calculate_distance_duration(data, n)`. */
  function Fill(rows: seq<Row>, n: nat, v: Variant, env: Env): Filled
    requires WellFormed(rows, n)
  {
    FillFrom(rows, n, 1, rows[1][0], 1, v, env)
  }

  function After(calls: seq<Call>, f: Filled): Filled {
    Filled(f.rows, calls + f.calls, f.error)
  }

  lemma AfterAfter(a: seq<Call>, b: seq<Call>, f: Filled)
    ensures After(a, After(b, f)) == After(a + b, f)
  {
    assert a + (b + f.calls) == (a + b) + f.calls;
  }

  /** `calculate_distance_duration(data, n)`, filling `data` in place and
      returning the calls it made and the exception it raised, if any; the
      rows written before an exception stay written. */
  method CalculateDistanceDuration(data: array<Row>, n: nat, env: Env) returns (calls: seq<Call>, error: Option<Error>)
    requires WellFormed(data[..], n)
    modifies data
    ensures Filled(data[..], calls, error) == Fill(old(data[..]), n, AsWritten, env)
  {
    ghost var goal := Fill(data[..], n, AsWritten, env);
    var route := data[1][0];
    var begin := 1;
    calls := [];
    var i := 1;
    while i < n
      invariant 1 <= begin <= i
      invariant WellFormed(data[..], n)
      invariant goal == After(calls, FillFrom(data[..], n, i, route, begin, AsWritten, env))
      decreases n - i
    {
      if data[i][4] != Unknown {
        FillFromStepSkips(data[..], n, i, route, begin, env);
        begin := i;
        i := i + 1;
        continue;
      }
      ghost var rows, route0, begin0 := data[..], route, begin;
      var target;
      if data[i + 1][0] == route {
        target := i + 1;
      } else {
        target := begin;
        route := data[i + 1][0];
      }
      var requested, answer := RequestRow(data, n, i, target, env);
      if requested {
        calls := calls + [Call(i, target)];
      }
      if answer.Err? {
        FillFromStepRaises(rows, n, i, route0, begin0, target, AsWritten, env);
        return calls, Some(answer.error);
      }
      FillFromStepWrites(rows, n, i, route0, begin0, target, answer.value, AsWritten, env);
      AfterAfter(calls[..|calls| - 1], [Call(i, target)], FillFrom(rows[i := WriteRow(rows[i], answer.value, env)], n, i + 1,
        if target == i + 1 then route0 else rows[i + 1][0], if target == i + 1 then begin0 else i + 1, AsWritten, env));
      WrittenWellFormed(rows, n, i, WriteRow(rows[i], answer.value, env));
      data[i] := WriteRow(data[i], answer.value, env);
      if target != i + 1 {
        begin := i + 1;
      }
      assert data[..] == rows[i := WriteRow(rows[i], answer.value, env)];
      i := i + 1;
    }
    error := None;
  }

  /** The request for the unknown row `i` towards `target`: it is made when
      both end points convert, and gives the service's answer or the
      exception the conversion or the call raised. */
  method RequestRow(data: array<Row>, n: nat, i: nat, target: nat, env: Env) returns (requested: bool, answer: Result<(real, real)>)
    requires WellFormed(data[..], n) && 1 <= i < n && 1 <= target <= i + 1
    ensures requested <==> Query(data[..], i, target, AsWritten, env).Ok?
    ensures answer == Answer(data[..], n, Call(i, target), AsWritten, env)
    ensures !requested ==> answer.Err?
  {
    var ends := Query(data[..], i, target, AsWritten, env);
    if ends.Err? {
      return false, Err(ends.error);
    }
    answer := DriveDistance(env.fetch(ends.value.0, ends.value.1), ends.value.0, ends.value.1);
    requested := true;
  }

  /** One step of the script at a filled row. */
  lemma FillFromStepSkips(rows: seq<Row>, n: nat, i: nat, route: Cell, begin: nat, env: Env)
    requires WellFormed(rows, n) && 1 <= begin <= i < n && rows[i][4] != Unknown
    ensures FillFrom(rows, n, i, route, begin, AsWritten, env) == FillFrom(rows, n, i + 1, route, i, AsWritten, env)
  {
  }

  /** One step of the loop at an unknown row whose call raised. */
  lemma FillFromStepRaises(rows: seq<Row>, n: nat, i: nat, route: Cell, begin: nat, target: nat, v: Variant, env: Env)
    requires WellFormed(rows, n) && 1 <= begin <= i < n && rows[i][4] == Unknown
    requires target == if rows[i + 1][0] == route then i + 1 else begin
    requires Answer(rows, n, Call(i, target), v, env).Err?
    ensures FillFrom(rows, n, i, route, begin, v, env) ==
            Filled(rows, if Query(rows, i, target, v, env).Err? then [] else [Call(i, target)], Some(Answer(rows, n, Call(i, target), v, env).error))
  {
  }

  /** One step of the loop at an unknown row whose call succeeded. */
  lemma FillFromStepWrites(rows: seq<Row>, n: nat, i: nat, route: Cell, begin: nat, target: nat, answer: (real, real), v: Variant, env: Env)
    requires WellFormed(rows, n) && 1 <= begin <= i < n && rows[i][4] == Unknown
    requires target == if rows[i + 1][0] == route then i + 1 else begin
    requires Answer(rows, n, Call(i, target), v, env) == Ok(answer)
    ensures FillFrom(rows, n, i, route, begin, v, env) ==
            After([Call(i, target)], FillFrom(rows[i := WriteRow(rows[i], answer, env)], n, i + 1,
                                              if target == i + 1 then route else rows[i + 1][0],
                                              if target == i + 1 then begin else i + 1, v, env))
  {
  }

  // ---------------------------------------------------------------------
  // What the loop changes

  /** `out` is `rows` with at most columns 4 and 5 of the unknown rows of
      [i, n) rewritten. */
  ghost predicate Framed(rows: seq<Row>, n: nat, i: nat, out: seq<Row>) {
    |out| == |rows| &&
    (forall r :: 0 <= r < |rows| ==> |out[r]| == |rows[r]|) &&
    (forall r :: 0 <= r < |rows| && (r < i || r >= n || |rows[r]| < 5 || rows[r][4] != Unknown) ==> out[r] == rows[r]) &&
    (forall r, c :: 0 <= r < |rows| && 0 <= c < |rows[r]| && c != 4 && c != 5 ==> out[r][c] == rows[r][c])
  }

  /** Only columns 4 and 5 of rows 1 .. n-1 that were still unknown are
      written; the header, the rows from n on and the filled rows stay. */
  lemma {:induction false} FillFromFrame(rows: seq<Row>, n: nat, i: nat, route: Cell, begin: nat, v: Variant, env: Env)
    requires WellFormed(rows, n) && 1 <= begin <= i
    ensures Framed(rows, n, i, FillFrom(rows, n, i, route, begin, v, env).rows)
    decreases n - i
  {
    if i < n {
      var same := rows[i + 1][0] == route;
      var route' := if same then route else rows[i + 1][0];
      var begin' := if same then begin else i + 1;
      if rows[i][4] != Unknown {
        if v == AsWritten {
          assert FillFrom(rows, n, i, route, begin, v, env) == FillFrom(rows, n, i + 1, route, i, v, env);
          FillFromFrame(rows, n, i + 1, route, i, v, env);
        } else {
          assert FillFrom(rows, n, i, route, begin, v, env) == FillFrom(rows, n, i + 1, route', begin', v, env);
          FillFromFrame(rows, n, i + 1, route', begin', v, env);
        }
      } else {
        var target := if same then i + 1 else begin;
        var ends := Query(rows, i, target, v, env);
        if ends.Ok? {
          var answer := DriveDistance(env.fetch(ends.value.0, ends.value.1), ends.value.0, ends.value.1);
          if answer.Ok? {
            var row' := WriteRow(rows[i], answer.value, env);
            var rest := FillFrom(rows[i := row'], n, i + 1, route', begin', v, env);
            assert FillFrom(rows, n, i, route, begin, v, env).rows == rest.rows;
            FillFromFrame(rows[i := row'], n, i + 1, route', begin', v, env);
            FramedWrite(rows, n, i, row', rest.rows);
          }
        }
      }
    }
  }

  /** Rewriting columns 4 and 5 of the unknown row `i` keeps the frame. */
  lemma FramedWrite(rows: seq<Row>, n: nat, i: nat, row': Row, out: seq<Row>)
    requires WellFormed(rows, n) && 1 <= i < n && rows[i][4] == Unknown
    requires |row'| == |rows[i]| && forall c :: 0 <= c < |row'| && c != 4 && c != 5 ==> row'[c] == rows[i][c]
    requires Framed(rows[i := row'], n, i + 1, out)
    ensures Framed(rows, n, i, out)
  {
  }

  /** The table after the loop: same shape, header and rows from n on
      untouched, filled rows untouched, columns other than 4 and 5 untouched. */
  lemma FillKeepsTable(rows: seq<Row>, n: nat, v: Variant, env: Env, f: Filled)
    requires WellFormed(rows, n)
    requires f == Fill(rows, n, v, env)
    ensures |f.rows| == |rows| && f.rows[0] == rows[0] &&
            (forall r :: 0 <= r < |rows| ==> |f.rows[r]| == |rows[r]|) &&
            (forall r :: n <= r < |rows| ==> f.rows[r] == rows[r]) &&
            (forall r :: 1 <= r < |rows| && rows[r][4] != Unknown ==> f.rows[r] == rows[r]) &&
            (forall r, c :: 0 <= r < |rows| && 0 <= c < |rows[r]| && c != 4 && c != 5 ==> f.rows[r][c] == rows[r][c])
  {
    FillFromFrame(rows, n, 1, rows[1][0], 1, v, env);
  }

  // ---------------------------------------------------------------------
  // Which calls the loop makes

  /** The rows from `i` up to `n`, in order, whose distance is still unknown. */
  function Unfilled(rows: seq<Row>, i: nat, n: nat): seq<nat>
    requires WellFormed(rows, n) && 1 <= i
    decreases n - i
  {
    if i >= n then [] else (if rows[i][4] == Unknown then [i] else []) + Unfilled(rows, i + 1, n)
  }

  /** The unknown rows of [i, n), each once, in ascending order. */
  lemma {:induction false} UnfilledSpec(rows: seq<Row>, i: nat, n: nat)
    requires WellFormed(rows, n) && 1 <= i
    ensures (forall k :: 0 <= k < |Unfilled(rows, i, n)| ==> i <= Unfilled(rows, i, n)[k] < n && rows[Unfilled(rows, i, n)[k]][4] == Unknown) &&
            (forall k, l :: 0 <= k < l < |Unfilled(rows, i, n)| ==> Unfilled(rows, i, n)[k] < Unfilled(rows, i, n)[l]) &&
            (forall r :: i <= r < n && rows[r][4] == Unknown ==> r in Unfilled(rows, i, n))
  {
    UnfilledBounds(rows, i, n);
    UnfilledAscending(rows, i, n);
    UnfilledComplete(rows, i, n);
  }

  lemma {:induction false} UnfilledBounds(rows: seq<Row>, i: nat, n: nat)
    requires WellFormed(rows, n) && 1 <= i
    ensures forall k :: 0 <= k < |Unfilled(rows, i, n)| ==> i <= Unfilled(rows, i, n)[k] < n && rows[Unfilled(rows, i, n)[k]][4] == Unknown
    decreases n - i
  {
    if i < n {
      UnfilledBounds(rows, i + 1, n);
      var tail := Unfilled(rows, i + 1, n);
      var u := Unfilled(rows, i, n);
      var head: seq<nat> := if rows[i][4] == Unknown then [i] else [];
      assert u == head + tail;
      forall k | 0 <= k < |u| ensures i <= u[k] < n && rows[u[k]][4] == Unknown {
        if k >= |head| {
          assert u[k] == tail[k - |head|];
        }
      }
    }
  }

  lemma {:induction false} UnfilledAscending(rows: seq<Row>, i: nat, n: nat)
    requires WellFormed(rows, n) && 1 <= i
    ensures forall k, l :: 0 <= k < l < |Unfilled(rows, i, n)| ==> Unfilled(rows, i, n)[k] < Unfilled(rows, i, n)[l]
    decreases n - i
  {
    if i < n {
      UnfilledAscending(rows, i + 1, n);
      UnfilledBounds(rows, i + 1, n);
      var tail := Unfilled(rows, i + 1, n);
      if rows[i][4] == Unknown {
        var u := [i] + tail;
        assert Unfilled(rows, i, n) == u;
        forall k, l | 0 <= k < l < |u| ensures u[k] < u[l] {
          assert u[l] == tail[l - 1];
          if k > 0 {
            assert u[k] == tail[k - 1];
          }
        }
      }
    }
  }

  lemma {:induction false} UnfilledComplete(rows: seq<Row>, i: nat, n: nat)
    requires WellFormed(rows, n) && 1 <= i
    ensures forall r :: i <= r < n && rows[r][4] == Unknown ==> r in Unfilled(rows, i, n)
    decreases n - i
  {
    if i < n {
      UnfilledComplete(rows, i + 1, n);
      var tail := Unfilled(rows, i + 1, n);
      assert Unfilled(rows, i, n) == (if rows[i][4] == Unknown then [i] else []) + tail;
    }
  }

  /** Writing a row of six or more cells keeps the table well formed. */
  lemma WrittenWellFormed(rows: seq<Row>, n: nat, i: nat, row: Row)
    requires WellFormed(rows, n) && 1 <= i < |rows| && |row| >= 6
    ensures WellFormed(rows[i := row], n)
  {
    var rows' := rows[i := row];
    forall r | 1 <= r < |rows'| ensures |rows'[r]| >= 6 {
      if r != i {
        assert rows'[r] == rows[r];
      }
    }
  }

  /** Writing a row before `j` does not change which rows from `j` on are
      unknown. */
  lemma {:induction false} UnfilledUpdate(rows: seq<Row>, i: nat, row: Row, j: nat, n: nat)
    requires WellFormed(rows, n) && 1 <= i < j && i < |rows| && |row| >= 6
    ensures WellFormed(rows[i := row], n)
    ensures Unfilled(rows[i := row], j, n) == Unfilled(rows, j, n)
    decreases n - j
  {
    var rows' := rows[i := row];
    WrittenWellFormed(rows, n, i, row);
    if j < n {
      UnfilledUpdate(rows, i, row, j + 1, n);
      assert rows'[j] == rows[j];
      assert Unfilled(rows', j, n) == (if rows[j][4] == Unknown then [j] else []) + Unfilled(rows', j + 1, n);
    }
  }

  function CallRows(calls: seq<Call>): seq<nat> {
    seq(|calls|, k requires 0 <= k < |calls| => calls[k].row)
  }

  /** Each call fills a row of [i, n) and measures to an earlier row, to
      itself or to the next row. */
  lemma {:induction false} FillFromCallBounds(rows: seq<Row>, n: nat, i: nat, route: Cell, begin: nat, v: Variant, env: Env)
    requires WellFormed(rows, n) && 1 <= begin <= i
    ensures forall k :: 0 <= k < |FillFrom(rows, n, i, route, begin, v, env).calls| ==> i <= FillFrom(rows, n, i, route, begin, v, env).calls[k].row < n && 1 <= FillFrom(rows, n, i, route, begin, v, env).calls[k].target <= FillFrom(rows, n, i, route, begin, v, env).calls[k].row + 1
    decreases n - i
  {
    if i < n {
      var same := rows[i + 1][0] == route;
      if rows[i][4] != Unknown {
        if v == AsWritten {
          assert FillFrom(rows, n, i, route, begin, v, env) == FillFrom(rows, n, i + 1, route, i, v, env);
          FillFromCallBounds(rows, n, i + 1, route, i, v, env);
        } else if same {
          assert FillFrom(rows, n, i, route, begin, v, env) == FillFrom(rows, n, i + 1, route, begin, v, env);
          FillFromCallBounds(rows, n, i + 1, route, begin, v, env);
        } else {
          assert FillFrom(rows, n, i, route, begin, v, env) == FillFrom(rows, n, i + 1, rows[i + 1][0], i + 1, v, env);
          FillFromCallBounds(rows, n, i + 1, rows[i + 1][0], i + 1, v, env);
        }
      } else {
        var target := if same then i + 1 else begin;
        var ends := Query(rows, i, target, v, env);
        if ends.Ok? {
          var answer := DriveDistance(env.fetch(ends.value.0, ends.value.1), ends.value.0, ends.value.1);
          if answer.Ok? {
            var rows' := rows[i := WriteRow(rows[i], answer.value, env)];
            var route' := if same then route else rows[i + 1][0];
            var begin' := if same then begin else i + 1;
            var rest := FillFrom(rows', n, i + 1, route', begin', v, env);
            assert FillFrom(rows, n, i, route, begin, v, env).calls == [Call(i, target)] + rest.calls;
            FillFromCallBounds(rows', n, i + 1, route', begin', v, env);
          }
        }
      }
    }
  }

  /** The calls made from row `i` on fill the unknown rows of [i, n) in
      order, one call each, stopping at the first exception; without one,
      every unknown row had its call. */
  ghost predicate CallsFollow(rows: seq<Row>, n: nat, i: nat, f: Filled)
    requires WellFormed(rows, n) && 1 <= i
  {
    CallRows(f.calls) <= Unfilled(rows, i, n) && (f.error.None? ==> CallRows(f.calls) == Unfilled(rows, i, n))
  }

  /** One more call in front for the unknown row `i`. */
  lemma CallsStep(rows: seq<Row>, row': Row, n: nat, i: nat, c: Call, rest: Filled)
    requires WellFormed(rows, n) && 1 <= i < n && rows[i][4] == Unknown && |row'| >= 6 && c.row == i
    requires CallsFollow(rows[i := row'], n, i + 1, rest)
    ensures CallsFollow(rows, n, i, Filled(rest.rows, [c] + rest.calls, rest.error))
  {
    UnfilledUpdate(rows, i, row', i + 1, n);
    assert Unfilled(rows, i, n) == [i] + Unfilled(rows, i + 1, n);
    assert CallRows([c] + rest.calls) == [i] + CallRows(rest.calls);
  }

  lemma {:induction false} FillFromCalls(rows: seq<Row>, n: nat, i: nat, route: Cell, begin: nat, v: Variant, env: Env)
    requires WellFormed(rows, n) && 1 <= begin <= i
    ensures CallsFollow(rows, n, i, FillFrom(rows, n, i, route, begin, v, env))
    decreases n - i
  {
    if i < n {
      var same := rows[i + 1][0] == route;
      var route' := if same then route else rows[i + 1][0];
      var begin' := if same then begin else i + 1;
      if rows[i][4] != Unknown {
        if v == AsWritten {
          FillFromCalls(rows, n, i + 1, route, i, v, env);
          SkipCalls(rows, n, i, route, begin, route, i, v, env);
        } else {
          FillFromCalls(rows, n, i + 1, route', begin', v, env);
          SkipCalls(rows, n, i, route, begin, route', begin', v, env);
        }
      } else {
        var target := if same then i + 1 else begin;
        var ends := Query(rows, i, target, v, env);
        if ends.Err? {
          assert FillFrom(rows, n, i, route, begin, v, env).calls == [];
        } else {
          var answer := DriveDistance(env.fetch(ends.value.0, ends.value.1), ends.value.0, ends.value.1);
          if answer.Err? {
            assert FillFrom(rows, n, i, route, begin, v, env) == Filled(rows, [Call(i, target)], Some(answer.error));
            CallsStep(rows, rows[i], n, i, Call(i, target), Filled(rows, [], Some(answer.error)));
          } else {
            var row' := WriteRow(rows[i], answer.value, env);
            FillFromCalls(rows[i := row'], n, i + 1, route', begin', v, env);
            WriteCalls(rows, n, i, route, begin, target, answer.value, v, env);
          }
        }
      }
    }
  }

  /** A filled row makes no call: the calls are those from the next row on,
      with the bookkeeping the variant keeps. */
  lemma SkipCalls(rows: seq<Row>, n: nat, i: nat, route: Cell, begin: nat, route': Cell, begin': nat, v: Variant, env: Env)
    requires WellFormed(rows, n) && 1 <= begin <= i < n && rows[i][4] != Unknown
    requires v == AsWritten ==> route' == route && begin' == i
    requires v == Corrected ==> route' == (if rows[i + 1][0] == route then route else rows[i + 1][0])
                                && begin' == (if rows[i + 1][0] == route then begin else i + 1)
    requires CallsFollow(rows, n, i + 1, FillFrom(rows, n, i + 1, route', begin', v, env))
    ensures CallsFollow(rows, n, i, FillFrom(rows, n, i, route, begin, v, env))
  {
    assert Unfilled(rows, i, n) == Unfilled(rows, i + 1, n);
    assert FillFrom(rows, n, i, route, begin, v, env) == FillFrom(rows, n, i + 1, route', begin', v, env);
  }

  /** An unknown row whose call succeeded: its call comes first, then those
      from the next row on, over the written table. */
  lemma WriteCalls(rows: seq<Row>, n: nat, i: nat, route: Cell, begin: nat, target: nat, answer: (real, real), v: Variant, env: Env)
    requires WellFormed(rows, n) && 1 <= begin <= i < n && rows[i][4] == Unknown
    requires target == if rows[i + 1][0] == route then i + 1 else begin
    requires Query(rows, i, target, v, env).Ok?
    requires DriveDistance(env.fetch(Query(rows, i, target, v, env).value.0, Query(rows, i, target, v, env).value.1),
                           Query(rows, i, target, v, env).value.0, Query(rows, i, target, v, env).value.1) == Ok(answer)
    requires CallsFollow(rows[i := WriteRow(rows[i], answer, env)], n, i + 1,
                         FillFrom(rows[i := WriteRow(rows[i], answer, env)], n, i + 1,
                                  if rows[i + 1][0] == route then route else rows[i + 1][0],
                                  if rows[i + 1][0] == route then begin else i + 1, v, env))
    ensures CallsFollow(rows, n, i, FillFrom(rows, n, i, route, begin, v, env))
  {
    var row' := WriteRow(rows[i], answer, env);
    var same := rows[i + 1][0] == route;
    var rest := FillFrom(rows[i := row'], n, i + 1, if same then route else rows[i + 1][0], if same then begin else i + 1, v, env);
    assert FillFrom(rows, n, i, route, begin, v, env) == Filled(rest.rows, [Call(i, target)] + rest.calls, rest.error);
    CallsStep(rows, row', n, i, Call(i, target), rest);
  }

  /** Over the whole table: the calls fill rows 1 .. n-1 that were unknown,
      each once and in ascending order, up to the first exception (the rows
      called are a prefix of the unknown rows, so none before the failing
      one is skipped), and all of them when there is none. */
  lemma FillCallsInOrder(rows: seq<Row>, n: nat, v: Variant, env: Env, f: Filled)
    requires WellFormed(rows, n)
    requires f == Fill(rows, n, v, env)
    ensures CallRows(f.calls) <= Unfilled(rows, 1, n)
    ensures (forall k :: 0 <= k < |f.calls| ==> 1 <= f.calls[k].row < n && rows[f.calls[k].row][4] == Unknown) &&
            (forall k, l :: 0 <= k < l < |f.calls| ==> f.calls[k].row < f.calls[l].row) &&
            (f.error.None? ==> forall r :: 1 <= r < n && rows[r][4] == Unknown ==> r in CallRows(f.calls))
  {
    FillFromCalls(rows, n, 1, rows[1][0], 1, v, env);
    UnfilledSpec(rows, 1, n);
    var u := Unfilled(rows, 1, n);
    assert forall k :: 0 <= k < |f.calls| ==> f.calls[k].row == u[k] by {
      forall k | 0 <= k < |f.calls| ensures f.calls[k].row == u[k] {
        assert CallRows(f.calls)[k] == f.calls[k].row;
      }
    }
  }

  /** `out` is `rows` except at the rows `calls` were made for. */
  ghost predicate KeepsUncalled(rows: seq<Row>, calls: seq<Call>, out: seq<Row>) {
    |out| == |rows| && forall r :: 0 <= r < |rows| && r !in CallRows(calls) ==> out[r] == rows[r]
  }

  /** One more call in front, for row `i`, over the table with row `i` rewritten. */
  lemma KeepsUncalledStep(rows: seq<Row>, row': Row, i: nat, c: Call, rest: Filled)
    requires 0 <= i < |rows| && c.row == i
    requires KeepsUncalled(rows[i := row'], rest.calls, rest.rows)
    ensures KeepsUncalled(rows, [c] + rest.calls, rest.rows)
  {
    assert CallRows([c] + rest.calls) == [i] + CallRows(rest.calls);
  }

  lemma {:induction false} FillFromKeepsUncalled(rows: seq<Row>, n: nat, i: nat, route: Cell, begin: nat, v: Variant, env: Env)
    requires WellFormed(rows, n) && 1 <= begin <= i
    ensures KeepsUncalled(rows, FillFrom(rows, n, i, route, begin, v, env).calls, FillFrom(rows, n, i, route, begin, v, env).rows)
    decreases n - i
  {
    if i < n {
      var same := rows[i + 1][0] == route;
      var route' := if same then route else rows[i + 1][0];
      var begin' := if same then begin else i + 1;
      if rows[i][4] != Unknown {
        if v == AsWritten {
          assert FillFrom(rows, n, i, route, begin, v, env) == FillFrom(rows, n, i + 1, route, i, v, env);
          FillFromKeepsUncalled(rows, n, i + 1, route, i, v, env);
        } else {
          assert FillFrom(rows, n, i, route, begin, v, env) == FillFrom(rows, n, i + 1, route', begin', v, env);
          FillFromKeepsUncalled(rows, n, i + 1, route', begin', v, env);
        }
      } else {
        var target := if same then i + 1 else begin;
        var ends := Query(rows, i, target, v, env);
        if ends.Ok? {
          var answer := DriveDistance(env.fetch(ends.value.0, ends.value.1), ends.value.0, ends.value.1);
          if answer.Ok? {
            var row' := WriteRow(rows[i], answer.value, env);
            var rest := FillFrom(rows[i := row'], n, i + 1, route', begin', v, env);
            assert FillFrom(rows, n, i, route, begin, v, env) == Filled(rest.rows, [Call(i, target)] + rest.calls, rest.error);
            FillFromKeepsUncalled(rows[i := row'], n, i + 1, route', begin', v, env);
            KeepsUncalledStep(rows, row', i, Call(i, target), rest);
          }
        }
      }
    }
  }

  /** Over the whole table: a row the loop made no call for keeps all its
      cells, so an exception leaves every unknown row after the failing one
      as it was. */
  lemma FillKeepsUncalledRows(rows: seq<Row>, n: nat, v: Variant, env: Env, f: Filled)
    requires WellFormed(rows, n)
    requires f == Fill(rows, n, v, env)
    ensures |f.rows| == |rows|
    ensures forall r :: 0 <= r < |rows| && r !in CallRows(f.calls) ==> f.rows[r] == rows[r]
  {
    FillFromKeepsUncalled(rows, n, 1, rows[1][0], 1, v, env);
  }

  // ---------------------------------------------------------------------
  // What the loop writes

  /** The service's answer for a call, on the coordinates of `rows`. */
  function Answer(rows: seq<Row>, n: nat, c: Call, v: Variant, env: Env): Result<(real, real)>
    requires WellFormed(rows, n) && 1 <= c.row < |rows| && 1 <= c.target < |rows|
  {
    match Query(rows, c.row, c.target, v, env)
    case Err(e) => Err(e)
    case Ok(ends) => DriveDistance(env.fetch(ends.0, ends.1), ends.0, ends.1)
  }

  /** Answers depend on the coordinate columns only. */
  lemma AnswerFrame(rows: seq<Row>, rows': seq<Row>, n: nat, c: Call, v: Variant, env: Env)
    requires WellFormed(rows, n) && WellFormed(rows', n) && |rows'| == |rows|
    requires 1 <= c.row < |rows| && 1 <= c.target < |rows|
    requires rows'[c.row][2] == rows[c.row][2] && rows'[c.row][3] == rows[c.row][3]
    requires rows'[c.target][2] == rows[c.target][2] && rows'[c.target][3] == rows[c.target][3]
    ensures Answer(rows', n, c, v, env) == Answer(rows, n, c, v, env)
  {
  }

  /** Every call fills a row of [1, n) towards a row of [1, n]; each call
      but a raising last one was answered; a call that was answered wrote
      its answer into its row (the distance rounded to 3 digits in column 4,
      the duration rounded in column 5, the rest of the row as it was),
      and a call that raised left its row as it was. */
  ghost predicate WritesHold(rows: seq<Row>, n: nat, f: Filled, v: Variant, env: Env)
    requires WellFormed(rows, n)
  {
    |f.rows| == |rows| &&
    (forall k :: 0 <= k < |f.calls| ==> 1 <= f.calls[k].row < n && 1 <= f.calls[k].target <= n) &&
    (forall k :: 0 <= k < |f.calls| && (f.error.None? || k + 1 < |f.calls|) ==> Answer(rows, n, f.calls[k], v, env).Ok?) &&
    (forall k :: 0 <= k < |f.calls| && Answer(rows, n, f.calls[k], v, env).Ok? ==>
       f.rows[f.calls[k].row] == WriteRow(rows[f.calls[k].row], Answer(rows, n, f.calls[k], v, env).value, env)) &&
    (forall k :: 0 <= k < |f.calls| && Answer(rows, n, f.calls[k], v, env).Err? ==> f.rows[f.calls[k].row] == rows[f.calls[k].row])
  }

  /** A written row followed by calls that keep it and wrote later rows. */
  lemma WritesStep(rows: seq<Row>, rows': seq<Row>, n: nat, i: nat, target: nat, answer: (real, real), rest: Filled, v: Variant, env: Env)
    requires WellFormed(rows, n) && 1 <= i < n && 1 <= target <= i + 1
    requires rows' == rows[i := WriteRow(rows[i], answer, env)] && WellFormed(rows', n)
    requires Answer(rows, n, Call(i, target), v, env) == Ok(answer)
    requires WritesHold(rows', n, rest, v, env) && rest.rows[i] == rows'[i]
    requires forall k :: 0 <= k < |rest.calls| ==> i + 1 <= rest.calls[k].row
    ensures WritesHold(rows, n, Filled(rest.rows, [Call(i, target)] + rest.calls, rest.error), v, env)
  {
    var f := Filled(rest.rows, [Call(i, target)] + rest.calls, rest.error);
    forall k | 1 <= k < |f.calls|
      ensures Answer(rows, n, f.calls[k], v, env) == Answer(rows', n, rest.calls[k - 1], v, env)
      ensures rows[f.calls[k].row] == rows'[f.calls[k].row]
    {
      var c := f.calls[k];
      assert c == rest.calls[k - 1];
      AnswerFrame(rows, rows', n, c, v, env);
    }
  }

  lemma {:induction false} FillFromWrites(rows: seq<Row>, n: nat, i: nat, route: Cell, begin: nat, v: Variant, env: Env)
    requires WellFormed(rows, n) && 1 <= begin <= i
    ensures WritesHold(rows, n, FillFrom(rows, n, i, route, begin, v, env), v, env)
    decreases n - i
  {
    if i < n {
      var same := rows[i + 1][0] == route;
      if rows[i][4] != Unknown {
        if v == AsWritten {
          assert FillFrom(rows, n, i, route, begin, v, env) == FillFrom(rows, n, i + 1, route, i, v, env);
          FillFromWrites(rows, n, i + 1, route, i, v, env);
        } else if same {
          assert FillFrom(rows, n, i, route, begin, v, env) == FillFrom(rows, n, i + 1, route, begin, v, env);
          FillFromWrites(rows, n, i + 1, route, begin, v, env);
        } else {
          assert FillFrom(rows, n, i, route, begin, v, env) == FillFrom(rows, n, i + 1, rows[i + 1][0], i + 1, v, env);
          FillFromWrites(rows, n, i + 1, rows[i + 1][0], i + 1, v, env);
        }
      } else {
        var target := if same then i + 1 else begin;
        var answer := Answer(rows, n, Call(i, target), v, env);
        if answer.Ok? {
          var rows' := rows[i := WriteRow(rows[i], answer.value, env)];
          var route' := if same then route else rows[i + 1][0];
          var begin' := if same then begin else i + 1;
          FillFromWrites(rows', n, i + 1, route', begin', v, env);
          WriteWrites(rows, n, i, route, begin, target, answer.value, v, env);
        } else {
          RaiseWrites(rows, n, i, route, begin, target, v, env);
        }
      }
    }
  }

  /** An unknown row whose end points or call raised: at most its own call,
      unanswered, and the table as it was. */
  lemma RaiseWrites(rows: seq<Row>, n: nat, i: nat, route: Cell, begin: nat, target: nat, v: Variant, env: Env)
    requires WellFormed(rows, n) && 1 <= begin <= i < n && rows[i][4] == Unknown
    requires target == if rows[i + 1][0] == route then i + 1 else begin
    requires Answer(rows, n, Call(i, target), v, env).Err?
    ensures WritesHold(rows, n, FillFrom(rows, n, i, route, begin, v, env), v, env)
  {
    FillFromStepRaises(rows, n, i, route, begin, target, v, env);
  }

  /** An unknown row whose call succeeded: its write, then the writes from
      the next row on, over the written table. */
  lemma WriteWrites(rows: seq<Row>, n: nat, i: nat, route: Cell, begin: nat, target: nat, answer: (real, real), v: Variant, env: Env)
    requires WellFormed(rows, n) && 1 <= begin <= i < n && rows[i][4] == Unknown
    requires target == if rows[i + 1][0] == route then i + 1 else begin
    requires Answer(rows, n, Call(i, target), v, env) == Ok(answer)
    requires WritesHold(rows[i := WriteRow(rows[i], answer, env)], n,
                        FillFrom(rows[i := WriteRow(rows[i], answer, env)], n, i + 1,
                                 if rows[i + 1][0] == route then route else rows[i + 1][0],
                                 if rows[i + 1][0] == route then begin else i + 1, v, env), v, env)
    ensures WritesHold(rows, n, FillFrom(rows, n, i, route, begin, v, env), v, env)
  {
    var rows' := rows[i := WriteRow(rows[i], answer, env)];
    var same := rows[i + 1][0] == route;
    var route' := if same then route else rows[i + 1][0];
    var begin' := if same then begin else i + 1;
    var rest := FillFrom(rows', n, i + 1, route', begin', v, env);
    assert FillFrom(rows, n, i, route, begin, v, env) == Filled(rest.rows, [Call(i, target)] + rest.calls, rest.error);
    FillFromFrame(rows', n, i + 1, route', begin', v, env);
    FillFromCallBounds(rows', n, i + 1, route', begin', v, env);
    WritesStep(rows, rows', n, i, target, answer, rest, v, env);
  }

  /** Over the whole table: each call was answered unless it is the last
      one and raised; each answered call left the service's answer for its
      row and destination in its row, whether or not a later step raised;
      a call that raised left its row as it was. */
  lemma FillWrites(rows: seq<Row>, n: nat, v: Variant, env: Env, f: Filled)
    requires WellFormed(rows, n)
    requires f == Fill(rows, n, v, env)
    ensures |f.rows| == |rows|
    ensures forall k :: 0 <= k < |f.calls| ==> 1 <= f.calls[k].row < n && 1 <= f.calls[k].target <= n
    ensures forall k :: 0 <= k < |f.calls| && (f.error.None? || k + 1 < |f.calls|) ==> Answer(rows, n, f.calls[k], v, env).Ok?
    ensures forall k :: 0 <= k < |f.calls| && Answer(rows, n, f.calls[k], v, env).Ok? ==>
              f.rows[f.calls[k].row] == WriteRow(rows[f.calls[k].row], Answer(rows, n, f.calls[k], v, env).value, env)
    ensures forall k :: 0 <= k < |f.calls| && Answer(rows, n, f.calls[k], v, env).Err? ==> f.rows[f.calls[k].row] == rows[f.calls[k].row]
  {
    FillFromWrites(rows, n, 1, rows[1][0], 1, v, env);
  }

  // ---------------------------------------------------------------------
  // Where each call measures to

  /** The first row of the run of equal route ids that ends at row `i`. */
  function GroupStart(ids: seq<Cell>, i: nat): (r: nat)
    requires 1 <= i < |ids|
    ensures 1 <= r <= i
  {
    if i == 1 || ids[i - 1] != ids[i] then i else GroupStart(ids, i - 1)
  }

  /** Rows r .. i share the route id, and row r begins the route. */
  lemma {:induction false} GroupStartSpec(ids: seq<Cell>, i: nat)
    requires 1 <= i < |ids|
    ensures (forall k :: GroupStart(ids, i) <= k <= i ==> ids[k] == ids[i]) && (GroupStart(ids, i) == 1 || ids[GroupStart(ids, i) - 1] != ids[GroupStart(ids, i)])
  {
    if i > 1 && ids[i - 1] == ids[i] {
      GroupStartSpec(ids, i - 1);
    }
  }

  /** The row whose stop follows row `i`'s on its route: the next row when it
      is of the same route, else the route's first row. */
  function Target(ids: seq<Cell>, i: nat): nat
    requires 1 <= i && i + 1 < |ids|
  {
    if ids[i + 1] == ids[i] then i + 1 else GroupStart(ids, i)
  }

  /** The route ids of the rows. */
  function RouteColumn(rows: seq<Row>): (ids: seq<Cell>)
    ensures |ids| == |rows|
  {
    seq(|rows|, k requires 0 <= k < |rows| => if rows[k] == [] then Unknown else rows[k][0])
  }

  lemma RouteColumnOf(rows: seq<Row>, n: nat)
    requires WellFormed(rows, n)
    ensures forall r :: 1 <= r < |rows| ==> rows[r][0] == RouteColumn(rows)[r]
  {
  }

  /** Each call fills a row of the loop and measures to the stop that
      follows that row's on its route. */
  ghost predicate MeasureToNext(calls: seq<Call>, n: nat, ids: seq<Cell>) {
    forall k :: 0 <= k < |calls| ==> 1 <= calls[k].row < n && calls[k].row + 1 < |ids| && calls[k].target == Target(ids, calls[k].row)
  }

  /** Moving from row `i` to row `i + 1` keeps `route` the id of the row and
      `begin` the first row of its route, and the destination chosen at row
      `i` is the stop that follows on the route. */
  lemma NextGroup(ids: seq<Cell>, i: nat, route: Cell, begin: nat)
    requires 1 <= i && i + 1 < |ids| && route == ids[i] && begin == GroupStart(ids, i)
    ensures (if ids[i + 1] == route then route else ids[i + 1]) == ids[i + 1]
    ensures (if ids[i + 1] == route then begin else i + 1) == GroupStart(ids, i + 1)
    ensures (if ids[i + 1] == route then i + 1 else begin) == Target(ids, i)
  {
  }

  /** An unknown row whose call succeeded: its call, then the calls from the
      next row on. */
  lemma TargetsWrite(rows: seq<Row>, n: nat, i: nat, route: Cell, begin: nat, answer: (real, real), v: Variant, env: Env, ids: seq<Cell>)
    requires WellFormed(rows, n) && 1 <= begin <= i < n && rows[i][4] == Unknown
    requires |ids| == |rows| && (if rows[i + 1][0] == route then i + 1 else begin) == Target(ids, i)
    requires Answer(rows, n, Call(i, if rows[i + 1][0] == route then i + 1 else begin), v, env) == Ok(answer)
    requires MeasureToNext(FillFrom(rows[i := WriteRow(rows[i], answer, env)], n, i + 1,
                                    if rows[i + 1][0] == route then route else rows[i + 1][0],
                                    if rows[i + 1][0] == route then begin else i + 1, v, env).calls, n, ids)
    ensures MeasureToNext(FillFrom(rows, n, i, route, begin, v, env).calls, n, ids)
  {
    var same := rows[i + 1][0] == route;
    var rest := FillFrom(rows[i := WriteRow(rows[i], answer, env)], n, i + 1,
                         if same then route else rows[i + 1][0], if same then begin else i + 1, v, env);
    assert FillFrom(rows, n, i, route, begin, v, env).calls == [Call(i, if same then i + 1 else begin)] + rest.calls;
  }

  /** With `route` the id of row `i` and `begin` the first row of its route,
      every call measures to the stop that follows on the route.  The
      corrected loop keeps that bookkeeping across filled rows; the script
      keeps it only while no row is filled. */
  lemma {:induction false} FillFromTargets(rows: seq<Row>, n: nat, i: nat, route: Cell, begin: nat, v: Variant, env: Env, ids: seq<Cell>)
    requires WellFormed(rows, n) && 1 <= begin <= i
    requires |ids| == |rows| && forall r :: 1 <= r < |rows| ==> rows[r][0] == ids[r]
    requires i < |rows| ==> route == ids[i] && begin == GroupStart(ids, i)
    requires v == Corrected || forall r :: i <= r < n ==> rows[r][4] == Unknown
    ensures MeasureToNext(FillFrom(rows, n, i, route, begin, v, env).calls, n, ids)
    decreases n - i
  {
    if i < n {
      var same := rows[i + 1][0] == route;
      var route' := if same then route else rows[i + 1][0];
      var begin' := if same then begin else i + 1;
      NextGroup(ids, i, route, begin);
      if rows[i][4] != Unknown {
        if v == Corrected {
          assert FillFrom(rows, n, i, route, begin, v, env) == FillFrom(rows, n, i + 1, route', begin', v, env);
          FillFromTargets(rows, n, i + 1, route', begin', v, env, ids);
        }
      } else {
        var target := if same then i + 1 else begin;
        var answer := Answer(rows, n, Call(i, target), v, env);
        if answer.Ok? {
          var rows' := rows[i := WriteRow(rows[i], answer.value, env)];
          FillFromTargets(rows', n, i + 1, route', begin', v, env, ids);
          TargetsWrite(rows, n, i, route, begin, answer.value, v, env, ids);
        } else {
          assert FillFrom(rows, n, i, route, begin, v, env).calls == [] ||
                 FillFrom(rows, n, i, route, begin, v, env).calls == [Call(i, target)];
        }
      }
    }
  }

  /** The script without filled rows in the table: each call measures to
      the stop that follows on the route, the last stop back to the first. */
  lemma FillTargetsWithoutFilledRows(rows: seq<Row>, n: nat, env: Env, f: Filled)
    requires WellFormed(rows, n)
    requires f == Fill(rows, n, AsWritten, env)
    requires forall r :: 1 <= r < n ==> rows[r][4] == Unknown
    ensures forall k :: 0 <= k < |f.calls| ==> 1 <= f.calls[k].row < n && f.calls[k].target == Target(RouteColumn(rows), f.calls[k].row)
  {
    RouteColumnOf(rows, n);
    assert Fill(rows, n, AsWritten, env) == FillFrom(rows, n, 1, rows[1][0], 1, AsWritten, env);
    FillFromTargets(rows, n, 1, rows[1][0], 1, AsWritten, env, RouteColumn(rows));
  }

  /** The corrected loop, whatever rows are already filled: each call
      measures to the stop that follows on the route. */
  lemma CorrectedTargets(rows: seq<Row>, n: nat, env: Env, f: Filled)
    requires WellFormed(rows, n)
    requires f == Fill(rows, n, Corrected, env)
    ensures forall k :: 0 <= k < |f.calls| ==> 1 <= f.calls[k].row < n && f.calls[k].target == Target(RouteColumn(rows), f.calls[k].row)
  {
    RouteColumnOf(rows, n);
    FillFromTargets(rows, n, 1, rows[1][0], 1, Corrected, env, RouteColumn(rows));
  }

  // ---------------------------------------------------------------------
  // When the loop gets through

  /** Every coordinate text is a number and the service always finds a
      route. */
  ghost predicate Reliable(env: Env) {
    (forall t :: env.parseFloat(t).Some?) &&
    (forall o, d :: env.fetch(o, d).code == "Ok" && env.fetch(o, d).routes != [])
  }

  lemma {:induction false} FillFromCompletes(rows: seq<Row>, n: nat, i: nat, route: Cell, begin: nat, env: Env)
    requires WellFormed(rows, n) && 1 <= begin <= i && Reliable(env)
    ensures FillFrom(rows, n, i, route, begin, Corrected, env).error.None?
    decreases n - i
  {
    if i < n {
      var same := rows[i + 1][0] == route;
      var route' := if same then route else rows[i + 1][0];
      var begin' := if same then begin else i + 1;
      if rows[i][4] != Unknown {
        FillFromCompletes(rows, n, i + 1, route', begin', env);
      } else {
        var target := if same then i + 1 else begin;
        var ends := Query(rows, i, target, Corrected, env);
        assert ends.Ok? && ends.value.0.Floats? && ends.value.1.Floats?;
        var answer := DriveDistance(env.fetch(ends.value.0, ends.value.1), ends.value.0, ends.value.1);
        assert answer.Ok?;
        var rows' := rows[i := WriteRow(rows[i], answer.value, env)];
        FillFromCompletes(rows', n, i + 1, route', begin', env);
      }
    }
  }

  /** With a reliable service, the corrected loop raises nothing and fills
      every unknown row of 1 .. n-1 with the answer for the stop that
      follows it on its route. */
  lemma CorrectedFillsEveryRow(rows: seq<Row>, n: nat, env: Env, f: Filled)
    requires WellFormed(rows, n) && Reliable(env)
    requires f == Fill(rows, n, Corrected, env)
    ensures f.error.None? && |f.rows| == |rows| &&
            forall r :: 1 <= r < n && rows[r][4] == Unknown ==>
              var c := Call(r, Target(RouteColumn(rows), r));
              c in f.calls && Answer(rows, n, c, Corrected, env).Ok? &&
              f.rows[r] == WriteRow(rows[r], Answer(rows, n, c, Corrected, env).value, env)
  {
    FillFromCompletes(rows, n, 1, rows[1][0], 1, env);
    FillCallsInOrder(rows, n, Corrected, env, f);
    CorrectedTargets(rows, n, env, f);
    FillWrites(rows, n, Corrected, env, f);
    forall r | 1 <= r < n && rows[r][4] == Unknown
      ensures Call(r, Target(RouteColumn(rows), r)) in f.calls
    {
      var k :| 0 <= k < |CallRows(f.calls)| && CallRows(f.calls)[k] == r;
      assert f.calls[k] == Call(r, Target(RouteColumn(rows), r));
    }
  }

  // ---------------------------------------------------------------------
  // The script's two faults, on small tables

  const Header: Row := [Text("route"), Text("stop"), Text("lat"), Text("lng"), Text("distance"), Text("duration")]

  /** A route "A" of one stop already filled, then a route "B" of two stops
      still unknown. */
  const Resumed: seq<Row> := [
    Header,
    [Text("A"), Text("a1"), Text("1"), Text("2"), Text("0.0"), Text("0.0")],
    [Text("B"), Text("b1"), Text("3"), Text("4"), Unknown, Unknown],
    [Text("B"), Text("b2"), Text("5"), Text("6"), Unknown, Unknown]]

  /** The script resuming after a filled row: the filled row becomes the
      route's begin while `route` stays "A", so row 2 is taken for the last
      stop of its route and measured back to row 1, a stop of route "A",
      instead of to row 3. */
  lemma ResumeCounterexample(env: Env)
    ensures WellFormed(Resumed, 3)
    ensures Fill(Resumed, 3, AsWritten, env).calls[0] == Call(2, 1)
    ensures Target(RouteColumn(Resumed), 2) == 3
  {
    var ids := RouteColumn(Resumed);
    assert ids[2] == Text("B") && ids[3] == Text("B");
  }

  /** Two routes of one stop each, nothing filled. */
  const TwoRoutes: seq<Row> := [
    Header,
    [Text("A"), Text("a1"), Text("1"), Text("2"), Unknown, Unknown],
    [Text("B"), Text("b1"), Text("3"), Text("4"), Unknown, Unknown]]

  /** The script closing a cycle: its call gets the coordinate cells as
      text, and formatting them with `:.6f` for the progress line raises
      ValueError, so with a service that always answers the loop still
      stops at the first route's last stop. */
  lemma TextCoordinatesCounterexample(env: Env)
    requires Reliable(env)
    ensures WellFormed(TwoRoutes, 2)
    ensures Fill(TwoRoutes, 2, AsWritten, env) == Filled(TwoRoutes, [Call(1, 1)], Some(FloatFormatOfText("1")))
    ensures Fill(TwoRoutes, 2, Corrected, env).error == None
  {
    var c := Cells(Text("1"), Text("2"));
    assert env.fetch(c, c).code == "Ok" && env.fetch(c, c).routes != [];
    CorrectedFillsEveryRow(TwoRoutes, 2, env, Fill(TwoRoutes, 2, Corrected, env));
  }
}
