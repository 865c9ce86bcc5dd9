/** Update/update_golden.py: `merge_data`, the upsert of a batch of new records
    into the golden dataset, and the JSON array file it writes. A data frame is
    a list of column names and a list of rows; a row maps column names to cell
    values, and a missing key is a missing value (NaN). The golden frame is read
    with its default positional index, so a row label is its position. */
module UpdateGolden {
  import opened Base
  import JsonFraming

  /** A cell: a string, a list of strings, a number, a boolean, or missing. */
  datatype Value = Str(s: string) | List(items: seq<string>) | Num(n: int) | Bool(b: bool) | Null

  type Row = map<string, Value>

  datatype Table = Table(columns: seq<string>, rows: seq<Row>)

  const PetalId := "petalID"

  function Cell(r: Row, c: string): Value {
    if c in r then r[c] else Null
  }

  function IdOf(r: Row): Value {
    Cell(r, PetalId)
  }

  /** `golden["petalID"].to_list()` */
  function Ids(rows: seq<Row>): (r: seq<Value>)
    ensures |r| == |rows| && forall i :: 0 <= i < |rows| ==> r[i] == IdOf(rows[i])
  {
    seq(|rows|, i requires 0 <= i < |rows| => IdOf(rows[i]))
  }

  /** `petalID in petalIDList`: a missing id (NaN, or None from `row.get`) is never
      equal to a list entry. */
  predicate Known(id: Value, ids: seq<Value>) {
    id != Null && id in ids
  }

  /** A value that carries information: a non-empty string or list, any number or
      boolean. Missing values and empty strings and lists never overwrite. */
  predicate HasInfo(v: Value) {
    match v
    case Str(s) => |s| > 0
    case List(l) => |l| > 0
    case Num(_) => true
    case Bool(_) => true
    case Null => false
  }

  /** The batch row `b` writes its cell `c` into the golden row. */
  predicate Writes(b: Row, c: string, batchColumns: seq<string>, goldenColumns: seq<string>) {
    c in batchColumns && c in goldenColumns && HasInfo(Cell(b, c))
  }

  /** The key loop over the batch row, writing each informative golden-column cell. */
  function Patch(g: Row, b: Row, keys: seq<string>, goldenColumns: seq<string>): Row {
    if |keys| == 0 then g
    else
      var k := keys[|keys| - 1];
      var p := Patch(g, b, keys[..|keys| - 1], goldenColumns);
      if k in goldenColumns && HasInfo(Cell(b, k)) then p[k := Cell(b, k)] else p
  }

  /** The patched row has the keys of the golden row and those the batch row
      writes; a written cell takes the batch value, every other keeps its own. */
  lemma {:induction false} PatchMeaning(g: Row, b: Row, keys: seq<string>, goldenColumns: seq<string>)
    ensures forall c :: c in Patch(g, b, keys, goldenColumns) <==> c in g || Writes(b, c, keys, goldenColumns)
    ensures forall c :: c in Patch(g, b, keys, goldenColumns) ==>
      Patch(g, b, keys, goldenColumns)[c] == if Writes(b, c, keys, goldenColumns) then Cell(b, c) else g[c]
  {
    if |keys| > 0 {
      var init := keys[..|keys| - 1];
      PatchMeaning(g, b, init, goldenColumns);
      assert keys == init + [keys[|keys| - 1]];
    }
  }

  /** Cell by cell: overwrite only golden columns with informative values. */
  lemma PatchCell(g: Row, b: Row, keys: seq<string>, goldenColumns: seq<string>, c: string)
    ensures Cell(Patch(g, b, keys, goldenColumns), c) ==
      if Writes(b, c, keys, goldenColumns) then Cell(b, c) else Cell(g, c)
  {
    PatchMeaning(g, b, keys, goldenColumns);
  }

  /** The golden row a batch row overwrites, if any. */
  predicate Targets(ids: seq<Value>, b: Row, known: seq<Value>, j: nat) {
    Known(IdOf(b), known) && FirstIndex(ids, IdOf(b)) == Some(j)
  }

  /** One iteration of the batch loop on the golden rows. */
  function Step(rows: seq<Row>, b: Row, known: seq<Value>, batchColumns: seq<string>, goldenColumns: seq<string>): (r: seq<Row>)
    ensures |r| == |rows|
  {
    if Known(IdOf(b), known) then
      match FirstIndex(Ids(rows), IdOf(b))
      case Some(i) => rows[i := Patch(rows[i], b, batchColumns, goldenColumns)]
      case None => rows
    else rows
  }

  /** The golden rows after the batch loop. */
  function Updated(rows: seq<Row>, batch: seq<Row>, known: seq<Value>, batchColumns: seq<string>, goldenColumns: seq<string>): (r: seq<Row>)
    ensures |r| == |rows|
  {
    if |batch| == 0 then rows
    else Step(Updated(rows, batch[..|batch| - 1], known, batchColumns, goldenColumns), batch[|batch| - 1], known, batchColumns, goldenColumns)
  }

  /** `new_rows`: the batch rows whose id is not in the golden list, in batch order. */
  function Unmatched(batch: seq<Row>, known: seq<Value>): seq<Row> {
    if |batch| == 0 then []
    else Unmatched(batch[..|batch| - 1], known) + (if Known(IdOf(batch[|batch| - 1]), known) then [] else [batch[|batch| - 1]])
  }

  function Max(a: Option<int>, x: int): int {
    if a.Some? && a.value > x then a.value else x
  }

  /** `golden["petalID"].max()`: missing ids are skipped, booleans count as 0 and
      1, and None (NaN) when no id is present; a string or list id makes the `+ 1`
      that follows raise TypeError. */
  function MaxId(ids: seq<Value>): (r: Result<Option<int>>)
    ensures r.Ok? && r.value.Some? ==> forall i :: 0 <= i < |ids| && ids[i].Num? ==> ids[i].n <= r.value.value
    ensures r.Ok? && r.value.Some? ==> forall i :: 0 <= i < |ids| && ids[i].Bool? ==> (if ids[i].b then 1 else 0) <= r.value.value
    ensures r.Ok? && r.value.Some? ==> exists i :: 0 <= i < |ids| && (ids[i] == Num(r.value.value) || (ids[i].Bool? && (if ids[i].b then 1 else 0) == r.value.value))
    ensures r.Ok? && r.value.None? ==> forall i :: 0 <= i < |ids| ==> ids[i].Null?
    ensures r.Ok? ==> forall i :: 0 <= i < |ids| ==> ids[i].Num? || ids[i].Bool? || ids[i].Null?
    ensures r.Err? <==> exists i :: 0 <= i < |ids| && (ids[i].Str? || ids[i].List?)
  {
    if |ids| == 0 then Ok(None)
    else
      var init := ids[..|ids| - 1];
      assert forall i :: 0 <= i < |init| ==> init[i] == ids[i];
      match MaxId(init)
      case Err(e) => Err(e)
      case Ok(m) =>
        match ids[|ids| - 1]
        case Null => Ok(m)
        case Num(x) => Ok(Some(Max(m, x)))
        case Bool(b) => Ok(Some(Max(m, if b then 1 else 0)))
        case Str(_) => Err(TypeError)
        case List(_) => Err(TypeError)
  }

  /** `current_index` after k increments; NaN stays NaN. */
  function IdAt(start: Option<int>, k: nat): Value {
    if start.Some? then Num(start.value + k) else Null
  }

  function StartOf(m: Option<int>): Option<int> {
    if m.Some? then Some(m.value + 1) else None
  }

  /** The new rows with consecutive ids from `start`. */
  function Fresh(rows: seq<Row>, start: Option<int>): (r: seq<Row>)
    ensures |r| == |rows|
    ensures forall k :: 0 <= k < |rows| ==> r[k] == rows[k][PetalId := IdAt(start, k)]
  {
    seq(|rows|, k requires 0 <= k < |rows| => rows[k][PetalId := IdAt(start, k)])
  }

  /** `merge_data` on values: KeyError without a petalID column; otherwise the
      updated golden rows followed, when there are unmatched rows, by those rows
      with fresh ids. */
  function Merged(golden: seq<Row>, batch: seq<Row>, batchColumns: seq<string>, goldenColumns: seq<string>): Result<Table> {
    if PetalId !in goldenColumns then Err(KeyError)
    else
      var known := Ids(golden);
      var updated := Updated(golden, batch, known, batchColumns, goldenColumns);
      var newRows := Unmatched(batch, known);
      if |newRows| == 0 then Ok(Table(goldenColumns, updated))
      else
        match MaxId(Ids(updated))
        case Err(e) => Err(e)
        case Ok(m) => Ok(Table(goldenColumns + Missing(goldenColumns, batchColumns), updated + Fresh(newRows, StartOf(m))))
  }

  // ---------------------------------------------------------------------------
  // The imperative upsert

  /** The inner loop: `golden.at[found_index, key] = row[key]` for each written key. */
  method WriteFields(golden: array<Row>, at: nat, row: Row, batchColumns: seq<string>, goldenColumns: seq<string>)
    requires at < golden.Length
    modifies golden
    ensures golden[..] == old(golden[..])[at := Patch(old(golden[at]), row, batchColumns, goldenColumns)]
  {
    var k := 0;
    while k < |batchColumns|
      invariant 0 <= k <= |batchColumns|
      invariant golden[..] == old(golden[..])[at := Patch(old(golden[at]), row, batchColumns[..k], goldenColumns)]
    {
      var key := batchColumns[k];
      assert batchColumns[..k + 1][..k] == batchColumns[..k];
      if key in goldenColumns && HasInfo(Cell(row, key)) {
        golden[at] := golden[at][key := Cell(row, key)];
      }
      k := k + 1;
    }
    assert batchColumns[..k] == batchColumns;
  }

  /** The id assignment loop: `new_row["petalID"] = current_index`, then the increment. */
  method AssignIds(newRows: seq<Row>, start: Option<int>) returns (numbered: seq<Row>)
    ensures numbered == Fresh(newRows, start)
  {
    var currentIndex := start;
    numbered := [];
    var k := 0;
    while k < |newRows|
      invariant 0 <= k <= |newRows|
      invariant |numbered| == k && forall q :: 0 <= q < k ==> numbered[q] == newRows[q][PetalId := IdAt(start, q)]
      invariant currentIndex == (if start.Some? then Some(start.value + k) else None)
    {
      var value := if currentIndex.Some? then Num(currentIndex.value) else Null;
      numbered := numbered + [newRows[k][PetalId := value]];
      if currentIndex.Some? {
        currentIndex := Some(currentIndex.value + 1);
      }
      k := k + 1;
    }
  }

  /** `merge_data`: the golden rows are updated in place, and the result is the
      updated rows followed by the unmatched batch rows with fresh ids. */
  method MergeData(batch: seq<Row>, batchColumns: seq<string>, golden: array<Row>, goldenColumns: seq<string>)
    returns (r: Result<Table>)
    modifies golden
    ensures PetalId !in goldenColumns ==> r == Err(KeyError) && golden[..] == old(golden[..])
    ensures PetalId in goldenColumns ==>
      golden[..] == Updated(old(golden[..]), batch, Ids(old(golden[..])), batchColumns, goldenColumns)
    ensures r == Merged(old(golden[..]), batch, batchColumns, goldenColumns)
  {
    if PetalId !in goldenColumns {
      return Err(KeyError);
    }
    var petalIdList := Ids(golden[..]);
    var newRows: seq<Row> := [];
    var index := 0;
    while index < |batch|
      invariant 0 <= index <= |batch|
      invariant golden[..] == Updated(old(golden[..]), batch[..index], petalIdList, batchColumns, goldenColumns)
      invariant newRows == Unmatched(batch[..index], petalIdList)
    {
      assert batch[..index + 1][..index] == batch[..index];
      var row := batch[index];
      var petalId := IdOf(row);
      if Known(petalId, petalIdList) {
        var indices := FirstIndex(Ids(golden[..]), petalId);
        if indices.Some? {
          WriteFields(golden, indices.value, row, batchColumns, goldenColumns);
        }
      } else {
        newRows := newRows + [row];
      }
      index := index + 1;
    }
    assert batch[..index] == batch;
    if |newRows| == 0 {
      return Ok(Table(goldenColumns, golden[..]));
    }
    var maxId := MaxId(Ids(golden[..]));
    if maxId.Err? {
      return Err(maxId.error);
    }
    var numbered := AssignIds(newRows, StartOf(maxId.value));
    r := Ok(Table(goldenColumns + Missing(goldenColumns, batchColumns), golden[..] + numbered));
  }

  // ---------------------------------------------------------------------------
  // What the upsert guarantees

  /** Overwriting never changes a row's id: the id cell is only written with the
      very id the row was matched on. */
  lemma {:induction false} UpdatedIds(rows: seq<Row>, batch: seq<Row>, known: seq<Value>, batchColumns: seq<string>, goldenColumns: seq<string>)
    ensures Ids(Updated(rows, batch, known, batchColumns, goldenColumns)) == Ids(rows)
  {
    if |batch| > 0 {
      var before := Updated(rows, batch[..|batch| - 1], known, batchColumns, goldenColumns);
      UpdatedIds(rows, batch[..|batch| - 1], known, batchColumns, goldenColumns);
      var b := batch[|batch| - 1];
      if Known(IdOf(b), known) && FirstIndex(Ids(before), IdOf(b)).Some? {
        var i := FirstIndex(Ids(before), IdOf(b)).value;
        PatchCell(before[i], b, batchColumns, goldenColumns, PetalId);
        var after := Updated(rows, batch, known, batchColumns, goldenColumns);
        assert Ids(after) == Ids(before)[i := IdOf(after[i])];
      }
    }
  }

  /** Only the first golden row carrying the matched id is changed; every other
      row is left as it was. */
  lemma StepChangesFirstOnly(rows: seq<Row>, b: Row, known: seq<Value>, batchColumns: seq<string>, goldenColumns: seq<string>, j: nat)
    requires j < |rows|
    ensures var r := Step(rows, b, known, batchColumns, goldenColumns);
      if Targets(Ids(rows), b, known, j) then
        IdOf(rows[j]) == IdOf(b) && (forall k :: 0 <= k < j ==> IdOf(rows[k]) != IdOf(b)) &&
        r[j] == Patch(rows[j], b, batchColumns, goldenColumns)
      else r[j] == rows[j]
  {
  }

  /** The last overwrite of cell `c` of golden row `j` by the batch, if any. */
  function LastWrite(ids: seq<Value>, batch: seq<Row>, known: seq<Value>, batchColumns: seq<string>, goldenColumns: seq<string>, j: nat, c: string): Option<Value> {
    if |batch| == 0 then None
    else
      var b := batch[|batch| - 1];
      if Targets(ids, b, known, j) && Writes(b, c, batchColumns, goldenColumns) then Some(Cell(b, c))
      else LastWrite(ids, batch[..|batch| - 1], known, batchColumns, goldenColumns, j, c)
  }

  /** Each updated golden row is its old self with each cell the batch writes last
      into it overwritten; no other key appears. */
  lemma {:induction false} UpdatedCells(rows: seq<Row>, batch: seq<Row>, known: seq<Value>, batchColumns: seq<string>, goldenColumns: seq<string>, j: nat)
    requires j < |rows|
    ensures var u := Updated(rows, batch, known, batchColumns, goldenColumns)[j];
      (forall c :: c in u <==> c in rows[j] || LastWrite(Ids(rows), batch, known, batchColumns, goldenColumns, j, c).Some?) &&
      (forall c :: c in u ==> u[c] == match LastWrite(Ids(rows), batch, known, batchColumns, goldenColumns, j, c)
                                     case Some(v) => v case None => rows[j][c])
  {
    if |batch| > 0 {
      var init := batch[..|batch| - 1];
      var b := batch[|batch| - 1];
      var before := Updated(rows, init, known, batchColumns, goldenColumns);
      UpdatedCells(rows, init, known, batchColumns, goldenColumns, j);
      UpdatedIds(rows, init, known, batchColumns, goldenColumns);
      StepChangesFirstOnly(before, b, known, batchColumns, goldenColumns, j);
      if Targets(Ids(rows), b, known, j) {
        PatchMeaning(before[j], b, batchColumns, goldenColumns);
      }
    }
  }

  /** Applying the same batch a second time to the updated rows changes nothing. */
  lemma UpdatedIdempotent(rows: seq<Row>, batch: seq<Row>, known: seq<Value>, batchColumns: seq<string>, goldenColumns: seq<string>)
    ensures var once := Updated(rows, batch, known, batchColumns, goldenColumns);
      Updated(once, batch, known, batchColumns, goldenColumns) == once
  {
    var once := Updated(rows, batch, known, batchColumns, goldenColumns);
    var twice := Updated(once, batch, known, batchColumns, goldenColumns);
    UpdatedIds(rows, batch, known, batchColumns, goldenColumns);
    forall j | 0 <= j < |rows|
      ensures twice[j] == once[j]
    {
      UpdatedCells(rows, batch, known, batchColumns, goldenColumns, j);
      UpdatedCells(once, batch, known, batchColumns, goldenColumns, j);
      forall c
        ensures (c in twice[j] <==> c in once[j]) && (c in once[j] ==> twice[j][c] == once[j][c])
      {
        assert LastWrite(Ids(once), batch, known, batchColumns, goldenColumns, j, c) == LastWrite(Ids(rows), batch, known, batchColumns, goldenColumns, j, c);
      }
    }
  }

  /** A batch whose ids all occur in the golden list changes no row count, and
      merging it a second time gives the same table as merging it once. */
  lemma MergeKnownIdempotent(golden: seq<Row>, batch: seq<Row>, batchColumns: seq<string>, goldenColumns: seq<string>)
    requires PetalId in goldenColumns
    requires forall i :: 0 <= i < |batch| ==> Known(IdOf(batch[i]), Ids(golden))
    ensures Merged(golden, batch, batchColumns, goldenColumns).Ok?
    ensures var once := Merged(golden, batch, batchColumns, goldenColumns).value;
      |once.rows| == |golden| && once.columns == goldenColumns &&
      Merged(once.rows, batch, batchColumns, goldenColumns) == Ok(once)
  {
    var known := Ids(golden);
    UnmatchedAllKnown(batch, known);
    var once := Updated(golden, batch, known, batchColumns, goldenColumns);
    UpdatedIds(golden, batch, known, batchColumns, goldenColumns);
    UpdatedIdempotent(golden, batch, known, batchColumns, goldenColumns);
  }

  lemma {:induction false} UnmatchedAllKnown(batch: seq<Row>, known: seq<Value>)
    requires forall i :: 0 <= i < |batch| ==> Known(IdOf(batch[i]), known)
    ensures Unmatched(batch, known) == []
  {
    if |batch| > 0 {
      UnmatchedAllKnown(batch[..|batch| - 1], known);
    }
  }

  lemma {:induction false} UnmatchedConcat(a: seq<Row>, b: seq<Row>, known: seq<Value>)
    ensures Unmatched(a + b, known) == Unmatched(a, known) + Unmatched(b, known)
    decreases |b|
  {
    if |b| == 0 {
      assert a + b == a;
    } else {
      assert (a + b)[..|a + b| - 1] == a + b[..|b| - 1];
      UnmatchedConcat(a, b[..|b| - 1], known);
    }
  }

  /** The position among the new rows of the unmatched batch row `i` is the
      number of unmatched rows before it. */
  lemma UnmatchedAt(batch: seq<Row>, known: seq<Value>, i: nat)
    requires i < |batch| && !Known(IdOf(batch[i]), known)
    ensures var p := |Unmatched(batch[..i], known)|;
      p < |Unmatched(batch, known)| && Unmatched(batch, known)[p] == batch[i]
  {
    assert batch == batch[..i] + [batch[i]] + batch[i + 1..];
    UnmatchedConcat(batch[..i] + [batch[i]], batch[i + 1..], known);
    assert (batch[..i] + [batch[i]])[..i] == batch[..i];
  }

  /** Unmatched rows keep their batch order, so two of them, even with the same
      id, take two different positions. */
  lemma UnmatchedOrder(batch: seq<Row>, known: seq<Value>, i: nat, j: nat)
    requires i < j <= |batch| && !Known(IdOf(batch[i]), known)
    ensures |Unmatched(batch[..i], known)| < |Unmatched(batch[..j], known)|
  {
    UnmatchedAt(batch[..j], known, i);
    assert batch[..j][..i] == batch[..i];
  }

  /** Two batch rows with ids outside the golden list, the same id or not, are
      both appended, in batch order, and receive different ids when the golden
      rows have one. */
  lemma UnknownRowsAppended(golden: seq<Row>, batch: seq<Row>, batchColumns: seq<string>, goldenColumns: seq<string>, i: nat, j: nat)
    requires Merged(golden, batch, batchColumns, goldenColumns).Ok?
    requires i < j < |batch|
    requires !Known(IdOf(batch[i]), Ids(golden)) && !Known(IdOf(batch[j]), Ids(golden))
    ensures MaxId(Ids(golden)).Ok?
    ensures var t := Merged(golden, batch, batchColumns, goldenColumns).value;
      var start := StartOf(MaxId(Ids(golden)).value);
      var pi := |Unmatched(batch[..i], Ids(golden))|;
      var pj := |Unmatched(batch[..j], Ids(golden))|;
      pi < pj && |golden| + pj < |t.rows| &&
      t.rows[|golden| + pi] == batch[i][PetalId := IdAt(start, pi)] &&
      t.rows[|golden| + pj] == batch[j][PetalId := IdAt(start, pj)] &&
      (start.Some? ==> IdOf(t.rows[|golden| + pi]) != IdOf(t.rows[|golden| + pj]))
  {
    var known := Ids(golden);
    UnmatchedAt(batch, known, i);
    UnmatchedAt(batch, known, j);
    UnmatchedOrder(batch, known, i, j);
    MergedShape(golden, batch, batchColumns, goldenColumns);
  }

  /** The golden rows keep their positions and order; the unmatched batch rows
      follow all of them in batch order, with consecutive ids from the old
      maximum plus one (all missing when no golden row has an id). */
  lemma MergedShape(golden: seq<Row>, batch: seq<Row>, batchColumns: seq<string>, goldenColumns: seq<string>)
    requires Merged(golden, batch, batchColumns, goldenColumns).Ok?
    ensures PetalId in goldenColumns
    ensures var t := Merged(golden, batch, batchColumns, goldenColumns).value;
      var known := Ids(golden);
      var newRows := Unmatched(batch, known);
      |t.rows| == |golden| + |newRows| &&
      t.rows[..|golden|] == Updated(golden, batch, known, batchColumns, goldenColumns) &&
      Ids(t.rows[..|golden|]) == known &&
      (|newRows| > 0 ==>
        (MaxId(known).Ok? &&
         forall k :: 0 <= k < |newRows| ==>
           t.rows[|golden| + k] == newRows[k][PetalId := IdAt(StartOf(MaxId(known).value), k)]))
  {
    var t := Merged(golden, batch, batchColumns, goldenColumns).value;
    UpdatedIds(golden, batch, Ids(golden), batchColumns, goldenColumns);
  }

  /** Ids that are present occur once. */
  predicate UniqueIds(rows: seq<Row>) {
    forall i, j :: 0 <= i < j < |rows| && IdOf(rows[i]) != Null ==> IdOf(rows[i]) != IdOf(rows[j])
  }

  /** If the golden ids are unique, so are the merged ones: appended ids lie above
      the old maximum and increase. */
  lemma MergedUnique(golden: seq<Row>, batch: seq<Row>, batchColumns: seq<string>, goldenColumns: seq<string>)
    requires UniqueIds(golden)
    requires Merged(golden, batch, batchColumns, goldenColumns).Ok?
    ensures UniqueIds(Merged(golden, batch, batchColumns, goldenColumns).value.rows)
  {
    var t := Merged(golden, batch, batchColumns, goldenColumns).value;
    MergedShape(golden, batch, batchColumns, goldenColumns);
    var known := Ids(golden);
    var n := |golden|;
    var ids := Ids(t.rows);
    assert ids[..n] == known;
    var start := if |t.rows| > n then StartOf(MaxId(known).value) else None;
    if |t.rows| > n {
      forall k | n <= k < |ids|
        ensures ids[k] == IdAt(start, k - n)
      {
        assert t.rows[n + (k - n)] == t.rows[k];
      }
    }
    AppendedIdsUnique(ids, n, start);
  }

  /** Unique ids followed by consecutive ids above all of them (or by missing
      ids, when all of them are missing) stay unique. */
  lemma AppendedIdsUnique(ids: seq<Value>, n: nat, start: Option<int>)
    requires n <= |ids|
    requires forall i, j :: 0 <= i < j < n && ids[i] != Null ==> ids[i] != ids[j]
    requires n < |ids| && start.Some? ==> forall i :: 0 <= i < n && ids[i].Num? ==> ids[i].n < start.value
    requires n < |ids| && start.None? ==> forall i :: 0 <= i < n ==> ids[i].Null?
    requires forall k :: n <= k < |ids| ==> ids[k] == IdAt(start, k - n)
    ensures forall i, j :: 0 <= i < j < |ids| && ids[i] != Null ==> ids[i] != ids[j]
  {
    forall i, j | 0 <= i < j < |ids| && ids[i] != Null
      ensures ids[i] != ids[j]
    {
      if n <= j {
        if i < n {
          assert ids[j] == IdAt(start, j - n);
        } else {
          assert ids[i] == IdAt(start, i - n);
        }
      }
    }
  }

  /** The written file: the records' texts in the JSON array framing. */
  method WriteGoldenFile(texts: seq<string>) returns (file: string)
    ensures file == JsonFraming.JsonArray(texts)
  {
    file := JsonFraming.WriteJsonArray(texts);
  }

  // ---------------------------------------------------------------------------
  // The overwrite test as written

  /** The key loop as the source writes it: `len()` is taken of every batch value
      in a golden column, and raises TypeError for a number, a boolean or a
      missing value. */
  function PatchAsWritten(g: Row, b: Row, keys: seq<string>, goldenColumns: seq<string>): Result<Row> {
    if |keys| == 0 then Ok(g)
    else
      var p :- PatchAsWritten(g, b, keys[..|keys| - 1], goldenColumns);
      var k := keys[|keys| - 1];
      if k !in goldenColumns then Ok(p)
      else match Cell(b, k)
        case Str(s) => Ok(if |s| > 0 then p[k := Cell(b, k)] else p)
        case List(l) => Ok(if |l| > 0 then p[k := Cell(b, k)] else p)
        case _ => Err(TypeError)
  }

  lemma {:induction false} PatchAsWrittenFailsAt(g: Row, b: Row, keys: seq<string>, goldenColumns: seq<string>, c: string)
    requires c in keys && c in goldenColumns
    requires Cell(b, c).Num? || Cell(b, c).Bool? || Cell(b, c).Null?
    ensures PatchAsWritten(g, b, keys, goldenColumns).Err?
  {
    var init := keys[..|keys| - 1];
    if keys[|keys| - 1] != c {
      assert keys == init + [keys[|keys| - 1]];
      PatchAsWrittenFailsAt(g, b, init, goldenColumns, c);
    }
  }

  /** As written, every batch row that matches a golden row by a numeric id
      raises: its own id cell is in a golden column and has no length. */
  lemma MatchedRowRaises(g: Row, b: Row, batchColumns: seq<string>, goldenColumns: seq<string>)
    requires PetalId in batchColumns && PetalId in goldenColumns && IdOf(b).Num?
    ensures PatchAsWritten(g, b, batchColumns, goldenColumns).Err?
    ensures Cell(Patch(g, b, batchColumns, goldenColumns), PetalId) == IdOf(b)
  {
    PatchAsWrittenFailsAt(g, b, batchColumns, goldenColumns, PetalId);
    PatchMeaning(g, b, batchColumns, goldenColumns);
  }
}
