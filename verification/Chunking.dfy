/**
 Incremental chunking of completed turns. Each pass scans from the user message at or
 before a watermark; the chunk table must stay what chunking everything would give.
 */
module Chunking {
  import opened Messages

  datatype Row = Row(number: nat, role: string, body: Message)

  /** A stored chunk: the numbers of its first and last row, and its rows. */
  datatype Chunk = Chunk(start: nat, end: nat, rows: seq<Row>)

  /** The chunk table by first row number, and the end of the last settled unit. */
  datatype Index = Index(chunks: map<nat, Chunk>, watermark: Option<nat>)

  predicate Numbered(rows: seq<Row>) {
    forall k :: 0 <= k < |rows| ==> rows[k].number == k
  }

  // ---- chunking from scratch ----

  /** The rows that take part in chunking. */
  function Visible(rows: seq<Row>): seq<Row> {
    if rows == [] then []
    else
      var n := |rows| - 1;
      Visible(rows[..n]) + (if rows[n].role == "system" then [] else [rows[n]])
  }

  function AddRow(units: seq<seq<Row>>, row: Row): seq<seq<Row>> {
    if row.role == "user" || units == [] then units + [[row]]
    else units[..|units| - 1] + [units[|units| - 1] + [row]]
  }

  /** Split before every user row; rows before the first user row form a unit of their own. */
  function Units(rows: seq<Row>): (units: seq<seq<Row>>)
    ensures rows != [] ==> units != []
  {
    if rows == [] then [] else AddRow(Units(rows[..|rows| - 1]), rows[|rows| - 1])
  }

  // ---- what visible rows and units are ----

  /** Exactly the rows whose role is not system. */
  lemma {:induction false} VisibleExactly(rows: seq<Row>, row: Row)
    ensures row in Visible(rows) <==> row in rows && row.role != "system"
  {
    if rows != [] {
      var n := |rows| - 1;
      VisibleExactly(rows[..n], row);
      assert rows == rows[..n] + [rows[n]];
    }
  }

  function Joined(units: seq<seq<Row>>): seq<Row> {
    if units == [] then [] else Joined(units[..|units| - 1]) + units[|units| - 1]
  }

  /** No unit is empty; a user row starts every unit but perhaps the first, and stands nowhere else. */
  ghost predicate SplitBeforeUsers(units: seq<seq<Row>>) {
    && (forall k :: 0 <= k < |units| ==> units[k] != [])
    && (forall k :: 0 < k < |units| ==> units[k][0].role == "user")
    && forall k, j :: 0 <= k < |units| && 0 < j < |units[k]| ==> units[k][j].role != "user"
  }

  /** The units are the only way to cut the rows before the user rows. */
  lemma {:induction false} UnitsExactly(rows: seq<Row>, units: seq<seq<Row>>)
    ensures units == Units(rows) <==> Joined(units) == rows && SplitBeforeUsers(units)
    decreases |rows|
  {
    UnitsAreSplit(rows);
    if Joined(units) == rows && SplitBeforeUsers(units) {
      OnlySplit(rows, units);
    }
  }

  lemma {:induction false} UnitsAreSplit(rows: seq<Row>)
    ensures Joined(Units(rows)) == rows && SplitBeforeUsers(Units(rows))
  {
    NoUnits();
    hide SplitBeforeUsers, AddRow, Joined;
    if rows != [] {
      var n := |rows| - 1;
      UnitsAreSplit(rows[..n]);
      AddRowSplits(Units(rows[..n]), rows[n]);
      assert rows == rows[..n] + [rows[n]];
    }
  }

  lemma NoUnits()
    ensures Joined([]) == [] && SplitBeforeUsers([])
  {
  }

  lemma AddRowSplits(units: seq<seq<Row>>, row: Row)
    requires SplitBeforeUsers(units)
    ensures SplitBeforeUsers(AddRow(units, row)) && Joined(AddRow(units, row)) == Joined(units) + [row]
  {
    var more := AddRow(units, row);
    if row.role == "user" || units == [] {
      assert more[..|units|] == units;
    } else {
      var n := |units| - 1;
      assert more[..n] == units[..n];
      assert Joined(units[..n]) + (units[n] + [row]) == (Joined(units[..n]) + units[n]) + [row];
    }
  }

  lemma {:induction false} OnlySplit(rows: seq<Row>, units: seq<seq<Row>>)
    requires Joined(units) == rows && SplitBeforeUsers(units)
    ensures units == Units(rows)
    decreases |rows|
  {
    if units != [] {
      hide SplitBeforeUsers, AddRow, Joined;
      var shorter, row := WithoutLastRow(units);
      assert rows[..|rows| - 1] == Joined(shorter) && rows[|rows| - 1] == row;
      OnlySplit(Joined(shorter), shorter);
    } else {
      assert rows == [];
    }
  }

  lemma WithoutLastRow(units: seq<seq<Row>>) returns (shorter: seq<seq<Row>>, row: Row)
    requires units != [] && SplitBeforeUsers(units)
    ensures SplitBeforeUsers(shorter) && Joined(units) == Joined(shorter) + [row] && AddRow(shorter, row) == units
  {
    var n, last := |units| - 1, units[|units| - 1];
    row := last[|last| - 1];
    assert units == units[..n] + [last];
    if |last| == 1 {
      shorter := units[..n];
      assert last == [row];
    } else {
      var start := last[..|last| - 1];
      shorter := units[..n] + [start];
      assert shorter[..n] == units[..n] && last == start + [row];
      assert Joined(units[..n]) + (start + [row]) == (Joined(units[..n]) + start) + [row];
    }
  }

  /** All units but the last, which is still live. */
  function ButLast(units: seq<seq<Row>>): seq<seq<Row>> {
    if units == [] then [] else units[..|units| - 1]
  }

  function Settled(rows: seq<Row>): seq<seq<Row>> {
    ButLast(Units(Visible(rows)))
  }

  // ---- order of the units ----

  predicate Ascending(rows: seq<Row>) {
    forall i, j :: 0 <= i < j < |rows| ==> rows[i].number < rows[j].number
  }

  function First(unit: seq<Row>): nat
    requires unit != []
  {
    unit[0].number
  }

  function Last(unit: seq<Row>): nat
    requires unit != []
  {
    unit[|unit| - 1].number
  }

  /** Spans are well formed, ordered and disjoint. */
  predicate Ordered(units: seq<seq<Row>>) {
    && (forall k :: 0 <= k < |units| ==> units[k] != [] && First(units[k]) <= Last(units[k]))
    && forall i, j :: 0 <= i < j < |units| ==> Last(units[i]) < First(units[j])
  }

  lemma {:induction false} VisibleAscending(rows: seq<Row>)
    requires Numbered(rows)
    ensures Ascending(Visible(rows))
    ensures forall k :: 0 <= k < |Visible(rows)| ==> Visible(rows)[k].number < |rows|
  {
    if rows != [] {
      VisibleAscending(rows[..|rows| - 1]);
    }
  }

  lemma AddRowOrdered(units: seq<seq<Row>>, row: Row)
    requires Ordered(units)
    requires units != [] ==> Last(units[|units| - 1]) < row.number
    ensures Ordered(AddRow(units, row))
    ensures var more := AddRow(units, row); Last(more[|more| - 1]) == row.number
  {
    var more := AddRow(units, row);
    if !(row.role == "user" || units == []) {
      var m := |units| - 1;
      assert First(more[m]) == First(units[m]) <= Last(units[m]) < Last(more[m]);
    } else {
      forall i | 0 <= i < |units| ensures Last(units[i]) < row.number {
        if i < |units| - 1 {
          assert Last(units[i]) < First(units[|units| - 1]);
        }
      }
    }
  }

  lemma {:induction false} UnitsOrdered(rows: seq<Row>)
    requires Ascending(rows)
    ensures Ordered(Units(rows))
    ensures rows != [] ==> var units := Units(rows); Last(units[|units| - 1]) == rows[|rows| - 1].number
  {
    if rows != [] {
      hide AddRow, Ordered;
      var n := |rows| - 1;
      UnitsOrdered(rows[..n]);
      AddRowOrdered(Units(rows[..n]), rows[n]);
    } else {
      assert Ordered([]);
    }
  }

  // ---- units and concatenation ----

  lemma {:induction false} VisibleConcat(a: seq<Row>, b: seq<Row>)
    ensures Visible(a + b) == Visible(a) + Visible(b)
  {
    if b == [] {
      assert a + b == a;
    } else {
      var n := |b| - 1;
      VisibleConcat(a, b[..n]);
      assert (a + b)[..|a + b| - 1] == a + b[..n];
    }
  }

  lemma AddRowAfter(x: seq<seq<Row>>, y: seq<seq<Row>>, row: Row)
    requires y != [] || row.role == "user"
    ensures AddRow(x + y, row) == x + AddRow(y, row)
  {
    if row.role != "user" {
      assert (x + y)[..|x + y| - 1] == x + y[..|y| - 1];
    }
  }

  /** A user row always starts a new unit, so the rows before it can be split on their own. */
  lemma {:induction false} UnitsConcat(a: seq<Row>, b: seq<Row>)
    requires b != [] && b[0].role == "user"
    ensures Units(a + b) == Units(a) + Units(b)
  {
    hide AddRow;
    var n := |b| - 1;
    assert (a + b)[..|a + b| - 1] == a + b[..n];
    if n == 0 {
      assert a + b[..n] == a;
      assert Units(a) + [] == Units(a);
    } else {
      UnitsConcat(a, b[..n]);
    }
    AddRowAfter(Units(a), Units(b[..n]), b[n]);
  }

  /** Settled units never change: more rows only add units after them. */
  lemma {:induction false} SettledGrows(a: seq<Row>, b: seq<Row>)
    ensures ButLast(Units(a)) <= ButLast(Units(a + b))
  {
    if b == [] {
      assert a + b == a;
    } else {
      var n := |b| - 1;
      SettledGrows(a, b[..n]);
      assert (a + b)[..|a + b| - 1] == a + b[..n];
    }
  }

  // ---- the chunk table ----

  function ChunkOf(unit: seq<Row>): Chunk
    requires unit != []
  {
    Chunk(First(unit), Last(unit), unit)
  }

  predicate NoneEmpty(units: seq<seq<Row>>) {
    forall k :: 0 <= k < |units| ==> units[k] != []
  }

  /** Inserts by first row number; an existing entry wins. */
  function InsertAll(chunks: map<nat, Chunk>, units: seq<seq<Row>>): map<nat, Chunk>
    requires NoneEmpty(units)
  {
    if units == [] then chunks
    else
      var n := |units| - 1;
      var before := InsertAll(chunks, units[..n]);
      if First(units[n]) in before then before else before[First(units[n]) := ChunkOf(units[n])]
  }

  function LastEnd(units: seq<seq<Row>>): Option<nat>
    requires NoneEmpty(units)
  {
    if units == [] then None else Some(Last(units[|units| - 1]))
  }

  /** The table holds exactly one chunk per unit and nothing else. */
  ghost predicate TableOf(chunks: map<nat, Chunk>, units: seq<seq<Row>>)
    requires NoneEmpty(units)
  {
    && (forall k :: 0 <= k < |units| ==> First(units[k]) in chunks && chunks[First(units[k])] == ChunkOf(units[k]))
    && forall key :: key in chunks ==> exists k :: 0 <= k < |units| && First(units[k]) == key
  }

  /** The table is what chunking `rows` from scratch gives, and the watermark ends its last chunk. */
  ghost predicate Refines(index: Index, rows: seq<Row>) {
    var settled := Settled(rows);
    NoneEmpty(settled) && TableOf(index.chunks, settled) && index.watermark == LastEnd(settled)
  }

  // ---- one pass ----

  /** The last user row at or before the watermark, or 0. */
  function Boundary(rows: seq<Row>, watermark: Option<nat>): (b: nat)
    ensures b == 0 || (watermark.Some? && b <= watermark.value && b < |rows| && rows[b].role == "user")
    ensures forall k :: b < k < |rows| && watermark.Some? && k <= watermark.value ==> rows[k].role != "user"
  {
    if rows == [] then 0
    else
      var n := |rows| - 1;
      if rows[n].role == "user" && watermark.Some? && n <= watermark.value then n else Boundary(rows[..n], watermark)
  }

  function Later(watermark: Option<nat>, end: Option<nat>): Option<nat> {
    if end.Some? && (watermark.None? || end.value > watermark.value) then end else watermark
  }

  lemma {:induction false} UnitsNoneEmpty(rows: seq<Row>)
    ensures NoneEmpty(Units(rows)) && NoneEmpty(ButLast(Units(rows)))
  {
    if rows != [] {
      UnitsNoneEmpty(rows[..|rows| - 1]);
    }
  }

  function IndexPass(rows: seq<Row>, index: Index): Index {
    var window := rows[Boundary(rows, index.watermark)..];
    var settled := ButLast(Units(Visible(window)));
    UnitsNoneEmpty(Visible(window));
    Index(InsertAll(index.chunks, settled), Later(index.watermark, LastEnd(settled)))
  }

  /** Where the last unit settled in the window ends. */
  function SettledEnd(rows: seq<Row>, index: Index): Option<nat> {
    var window := Visible(rows[Boundary(rows, index.watermark)..]);
    UnitsNoneEmpty(window);
    LastEnd(ButLast(Units(window)))
  }

  // ---- a pass restores the table of a full chunking ----

  /** Inserting units again is harmless, and inserting the next ones extends the table. */
  lemma {:induction false} InsertExtends(chunks: map<nat, Chunk>, units: seq<seq<Row>>, have: nat, from: nat, m: nat)
    requires NoneEmpty(units) && Ordered(units) && from <= have <= |units| && from + m <= |units|
    requires TableOf(chunks, units[..have])
    ensures var top := if have < from + m then from + m else have;
            TableOf(InsertAll(chunks, units[from..from + m]), units[..top])
  {
    hide TableOf, Ordered;
    if m > 0 {
      InsertExtends(chunks, units, have, from, m - 1);
      var last := from + m - 1;
      assert units[from..from + m][..m - 1] == units[from..last] && units[from..from + m][m - 1] == units[last];
      var before := InsertAll(chunks, units[from..last]);
      if last < have {
        AlreadyThere(before, units, have, last);
      } else {
        NotYetThere(before, units, last);
        NextChunk(before, units, last);
      }
    } else {
      assert units[from..from] == [];
    }
  }

  lemma AlreadyThere(chunks: map<nat, Chunk>, units: seq<seq<Row>>, have: nat, k: nat)
    requires NoneEmpty(units) && k < have <= |units| && TableOf(chunks, units[..have])
    ensures First(units[k]) in chunks
  {
    assert units[..have][k] == units[k];
  }

  lemma NotYetThere(chunks: map<nat, Chunk>, units: seq<seq<Row>>, last: nat)
    requires Ordered(units) && last < |units| && TableOf(chunks, units[..last])
    ensures First(units[last]) !in chunks
  {
    forall k | 0 <= k < last ensures First(units[..last][k]) != First(units[last]) {
      assert First(units[k]) <= Last(units[k]) < First(units[last]);
    }
  }

  lemma NextChunk(chunks: map<nat, Chunk>, units: seq<seq<Row>>, last: nat)
    requires Ordered(units) && last < |units|
    requires TableOf(chunks, units[..last]) && First(units[last]) !in chunks
    ensures TableOf(chunks[First(units[last]) := ChunkOf(units[last])], units[..last + 1])
  {
    var more := chunks[First(units[last]) := ChunkOf(units[last])];
    var all := units[..last + 1];
    forall k | 0 <= k < |all| ensures First(all[k]) in more && more[First(all[k])] == ChunkOf(all[k]) {
      if k < last {
        assert all[k] == units[..last][k];
      }
    }
    forall key | key in more ensures exists k :: 0 <= k < |all| && First(all[k]) == key {
      if key in chunks {
        var k :| 0 <= k < last && First(units[..last][k]) == key;
        assert First(all[k]) == key;
      } else {
        assert First(all[last]) == key;
      }
    }
  }

  lemma SettledOrdered(rows: seq<Row>)
    requires Numbered(rows)
    ensures Ordered(Settled(rows)) && Ordered(Units(Visible(rows)))
  {
    VisibleAscending(rows);
    UnitsOrdered(Visible(rows));
  }

  lemma {:induction false} VisibleFirst(rows: seq<Row>)
    requires rows != [] && rows[0].role != "system"
    ensures Visible(rows) != [] && Visible(rows)[0] == rows[0]
  {
    if |rows| > 1 {
      VisibleFirst(rows[..|rows| - 1]);
    } else {
      assert Visible(rows[..0]) == [];
    }
  }

  /** Units of the rows before `b` end before `b`. */
  lemma UnitsBefore(rows: seq<Row>, b: nat, k: nat)
    requires Numbered(rows) && b <= |rows| && k < |Units(Visible(rows[..b]))|
    ensures NoneEmpty(Units(Visible(rows[..b]))) && Last(Units(Visible(rows[..b]))[k]) < b
  {
    var units := Units(Visible(rows[..b]));
    VisibleAscending(rows[..b]);
    UnitsOrdered(Visible(rows[..b]));
    var last := |units| - 1;
    assert Last(units[last]) < b;
    if k < last {
      assert First(units[k]) <= Last(units[k]) < First(units[last]) <= Last(units[last]);
    }
  }

  lemma SettledPrefix(past: seq<Row>, rows: seq<Row>)
    requires past <= rows
    ensures Settled(past) <= Settled(rows)
  {
    assert rows == past + rows[|past|..];
    VisibleConcat(past, rows[|past|..]);
    SettledGrows(Visible(past), Visible(rows[|past|..]));
  }

  /** Cutting at a user row cuts between units. */
  lemma WindowSplits(rows: seq<Row>, b: nat)
    requires b < |rows| && rows[b].role == "user"
    ensures Settled(rows) == Units(Visible(rows[..b])) + ButLast(Units(Visible(rows[b..])))
  {
    hide Visible, Units;
    var before, window := rows[..b], rows[b..];
    assert rows == before + window;
    VisibleConcat(before, window);
    VisibleFirst(window);
    UnitsConcat(Visible(before), Visible(window));
  }

  /** The unit that ends at the watermark starts at the boundary, so every unit before it is already chunked. */
  lemma BoundaryIsChunked(past: seq<Row>, rows: seq<Row>, b: nat)
    requires past <= rows && Numbered(rows) && b < |rows| && rows[b].role == "user"
    requires Settled(past) != [] && NoneEmpty(Settled(past)) && b <= Last(Settled(past)[|Settled(past)| - 1])
    ensures |Units(Visible(rows[..b]))| < |Settled(past)|
  {
    SettledPrefix(past, rows);
    WindowSplits(rows, b);
    var last, early := |Settled(past)| - 1, Units(Visible(rows[..b]));
    if |early| > last {
      assert Settled(past)[last] == Settled(rows)[last] == early[last];
      UnitsBefore(rows, b, last);
    }
  }

  /** After any further rows, one pass gives what chunking everything from scratch gives. */
  lemma PassRefines(past: seq<Row>, rows: seq<Row>, index: Index)
    requires past <= rows && Numbered(rows) && Refines(index, past)
    ensures Refines(IndexPass(rows, index), rows)
    ensures index.watermark.Some? ==>
              var end := IndexPass(rows, index).watermark; end.Some? && index.watermark.value <= end.value
    ensures SettledEnd(rows, index) == IndexPass(rows, index).watermark
  {
    var b := Boundary(rows, index.watermark);
    var from := if b == 0 then 0 else |Units(Visible(rows[..b]))|;
    SettledPrefix(past, rows);
    UnitsNoneEmpty(Visible(rows));
    UnitsNoneEmpty(Visible(rows[b..]));
    if b == 0 {
      assert rows[0..] == rows;
    } else {
      BoundaryIsChunked(past, rows, b);
      WindowSplits(rows, b);
    }
    SettledOrdered(rows);
    PassFrom(past, rows, index, from);
  }

  lemma PassFrom(past: seq<Row>, rows: seq<Row>, index: Index, from: nat)
    requires Refines(index, past) && Settled(past) <= Settled(rows)
    requires Ordered(Settled(rows)) && NoneEmpty(Settled(rows))
    requires if Settled(past) == [] then from == 0 else from < |Settled(past)|
    requires ButLast(Units(Visible(rows[Boundary(rows, index.watermark)..]))) == Settled(rows)[from..]
    ensures Refines(IndexPass(rows, index), rows)
    ensures index.watermark.Some? ==>
              var end := IndexPass(rows, index).watermark; end.Some? && index.watermark.value <= end.value
    ensures SettledEnd(rows, index) == IndexPass(rows, index).watermark
  {
    hide Units, Visible, Settled, Boundary, InsertAll, TableOf;
    var units, have := Settled(rows), |Settled(past)|;
    assert units[..have] == Settled(past);
    InsertExtends(index.chunks, units, have, from, |units| - from);
    assert units[from..from + (|units| - from)] == units[from..];
    assert units[..|units|] == units;
    if have > 0 && have < |units| {
      assert Last(units[have - 1]) < First(units[|units| - 1]) <= Last(units[|units| - 1]);
    }
  }

  // ---- every run ----

  datatype Step =
    | Append(role: string, body: Message)
    | Pass

  datatype State = State(rows: seq<Row>, index: Index)

  function Do(s: State, step: Step): State {
    match step
    case Append(role, body) => s.(rows := s.rows + [Row(|s.rows|, role, body)])
    case Pass => s.(index := IndexPass(s.rows, s.index))
  }

  /** The state after the steps, from an empty conversation. */
  function Exec(steps: seq<Step>): State {
    if steps == [] then State([], Index(map[], None))
    else Do(Exec(steps[..|steps| - 1]), steps[|steps| - 1])
  }

  ghost predicate Reachable(s: State, past: seq<Row>) {
    Numbered(s.rows) && past <= s.rows && Refines(s.index, past)
  }

  lemma PassReaches(s: State, past: seq<Row>)
    requires Reachable(s, past)
    ensures Reachable(Do(s, Pass), s.rows) && Refines(Do(s, Pass).index, s.rows)
    ensures SettledEnd(s.rows, s.index) == Do(s, Pass).index.watermark
  {
    hide IndexPass, Refines, SettledEnd;
    PassRefines(past, s.rows, s.index);
  }

  lemma AppendReaches(s: State, past: seq<Row>, role: string, body: Message)
    requires Reachable(s, past)
    ensures Reachable(Do(s, Append(role, body)), past)
  {
    hide Refines;
  }

  lemma StartReaches()
    ensures Reachable(Exec([]), [])
  {
  }

  /** Every run keeps the table of some earlier prefix of the rows. */
  lemma {:induction false} RunInvariant(steps: seq<Step>) returns (past: seq<Row>)
    ensures Reachable(Exec(steps), past)
    ensures steps != [] && steps[|steps| - 1].Pass? ==> past == Exec(steps).rows
  {
    hide Reachable, IndexPass, Refines, SettledEnd;
    if steps == [] {
      past := [];
      StartReaches();
    } else {
      var before, step := Exec(steps[..|steps| - 1]), steps[|steps| - 1];
      past := RunInvariant(steps[..|steps| - 1]);
      match step {
        case Append(role, body) => AppendReaches(before, past, role, body);
        case Pass =>
          PassReaches(before, past);
          past := before.rows;
      }
    }
  }

  /**
   After any run of appended messages and passes that ends with a pass, the table is what chunking
   everything from scratch gives, and its spans are ordered and disjoint.
   */
  lemma RunRefines(steps: seq<Step>)
    requires steps != [] && steps[|steps| - 1].Pass?
    ensures Refines(Exec(steps).index, Exec(steps).rows)
    ensures Ordered(Settled(Exec(steps).rows))
  {
    var past := RunInvariant(steps);
    SettledOrdered(Exec(steps).rows);
  }

  /** The chunk spans these rows. */
  ghost predicate Spans(c: Chunk, rows: seq<Row>) {
    rows != [] && c.rows == rows && c.start == rows[0].number && c.end == rows[|rows| - 1].number
  }

  /** The chunks are exactly all pieces but the last, and the watermark is the end of the last of them. */
  ghost predicate ChunksAre(index: Index, pieces: seq<seq<Row>>) {
    && (forall k :: 0 <= k < |pieces| ==> pieces[k] != [])
    && (forall k :: 0 <= k < |pieces| - 1 ==>
          pieces[k][0].number in index.chunks && Spans(index.chunks[pieces[k][0].number], pieces[k]))
    && (forall key :: key in index.chunks ==> exists k :: 0 <= k < |pieces| - 1 && pieces[k][0].number == key)
    && index.watermark ==
       if |pieces| < 2 then None else var last := pieces[|pieces| - 2]; Some(last[|last| - 1].number)
  }

  lemma RefinesAre(index: Index, rows: seq<Row>)
    requires Refines(index, rows)
    ensures ChunksAre(index, Units(Visible(rows)))
  {
    UnitsNoneEmpty(Visible(rows));
    var pieces, settled := Units(Visible(rows)), Settled(rows);
    hide Units, Visible;
    assert forall k :: 0 <= k < |pieces| - 1 ==> settled[k] == pieces[k];
    forall key | key in index.chunks ensures exists k :: 0 <= k < |pieces| - 1 && pieces[k][0].number == key {
      var k :| 0 <= k < |settled| && First(settled[k]) == key;
      assert pieces[k][0].number == key;
    }
  }

  /**
   After any run that ends with a pass: the rows other than system rows are cut before the user rows, the last
   piece is live, and the chunks are exactly the other pieces.
   */
  lemma RunChunks(steps: seq<Step>) returns (pieces: seq<seq<Row>>)
    requires steps != [] && steps[|steps| - 1].Pass?
    ensures Joined(pieces) == Visible(Exec(steps).rows) && SplitBeforeUsers(pieces)
    ensures ChunksAre(Exec(steps).index, pieces)
  {
    hide Exec, Units, Visible, Joined, ChunksAre, Refines, SplitBeforeUsers;
    RunRefines(steps);
    pieces := Units(Visible(Exec(steps).rows));
    UnitsAreSplit(Visible(Exec(steps).rows));
    RefinesAre(Exec(steps).index, Exec(steps).rows);
  }

  /** The watermark has not gone back and no chunk was lost or changed. */
  ghost predicate Extends(early: Index, late: Index) {
    && (early.watermark.Some? ==> late.watermark.Some? && early.watermark.value <= late.watermark.value)
    && forall key :: key in early.chunks ==> key in late.chunks && late.chunks[key] == early.chunks[key]
  }

  lemma {:induction false} RunMonotone(steps: seq<Step>, k: nat)
    requires k <= |steps|
    ensures Extends(Exec(steps[..k]).index, Exec(steps).index)
  {
    if k == |steps| {
      assert steps[..k] == steps;
    } else {
      var n := |steps| - 1;
      RunMonotone(steps[..n], k);
      assert steps[..n][..k] == steps[..k];
      var past := RunInvariant(steps[..n]);
      StepExtends(Exec(steps[..n]), steps[n], past);
    }
  }

  lemma StepExtends(s: State, step: Step, past: seq<Row>)
    requires Reachable(s, past)
    ensures Extends(s.index, Do(s, step).index)
  {
    if step.Pass? {
      PassRefines(past, s.rows, s.index);
      hide IndexPass, Refines;
      PassKeeps(s.rows, s.index);
    }
  }

  lemma PassKeeps(rows: seq<Row>, index: Index)
    ensures forall key :: key in index.chunks ==>
              key in IndexPass(rows, index).chunks && IndexPass(rows, index).chunks[key] == index.chunks[key]
  {
    var window := Visible(rows[Boundary(rows, index.watermark)..]);
    UnitsNoneEmpty(window);
    hide Units, Visible, Boundary;
    InsertKeeps(index.chunks, ButLast(Units(window)));
  }

  lemma {:induction false} InsertKeeps(chunks: map<nat, Chunk>, units: seq<seq<Row>>)
    requires NoneEmpty(units)
    ensures forall key :: key in chunks ==>
              key in InsertAll(chunks, units) && InsertAll(chunks, units)[key] == chunks[key]
  {
    if units != [] {
      InsertKeeps(chunks, units[..|units| - 1]);
    }
  }

  // ---- the service ----

  class ChunkService {
    var rows: seq<Row>
    var chunks: map<nat, Chunk>
    var watermark: Option<nat>

    ghost function Current(): Index
      reads this
    {
      Index(chunks, watermark)
    }

    /** The rows are numbered and the table is that of some prefix of them. */
    ghost predicate Valid()
      reads this
    {
      exists past :: Reachable(State(rows, Current()), past)
    }

    constructor ()
      ensures Valid() && rows == [] && Current() == Index(map[], None)
    {
      rows, chunks, watermark := [], map[], None;
      new;
      assert Refines(Current(), []);
      assert Reachable(State(rows, Current()), []);
    }

    method AppendMessage(role: string, body: Message)
      requires Valid()
      modifies this
      ensures Valid() && rows == old(rows) + [Row(|old(rows)|, role, body)]
      ensures Current() == old(Current())
    {
      ghost var past :| Reachable(State(rows, Current()), past);
      rows := rows + [Row(|rows|, role, body)];
      assert Reachable(State(rows, Current()), past);
    }

    /** One locked pass over the window; returns how many chunks it created and where the last settled unit ends. */
    method ChunkNewTurns() returns (created: nat, settledEnd: Option<nat>)
      requires Valid()
      modifies this`chunks, this`watermark
      ensures Valid() && Refines(Current(), rows)
      ensures Current() == IndexPass(rows, old(Current()))
      ensures created + |old(chunks)| == |chunks|
      ensures settledEnd == watermark
    {
      hide Refines, Reachable, Units, Visible, Boundary, InsertAll, Joined, SplitBeforeUsers;
      ghost var past :| Reachable(State(rows, Current()), past);
      PassReaches(State(rows, Current()), past);
      var window := Visible(rows[Boundary(rows, watermark)..]);
      UnitsNoneEmpty(window);
      if window == [] {
        NothingVisible(rows, Current());
        return 0, watermark;
      }
      var units := GroupTurns(window);
      var settled := ButLast(units);
      chunks, created := InsertChunks(chunks, settled);
      settledEnd := LastEnd(settled);
      watermark := Later(watermark, settledEnd);
      assert Reachable(State(rows, Current()), rows);
    }
  }

  lemma NothingVisible(rows: seq<Row>, index: Index)
    requires Visible(rows[Boundary(rows, index.watermark)..]) == []
    ensures IndexPass(rows, index) == index
  {
  }

  /** Conflict-free inserts, one per settled unit. */
  method InsertChunks(chunks: map<nat, Chunk>, settled: seq<seq<Row>>) returns (chunks': map<nat, Chunk>, created: nat)
    requires NoneEmpty(settled)
    ensures chunks' == InsertAll(chunks, settled) && created + |chunks| == |chunks'|
  {
    chunks', created := chunks, 0;
    for k := 0 to |settled|
      invariant chunks' == InsertAll(chunks, settled[..k]) && created + |chunks| == |chunks'|
    {
      assert settled[..k + 1][..k] == settled[..k];
      if First(settled[k]) !in chunks' {
        chunks' := chunks'[First(settled[k]) := ChunkOf(settled[k])];
        created := created + 1;
      }
    }
    assert settled[..|settled|] == settled;
  }

  /** The grouping loop over the window's rows. */
  method GroupTurns(window: seq<Row>) returns (units: seq<seq<Row>>)
    ensures units == Units(window)
    ensures Joined(units) == window && SplitBeforeUsers(units)
  {
    UnitsExactly(window, Units(window));
    hide SplitBeforeUsers, Joined;
    units := [];
    var current: seq<Row> := [];
    for k := 0 to |window|
      invariant Units(window[..k]) == units + (if current == [] then [] else [current])
      invariant current == [] ==> units == []
    {
      var row := window[k];
      ghost var before := Units(window[..k]);
      assert window[..k + 1][..k] == window[..k];
      assert Units(window[..k + 1]) == AddRow(before, row);
      if row.role == "user" && current != [] {
        units, current := units + [current], [];
      }
      current := current + [row];
      assert before == [] ==> current == [row] && units == [];
      assert before != [] && row.role != "user" ==> before[..|before| - 1] == units;
      assert before != [] && row.role == "user" ==> units == before && current == [row];
    }
    assert window[..|window|] == window;
    if current != [] {
      units := units + [current];
    }
  }
}
