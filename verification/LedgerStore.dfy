/** The versioned local store of `context_store.py` that carries the falsification ledger, and
    the optimistic saves of concurrent `ask_falsify` runs on one session key. */
module LedgerStore {
  import opened Text

  datatype Row = Row(value: string, version: nat)

  /** What a put does to the row of its key: None expects nothing, 0 or less expects no row,
      a positive number expects that version. */
  function PutRow(row: Option<Row>, value: string, expected: Option<int>): (Option<Row>, bool) {
    if expected == None then
      (Some(Row(value, if row == None then 1 else row.value.version + 1)), true)
    else if expected.value <= 0 then
      if row == None then (Some(Row(value, 1)), true) else (row, false)
    else if row.Some? && row.value.version == expected.value then
      (Some(Row(value, row.value.version + 1)), true)
    else (row, false)
  }

  function RowAt(rows: map<string, Row>, key: string): Option<Row> {
    if key in rows then Some(rows[key]) else None
  }

  /** `_LocalSqliteBackend` */
  class LocalStore {
    var rows: map<string, Row>

    constructor ()
      ensures rows == map[]
    {
      rows := map[];
    }

    method Put(key: string, value: string, expected: Option<int>) returns (ok: bool)
      modifies this
      ensures Strip(key) == "" ==> !ok && rows == old(rows)
      ensures Strip(key) != "" ==>
        (RowAt(rows, Strip(key)), ok) == PutRow(RowAt(old(rows), Strip(key)), value, expected)
      ensures forall k :: k != Strip(key) ==> RowAt(rows, k) == RowAt(old(rows), k)
    {
      var k := Strip(key);
      if k == "" {
        return false;
      }
      if expected == None {
        rows := rows[k := Row(value, if k in rows then rows[k].version + 1 else 1)];
        return true;
      }
      if expected.value <= 0 {
        ok := k !in rows;
        if ok {
          rows := rows[k := Row(value, 1)];
        }
        return;
      }
      ok := k in rows && rows[k].version == expected.value;
      if ok {
        rows := rows[k := Row(value, rows[k].version + 1)];
      }
    }

    method RowVersioned(key: string) returns (row: Option<Row>)
      ensures row == if Strip(key) == "" then None else RowAt(rows, Strip(key))
    {
      var k := Strip(key);
      if k == "" || k !in rows {
        return None;
      }
      return Some(rows[k]);
    }

    method Delete(key: string) returns (deleted: bool)
      modifies this
      ensures deleted == (Strip(key) != "" && Strip(key) in old(rows))
      ensures rows == if deleted then old(rows) - {Strip(key)} else old(rows)
    {
      var k := Strip(key);
      if k == "" || k !in rows {
        return false;
      }
      rows := rows - {k};
      return true;
    }

    /** One save of the round loop: on success the run's version advances with the row's. */
    method SaveLedger(key: string, blob: string, version: nat) returns (ok: bool, next: nat)
      requires Strip(key) != ""
      modifies this
      ensures (RowAt(rows, Strip(key)), ok) == PutRow(RowAt(old(rows), Strip(key)), blob, Some(version))
      ensures next == (if ok then version + 1 else version)
      ensures ok ==> RowAt(rows, Strip(key)) == Some(Row(blob, next))
    {
      ok := Put(key, blob, Some(version));
      next := if ok then version + 1 else version;
    }
  }

  // --- runs on one session key ----------------------------------------------------------------

  /** A run's view: its version, the blob it last read or wrote (None: there was none), and
      whether a save of its has been refused. */
  datatype View = View(version: nat, blob: Option<string>, lost: bool)

  /** The row and every run that has loaded it. */
  datatype World = World(row: Option<Row>, runs: map<nat, View>)

  datatype Step =
    | Load(run: nat)
    | Save(run: nat, blob: string)
    | FailedSave(run: nat)      // a store error: nothing is written, nothing is learnt
    | Delete                    // someone deletes or evicts the row

  predicate Enabled(w: World, step: Step) {
    match step
    case Load(r) => r !in w.runs
    case Save(r, _) => r in w.runs
    case FailedSave(r) => r in w.runs
    case Delete => true
  }

  predicate SaveLands(w: World, r: nat, blob: string)
    requires r in w.runs
  {
    PutRow(w.row, blob, Some(w.runs[r].version)).1
  }

  function Next(w: World, step: Step): World
    requires Enabled(w, step)
  {
    match step
    case Load(r) =>
      w.(runs := w.runs[r := if w.row == None then View(0, None, false)
                             else View(w.row.value.version, Some(w.row.value.value), false)])
    case Save(r, blob) =>
      var v := w.runs[r];
      var put := PutRow(w.row, blob, Some(v.version));
      World(put.0, w.runs[r := if put.1 then View(v.version + 1, Some(blob), v.lost) else v.(lost := true)])
    case FailedSave(_) => w
    case Delete => w.(row := None)
  }

  ghost predicate IsRun(trace: seq<World>, steps: seq<Step>) {
    && |trace| == |steps| + 1
    && trace[0].runs == map[]
    && VersionsStart(trace[0])
    && forall i :: 0 <= i < |steps| ==> Enabled(trace[i], steps[i]) && trace[i + 1] == Next(trace[i], steps[i])
  }

  function VersionOf(row: Option<Row>): nat {
    if row == None then 0 else row.value.version
  }

  function BlobOf(row: Option<Row>): Option<string> {
    if row == None then None else Some(row.value.value)
  }

  // --- without deletion -----------------------------------------------------------------------

  /** Step `i` removes a row that is there. */
  predicate Removes(trace: seq<World>, steps: seq<Step>, i: nat)
    requires i < |steps| && i < |trace|
  {
    steps[i] == Delete && trace[i].row.Some?
  }

  ghost predicate Unbroken(trace: seq<World>, steps: seq<Step>, from: nat, to: nat)
    requires to <= |steps| && to <= |trace|
  {
    forall i :: from <= i < to ==> !Removes(trace, steps, i)
  }

  /** No run is ahead of the row; one that is level with it holds its blob; one that has lost
      a save is behind for good. */
  ghost predicate Inv(w: World) {
    && VersionsStart(w)
    && forall r :: r in w.runs ==>
         && w.runs[r].version <= VersionOf(w.row)
         && (w.runs[r].version == VersionOf(w.row) ==> w.runs[r].blob == BlobOf(w.row))
         && (w.runs[r].lost ==> w.runs[r].version < VersionOf(w.row))
  }

  /** A row's version is at least 1. */
  predicate VersionsStart(w: World) {
    w.row.Some? ==> w.row.value.version >= 1
  }

  lemma StepKeepsInv(w: World, step: Step)
    requires Inv(w) && Enabled(w, step) && !(step == Delete && w.row.Some?)
    ensures Inv(Next(w, step))
  {
  }

  lemma {:induction false} EveryRunIsOrdered(trace: seq<World>, steps: seq<Step>, i: nat)
    requires IsRun(trace, steps) && i < |trace| && Unbroken(trace, steps, 0, i)
    ensures Inv(trace[i])
  {
    if i > 0 {
      EveryRunIsOrdered(trace, steps, i - 1);
      assert !Removes(trace, steps, i - 1);
      StepKeepsInv(trace[i - 1], steps[i - 1]);
    }
  }

  /** No lost update: as long as the row is never deleted, in every interleaving a save lands
      exactly when the run is level with the row; then the blob it replaces is the one that run
      last read or wrote, and afterwards the run's version is the row's. */
  lemma NoLostUpdate(trace: seq<World>, steps: seq<Step>, i: nat, r: nat, blob: string)
    requires IsRun(trace, steps) && i < |steps| && steps[i] == Save(r, blob) && Unbroken(trace, steps, 0, i)
    ensures SaveLands(trace[i], r, blob) <==> trace[i].runs[r].version == VersionOf(trace[i].row)
    ensures SaveLands(trace[i], r, blob) ==>
      && BlobOf(trace[i].row) == trace[i].runs[r].blob
      && BlobOf(trace[i + 1].row) == Some(blob) == trace[i + 1].runs[r].blob
      && trace[i + 1].runs[r].version == VersionOf(trace[i + 1].row) == VersionOf(trace[i].row) + 1
    ensures !SaveLands(trace[i], r, blob) ==> trace[i + 1].row == trace[i].row
  {
    EveryRunIsOrdered(trace, steps, i);
  }

  lemma {:induction false} LostStays(trace: seq<World>, steps: seq<Step>, i: nat, j: nat, r: nat)
    requires IsRun(trace, steps) && i <= j < |trace|
    requires r in trace[i].runs && trace[i].runs[r].lost
    ensures r in trace[j].runs && trace[j].runs[r].lost
  {
    if i < j {
      LostStays(trace, steps, i, j - 1, r);
    }
  }

  /** Once a run has lost a save, every later save of it is refused too. */
  lemma LostRunsStayLost(trace: seq<World>, steps: seq<Step>, i: nat, j: nat, r: nat, first: string, later: string)
    requires IsRun(trace, steps) && i < j < |steps| && Unbroken(trace, steps, 0, j)
    requires steps[i] == Save(r, first) && !SaveLands(trace[i], r, first)
    requires steps[j] == Save(r, later)
    ensures !SaveLands(trace[j], r, later)
  {
    LostStays(trace, steps, i + 1, j, r);
    EveryRunIsOrdered(trace, steps, j);
  }

  // --- with deletion: exactly when a landing save is safe -----------------------------------------

  /** Step `j` leaves run `r` level with the row: its load, or a save of its that lands. */
  predicate Syncs(trace: seq<World>, steps: seq<Step>, j: nat, r: nat)
    requires IsRunSoFar(trace, steps) && j < |steps|
  {
    match steps[j]
    case Load(q) => q == r
    case Save(q, blob) => q == r && r in trace[j].runs && SaveLands(trace[j], r, blob)
    case _ => false
  }

  predicate IsRunSoFar(trace: seq<World>, steps: seq<Step>) {
    |trace| == |steps| + 1
  }

  /** Step `j` is the last one before `i` that left run `r` level with the row. */
  ghost predicate LastSync(trace: seq<World>, steps: seq<Step>, j: nat, i: nat, r: nat)
    requires IsRunSoFar(trace, steps) && j < i <= |steps|
  {
    Syncs(trace, steps, j, r) && forall t :: j < t < i ==> !Syncs(trace, steps, t, r)
  }

  /** The row is literally the same in all states from `from` to `to`. */
  ghost predicate Untouched(trace: seq<World>, from: nat, to: nat)
    requires from <= to < |trace|
  {
    forall t :: from <= t <= to ==> trace[t].row == trace[from].row
  }

  lemma {:induction false} VersionsStartAt1(trace: seq<World>, steps: seq<Step>, i: nat)
    requires IsRun(trace, steps) && i < |trace|
    ensures VersionsStart(trace[i])
  {
    if i > 0 {
      VersionsStartAt1(trace, steps, i - 1);
    }
  }

  /** Since its last sync a run's view has not moved. */
  lemma {:induction false} ViewStays(trace: seq<World>, steps: seq<Step>, j: nat, t: nat, r: nat)
    requires IsRun(trace, steps) && j < t < |trace| && LastSync(trace, steps, j, t, r)
    ensures r in trace[t].runs
    ensures trace[t].runs[r].version == VersionOf(trace[j + 1].row) && trace[t].runs[r].blob == BlobOf(trace[j + 1].row)
  {
    if t > j + 1 {
      ViewStays(trace, steps, j, t - 1, r);
      assert !Syncs(trace, steps, t - 1, r);
    }
  }

  /** While no row is removed versions only grow, and a version stands for one row. */
  lemma {:induction false} VersionsGrow(trace: seq<World>, steps: seq<Step>, from: nat, to: nat)
    requires IsRun(trace, steps) && from <= to < |trace| && Unbroken(trace, steps, from, to)
    ensures VersionOf(trace[from].row) <= VersionOf(trace[to].row)
    ensures VersionOf(trace[to].row) == VersionOf(trace[from].row) ==> Untouched(trace, from, to)
  {
    if from < to {
      VersionsGrow(trace, steps, from, to - 1);
      VersionsStartAt1(trace, steps, to - 1);
      assert !Removes(trace, steps, to - 1);
      assert VersionOf(trace[to - 1].row) <= VersionOf(trace[to].row);
    }
  }

  /** A row that is there after a deletion was written since, by a save that landed. */
  lemma {:induction false} WrittenSince(trace: seq<World>, steps: seq<Step>, from: nat, to: nat) returns (t: nat)
    requires IsRun(trace, steps) && from <= to < |trace|
    requires trace[from].row == None && trace[to].row.Some?
    ensures from <= t < to && Writes(trace, steps, t, trace[to].row)
  {
    if trace[to - 1].row == trace[to].row {
      t := WrittenSince(trace, steps, from, to - 1);
    } else {
      t := to - 1;
    }
  }

  /** Step `t` is a landing save that leaves exactly `row`. */
  predicate Writes(trace: seq<World>, steps: seq<Step>, t: nat, row: Option<Row>)
    requires IsRunSoFar(trace, steps) && t < |steps|
  {
    && steps[t].Save? && Syncs(trace, steps, t, steps[t].run) && trace[t + 1].row == row
  }

  /** In every interleaving, deletions included, a landing save replaces the very row its run
      last read or wrote exactly when no row was removed in between; then the blob it replaces is
      the one the run knows. If a row was removed, whatever it replaces was written by another
      run since, and it is the known blob only if the two happen to be equal. */
  lemma SafeSaveExactly(trace: seq<World>, steps: seq<Step>, j: nat, i: nat, r: nat, blob: string)
    requires IsRun(trace, steps) && j < i < |steps| && steps[i] == Save(r, blob)
    requires SaveLands(trace[i], r, blob) && LastSync(trace, steps, j, i, r)
    ensures Unbroken(trace, steps, j + 1, i) <==> Untouched(trace, j + 1, i)
    ensures Unbroken(trace, steps, j + 1, i) ==> BlobOf(trace[i].row) == trace[i].runs[r].blob
    ensures !Unbroken(trace, steps, j + 1, i) && trace[i].row.Some? ==>
      exists t :: j < t < i && Writes(trace, steps, t, trace[i].row) && steps[t].run != r
  {
    ViewStays(trace, steps, j, i, r);
    VersionsStartAt1(trace, steps, i);
    if Unbroken(trace, steps, j + 1, i) {
      VersionsGrow(trace, steps, j + 1, i);
    } else {
      var d :| j + 1 <= d < i && Removes(trace, steps, d);
      assert trace[d].row != trace[d + 1].row;
      if trace[i].row.Some? {
        var t := WrittenSince(trace, steps, d + 1, i);
        assert !Syncs(trace, steps, t, r);
      }
    }
  }

  /** The failure is reached: after a deletion, a run that is behind lands on another run's ledger
      it has never seen. */
  lemma DeletionBreaksIt(a: string, b: string, c: string)
    requires a != b
    ensures exists trace: seq<World>, steps: seq<Step> ::
      && IsRun(trace, steps) && trace[0].row == None
      && |steps| == 6 && steps[2] == Delete && steps[5] == Save(0, c) && SaveLands(trace[5], 0, c)
      && BlobOf(trace[5].row) == Some(b) && trace[5].runs[0].blob == Some(a)
  {
    var trace, steps := [World(None, map[])], [];
    trace, steps := Extended(trace, steps, Load(0));
    trace, steps := Extended(trace, steps, Save(0, a));
    trace, steps := Extended(trace, steps, Delete);
    trace, steps := Extended(trace, steps, Load(1));
    trace, steps := Extended(trace, steps, Save(1, b));
    trace, steps := Extended(trace, steps, Save(0, c));
    hide IsRun;
    assert SaveLands(trace[5], 0, c);
  }

  lemma Extended(trace: seq<World>, steps: seq<Step>, step: Step) returns (more: seq<World>, taken: seq<Step>)
    requires IsRun(trace, steps) && |trace| > 0 && Enabled(trace[|trace| - 1], step)
    ensures IsRun(more, taken) && taken == steps + [step] && more == trace + [Next(trace[|trace| - 1], step)]
  {
    more, taken := trace + [Next(trace[|trace| - 1], step)], steps + [step];
  }
}
