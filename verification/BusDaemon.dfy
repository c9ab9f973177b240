/** The daemon side of the LAN bus (`context_busd.py`): the guarded upsert with its timestamp
    floor, and the age-evicted nonce set that makes requests at-most-once. */
module BusDaemon {
  import opened Text
  import opened Bytes
  import opened EnvelopeCodec
  import opened RollbackGuard
  import Utf8

  const SKEW_S: real := 60.0

  // --- the guarded upsert -------------------------------------------------------------------

  datatype Row = Row(writer: seq<byte>, ts: int, envelope: string)

  /** A number field of the request, as Python's `int` sees it. */
  datatype Number = Finite(n: int) | Infinite | NoNumber

  datatype IfMatch = NoMatch | Match(ts: int) | Unparsable

  /** `writer` is encoded with surrogates let through. A Dafny string cannot hold a surrogate, so
      `oddKey` says whether the key holds one besides `key`. */
  datatype PutRequest = PutRequest(key: string, oddKey: bool, envelope: string, writer: seq<byte>,
                                   ts: Number, size: Number, ifMatch: IfMatch)

  /** `Unanswered`: an error escapes the handler and the connection just ends. */
  datatype Reply = Accepted | BadRequest | Mismatch(current: int) | Stale | MismatchUnparsable | Unanswered

  const INT64: int := 0x8000_0000_0000_0000

  /** SQLite binds integers of 64 bits. */
  predicate Bindable(n: int) {
    -INT64 <= n < INT64
  }

  function StoredTs(rows: map<string, Row>, key: string): int {
    if key in rows then rows[key].ts else 0
  }

  /** The WHERE clause: it is evaluated only against an existing row. */
  predicate GuardPasses(rows: map<string, Row>, key: string, ts: int, ifMatch: IfMatch) {
    key in rows ==> ts >= rows[key].ts - SLACK_NS && (ifMatch.Match? ==> rows[key].ts == ifMatch.ts)
  }

  predicate Named(req: PutRequest) {
    (Strip(req.key) != "" || req.oddKey) && req.envelope != ""
  }

  /** The request names the writer its sealed header names. */
  predicate WriterAgrees(req: PutRequest) {
    Named(req) && EnvelopeMeta(req.envelope).Readable? && req.writer == EnvelopeMeta(req.envelope).meta.writer
  }

  function HeadTs(req: PutRequest): int
    requires EnvelopeMeta(req.envelope).Readable?
  {
    EnvelopeMeta(req.envelope).meta.ts
  }

  /** And the timestamp, which is not ahead of the daemon's clock by more than the slack. */
  predicate WellFormedPut(req: PutRequest, now: int) {
    && WriterAgrees(req) && req.ts == Finite(HeadTs(req))
    && 0 <= HeadTs(req) <= now + SLACK_NS
  }

  /** The size that is stored; what is no number or below 0 counts as 0. */
  function SizeOf(size: Number): int
    requires !size.Infinite?
  {
    if size.Finite? && size.n > 0 then size.n else 0
  }

  /** Everything the upsert binds can be bound. */
  predicate CanBind(req: PutRequest, writer: seq<byte>, ts: int, size: int) {
    && !req.oddKey && !Utf8.HasSurrogate(writer) && Bindable(ts) && Bindable(size)
    && (req.ifMatch.Match? ==> Bindable(req.ifMatch.ts))
  }

  predicate AllBindable(req: PutRequest)
    requires WriterAgrees(req) && !req.size.Infinite?
  {
    CanBind(req, req.writer, HeadTs(req), SizeOf(req.size))
  }

  function PutResult(rows: map<string, Row>, req: PutRequest, now: int): (map<string, Row>, Reply) {
    if !Named(req) then (rows, BadRequest)
    else if EnvelopeMeta(req.envelope) == Undecodable then (rows, Unanswered)
    else if !WriterAgrees(req) then (rows, BadRequest)
    else if req.ts.Infinite? then (rows, Unanswered)
    else if !WellFormedPut(req, now) then (rows, BadRequest)
    else if req.size.Infinite? then (rows, Unanswered)
    else if req.ifMatch == Unparsable then (rows, MismatchUnparsable)
    else if !AllBindable(req) then (rows, Unanswered)
    else
      var key := Strip(req.key);
      if GuardPasses(rows, key, HeadTs(req), req.ifMatch)
      then (rows[key := Row(req.writer, HeadTs(req), req.envelope)], Accepted)
      else (rows, if req.ifMatch.Match? && req.ifMatch.ts != StoredTs(rows, key)
                  then Mismatch(StoredTs(rows, key)) else Stale)
  }

  const SWEEP_EVERY: nat := 100

  function KeysOf(rows: map<string, Row>, writer: seq<byte>): set<string> {
    set k | k in rows && rows[k].writer == writer
  }

  /** How many rows of a writer a sweep leaves: nine tenths of the cap if there were more than the cap. */
  function Retained(count: nat, cap: int): nat {
    if cap <= 0 || count <= cap then count else cap * 9 / 10
  }

  /** None of the writer's rows that went is newer than one that stays. */
  ghost predicate OldestWent(before: map<string, Row>, after: map<string, Row>, writer: seq<byte>) {
    forall gone, kept ::
      gone in KeysOf(before, writer) && gone !in after && kept in KeysOf(after, writer) ==>
        before[gone].ts <= after[kept].ts
  }

  ghost predicate PartOf(after: map<string, Row>, before: map<string, Row>) {
    forall k :: k in after ==> k in before && after[k] == before[k]
  }

  /** `_sweep`: each writer keeps its newest rows, up to its own cap. Ties may go either way. */
  ghost predicate SweptTo(before: map<string, Row>, after: map<string, Row>, cap: int) {
    && PartOf(after, before)
    && forall w :: |KeysOf(after, w)| == Retained(|KeysOf(before, w)|, cap) && OldestWent(before, after, w)
  }

  class Daemon {
    var rows: map<string, Row>
    var puts: nat
    const cap: int

    constructor (cap: int)
      ensures rows == map[] && puts == 0 && this.cap == cap
    {
      rows, puts, this.cap := map[], 0, cap;
    }

    /** `_put`: the guarded write, and a sweep after every hundredth one that is accepted. */
    method Put(req: PutRequest, now: int) returns (reply: Reply)
      modifies this
      ensures var (written, answer) := PutResult(old(rows), req, now);
              && reply == answer && puts == old(puts) + (if reply == Accepted then 1 else 0)
              && (if reply == Accepted && puts % SWEEP_EVERY == 0 then SweptTo(written, rows, cap) else rows == written)
    {
      reply := Write(req, now);
      if reply == Accepted {
        puts := puts + 1;
        if puts % SWEEP_EVERY == 0 {
          Sweep();
        }
      }
    }

    /** `_sweep` */
    method Sweep()
      modifies this`rows
      ensures SweptTo(old(rows), rows, cap)
    {
      ghost var before := rows;
      var writers := set k | k in rows :: rows[k].writer;
      if cap <= 0 {
        NothingSwept(rows, cap);
        return;
      }
      var left := writers;
      while left != {}
        invariant left <= writers && PartOf(rows, before)
        invariant forall w :: OldestWent(before, rows, w)
        invariant forall w :: w in left ==> KeysOf(rows, w) == KeysOf(before, w)
        invariant forall w :: w !in left ==> |KeysOf(rows, w)| == Retained(|KeysOf(before, w)|, cap)
        decreases |left|
      {
        var w :| w in left;
        left := left - {w};
        if |KeysOf(rows, w)| > cap {
          EvictWriter(w, cap * 9 / 10, before);
        }
      }
    }

    /** DELETE the oldest rows of one writer, until so many are left. */
    method EvictWriter(writer: seq<byte>, target: nat, ghost before: map<string, Row>)
      requires PartOf(rows, before) && (forall w :: OldestWent(before, rows, w))
      requires |KeysOf(rows, writer)| >= target
      modifies this`rows
      ensures PartOf(rows, before) && (forall w :: OldestWent(before, rows, w))
      ensures |KeysOf(rows, writer)| == target
      ensures forall w :: w != writer ==> KeysOf(rows, w) == KeysOf(old(rows), w)
    {
      while |KeysOf(rows, writer)| > target
        invariant PartOf(rows, before) && (forall w :: OldestWent(before, rows, w))
        invariant |KeysOf(rows, writer)| >= target
        invariant forall w :: w != writer ==> KeysOf(rows, w) == KeysOf(old(rows), w)
        decreases |KeysOf(rows, writer)|
      {
        OldestExists(rows, KeysOf(rows, writer));
        var k :| k in KeysOf(rows, writer) && forall j :: j in KeysOf(rows, writer) ==> rows[k].ts <= rows[j].ts;
        EvictOne(before, rows, writer, k);
        rows := rows - {k};
      }
    }

    method Write(req: PutRequest, now: int) returns (reply: Reply)
      modifies this`rows
      ensures (rows, reply) == PutResult(old(rows), req, now)
    {
      var key := Strip(req.key);
      if (key == "" && !req.oddKey) || req.envelope == "" {
        return BadRequest;
      }
      var header := EnvelopeMeta(req.envelope);
      if header == Undecodable {
        return Unanswered;
      }
      if header == Corrupt {
        return BadRequest;
      }
      var head := header.meta;
      if req.writer != head.writer {
        return BadRequest;
      }
      if req.ts == Infinite {
        return Unanswered;
      }
      var sent := if req.ts.Finite? then req.ts.n else -1;
      if sent != head.ts {
        return BadRequest;
      }
      if head.ts < 0 || head.ts > now + SLACK_NS {
        return BadRequest;
      }
      if req.size == Infinite {
        return Unanswered;
      }
      var size := if req.size.Finite? && req.size.n > 0 then req.size.n else 0;
      if req.ifMatch == Unparsable {
        return MismatchUnparsable;
      }
      reply := Upsert(req, key, head.writer, head.ts, size);
    }

    /** The guarded upsert; a parameter that cannot be bound raises before anything is written. */
    method Upsert(req: PutRequest, key: string, writer: seq<byte>, ts: int, size: int) returns (reply: Reply)
      modifies this`rows
      ensures !CanBind(req, writer, ts, size) ==> reply == Unanswered && rows == old(rows)
      ensures CanBind(req, writer, ts, size) && GuardPasses(old(rows), key, ts, req.ifMatch) ==>
        reply == Accepted && rows == old(rows)[key := Row(writer, ts, req.envelope)]
      ensures CanBind(req, writer, ts, size) && !GuardPasses(old(rows), key, ts, req.ifMatch) ==>
        && rows == old(rows)
        && reply == (if req.ifMatch.Match? && req.ifMatch.ts != StoredTs(rows, key)
                     then Mismatch(StoredTs(rows, key)) else Stale)
    {
      if req.oddKey || Utf8.HasSurrogate(writer) {
        return Unanswered;
      }
      if !Bindable(ts) || !Bindable(size) || (req.ifMatch.Match? && !Bindable(req.ifMatch.ts)) {
        return Unanswered;
      }
      if key in rows {
        var stored := rows[key].ts;
        if ts < stored - SLACK_NS || (req.ifMatch.Match? && stored != req.ifMatch.ts) {
          return if req.ifMatch.Match? && req.ifMatch.ts != stored then Mismatch(stored) else Stale;
        }
      }
      rows := rows[key := Row(writer, ts, req.envelope)];
      return Accepted;
    }
  }

  lemma {:induction false} OldestExists(rows: map<string, Row>, keys: set<string>)
    requires keys != {} && forall k :: k in keys ==> k in rows
    ensures exists k :: k in keys && forall j :: j in keys ==> rows[k].ts <= rows[j].ts
  {
    var k :| k in keys;
    var rest := keys - {k};
    if rest == {} {
      assert keys == {k};
    } else {
      OldestExists(rows, rest);
      var m :| m in rest && forall j :: j in rest ==> rows[m].ts <= rows[j].ts;
      var oldest := if rows[k].ts <= rows[m].ts then k else m;
      assert forall j :: j in keys ==> j in rest || j == k;
      assert forall j :: j in keys ==> rows[oldest].ts <= rows[j].ts;
    }
  }

  /** Removing a writer's oldest row keeps every earlier choice right, and touches no other writer. */
  lemma EvictOne(before: map<string, Row>, rows: map<string, Row>, writer: seq<byte>, k: string)
    requires PartOf(rows, before) && (forall w :: OldestWent(before, rows, w))
    requires k in KeysOf(rows, writer) && forall j :: j in KeysOf(rows, writer) ==> rows[k].ts <= rows[j].ts
    ensures var after := rows - {k};
            && PartOf(after, before) && (forall w :: OldestWent(before, after, w))
            && KeysOf(after, writer) == KeysOf(rows, writer) - {k}
            && forall w :: w != writer ==> KeysOf(after, w) == KeysOf(rows, w)
  {
    var after := rows - {k};
    forall w ensures OldestWent(before, after, w) {
      assert OldestWent(before, rows, w);
      forall gone, kept | gone in KeysOf(before, w) && gone !in after && kept in KeysOf(after, w)
        ensures before[gone].ts <= after[kept].ts
      {
        assert kept in KeysOf(rows, w);
      }
    }
  }

  lemma NothingSwept(rows: map<string, Row>, cap: int)
    requires cap <= 0
    ensures SweptTo(rows, rows, cap)
  {
  }

  /** A put with If-Match lands exactly when everything in it can be bound, the stored timestamp is
      the one named, and the floor allows it; but on an absent key the condition is not looked at. */
  lemma IfMatchIsCompareAndSet(rows: map<string, Row>, req: PutRequest, now: int)
    requires WellFormedPut(req, now) && req.ifMatch.Match? && !req.size.Infinite?
    ensures PutResult(rows, req, now).1 == Accepted <==>
      && AllBindable(req)
      && (Strip(req.key) !in rows ||
          (StoredTs(rows, Strip(req.key)) == req.ifMatch.ts && HeadTs(req) >= req.ifMatch.ts - SLACK_NS))
  {
  }

  // --- requests that get no answer ---------------------------------------------------------------

  /** The writer in the header cannot be decoded. */
  predicate WriterEscapes(req: PutRequest) {
    Named(req) && Parse(req.envelope) == BadWriter
  }

  /** A number is infinite, and the checks before it pass. */
  predicate NumberEscapes(req: PutRequest, now: int) {
    (WriterAgrees(req) && req.ts.Infinite?) || (WellFormedPut(req, now) && req.size.Infinite?)
  }

  /** All checks pass, and a surrogate or a number beyond 64 bits reaches the database. */
  predicate BindingEscapes(req: PutRequest, now: int) {
    && WellFormedPut(req, now) && !req.size.Infinite? && req.ifMatch != Unparsable
    && (|| req.oddKey || Utf8.HasSurrogate(req.writer) || HeadTs(req) >= INT64
        || (req.size.Finite? && req.size.n >= INT64)
        || (req.ifMatch.Match? && !(-INT64 <= req.ifMatch.ts < INT64)))
  }

  /** A put is left without an answer exactly when its header's writer cannot be decoded, or a
      number in it is infinite, or it passes every check and then holds a surrogate or a number
      beyond 64 bits. Whatever is not accepted changes nothing. */
  lemma UnansweredExactly(rows: map<string, Row>, req: PutRequest, now: int)
    ensures PutResult(rows, req, now).1 == Unanswered <==>
      WriterEscapes(req) || NumberEscapes(req, now) || BindingEscapes(req, now)
    ensures PutResult(rows, req, now).1 != Accepted ==> PutResult(rows, req, now).0 == rows
  {
  }

  /** A request with nothing odd in it: text without surrogates, numbers within 64 bits. */
  predicate Ordinary(req: PutRequest) {
    && !req.oddKey && !Utf8.HasSurrogate(req.writer)
    && (req.ts.Finite? ==> Bindable(req.ts.n)) && !req.ts.Infinite?
    && (req.size.Finite? ==> Bindable(req.size.n)) && !req.size.Infinite?
    && (req.ifMatch.Match? ==> Bindable(req.ifMatch.ts))
  }

  /** So an ordinary request gets an answer, whatever the daemon holds, exactly when the writer in
      its header can be decoded; and if it is well formed it lands exactly when the guard passes. */
  lemma OrdinaryIsAnswered(rows: map<string, Row>, req: PutRequest, now: int)
    requires Ordinary(req) && Named(req)
    ensures PutResult(rows, req, now).1 != Unanswered <==> Parse(req.envelope) != BadWriter
    ensures WellFormedPut(req, now) && req.ifMatch != Unparsable ==>
      (PutResult(rows, req, now).1 == Accepted <==>
        GuardPasses(rows, Strip(req.key), HeadTs(req), req.ifMatch))
  {
  }

  // --- runs of puts: the floor drifts -----------------------------------------------------------

  /** A put with the clock it meets; or rows that go, by a sweep or because a client deletes them. */
  datatype BusStep = PutStep(req: PutRequest, now: int) | Remove(keys: set<string>)

  function NextRows(rows: map<string, Row>, step: BusStep): map<string, Row> {
    match step
    case PutStep(req, now) => PutResult(rows, req, now).0
    case Remove(keys) => rows - keys
  }

  function AfterSteps(rows: map<string, Row>, steps: seq<BusStep>): map<string, Row> {
    if steps == [] then rows else NextRows(AfterSteps(rows, steps[..|steps| - 1]), steps[|steps| - 1])
  }

  /** What a sweep does is such a removal. */
  lemma SweepIsRemoval(before: map<string, Row>, after: map<string, Row>, cap: int)
    requires SweptTo(before, after, cap)
    ensures after == NextRows(before, Remove(before.Keys - after.Keys))
  {
    assert after == before - (before.Keys - after.Keys);
  }

  /** The step is a put for `key` and is accepted. */
  predicate LandsOn(rows: map<string, Row>, step: BusStep, key: string) {
    step.PutStep? && Strip(step.req.key) == key && PutResult(rows, step.req, step.now).1 == Accepted
  }

  /** Puts accepted for `key`. */
  function AcceptedFor(rows: map<string, Row>, steps: seq<BusStep>, key: string): nat {
    if steps == [] then 0
    else
      var before, last := steps[..|steps| - 1], steps[|steps| - 1];
      AcceptedFor(rows, before, key) +
      (if LandsOn(AfterSteps(rows, before), last, key) then 1 else 0)
  }

  lemma StepsSnoc(rows: map<string, Row>, steps: seq<BusStep>, last: BusStep, key: string)
    ensures AfterSteps(rows, steps + [last]) == NextRows(AfterSteps(rows, steps), last)
    ensures AcceptedFor(rows, steps + [last], key)
         == AcceptedFor(rows, steps, key) + (if LandsOn(AfterSteps(rows, steps), last, key) then 1 else 0)
  {
    hide NextRows, LandsOn;
    assert (steps + [last])[..|steps|] == steps;
  }

  /** No step removes the row of `key`. */
  ghost predicate Keeps(steps: seq<BusStep>, key: string) {
    forall i :: 0 <= i < |steps| && steps[i].Remove? ==> key !in steps[i].keys
  }

  /** One step lowers a row that it keeps by at most a slack, and only if it is a put that lands on it. */
  lemma OneStep(rows: map<string, Row>, step: BusStep, key: string)
    requires key in rows && (step.Remove? ==> key !in step.keys)
    ensures var after := NextRows(rows, step);
            key in after && after[key].ts >= rows[key].ts - (if LandsOn(rows, step, key) then SLACK_NS else 0)
  {
    hide WellFormedPut, EnvelopeMeta, AllBindable, Strip;
  }

  /** After `n` accepted puts for a key whose row is never removed, whatever happens to other rows, the
      stored timestamp is at most `n` slacks below where it stood: every accepted put may lower the
      floor by one slack. */
  lemma {:induction false} FloorDriftsAtMost(rows: map<string, Row>, steps: seq<BusStep>, key: string)
    requires key in rows && Keeps(steps, key)
    ensures key in AfterSteps(rows, steps)
    ensures AfterSteps(rows, steps)[key].ts >= rows[key].ts - AcceptedFor(rows, steps, key) * SLACK_NS
  {
    if steps != [] {
      var before, last := steps[..|steps| - 1], steps[|steps| - 1];
      FloorDriftsAtMost(rows, before, key);
      assert before + [last] == steps;
      StepsSnoc(rows, before, last, key);
      hide NextRows, AfterSteps, AcceptedFor, LandsOn;
      OneStep(AfterSteps(rows, before), last, key);
    }
  }

  /** Once its row is removed a key has no floor: whatever it stood at, the next put may start it
      anywhere from 0. */
  lemma RemovalRestartsFloor(rows: map<string, Row>, key: string, ts: int, now: int)
    requires key in rows && Strip(key) == key != "" && 0 <= ts < INT64 && ts <= now
    ensures var steps := [Remove({key}), PutAt(key, ts, now)];
            && AcceptedFor(rows, steps, key) == 1
            && key in AfterSteps(rows, steps) && AfterSteps(rows, steps)[key].ts == ts
  {
    hide AfterSteps, AcceptedFor, PutResult, LandsOn, PutOf;
    var gone, put := Remove({key}), PutAt(key, ts, now);
    NoSteps(rows, key);
    StepsSnoc(rows, [], gone, key);
    assert [] + [gone] == [gone];
    StepsSnoc(rows, [gone], put, key);
    assert [gone] + [put] == [gone, put];
    NeverLands(rows, {key}, key);
    PutAtLands(rows - {key}, key, ts, now);
  }

  lemma NoSteps(rows: map<string, Row>, key: string)
    ensures AfterSteps(rows, []) == rows && AcceptedFor(rows, [], key) == 0
  {
  }

  lemma NeverLands(rows: map<string, Row>, keys: set<string>, key: string)
    ensures !LandsOn(rows, Remove(keys), key)
  {
  }

  /** And the daemon's own sweep can be what removes it: with a cap of one, two rows of one writer both
      go, the newer one too. */
  lemma SweepCanRemove(key: string, other: string, row: Row, newer: Row)
    requires key != other && row.writer == newer.writer
    ensures SweptTo(map[key := row, other := newer], map[], 1)
  {
    var before := map[key := row, other := newer];
    forall w ensures |KeysOf(map[], w)| == Retained(|KeysOf(before, w)|, 1) && OldestWent(before, map[], w) {
      if w == row.writer {
        assert KeysOf(before, w) == {key, other};
      } else {
        assert KeysOf(before, w) == {};
      }
      assert KeysOf(map[], w) == {};
    }
  }

  /** The latest clock any of these puts met. */
  function LatestClock(steps: seq<BusStep>): int {
    if steps == [] then 0
    else
      var before, last := LatestClock(steps[..|steps| - 1]), steps[|steps| - 1];
      if last.PutStep? && last.now > before then last.now else before
  }

  /** Whatever clients send and whatever is removed: the writer and timestamp on file are those of the
      sealed header stored with them, and no stored timestamp is further ahead than one slack of the
      clock. */
  lemma {:induction false} RowsMatchTheirHeaders(steps: seq<BusStep>, key: string)
    requires key in AfterSteps(map[], steps)
    ensures var row := AfterSteps(map[], steps)[key];
            && EnvelopeMeta(row.envelope).Readable?
            && EnvelopeMeta(row.envelope).meta.writer == row.writer && EnvelopeMeta(row.envelope).meta.ts == row.ts
            && 0 <= row.ts <= LatestClock(steps) + SLACK_NS && row.ts < INT64 && !Utf8.HasSurrogate(row.writer)
  {
    hide EnvelopeMeta;
    if steps != [] {
      var before, last := steps[..|steps| - 1], steps[|steps| - 1];
      if key in AfterSteps(map[], before) {
        RowsMatchTheirHeaders(before, key);
      }
    }
  }

  /** A client envelope with a given writer and timestamp. */
  function EnvelopeOf(writer: seq<byte>, ts: int): Envelope {
    Envelope(VER, 0, writer, ts, seq(SALT_LEN, i => 0), seq(NONCE_LEN, i => 0), seq(TAG_LEN, i => 0))
  }

  /** An honest request for it. */
  function PutOf(key: string, writer: seq<byte>, ts: int): PutRequest
    requires WellFormed(EnvelopeOf(writer, ts))
  {
    PutRequest(key, false, Armor(Pack(EnvelopeOf(writer, ts)).bytes), writer, Finite(ts), Finite(0), NoMatch)
  }

  lemma EightBytes()
    ensures Pow256(8) == 2 * INT64
  {
    assert Pow256(4) == 256 * 256 * 256 * 256 * Pow256(0);
    assert Pow256(8) == 256 * 256 * 256 * 256 * Pow256(4);
  }

  function PutAt(key: string, ts: int, now: int): BusStep
    requires 0 <= ts < INT64
  {
    EightBytes();
    PutStep(PutOf(key, [], ts), now)
  }

  /** Puts that each go exactly one slack further down, all while the daemon's clock stands at
      the peak. */
  function Descent(key: string, peak: int, n: nat): seq<BusStep>
    requires 0 <= peak - n * SLACK_NS && peak < INT64
  {
    if n == 0 then [] else Descent(key, peak, n - 1) + [PutAt(key, peak - n * SLACK_NS, peak)]
  }

  lemma PutOfIsWellFormed(key: string, writer: seq<byte>, ts: int, now: int)
    requires WellFormed(EnvelopeOf(writer, ts)) && ts <= now && Strip(key) != ""
    ensures WellFormedPut(PutOf(key, writer, ts), now) && HeadTs(PutOf(key, writer, ts)) == ts
  {
    ArmoredRoundTrip(EnvelopeOf(writer, ts));
    assert Armor(Pack(EnvelopeOf(writer, ts)).bytes) != "" by { ArmorDecodes(Pack(EnvelopeOf(writer, ts)).bytes); }
  }

  lemma PutAtLands(rows: map<string, Row>, key: string, ts: int, now: int)
    requires 0 <= ts < INT64 && ts <= now && Strip(key) == key != ""
    requires key in rows ==> ts >= rows[key].ts - SLACK_NS
    ensures LandsOn(rows, PutAt(key, ts, now), key)
    ensures var after := NextRows(rows, PutAt(key, ts, now)); key in after && after[key].ts == ts
  {
    hide WellFormedPut, WriterAgrees, Pow256, EnvelopeMeta, WellFormed;
    EightBytes();
    assert WellFormed(EnvelopeOf([], ts)) by { EmptyWriterFits(ts); }
    PutOfIsWellFormed(key, [], ts, now);
    WellFormedAgrees(PutAt(key, ts, now).req, now);
  }

  lemma EmptyWriterFits(ts: int)
    requires 0 <= ts < Pow256(8)
    ensures WellFormed(EnvelopeOf([], ts))
  {
  }

  lemma WellFormedAgrees(req: PutRequest, now: int)
    requires WellFormedPut(req, now)
    ensures WriterAgrees(req) && Named(req) && EnvelopeMeta(req.envelope).Readable?
    ensures HeadTs(req) >= 0 && !req.ts.Infinite?
  {
  }

  /** The daemon's clock never goes back between puts. */
  ghost predicate ClockHolds(steps: seq<BusStep>) {
    forall i, j :: 0 <= i < j < |steps| && steps[i].PutStep? && steps[j].PutStep? ==> steps[i].now <= steps[j].now
  }

  /** And the bound is attained: for every peak and every `n` that stays above zero there is a
      run of `n` accepted puts, under a clock that never goes back, that ends exactly `n` slacks
      below the peak. */
  lemma {:induction false} FloorDriftIsAttained(rows: map<string, Row>, key: string, n: nat)
    requires key in rows && Strip(key) == key != "" && rows[key].ts < INT64
    requires 0 <= rows[key].ts - n * SLACK_NS
    ensures var puts := Descent(key, rows[key].ts, n);
            && ClockHolds(puts) && (forall i :: 0 <= i < |puts| ==> puts[i].PutStep? && puts[i].now == rows[key].ts)
            && AcceptedFor(rows, puts, key) == n
            && key in AfterSteps(rows, puts)
            && AfterSteps(rows, puts)[key].ts == rows[key].ts - n * SLACK_NS
  {
    hide AfterSteps, AcceptedFor, NextRows, LandsOn, Pow256, Descent, PutOf;
    var peak := rows[key].ts;
    DescentStep(rows, key, peak, n);
    if n > 0 {
      FloorDriftIsAttained(rows, key, n - 1);
      var before, last := Descent(key, peak, n - 1), PutAt(key, peak - n * SLACK_NS, peak);
      StepsSnoc(rows, before, last, key);
      PutAtLands(AfterSteps(rows, before), key, peak - n * SLACK_NS, peak);
    }
  }

  lemma DescentStep(rows: map<string, Row>, key: string, peak: int, n: nat)
    requires 0 <= peak - n * SLACK_NS && peak < INT64
    ensures n == 0 ==> Descent(key, peak, n) == [] && AfterSteps(rows, []) == rows && AcceptedFor(rows, [], key) == 0
    ensures n > 0 ==> Descent(key, peak, n) == Descent(key, peak, n - 1) + [PutAt(key, peak - n * SLACK_NS, peak)]
  {
  }

  // --- one request of each kind that gets no answer -----------------------------------------------

  /** The byte 0xFF, on which decoding raises. */
  function BadWriterPut(key: string): PutRequest {
    PutRequest(key, false, Armor(OneByteWriter([0xFF], 52)), [0xFF], Finite(0), Finite(0), NoMatch)
  }

  /** The encoding of the lone surrogate U+D800. */
  const SURROGATE: seq<byte> := [0xED, 0xA0, 0x80]

  lemma SurrogateFits()
    ensures Utf8.Decodable(SURROGATE) && Utf8.HasSurrogate(SURROGATE) && WellFormed(EnvelopeOf(SURROGATE, 0))
    ensures WellFormed(EnvelopeOf([], 0)) && WellFormed(EnvelopeOf([], INT64))
  {
    EightBytes();
    assert Utf8.FrontLength(SURROGATE) == 3 && SURROGATE[3..] == [];
  }

  /** Each of these is well formed, or would be but for the one thing it is about, and none is
      answered; the last one only by a daemon whose clock has reached 2^63. */
  lemma EachKindIsUnanswered(rows: map<string, Row>, key: string)
    requires Strip(key) != ""
    ensures WellFormed(EnvelopeOf(SURROGATE, 0)) && WellFormed(EnvelopeOf([], 0)) && WellFormed(EnvelopeOf([], INT64))
    ensures PutResult(rows, BadWriterPut(key), 0).1 == Unanswered
    ensures PutResult(rows, PutOf(key, SURROGATE, 0), 0).1 == Unanswered
    ensures var put := PutOf(key, [], 0);
            && PutResult(rows, put.(ts := Infinite), 0).1 == Unanswered
            && PutResult(rows, put.(size := Infinite), 0).1 == Unanswered
            && PutResult(rows, put.(size := Finite(INT64)), 0).1 == Unanswered
            && PutResult(rows, put.(ifMatch := Match(INT64)), 0).1 == Unanswered
            && PutResult(rows, put.(oddKey := true), 0).1 == Unanswered
    ensures PutResult(rows, PutOf(key, [], INT64), INT64).1 == Unanswered
  {
    SurrogateFits();
    SealedButUnparsable();
    hide Pack, Armor, WellFormed, Parse, EnvelopeOf;
    PutOfIsWellFormed(key, SURROGATE, 0, 0);
    PutOfIsWellFormed(key, [], 0, 0);
    PutOfIsWellFormed(key, [], INT64, INT64);
  }

  // --- at-most-once requests ----------------------------------------------------------------------

  function Evicted(seen: map<string, real>, cutoff: real): map<string, real> {
    map n | n in seen && seen[n] >= cutoff :: seen[n]
  }

  /** The nonce set, with the retention as a parameter of the class. */
  class Nonces {
    var seen: map<string, real>
    const retention: real

    constructor (retention: real)
      ensures this.retention == retention && seen == map[]
    {
      this.retention, this.seen := retention, map[];
    }

    /** `claim` */
    method Claim(nonce: string, now: real) returns (claimed: bool)
      modifies this
      ensures var kept := Evicted(old(seen), now - retention);
              && claimed == (nonce !in kept)
              && seen == if claimed then kept[nonce := now] else kept
    {
      var cutoff := now - retention;
      var left := seen.Keys;
      while left != {}
        invariant left <= seen.Keys && seen.Keys <= old(seen).Keys
        invariant forall n :: n in seen ==> seen[n] == old(seen)[n]
        invariant forall n :: n in old(seen) && n !in left ==> (n in seen <==> old(seen)[n] >= cutoff)
        invariant left <= seen.Keys
        decreases |left|
      {
        var n :| n in left;
        left := left - {n};
        if seen[n] < cutoff {
          seen := seen - {n};
        }
      }
      assert seen == Evicted(old(seen), cutoff);
      if nonce in seen {
        return false;
      }
      seen := seen[nonce := now];
      return true;
    }

    /** `_authorized` after the header is split; `signed` is the outcome of the HMAC check. The clock
        is read twice: for the skew check, and again for the claim. */
    method Authorized(ts: int, nonce: string, signed: bool, checked: real, claimed: real) returns (auth: Auth)
      modifies this
      ensures (seen, auth) == Admit(old(seen), Header(ts, nonce, signed, checked, claimed), retention)
    {
      if !FitsFloat(ts) {
        return NoAnswer;
      }
      var age := checked - ts as real;
      if age > SKEW_S || -age > SKEW_S {
        return Denied;
      }
      if nonce == "" || |nonce| > 128 {
        return Denied;
      }
      if !signed {
        return Denied;
      }
      var claimed := Claim(nonce, claimed);
      return if claimed then Admitted else Denied;
    }
  }

  /** `checked` and `claimed` are the two clock readings of the request. */
  datatype Header = Header(ts: int, nonce: string, signed: bool, checked: real, claimed: real)

  predicate InSkew(h: Header) {
    -SKEW_S <= h.checked - h.ts as real <= SKEW_S
  }

  /** `NoAnswer`: an error escapes the handler and the connection just ends. */
  datatype Auth = Admitted | Denied | NoAnswer

  function Power2(n: nat): int {
    if n == 0 then 1 else 2 * Power2(n - 1)
  }

  /** Python subtracts an int from a float by converting it first, which raises from here on. */
  predicate FitsFloat(ts: int) {
    -(Power2(1024) - Power2(970)) < ts < Power2(1024) - Power2(970)
  }

  function Admit(seen: map<string, real>, h: Header, retention: real): (map<string, real>, Auth) {
    if !FitsFloat(h.ts) then (seen, NoAnswer)
    else if !InSkew(h) || h.nonce == "" || |h.nonce| > 128 || !h.signed then (seen, Denied)
    else
      var kept := Evicted(seen, h.claimed - retention);
      if h.nonce in kept then (kept, Denied) else (kept[h.nonce := h.claimed], Admitted)
  }

  /** A header is left without an answer exactly when its timestamp does not fit a float, and there is
      such a timestamp; it is admitted only within the skew, and then its nonce is on file. */
  lemma NoAnswerExactly(seen: map<string, real>, h: Header, retention: real)
    ensures Admit(seen, h, retention).1 == NoAnswer <==> !FitsFloat(h.ts)
    ensures !FitsFloat(Power2(1024))
    ensures Admit(seen, h, retention).1 == Admitted ==>
      InSkew(h) && h.nonce in Admit(seen, h, retention).0 && Admit(seen, h, retention).0[h.nonce] == h.claimed
  {
    Power2Positive(970);
  }

  lemma {:induction false} Power2Positive(n: nat)
    ensures Power2(n) > 0
  {
    if n > 0 {
      Power2Positive(n - 1);
    }
  }

  function SeenAfter(run: seq<Header>, retention: real): map<string, real> {
    if run == [] then map[] else Admit(SeenAfter(run[..|run| - 1], retention), run[|run| - 1], retention).0
  }

  predicate AdmittedAt(run: seq<Header>, i: nat, retention: real)
    requires i < |run|
  {
    Admit(SeenAfter(run[..i], retention), run[i], retention).1 == Admitted
  }

  /** The clock never goes back from claim to claim, nor within a request, and a claim comes at
      most `delay` after its skew check. */
  ghost predicate Clocked(run: seq<Header>, delay: real) {
    && (forall i, j :: 0 <= i < j < |run| ==> run[i].claimed <= run[j].claimed)
    && (forall i :: 0 <= i < |run| ==> run[i].checked <= run[i].claimed <= run[i].checked + delay)
  }

  /** No (timestamp, nonce) header is admitted twice in any run. */
  ghost predicate AtMostOnce(retention: real, delay: real) {
    forall run, i, j :: Clocked(run, delay) && 0 <= i < j < |run| ==> !AdmittedTwice(run, i, j, retention)
  }

  ghost predicate AdmittedTwice(run: seq<Header>, i: nat, j: nat, retention: real)
    requires i < |run| && j < |run|
  {
    && AdmittedAt(run, i, retention) && AdmittedAt(run, j, retention)
    && run[i].ts == run[j].ts && run[i].nonce == run[j].nonce
  }

  /** A claimed nonce is still on file as long as its header could pass the skew check and be claimed. */
  lemma {:induction false} NonceStays(run: seq<Header>, i: nat, k: nat, retention: real, delay: real)
    requires Clocked(run, delay) && i < k <= |run| && AdmittedAt(run, i, retention)
    requires retention >= 2.0 * SKEW_S + delay
    requires run[k - 1].claimed <= run[i].ts as real + SKEW_S + delay
    ensures var seen := SeenAfter(run[..k], retention);
            run[i].nonce in seen && seen[run[i].nonce] >= run[i].claimed
  {
    assert run[..k][..k - 1] == run[..k - 1];
    if k > i + 1 {
      NonceStays(run, i, k - 1, retention, delay);
    }
  }

  lemma LongRetentionSuffices(retention: real, delay: real)
    requires retention >= 2.0 * SKEW_S + delay
    ensures AtMostOnce(retention, delay)
  {
    forall run, i, j | Clocked(run, delay) && 0 <= i < j < |run| ensures !AdmittedTwice(run, i, j, retention) {
      if AdmittedTwice(run, i, j, retention) {
        NonceStays(run, i, j, retention, delay);
        assert false;
      }
    }
  }

  /** One request at the early edge of the skew window, the same header again at the late edge,
      claimed as late as can be. */
  function EdgeReplay(delay: real): seq<Header> {
    [Header(100, "n", true, 40.0, 40.0), Header(100, "n", true, 160.0, 160.0 + delay)]
  }

  lemma SmallFits(ts: int)
    requires -128 <= ts <= 128
    ensures FitsFloat(ts)
  {
    Power2Grows(970, 1023);
    Power2Grows(8, 970);
    assert Power2(1024) == 2 * Power2(1023);
    assert Power2(8) == 256 by {
      assert Power2(4) == 16;
      assert Power2(6) == 64;
    }
  }

  lemma {:induction false} Power2Grows(m: nat, n: nat)
    requires m <= n
    ensures 0 < Power2(m) <= Power2(n)
    decreases n
  {
    if m < n {
      Power2Grows(m, n - 1);
    } else {
      Power2Positive(n);
    }
  }

  lemma ShortRetentionFails(retention: real, delay: real)
    requires 0.0 <= delay && retention < 2.0 * SKEW_S + delay
    ensures !AtMostOnce(retention, delay)
  {
    var run := EdgeReplay(delay);
    SmallFits(100);
    hide FitsFloat;
    assert run[..0] == [] && run[..1][..0] == [];
    assert SeenAfter(run[..0], retention) == map[];
    assert AdmittedAt(run, 0, retention);
    assert SeenAfter(run[..1], retention) == map["n" := 40.0];
    assert Evicted(SeenAfter(run[..1], retention), 160.0 + delay - retention) == map[];
    assert AdmittedTwice(run, 0, 1, retention) && Clocked(run, delay);
  }

  /** Exactly what at-most-once needs: twice the skew, plus the longest time a claim may come after
      its skew check. */
  lemma RetentionIsExact(retention: real, delay: real)
    requires delay >= 0.0
    ensures AtMostOnce(retention, delay) <==> retention >= 2.0 * SKEW_S + delay
  {
    if retention >= 2.0 * SKEW_S + delay {
      LongRetentionSuffices(retention, delay);
    } else {
      ShortRetentionFails(retention, delay);
    }
  }

  /** The retention in use, twice the skew, is enough exactly when no time passes in between. */
  lemma RetentionInUse(delay: real)
    requires delay >= 0.0
    ensures AtMostOnce(2.0 * SKEW_S, delay) <==> delay == 0.0
  {
    RetentionIsExact(2.0 * SKEW_S, delay);
  }
}
