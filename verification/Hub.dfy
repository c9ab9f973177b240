/** The session hub of `hub.py`: an append-only table of turns, and a per-session view of it
    that is maintained incrementally through writes, prunes and evictions. */
module Hub {

  const SWEEP_EVERY: nat := 100

  datatype Key = Key(project: string, session: string, agent: string)

  /** The fields a session row copies from its newest turn. */
  datatype Last = Last(question: string, answer: string, oracle: string, status: string, sdkSession: string)

  /** `duration` below 0 stands for NULL. */
  datatype Turn = Turn(ts: int, key: Key, last: Last, duration: int)

  datatype Meta = Meta(last: Last, heartbeat: int, count: nat)

  datatype Store = Store(turns: seq<Turn>, meta: map<Key, Meta>)

  // --- the view, defined from the turns alone ---------------------------------------------

  function Count(turns: seq<Turn>, key: Key): nat {
    if turns == [] then 0
    else Count(turns[..|turns| - 1], key) + (if turns[|turns| - 1].key == key then 1 else 0)
  }

  /** The turn of `key` with the greatest timestamp (the last of equals). */
  function Newest(turns: seq<Turn>, key: Key): (t: Turn)
    requires Count(turns, key) > 0
    ensures t in turns && t.key == key
  {
    var n := |turns| - 1;
    if turns[n].key != key then Newest(turns[..n], key)
    else if Count(turns[..n], key) > 0 && Newest(turns[..n], key).ts > turns[n].ts then Newest(turns[..n], key)
    else turns[n]
  }

  function GroupRow(turns: seq<Turn>, key: Key): Meta
    requires Count(turns, key) > 0
  {
    var t := Newest(turns, key);
    Meta(t.last, t.ts, Count(turns, key))
  }

  /** `session_meta` is exactly the group-by of `turns`. */
  ghost predicate IsGroupBy(s: Store) {
    && (forall k :: k in s.meta <==> Count(s.turns, k) > 0)
    && (forall k :: k in s.meta ==> s.meta[k] == GroupRow(s.turns, k))
  }

  /** A key is counted exactly when some turn has it. */
  lemma {:induction false} CountedWhenPresent(turns: seq<Turn>, key: Key)
    ensures Count(turns, key) > 0 <==> exists j :: 0 <= j < |turns| && turns[j].key == key
  {
    if turns != [] {
      var n := |turns| - 1;
      CountedWhenPresent(turns[..n], key);
      if j :| 0 <= j < |turns| && turns[j].key == key {
        assert j < n ==> turns[..n][j].key == key;
      }
    }
  }

  /** Position `m` holds the newest turn of the key: none is newer, and no later one as new. */
  ghost predicate IsNewestAt(turns: seq<Turn>, key: Key, m: nat) {
    && m < |turns| && turns[m].key == key
    && (forall j :: 0 <= j < |turns| && turns[j].key == key ==> turns[j].ts <= turns[m].ts)
    && (forall j :: m < j < |turns| && turns[j].key == key ==> turns[j].ts < turns[m].ts)
  }

  /** `Newest` is what that says, and such a position exists whenever the key has a turn. */
  lemma {:induction false} NewestIsAt(turns: seq<Turn>, key: Key) returns (m: nat)
    requires Count(turns, key) > 0
    ensures IsNewestAt(turns, key, m) && Newest(turns, key) == turns[m]
  {
    var n := |turns| - 1;
    CountedWhenPresent(turns[..n], key);
    if turns[n].key == key && Count(turns[..n], key) == 0 {
      m := n;
      forall j | 0 <= j < n ensures turns[j].key != key {
        assert turns[..n][j] == turns[j];
      }
    } else {
      var p := NewestIsAt(turns[..n], key);
      forall j | 0 <= j < n && turns[j].key == key
        ensures turns[j].ts <= turns[p].ts && (p < j ==> turns[j].ts < turns[p].ts)
      {
        assert turns[..n][j] == turns[j];
      }
      m := if turns[n].key == key && turns[p].ts <= turns[n].ts then n else p;
    }
  }

  lemma OnlyOneNewest(turns: seq<Turn>, key: Key, m: nat)
    requires IsNewestAt(turns, key, m)
    ensures Count(turns, key) > 0 && Newest(turns, key) == turns[m]
  {
    CountedWhenPresent(turns, key);
    var p := NewestIsAt(turns, key);
  }

  // --- the three operations ------------------------------------------------------------------

  /** The insert and upsert of `write_turn`. */
  function Written(s: Store, t: Turn): Store {
    Store(s.turns + [t],
          s.meta[t.key := Meta(t.last, t.ts, (if t.key in s.meta then s.meta[t.key].count else 0) + 1)])
  }

  predicate Junk(t: Turn, agent: string, limit: nat) {
    t.key.agent == agent && t.duration <= limit
  }

  function WithoutJunk(turns: seq<Turn>, agent: string, limit: nat): seq<Turn> {
    if turns == [] then []
    else
      var n := |turns| - 1;
      WithoutJunk(turns[..n], agent, limit) + (if Junk(turns[n], agent, limit) then [] else [turns[n]])
  }

  /** `prune_junk`: delete, drop orphaned rows, then recompute every remaining row. */
  function Pruned(s: Store, agent: string, limit: nat): Store {
    var turns := WithoutJunk(s.turns, agent, limit);
    Store(turns, map k | k in s.meta && Count(turns, k) > 0 :: GroupRow(turns, k))
  }

  /** The position of the oldest turn (the first of equals). */
  function OldestAt(turns: seq<Turn>): (i: nat)
    requires turns != []
    ensures i < |turns| && forall j :: 0 <= j < |turns| ==> turns[i].ts <= turns[j].ts
    ensures forall j :: 0 <= j < i ==> turns[i].ts < turns[j].ts
  {
    var n := |turns| - 1;
    if n == 0 then 0
    else
      var i := OldestAt(turns[..n]);
      if turns[i].ts <= turns[n].ts then i else n
  }

  /** Delete the `n` oldest turns, one by one. */
  function EvictOldest(turns: seq<Turn>, n: nat): seq<Turn>
    requires n <= |turns|
  {
    if n == 0 then turns
    else
      EvictOldest(WithoutOldest(turns), n - 1)
  }

  function WithoutOldest(turns: seq<Turn>): (left: seq<Turn>)
    requires turns != []
    ensures |left| == |turns| - 1
  {
    var i := OldestAt(turns);
    turns[..i] + turns[i + 1..]
  }

  /** How many turns a sweep evicts: down to nine tenths of the cap. */
  function Excess(count: nat, cap: nat): nat
    requires count > cap
  {
    count - cap * 9 / 10
  }

  /** `_sweep`: evict, drop orphaned rows, recount; the last fields are left alone. */
  function Swept(s: Store, cap: int): Store {
    if cap <= 0 || |s.turns| <= cap then s
    else
      var turns := EvictOldest(s.turns, Excess(|s.turns|, cap));
      Store(turns, map k | k in s.meta && Count(turns, k) > 0 :: s.meta[k].(count := Count(turns, k)))
  }

  // --- eviction is oldest-first -----------------------------------------------------------------

  /** Where the turn at `j` of the shorter table was before. */
  function Shifted(i: nat, j: nat): nat {
    if j < i then j else j + 1
  }

  lemma WithoutOldestAt(turns: seq<Turn>, j: nat)
    requires turns != [] && j < |turns| - 1
    ensures WithoutOldest(turns)[j] == turns[Shifted(OldestAt(turns), j)]
  {
    hide OldestAt;
    var i := OldestAt(turns);
    if j < i {
      assert WithoutOldest(turns)[j] == turns[..i][j];
    } else {
      assert WithoutOldest(turns)[j] == turns[i + 1..][j - i];
    }
  }

  /** Dropping the oldest turn of all never drops the newest turn of a session that keeps any. */
  lemma NewestSurvivesOne(turns: seq<Turn>, key: Key)
    requires turns != [] && Count(WithoutOldest(turns), key) > 0
    ensures Count(turns, key) > 0 && Newest(WithoutOldest(turns), key) == Newest(turns, key)
  {
    hide Count, Newest, WithoutOldest;
    var i, left := OldestAt(turns), WithoutOldest(turns);
    CountedWhenPresent(left, key);
    var k :| 0 <= k < |left| && left[k].key == key;
    WithoutOldestAt(turns, k);
    CountedWhenPresent(turns, key);
    var m := NewestIsAt(turns, key);
    assert turns[Shifted(i, k)].key == key;
    var p := if m < i then m else m - 1;
    StillNewest(turns, key, m, p);
    OnlyOneNewest(left, key, p);
  }

  lemma StillNewest(turns: seq<Turn>, key: Key, m: nat, p: int)
    requires turns != [] && IsNewestAt(turns, key, m) && m != OldestAt(turns)
    requires p == if m < OldestAt(turns) then m else m - 1
    ensures IsNewestAt(WithoutOldest(turns), key, p) && WithoutOldest(turns)[p] == turns[m]
  {
    hide WithoutOldest;
    WithoutOldestAt(turns, p);
    forall j | 0 <= j < |turns| - 1 ensures WithoutOldest(turns)[j] == turns[Shifted(OldestAt(turns), j)] {
      WithoutOldestAt(turns, j);
    }
  }

  lemma {:induction false} NewestSurvives(turns: seq<Turn>, n: nat, key: Key)
    requires n <= |turns| && Count(EvictOldest(turns, n), key) > 0
    ensures Count(turns, key) > 0 && Newest(EvictOldest(turns, n), key) == Newest(turns, key)
    decreases n
  {
    hide Count, Newest, WithoutOldest;
    if n > 0 {
      NewestSurvives(WithoutOldest(turns), n - 1, key);
      NewestSurvivesOne(turns, key);
    }
  }

  lemma WithoutOldestIsRest(turns: seq<Turn>)
    requires turns != []
    ensures multiset(turns) == multiset(WithoutOldest(turns)) + multiset{turns[OldestAt(turns)]}
  {
    var i := OldestAt(turns);
    assert turns == turns[..i] + [turns[i]] + turns[i + 1..];
  }

  /** What is evicted is part of the table, as many as asked for, and none of it is newer than
      anything that stays. */
  lemma {:induction false} EvictedAreOldest(turns: seq<Turn>, n: nat)
    requires n <= |turns|
    ensures var left := EvictOldest(turns, n);
            && |left| == |turns| - n
            && multiset(left) <= multiset(turns)
            && forall gone, kept :: gone in multiset(turns) - multiset(left) && kept in left ==> gone.ts <= kept.ts
    decreases n
  {
    hide OldestAt, WithoutOldest;
    if n > 0 {
      var rest, oldest := WithoutOldest(turns), turns[OldestAt(turns)];
      EvictedAreOldest(rest, n - 1);
      WithoutOldestIsRest(turns);
      var left := EvictOldest(rest, n - 1);
      forall gone, kept | gone in multiset(turns) - multiset(left) && kept in left ensures gone.ts <= kept.ts {
        if gone == oldest {
          assert kept in multiset(left) && kept in multiset(turns);
          assert kept in turns;
        } else {
          assert gone in multiset(rest) - multiset(left);
        }
      }
    }
  }

  lemma {:induction false} FilteredCount(turns: seq<Turn>, agent: string, limit: nat, key: Key)
    ensures Count(WithoutJunk(turns, agent, limit), key) <= Count(turns, key)
  {
    if turns != [] {
      var n := |turns| - 1;
      FilteredCount(turns[..n], agent, limit, key);
      var kept := WithoutJunk(turns[..n], agent, limit);
      assert (kept + [turns[n]])[..|kept|] == kept;
      assert kept + [] == kept;
    }
  }

  lemma {:induction false} FilteredTurns(turns: seq<Turn>, agent: string, limit: nat, t: Turn)
    ensures t in WithoutJunk(turns, agent, limit) <==> t in turns && !Junk(t, agent, limit)
  {
    if turns != [] {
      var n := |turns| - 1;
      FilteredTurns(turns[..n], agent, limit, t);
      assert turns == turns[..n] + [turns[n]];
    }
  }

  // --- each operation keeps the view ---------------------------------------------------------------

  /** A turn that is not older than the last one of its own session. */
  predicate OnTime(s: Store, t: Turn) {
    t.key in s.meta ==> s.meta[t.key].heartbeat <= t.ts
  }

  /** A write keeps the view exactly when it is on time. */
  lemma WriteKeepsViewExactly(s: Store, t: Turn)
    requires IsGroupBy(s)
    ensures IsGroupBy(Written(s, t)) <==> OnTime(s, t)
  {
    var more := s.turns + [t];
    assert more[..|s.turns|] == s.turns;
    if !OnTime(s, t) {
      assert GroupRow(more, t.key).heartbeat == s.meta[t.key].heartbeat;
      assert Written(s, t).meta[t.key] != GroupRow(more, t.key);
    } else {
      forall k
        ensures k in Written(s, t).meta <==> Count(more, k) > 0
        ensures k in Written(s, t).meta ==> Written(s, t).meta[k] == GroupRow(more, k)
      {
        assert k != t.key ==> (k in s.meta <==> Count(s.turns, k) > 0);
      }
    }
  }

  lemma PruneKeepsView(s: Store, agent: string, limit: nat)
    requires IsGroupBy(s)
    ensures IsGroupBy(Pruned(s, agent, limit))
  {
    hide Count, Newest, WithoutJunk;
    forall k ensures Count(WithoutJunk(s.turns, agent, limit), k) <= Count(s.turns, k) {
      FilteredCount(s.turns, agent, limit, k);
    }
  }

  /** The sweep keeps the view although it refreshes only the counts: eviction is oldest-first,
      so a session that keeps any turn keeps its newest. */
  lemma SweepKeepsView(s: Store, cap: int)
    requires IsGroupBy(s)
    ensures IsGroupBy(Swept(s, cap))
  {
    hide Count, Newest, EvictOldest;
    if cap > 0 && |s.turns| > cap {
      var n := Excess(|s.turns|, cap);
      var left := EvictOldest(s.turns, n);
      forall k
        ensures Count(left, k) > 0 ==> Count(s.turns, k) > 0 && Newest(left, k) == Newest(s.turns, k)
      {
        if Count(left, k) > 0 {
          NewestSurvives(s.turns, n, k);
        }
      }
    }
  }

  /** A sweep over the cap leaves nine tenths of the cap, and evicts nothing newer than what stays. */
  lemma SweepKeepsTheNewest(s: Store, cap: int)
    requires 0 < cap < |s.turns|
    ensures var left := Swept(s, cap).turns;
            && |left| == cap * 9 / 10 && multiset(left) <= multiset(s.turns)
            && forall gone, kept :: gone in multiset(s.turns) - multiset(left) && kept in left ==> gone.ts <= kept.ts
  {
    EvictedAreOldest(s.turns, Excess(|s.turns|, cap));
  }

  /** A prune removes exactly the matching turns, every copy of them and nothing else. */
  lemma {:induction false} PruneRemovesOnlyJunk(s: Store, agent: string, limit: nat, t: Turn)
    ensures multiset(Pruned(s, agent, limit).turns)[t] == if Junk(t, agent, limit) then 0 else multiset(s.turns)[t]
  {
    FilteredCopies(s.turns, agent, limit, t);
  }

  lemma {:induction false} FilteredCopies(turns: seq<Turn>, agent: string, limit: nat, t: Turn)
    ensures multiset(WithoutJunk(turns, agent, limit))[t] == if Junk(t, agent, limit) then 0 else multiset(turns)[t]
  {
    if turns != [] {
      var n := |turns| - 1;
      FilteredCopies(turns[..n], agent, limit, t);
      var kept := WithoutJunk(turns[..n], agent, limit);
      hide WithoutJunk;
      assert turns == turns[..n] + [turns[n]];
      assert multiset(turns) == multiset(turns[..n]) + multiset{turns[n]};
      assert multiset(kept + [turns[n]]) == multiset(kept) + multiset{turns[n]};
      assert kept + [] == kept;
      OneMoreKept(turns, agent, limit);
    }
  }

  lemma OneMoreKept(turns: seq<Turn>, agent: string, limit: nat)
    requires turns != []
    ensures var n := |turns| - 1;
            WithoutJunk(turns, agent, limit)
            == WithoutJunk(turns[..n], agent, limit) + (if Junk(turns[n], agent, limit) then [] else [turns[n]])
  {
  }

  // --- the object --------------------------------------------------------------------------------------

  class SessionHub {
    var turns: seq<Turn>
    var meta: map<Key, Meta>
    var writes: nat

    constructor ()
      ensures Now() == Store([], map[]) && writes == 0 && IsGroupBy(Now())
    {
      turns, meta, writes := [], map[], 0;
    }

    function Now(): Store
      reads this
    {
      Store(turns, meta)
    }

    /** `write_turn`: append, upsert, and sweep on every hundredth write. */
    method WriteTurn(t: Turn, cap: int)
      modifies this
      ensures writes == old(writes) + 1
      ensures Now() == (if writes % SWEEP_EVERY == 0 then Swept(Written(old(Now()), t), cap)
                        else Written(old(Now()), t))
      ensures old(IsGroupBy(Now())) && OnTime(old(Now()), t) ==> IsGroupBy(Now())
    {
      hide IsGroupBy, Swept;
      if IsGroupBy(Now()) {
        WriteKeepsViewExactly(Now(), t);
      }
      turns := turns + [t];
      if t.key in meta {
        meta := meta[t.key := Meta(t.last, t.ts, meta[t.key].count + 1)];
      } else {
        meta := meta[t.key := Meta(t.last, t.ts, 1)];
      }
      writes := writes + 1;
      if writes % SWEEP_EVERY == 0 {
        Sweep(cap);
      }
    }

    /** `_sweep` */
    method Sweep(cap: int)
      modifies this`turns, this`meta
      ensures Now() == Swept(old(Now()), cap)
      ensures old(IsGroupBy(Now())) ==> IsGroupBy(Now())
    {
      hide IsGroupBy, Count, Newest, EvictOldest;
      if IsGroupBy(Now()) {
        SweepKeepsView(Now(), cap);
      }
      ghost var was := Now();
      if cap <= 0 {
        return;
      }
      if |turns| > cap {
        turns := EvictOldest(turns, Excess(|turns|, cap));
        DropOrphans();
        Recount();
        assert meta == Swept(was, cap).meta;
      }
    }

    /** UPDATE session_meta SET turn_count from the remaining turns. */
    method Recount()
      modifies this`meta
      ensures meta == map k | k in old(meta) :: old(meta)[k].(count := Count(turns, k))
    {
      meta := map k | k in meta :: meta[k].(count := Count(turns, k));
    }

    /** DELETE FROM session_meta WHERE NOT EXISTS a turn with the full key. */
    method DropOrphans()
      modifies this`meta
      ensures meta == map k | k in old(meta) && Count(turns, k) > 0 :: old(meta)[k]
    {
      meta := map k | k in meta && Count(turns, k) > 0 :: meta[k];
    }

    /** `prune_junk` */
    method PruneJunk(agent: string, maxDuration: int) returns (deleted: nat)
      modifies this`turns, this`meta
      ensures old(IsGroupBy(Now())) ==> IsGroupBy(Now())
      ensures Now() == Pruned(old(Now()), agent, if maxDuration > 0 then maxDuration else 0)
      ensures deleted == |old(turns)| - |turns|
    {
      hide IsGroupBy, Count, Newest, WithoutJunk;
      var limit := if maxDuration > 0 then maxDuration else 0;
      if IsGroupBy(Now()) {
        PruneKeepsView(Now(), agent, limit);
      }
      ghost var target := Pruned(Now(), agent, limit);
      FilteredLength(turns, agent, limit);
      deleted := |turns| - |WithoutJunk(turns, agent, limit)|;
      turns := WithoutJunk(turns, agent, limit);
      DropOrphans();
      Refresh();
      assert meta == target.meta;
    }

    /** Recompute every row from its surviving turns. */
    method Refresh()
      requires forall k :: k in meta ==> Count(turns, k) > 0
      modifies this`meta
      ensures meta == map k | k in old(meta) && Count(turns, k) > 0 :: GroupRow(turns, k)
    {
      hide Count, Newest;
      var left := meta.Keys;
      while left != {}
        invariant left <= meta.Keys && meta.Keys == old(meta).Keys
        invariant forall k :: k in meta && k !in left ==> meta[k] == GroupRow(turns, k)
        decreases |left|
      {
        var k :| k in left;
        left := left - {k};
        var latest := Newest(turns, k);
        meta := meta[k := Meta(latest.last, latest.ts, Count(turns, k))];
      }
    }
  }

  lemma {:induction false} FilteredLength(turns: seq<Turn>, agent: string, limit: nat)
    ensures |WithoutJunk(turns, agent, limit)| <= |turns|
  {
    if turns != [] {
      FilteredLength(turns[..|turns| - 1], agent, limit);
    }
  }

  // --- any sequence of operations -------------------------------------------------------------------------

  datatype Op = Write(turn: Turn) | Prune(agent: string, limit: nat) | SweepTo(cap: int)

  function Apply(s: Store, op: Op): Store {
    match op
    case Write(t) => Written(s, t)
    case Prune(agent, limit) => Pruned(s, agent, limit)
    case SweepTo(cap) => Swept(s, cap)
  }

  function After(ops: seq<Op>): Store {
    if ops == [] then Store([], map[]) else Apply(After(ops[..|ops| - 1]), ops[|ops| - 1])
  }

  /** The write of step `n`, if it is one, is on time where it happens. */
  predicate OnTimeAt(ops: seq<Op>, n: nat)
    requires n < |ops|
  {
    ops[n].Write? ==> OnTime(After(ops[..n]), ops[n].turn)
  }

  ghost predicate ViewHolds(ops: seq<Op>) {
    forall n :: 0 <= n <= |ops| ==> IsGroupBy(After(ops[..n]))
  }

  ghost predicate WritesOnTime(ops: seq<Op>) {
    forall n :: 0 <= n < |ops| ==> OnTimeAt(ops, n)
  }

  lemma OpKeepsViewExactly(s: Store, op: Op)
    requires IsGroupBy(s)
    ensures IsGroupBy(Apply(s, op)) <==> (op.Write? ==> OnTime(s, op.turn))
  {
    hide IsGroupBy, Written, Pruned, Swept, OnTime;
    match op
    case Write(t) => WriteKeepsViewExactly(s, t);
    case Prune(agent, limit) => PruneKeepsView(s, agent, limit);
    case SweepTo(cap) => SweepKeepsView(s, cap);
  }

  /** Starting empty, through any sequence of writes, prunes and sweeps the view is the group-by
      of the turns at every moment exactly when no write is older than the row of its session. */
  lemma {:induction false} ViewHoldsExactly(ops: seq<Op>)
    ensures ViewHolds(ops) <==> WritesOnTime(ops)
  {
    if ops == [] {
      assert After(ops[..0]) == Store([], map[]);
    } else {
      var m := |ops| - 1;
      var before := ops[..m];
      ViewHoldsExactly(before);
      hide IsGroupBy, Apply, OnTime;
      forall n | 0 <= n <= m ensures ops[..n] == before[..n] {
      }
      assert forall n :: 0 <= n < m ==> OnTimeAt(ops, n) == OnTimeAt(before, n);
      assert ops[..|ops|] == ops && before[..m] == before;
      if IsGroupBy(After(before)) {
        OpKeepsViewExactly(After(before), ops[m]);
      }
      ViewStep(ops);
    }
  }

  /** One more step adds one more moment and one more write to look at. */
  lemma ViewStep(ops: seq<Op>)
    requires ops != []
    ensures var before := ops[..|ops| - 1];
            && (ViewHolds(ops) <==> ViewHolds(before) && IsGroupBy(After(ops)))
            && (WritesOnTime(ops) <==> WritesOnTime(before) && OnTimeAt(ops, |ops| - 1))
  {
    hide IsGroupBy, After, OnTime;
    var m := |ops| - 1;
    var before := ops[..m];
    assert ops[..|ops|] == ops;
    assert forall n :: 0 <= n <= m ==> ops[..n] == before[..n];
    assert forall n :: 0 <= n < m ==> (OnTimeAt(ops, n) <==> OnTimeAt(before, n));
  }

  /** Every turn on file was written by some operation. */
  lemma {:induction false} TurnsWereWritten(ops: seq<Op>, t: Turn)
    requires t in After(ops).turns
    ensures Write(t) in ops
  {
    var n := |ops| - 1;
    var s := After(ops[..n]);
    assert ops == ops[..n] + [ops[n]];
    if t !in s.turns {
      NewTurnsComeFromWrites(s, ops[n], t);
    } else {
      TurnsWereWritten(ops[..n], t);
    }
  }

  lemma NewTurnsComeFromWrites(s: Store, op: Op, t: Turn)
    requires t !in s.turns && t in Apply(s, op).turns
    ensures op == Write(t)
  {
    match op
    case Write(u) =>
    case Prune(agent, limit) => FilteredTurns(s.turns, agent, limit, t);
    case SweepTo(cap) =>
      if cap > 0 && |s.turns| > cap {
        EvictedIsPart(s.turns, Excess(|s.turns|, cap), t);
      }
  }

  lemma EvictedIsPart(turns: seq<Turn>, n: nat, t: Turn)
    requires n <= |turns| && t in EvictOldest(turns, n)
    ensures t in turns
  {
    hide EvictOldest;
    EvictedAreOldest(turns, n);
    assert t in multiset(EvictOldest(turns, n));
  }

  /** Within each session, write times never go back. Different sessions may use different clocks. */
  ghost predicate SessionsInOrder(ops: seq<Op>) {
    forall i, j :: 0 <= i < j < |ops| && ops[i].Write? && ops[j].Write? && ops[i].turn.key == ops[j].turn.key ==>
      ops[i].turn.ts <= ops[j].turn.ts
  }

  /** So as long as each session's own clock does not go back the view is always the group-by,
      however sessions, prunes and sweeps are interleaved. */
  lemma {:induction false} ViewIsAlwaysTheGroupBy(ops: seq<Op>)
    requires SessionsInOrder(ops)
    ensures ViewHolds(ops) && WritesOnTime(ops)
  {
    if ops == [] {
      ViewHoldsExactly(ops);
    } else {
      var m := |ops| - 1;
      var before := ops[..m];
      ViewIsAlwaysTheGroupBy(before);
      LastWriteOnTime(ops);
      ViewStep(ops);
      ViewHoldsExactly(ops);
    }
  }

  lemma LastWriteOnTime(ops: seq<Op>)
    requires ops != [] && SessionsInOrder(ops) && ViewHolds(ops[..|ops| - 1])
    ensures OnTimeAt(ops, |ops| - 1)
  {
    hide After, Count, Newest;
    var m := |ops| - 1;
    var before := ops[..m];
    var s := After(before);
    assert before[..m] == before && IsGroupBy(s);
    if ops[m].Write? && ops[m].turn.key in s.meta {
      var last := Newest(s.turns, ops[m].turn.key);
      TurnsWereWritten(before, last);
      var i :| 0 <= i < m && before[i] == Write(last);
      assert ops[i].turn.ts <= ops[m].turn.ts;
    }
  }
}
