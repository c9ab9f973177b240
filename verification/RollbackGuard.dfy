/** The reader-side rollback guard of `context_hwm.py`: a per-key high-water mark with slack.
    The daemon may serve anything. */
module RollbackGuard {

  const SLACK_NS: int := 60_000_000_000

  function Bumped(marks: map<string, int>, key: string, ts: int): map<string, int> {
    marks[key := if key in marks && marks[key] > ts then marks[key] else ts]
  }

  predicate Passes(marks: map<string, int>, key: string, ts: int) {
    key !in marks || ts >= marks[key] - SLACK_NS
  }

  /** The guard table, updated in place. */
  class Guard {
    var marks: map<string, int>

    constructor ()
      ensures marks == map[]
    {
      marks := map[];
    }

    /** `check`: refuse a value older than the mark beyond the slack, else advance the mark. */
    method Check(key: string, ts: int) returns (accepted: bool)
      modifies this
      ensures accepted == Passes(old(marks), key, ts)
      ensures marks == if accepted then Bumped(old(marks), key, ts) else old(marks)
    {
      if key in marks {
        var mark := marks[key];
        if ts < mark - SLACK_NS {
          return false;
        }
      }
      Bump(key, ts);
      return true;
    }

    /** `_bump` */
    method Bump(key: string, ts: int)
      modifies this
      ensures marks == Bumped(old(marks), key, ts)
    {
      if key in marks {
        marks := marks[key := if marks[key] > ts then marks[key] else ts];
      } else {
        marks := marks[key := ts];
      }
    }

    /** `record` */
    method Record(key: string, ts: int)
      modifies this
      ensures marks == Bumped(old(marks), key, ts)
    {
      Bump(key, ts);
    }

    /** `clear` */
    method Clear(key: string)
      modifies this
      ensures marks == old(marks) - {key}
    {
      marks := marks - {key};
    }
  }

  // --- everything one machine does with the bus -------------------------------------------

  /** A read served with some authenticated timestamp, a write of its own, or a deletion. */
  datatype Event = Read(key: string, ts: int) | Write(key: string, ts: int) | Delete(key: string)

  function Next(marks: map<string, int>, e: Event): map<string, int> {
    match e
    case Read(key, ts) => if Passes(marks, key, ts) then Bumped(marks, key, ts) else marks
    case Write(key, ts) => Bumped(marks, key, ts)
    case Delete(key) => marks - {key}
  }

  function Marks(events: seq<Event>): map<string, int> {
    if events == [] then map[] else Next(Marks(events[..|events| - 1]), events[|events| - 1])
  }

  /** Event `i` put its timestamp on record: an accepted read or a write of this machine. */
  predicate Observed(events: seq<Event>, i: nat, key: string)
    requires i < |events|
  {
    match events[i]
    case Read(k, ts) => k == key && Passes(Marks(events[..i]), key, ts)
    case Write(k, _) => k == key
    case Delete(_) => false
  }

  predicate Standing(events: seq<Event>, i: nat, key: string)
    requires i < |events|
  {
    Observed(events, i, key) && forall d :: i < d < |events| ==> events[d] != Delete(key)
  }

  function TsOf(e: Event): int
    requires !e.Delete?
  {
    e.ts
  }

  /** The mark is exactly the newest timestamp observed for the key since its last deletion,
      however reads, writes, keys and refused values are interleaved. */
  lemma {:induction false} MarkIsThePeak(events: seq<Event>, key: string)
    ensures forall i :: 0 <= i < |events| && Standing(events, i, key) ==>
      key in Marks(events) && Marks(events)[key] >= TsOf(events[i])
    ensures key in Marks(events) ==>
      exists i :: 0 <= i < |events| && Standing(events, i, key) && Marks(events)[key] == TsOf(events[i])
  {
    if events != [] {
      var n := |events| - 1;
      var before := events[..n];
      MarkIsThePeak(before, key);
      forall i | 0 <= i < n
        ensures Standing(events, i, key) <==> Standing(before, i, key) && events[n] != Delete(key)
      {
        assert events[..i] == before[..i];
        assert forall d :: i < d < n ==> events[d] == before[d];
      }
      if key in Marks(events) {
        if key in Marks(before) && Marks(events)[key] == Marks(before)[key] && events[n] != Delete(key) {
          var i :| 0 <= i < |before| && Standing(before, i, key) && Marks(before)[key] == TsOf(before[i]);
          assert Standing(events, i, key) && Marks(events)[key] == TsOf(events[i]);
        } else {
          assert Standing(events, n, key) && Marks(events)[key] == TsOf(events[n]);
        }
      }
    }
  }

  /** No drift: a read is accepted exactly when its timestamp is at most one slack below every
      timestamp this machine has observed for the key since it last deleted it. */
  lemma AcceptedExactlyNearThePeak(events: seq<Event>, key: string, ts: int)
    ensures Passes(Marks(events), key, ts) <==>
      forall i :: 0 <= i < |events| && Standing(events, i, key) ==> ts >= TsOf(events[i]) - SLACK_NS
  {
    MarkIsThePeak(events, key);
  }
}
