/** What every ledger that falsification rounds can reach satisfies: the kill discipline
    of each claim, conservation of kills into reputation, and an acyclic contra graph. */
module FalsifyInvariants {
  import opened Text
  import opened ContraGraph
  import opened FalsifyLedger
  import opened FalsifyClerk

  // --- reputation totals ------------------------------------------------------------

  function KillsOf(b: Bucket): nat { b.kills }

  function DeathsOf(b: Bucket): nat { b.deaths }

  /** The sum of one counter over all buckets. */
  ghost function Total(rep: map<string, Bucket>, counter: Bucket -> nat): nat
    decreases |rep|
  {
    if rep == map[] then 0
    else
      var k :| k in rep;
      counter(rep[k]) + Total(rep - {k}, counter)
  }

  lemma {:induction false} TotalPick(rep: map<string, Bucket>, counter: Bucket -> nat, k: string)
    requires k in rep
    ensures Total(rep, counter) == counter(rep[k]) + Total(rep - {k}, counter)
    decreases |rep|
  {
    var j :| j in rep && Total(rep, counter) == counter(rep[j]) + Total(rep - {j}, counter);
    if j != k {
      TotalPick(rep - {j}, counter, k);
      TotalPick(rep - {k}, counter, j);
      assert rep - {j} - {k} == rep - {k} - {j};
    }
  }

  lemma TotalUpdate(rep: map<string, Bucket>, counter: Bucket -> nat, k: string, b: Bucket)
    requires counter(Bucket(0, 0, 0)) == 0
    ensures Total(rep[k := b], counter) + counter(BucketAt(rep, k)) == Total(rep, counter) + counter(b)
  {
    TotalPick(rep[k := b], counter, k);
    assert rep[k := b] - {k} == rep - {k};
    if k in rep {
      TotalPick(rep, counter, k);
    } else {
      assert rep - {k} == rep;
    }
  }

  lemma BumpTotals(led: Ledger, agent: string, domain: string, field: Field)
    ensures Total(BumpRep(led, agent, domain, field).rep, KillsOf)
         == Total(led.rep, KillsOf) + (if field == Kills then 1 else 0)
    ensures Total(BumpRep(led, agent, domain, field).rep, DeathsOf)
         == Total(led.rep, DeathsOf) + (if field == Deaths then 1 else 0)
  {
    var key := agent + "|" + domain;
    TotalUpdate(led.rep, KillsOf, key, Bump(BucketAt(led.rep, key), field));
    TotalUpdate(led.rep, DeathsOf, key, Bump(BucketAt(led.rep, key), field));
  }

  // --- one claim --------------------------------------------------------------------

  /** The kill discipline of one claim. */
  ghost predicate ClaimOk(c: Claim) {
    && c.id != ""
    && (c.status == Killed <==> HasLiveKill(c.kills))
    && c.reopens <= MAX_REOPENS
    && AcceptedKills(c.kills) == c.reopens + (if c.status == Killed then 1 else 0)
    && (c.status == Killed ==> c.kills != [] && c.kills[|c.kills| - 1].accepted)
    && (c.status != Killed ==> c.attempts == FailedSinceKill(c.kills))
  }

  lemma {:induction false} AddressedKills(kills: seq<Kill>)
    ensures AcceptedKills(AddressAll(kills)) == AcceptedKills(kills)
    ensures !HasLiveKill(AddressAll(kills))
  {
    if kills != [] {
      AddressedKills(kills[..|kills| - 1]);
      assert AddressAll(kills)[..|kills| - 1] == AddressAll(kills[..|kills| - 1]);
    }
  }

  lemma RestateOk(c: Claim, rs: seq<Receipt>)
    requires ClaimOk(c) && (c.status == Killed ==> c.reopens < MAX_REOPENS)
    ensures ClaimOk(Restate(c, rs)) && Restate(c, rs).id == c.id
    ensures AcceptedKills(Restate(c, rs).kills) == AcceptedKills(c.kills)
  {
    AddressedKills(c.kills);
  }

  lemma AcceptedSnoc(kills: seq<Kill>, kill: Kill)
    ensures AcceptedKills(kills + [kill]) == AcceptedKills(kills) + (if kill.accepted then 1 else 0)
  {
    assert (kills + [kill])[..|kills|] == kills;
  }

  lemma FailedSnoc(kills: seq<Kill>, kill: Kill)
    ensures FailedSinceKill(kills + [kill]) == if kill.accepted then 0 else FailedSinceKill(kills) + 1
  {
    assert (kills + [kill])[..|kills|] == kills;
  }

  lemma LiveSnoc(kills: seq<Kill>, kill: Kill)
    ensures HasLiveKill(kills + [kill]) <==> HasLiveKill(kills) || Live(kill)
  {
    var more := kills + [kill];
    assert more[|kills|] == kill;
    if HasLiveKill(kills) {
      var i :| 0 <= i < |kills| && Live(kills[i]);
      assert Live(more[i]);
    }
  }

  lemma StruckOk(c: Claim, kill: Kill)
    requires ClaimOk(c) && c.status != Killed && !kill.addressed
    ensures ClaimOk(Struck(c, kill))
    ensures AcceptedKills(Struck(c, kill).kills) == AcceptedKills(c.kills) + (if kill.accepted then 1 else 0)
  {
    hide HasLiveKill, AcceptedKills, FailedSinceKill;
    AcceptedSnoc(c.kills, kill);
    FailedSnoc(c.kills, kill);
    LiveSnoc(c.kills, kill);
  }

  // --- the ledger -------------------------------------------------------------------

  ghost predicate HasId(claims: seq<Claim>, id: string) {
    exists i :: 0 <= i < |claims| && claims[i].id == id
  }

  /** Accepted kills recorded over all claims. */
  function KillCount(claims: seq<Claim>): nat {
    if claims == [] then 0
    else KillCount(claims[..|claims| - 1]) + AcceptedKills(claims[|claims| - 1].kills)
  }

  ghost predicate EdgesOk(led: Ledger) {
    && (forall e :: e in led.edges ==> e.rel == "contra" && HasId(led.claims, e.src) && HasId(led.claims, e.dst))
    && Acyclic(led.edges)
  }

  ghost predicate RepOk(led: Ledger) {
    Total(led.rep, KillsOf) == KillCount(led.claims) == Total(led.rep, DeathsOf)
  }

  ghost predicate ClaimsOk(claims: seq<Claim>) {
    UniqueIds(claims) && forall i :: 0 <= i < |claims| ==> ClaimOk(claims[i])
  }

  ghost predicate LedgerOk(led: Ledger) {
    ClaimsOk(led.claims) && EdgesOk(led) && RepOk(led)
  }

  lemma {:induction false} KillCountReplace(claims: seq<Claim>, i: nat, d: Claim)
    requires i < |claims|
    ensures KillCount(claims[i := d]) + AcceptedKills(claims[i].kills)
         == KillCount(claims) + AcceptedKills(d.kills)
  {
    var n := |claims| - 1;
    if i == n {
      assert claims[i := d][..n] == claims[..n];
    } else {
      KillCountReplace(claims[..n], i, d);
      assert claims[i := d][..n] == claims[..n][i := d];
    }
  }

  lemma ReplaceKeepsIds(claims: seq<Claim>, i: nat, d: Claim, id: string)
    requires i < |claims| && d.id == claims[i].id && HasId(claims, id)
    ensures HasId(claims[i := d], id)
  {
    var k :| 0 <= k < |claims| && claims[k].id == id;
    assert claims[i := d][k].id == id;
  }

  /** Replacing a claim by one with the same id leaves the graph and the ids alone. */
  lemma ReplaceOk(led: Ledger, i: nat, d: Claim)
    requires i < |led.claims| && d.id == led.claims[i].id && ClaimOk(d)
    requires ClaimsOk(led.claims) && EdgesOk(led)
    ensures ClaimsOk(led.claims[i := d]) && EdgesOk(led.(claims := led.claims[i := d]))
  {
    forall e | e in led.edges
      ensures HasId(led.claims[i := d], e.src) && HasId(led.claims[i := d], e.dst)
    {
      ReplaceKeepsIds(led.claims, i, d, e.src);
      ReplaceKeepsIds(led.claims, i, d, e.dst);
    }
  }

  lemma AppendOk(led: Ledger, c: Claim)
    requires LedgerOk(led) && ClaimOk(c) && c.kills == [] && IndexOf(led.claims, c.id) < 0
    ensures LedgerOk(led.(claims := led.claims + [c]))
  {
    var more := led.claims + [c];
    assert more[..|led.claims|] == led.claims;
    forall id | HasId(led.claims, id) ensures HasId(more, id) {
      var k :| 0 <= k < |led.claims| && led.claims[k].id == id;
      assert more[k].id == id;
    }
  }

  /** A claim-by-claim rewrite that keeps ids and kills keeps the whole invariant. */
  lemma {:induction false} PointwiseOk(led: Ledger, after: Ledger)
    requires LedgerOk(led)
    requires after == led.(claims := after.claims) && |after.claims| == |led.claims|
    requires forall i :: 0 <= i < |led.claims| ==>
      && after.claims[i].id == led.claims[i].id
      && after.claims[i].kills == led.claims[i].kills
      && ClaimOk(after.claims[i])
    ensures LedgerOk(after)
  {
    forall id | HasId(led.claims, id) ensures HasId(after.claims, id) {
      var k :| 0 <= k < |led.claims| && led.claims[k].id == id;
      assert after.claims[k].id == id;
    }
    SameKillCount(led.claims, after.claims);
  }

  lemma {:induction false} SameKillCount(a: seq<Claim>, b: seq<Claim>)
    requires |a| == |b| && forall i :: 0 <= i < |a| ==> a[i].kills == b[i].kills
    ensures KillCount(a) == KillCount(b)
  {
    if a != [] {
      SameKillCount(a[..|a| - 1], b[..|b| - 1]);
    }
  }

  // --- every transition keeps the invariant ---------------------------------------------

  lemma IngestOk(led: Ledger, raw: RawClaim)
    requires LedgerOk(led)
    ensures LedgerOk(Ingest(led, raw))
  {
    if Admissible(led, raw) {
      var norm := Normalize(raw).value;
      var i := IndexOf(led.claims, norm.id);
      if i >= 0 {
        RestateOk(led.claims[i], norm.receipts);
        ReplaceOk(led, i, Restate(led.claims[i], norm.receipts));
        KillCountReplace(led.claims, i, Restate(led.claims[i], norm.receipts));
      } else {
        AppendOk(led, norm);
      }
    }
  }

  lemma {:induction false} IngestAllOk(led: Ledger, raws: seq<RawClaim>)
    requires LedgerOk(led)
    ensures LedgerOk(IngestAll(led, raws))
  {
    if raws != [] {
      IngestAllOk(led, raws[..|raws| - 1]);
      IngestOk(IngestAll(led, raws[..|raws| - 1]), raws[|raws| - 1]);
    }
  }

  lemma AssertedOk(led: Ledger, inp: RoundInput)
    requires LedgerOk(led)
    ensures LedgerOk(Asserted(led, inp))
  {
    hide IngestAll, AcceptedIds, EdgesOk, RepOk, JudgeFrom, Held, UniqueIds;
    var raws := Stamp(inp.asserts, inp.assertor);
    IngestAllOk(led, raws);
    var l := IngestAll(led, raws);
    forall i | 0 <= i < |l.claims|
      ensures Asserted(led, inp).claims[i] ==
              JudgeClaim(l.claims[i], AcceptedIds(led, raws), led.claims, inp.corpus, inp.sandbox, i)
    {
    }
    PointwiseOk(l, Asserted(led, inp));
  }

  lemma ProbedOk(led: Ledger, probe: nat -> Option<Probe>)
    requires LedgerOk(led)
    ensures LedgerOk(Probed(led, probe))
  {
    hide EdgesOk, RepOk, Compoundable, ClerkProbed, HasLiveKill;
    forall i | 0 <= i < |led.claims|
      ensures Probed(led, probe).claims[i].id == led.claims[i].id
      ensures Probed(led, probe).claims[i].kills == led.claims[i].kills
      ensures ClaimOk(Probed(led, probe).claims[i])
    {
      assert Probed(led, probe).claims[i] == ProbeClaim(led.claims[i], probe(i));
    }
    PointwiseOk(led, Probed(led, probe));
  }

  /** Recording a kill attempt on a live claim adds exactly its accepted count. */
  lemma RecordKillOk(led: Ledger, i: nat, kill: Kill)
    requires LedgerOk(led) && i < |led.claims| && led.claims[i].status != Killed && !kill.addressed
    ensures var struck := RecordKill(led, led.claims[i].id, kill);
            && struck == led.(claims := struck.claims)
            && ClaimsOk(struck.claims) && EdgesOk(struck)
            && KillCount(struck.claims) == KillCount(led.claims) + (if kill.accepted then 1 else 0)
  {
    assert ClaimOk(led.claims[i]);
    UniqueIndex(led.claims, i);
    hide Acyclic, HasId, ClaimOk, RepOk, UniqueIds;
    StruckOk(led.claims[i], kill);
    ReplaceOk(led, i, Struck(led.claims[i], kill));
    KillCountReplace(led.claims, i, Struck(led.claims[i], kill));
  }

  lemma UniqueIndex(claims: seq<Claim>, i: nat)
    requires UniqueIds(claims) && i < |claims|
    ensures IndexOf(claims, claims[i].id) == i
  {
  }

  lemma WithstoodOk(led: Ledger, i: nat, killer: string, kind: string, round: nat)
    requires LedgerOk(led) && i < |led.claims| && led.claims[i].status != Killed
    ensures LedgerOk(Withstood(led, led.claims[i].id, killer, kind, round))
  {
    hide ClaimsOk, EdgesOk;
    RecordKillOk(led, i, FalsifyLedger.Kill(killer, kind, round, false, false));
  }

  lemma SlainOk(led: Ledger, i: nat, target: Claim, killer: string, kind: string, round: nat)
    requires LedgerOk(led) && i < |led.claims| && led.claims[i].status != Killed
    requires target.id == led.claims[i].id
    ensures LedgerOk(Slain(led, target, killer, kind, round))
  {
    hide ClaimsOk, Acyclic, HasId;
    var domain := if target.domain == "" then "general" else target.domain;
    var struck := RecordKill(led, target.id, FalsifyLedger.Kill(killer, kind, round, true, false));
    RecordKillOk(led, i, FalsifyLedger.Kill(killer, kind, round, true, false));
    BumpTotals(struck, killer, domain, Kills);
    BumpTotals(BumpRep(struck, killer, domain, Kills), target.author, domain, Deaths);
  }

  lemma EdgeOk(led: Ledger, src: string, dst: string)
    requires LedgerOk(led) && ContraValid(led, src, dst)
    ensures LedgerOk(AddContraEdge(led, src, dst))
  {
    NewEdgeClosesCycle(led.edges, src, dst);
  }

  /** Registering the contradicting claim does not touch the claims already there. */
  lemma RegisteredContra(led: Ledger, atk: Attack, target: Claim, killer: string, corpus: string)
    requires RegistersContra(led, atk, corpus)
    ensures var grown := Ingest(led, ContraClaim(atk, target, killer));
            |grown.claims| >= |led.claims| && forall k :: 0 <= k < |led.claims| ==> grown.claims[k] == led.claims[k]
  {
    StripTwice(atk.newId);
  }

  lemma ContraMoveOk(led: Ledger, atk: Attack, i: nat, killer: string, corpus: string, round: nat)
    requires LedgerOk(led) && i < |led.claims| && led.claims[i].status != Killed
    ensures LedgerOk(ContraMove(led, atk, led.claims[i], killer, corpus, round))
  {
    hide LedgerOk, Ingest, Slain, Withstood, ContraValid;
    var target := led.claims[i];
    if RegistersContra(led, atk, corpus) {
      var raw := ContraClaim(atk, target, killer);
      var grown := Ingest(led, raw);
      IngestOk(led, raw);
      RegisteredContra(led, atk, target, killer, corpus);
      if ContraValid(grown, Strip(atk.newId), target.id) {
        EdgeOk(grown, Strip(atk.newId), target.id);
        SlainOk(AddContraEdge(grown, Strip(atk.newId), target.id), i, target, killer, "contra", round);
      }
      WithstoodOk(grown, i, killer, "contra", round);
    } else {
      WithstoodOk(led, i, killer, "contra", round);
    }
  }

  lemma AttackOneOk(led: Ledger, atk: Attack, killer: string, corpus: string, round: nat)
    requires LedgerOk(led)
    ensures LedgerOk(AttackOne(led, atk, killer, corpus, round))
  {
    hide LedgerOk, ContraMove, Slain, Withstood, Compoundable;
    var i := IndexOf(led.claims, Strip(atk.target));
    if i >= 0 && led.claims[i].status != Killed {
      ContraMoveOk(led, atk, i, killer, corpus, round);
      SlainOk(led, i, led.claims[i], killer, "run", round);
      SlainOk(led, i, led.claims[i], killer, "challenge", round);
      WithstoodOk(led, i, killer, "run", round);
      WithstoodOk(led, i, killer, "challenge", round);
    }
  }

  lemma {:induction false} AttackedOk(led: Ledger, atks: seq<Attack>, killer: string, corpus: string, round: nat)
    requires LedgerOk(led)
    ensures LedgerOk(Attacked(led, atks, killer, corpus, round))
  {
    hide LedgerOk, AttackOne;
    if atks != [] {
      AttackedOk(led, atks[..|atks| - 1], killer, corpus, round);
      AttackOneOk(Attacked(led, atks[..|atks| - 1], killer, corpus, round), atks[|atks| - 1], killer, corpus, round);
    }
  }

  lemma ResolvedOk(led: Ledger)
    requires LedgerOk(led)
    ensures LedgerOk(Resolved(led))
  {
    PointwiseOk(led, Resolved(led));
  }

  /** The credits awarded to survivors touch reputation only. */
  lemma {:induction false} CreditOnlyRep(before: Ledger, after: Ledger, n: nat)
    requires n <= |after.claims|
    ensures CreditFirst(before, after, n) == after.(rep := CreditFirst(before, after, n).rep)
  {
    if n > 0 {
      CreditOnlyRep(before, after, n - 1);
    }
  }

  /** Crediting survivors moves neither kills nor deaths. */
  lemma {:induction false} CreditOk(before: Ledger, after: Ledger, n: nat)
    requires LedgerOk(after) && n <= |after.claims|
    ensures LedgerOk(CreditFirst(before, after, n))
  {
    hide ClaimsOk, Acyclic, HasId, KillCount, NewSurvivor, Total;
    if n > 0 {
      CreditOk(before, after, n - 1);
      CreditOnlyRep(before, after, n - 1);
      var led, c := CreditFirst(before, after, n - 1), after.claims[n - 1];
      BumpTotals(led, c.author, if c.domain == "" then "general" else c.domain, Survives);
    }
  }

  lemma RoundOk(led: Ledger, inp: RoundInput)
    requires LedgerOk(led)
    ensures LedgerOk(Round(led, inp))
  {
    hide LedgerOk, Asserted, Probed, Attacked, Resolved, CreditFirst, IsFixpoint;
    var before := led.(phase := Active);
    StampOk(led, led.round, Active);
    AssertedOk(before, inp);
    var asserted := Asserted(before, inp);
    ProbedOk(asserted, inp.probe);
    var probed := if inp.metamorph then Probed(asserted, inp.probe) else asserted;
    AttackedOk(probed, inp.attacks, inp.falsifier, inp.corpus, before.round + 1);
    var attacked := Attacked(probed, inp.attacks, inp.falsifier, inp.corpus, before.round + 1);
    ResolvedOk(attacked);
    CreditOk(before, Resolved(attacked), |Resolved(attacked).claims|);
    StampOk(Credited(before, Resolved(attacked)), led.round + 1, Round(led, inp).phase);
  }

  /** The round number and the phase are outside the invariant. */
  lemma StampOk(led: Ledger, round: nat, phase: Phase)
    requires LedgerOk(led)
    ensures LedgerOk(led.(round := round, phase := phase))
  {
    hide ClaimsOk, Acyclic, HasId;
  }

  /** Every ledger reachable from a new one satisfies the invariant. */
  lemma {:induction false} ReachableOk(session: string, inputs: seq<RoundInput>)
    ensures LedgerOk(Rounds(NewLedger(session), inputs))
  {
    hide LedgerOk, Round;
    if inputs == [] {
      NewLedgerOk(session);
    } else {
      ReachableOk(session, inputs[..|inputs| - 1]);
      RoundOk(Rounds(NewLedger(session), inputs[..|inputs| - 1]), inputs[|inputs| - 1]);
    }
  }

  lemma NewLedgerOk(session: string)
    ensures LedgerOk(NewLedger(session))
  {
    forall p: seq<string> | |p| >= 2 ensures !IsPath([], p) {
      assert Contra(p[0], p[1]) !in [];
    }
  }

  /** The kill discipline of every reachable claim, and where its kills are counted. */
  lemma KillDiscipline(session: string, inputs: seq<RoundInput>)
    ensures var led := Rounds(NewLedger(session), inputs);
            && (forall i :: 0 <= i < |led.claims| ==>
                  && (led.claims[i].status == Killed <==> HasLiveKill(led.claims[i].kills))
                  && led.claims[i].reopens <= MAX_REOPENS
                  && AcceptedKills(led.claims[i].kills)
                     == led.claims[i].reopens + (if led.claims[i].status == Killed then 1 else 0))
            && Total(led.rep, KillsOf) == Total(led.rep, DeathsOf) == KillCount(led.claims)
  {
    hide Rounds;
    ReachableOk(session, inputs);
  }

  /** Contradictions of a reachable ledger never run in a circle and only name its claims,
      whose ids are distinct. */
  lemma ContradictionsAreGrounded(session: string, inputs: seq<RoundInput>)
    ensures var led := Rounds(NewLedger(session), inputs);
            && Acyclic(led.edges) && UniqueIds(led.claims)
            && forall e :: e in led.edges ==> HasId(led.claims, e.src) && HasId(led.claims, e.dst)
  {
    hide Rounds;
    ReachableOk(session, inputs);
  }

  /** An edge out of a claim that was not on file before can close no cycle. */
  lemma FreshSourceNeverCycles(led: Ledger, src: string, dst: string)
    requires EdgesOk(led) && !HasId(led.claims, src) && src != dst
    ensures !Reaches(led.edges + [Contra(src, dst)], dst, src)
  {
    hide Acyclic;
    var edges := led.edges + [Contra(src, dst)];
    forall p | IsPath(edges, p) && |p| >= 2 ensures p[|p| - 1] != src {
      var last := Contra(p[|p| - 2], p[|p| - 1]);
      assert last in edges;
    }
  }

  /** So the clerk's cycle test never refuses: a registered contradiction kills its target
      exactly when the target had survived. */
  lemma OnlySurvivorsAreContradicted(led: Ledger, atk: Attack, i: nat, killer: string, corpus: string)
    requires LedgerOk(led) && i < |led.claims| && RegistersContra(led, atk, corpus)
    requires Admissible(led, ContraClaim(atk, led.claims[i], killer))
    ensures var grown := Ingest(led, ContraClaim(atk, led.claims[i], killer));
            ContraValid(grown, Strip(atk.newId), led.claims[i].id) <==> led.claims[i].status == Survived
  {
    hide Acyclic, Reaches;
    var raw := ContraClaim(atk, led.claims[i], killer);
    var grown := Ingest(led, raw);
    StripTwice(atk.newId);
    IngestOk(led, raw);
    RegisteredContra(led, atk, led.claims[i], killer, corpus);
    UniqueIndex(grown.claims, i);
    FreshSourceNeverCycles(led, Strip(atk.newId), led.claims[i].id);
  }
}
