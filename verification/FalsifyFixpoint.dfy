/** How one round moves a ledger, and why the compact signature detects every move. */
module FalsifyFixpoint {
  import opened Text
  import opened FalsifyLedger
  import opened FalsifyClerk
  import opened FalsifyInvariants

  // --- one claim within a round -------------------------------------------------------

  /** A move the signature can see: more receipts, more attempts, or a fresh kill. */
  ghost predicate Moved(c: Claim, d: Claim) {
    || |d.receipts| > |c.receipts|
    || d.attempts > c.attempts
    || (c.status != Killed && d.status == Killed && HasLiveKill(d.kills))
  }

  /** Kill history is only extended; at most the `addressed` mark is switched on. */
  ghost predicate KillsKept(a: seq<Kill>, b: seq<Kill>) {
    |a| <= |b| && forall i :: 0 <= i < |a| ==> b[i] == a[i] || b[i] == Address(a[i])
  }

  /** `d` is what the clerk can make of `c` before it resolves. */
  ghost predicate ClaimStep(c: Claim, d: Claim) {
    && d.id == c.id && d.author == c.author && d.domain == c.domain && d.text == c.text
    && c.receipts <= d.receipts
    && KillsKept(c.kills, d.kills)
    && c.reopens <= d.reopens
    && AcceptedKills(c.kills) <= AcceptedKills(d.kills)
    && (d == c || Moved(c, d))
    && (c.status != Killed && AcceptedKills(c.kills) == AcceptedKills(d.kills) ==>
          d.status != Killed && d.attempts >= c.attempts)
  }

  lemma RestateStep(c: Claim, d: Claim, rs: seq<Receipt>)
    requires ClaimStep(c, d) && (d.status == Killed ==> rs != [])
    ensures ClaimStep(c, Restate(d, rs))
    ensures Moved(c, d) ==> Moved(c, Restate(d, rs))
  {
    AddressedKills(d.kills);
    assert rs == [] ==> d.receipts + rs == d.receipts;
  }

  lemma KillsKeptSnoc(a: seq<Kill>, b: seq<Kill>, kill: Kill)
    requires KillsKept(a, b)
    ensures KillsKept(a, b + [kill])
  {
    assert forall i :: 0 <= i < |a| ==> (b + [kill])[i] == b[i];
  }

  lemma StruckStep(c: Claim, d: Claim, kill: Kill)
    requires ClaimStep(c, d) && d.status != Killed && !kill.addressed
    ensures ClaimStep(c, Struck(d, kill)) && Moved(c, Struck(d, kill))
  {
    hide HasLiveKill, AcceptedKills, KillsKept;
    AcceptedSnoc(d.kills, kill);
    LiveSnoc(d.kills, kill);
    KillsKeptSnoc(c.kills, d.kills, kill);
  }

  // --- the ledger within a round --------------------------------------------------------

  ghost predicate AnyMoved(b: Ledger, l: Ledger) {
    || |l.claims| > |b.claims|
    || exists i :: 0 <= i < |b.claims| && i < |l.claims| && Moved(b.claims[i], l.claims[i])
  }

  ghost predicate Grew(b: Ledger, l: Ledger) {
    && |b.claims| <= |l.claims|
    && (forall i :: 0 <= i < |b.claims| ==> ClaimStep(b.claims[i], l.claims[i]))
    && b.edges <= l.edges
    && l.session == b.session
    && (l.rep == b.rep || AnyMoved(b, l))
  }

  /** Replacing claim `i` by a later stage of itself. */
  lemma GrewReplace(b: Ledger, l: Ledger, i: nat, d: Claim)
    requires Grew(b, l) && i < |l.claims|
    requires i < |b.claims| ==> ClaimStep(b.claims[i], d) && (Moved(b.claims[i], l.claims[i]) ==> Moved(b.claims[i], d))
    ensures Grew(b, l.(claims := l.claims[i := d]))
  {
    var m := l.(claims := l.claims[i := d]);
    if AnyMoved(b, l) && |l.claims| == |b.claims| {
      var k :| 0 <= k < |b.claims| && Moved(b.claims[k], l.claims[k]);
      assert Moved(b.claims[k], m.claims[k]);
    }
  }

  lemma IngestGrew(b: Ledger, l: Ledger, raw: RawClaim)
    requires Grew(b, l)
    ensures Grew(b, Ingest(l, raw))
  {
    hide ClaimStep, Moved;
    if Admissible(l, raw) {
      var norm := Normalize(raw).value;
      var i := IndexOf(l.claims, norm.id);
      if i >= 0 {
        if i < |b.claims| {
          RestateStep(b.claims[i], l.claims[i], norm.receipts);
        }
        GrewReplace(b, l, i, Restate(l.claims[i], norm.receipts));
      }
    }
  }

  lemma {:induction false} IngestAllGrew(b: Ledger, raws: seq<RawClaim>)
    ensures Grew(b, IngestAll(b, raws))
  {
    hide ClaimStep, Moved, Ingest, Grew;
    if raws == [] {
      GrewRefl(b);
    } else {
      IngestAllGrew(b, raws[..|raws| - 1]);
      IngestGrew(b, IngestAll(b, raws[..|raws| - 1]), raws[|raws| - 1]);
    }
  }

  lemma GrewRefl(b: Ledger)
    ensures Grew(b, b)
  {
  }

  /** Judging touches only receipts that this turn appended. */
  lemma JudgeStep(c: Claim, d: Claim, e: Claim)
    requires ClaimStep(c, d) && e == d.(receipts := e.receipts) && |e.receipts| == |d.receipts|
    requires forall j :: 0 <= j < |c.receipts| ==> e.receipts[j] == d.receipts[j]
    ensures ClaimStep(c, e)
    ensures Moved(c, d) ==> Moved(c, e)
  {
    if d == c {
      assert e.receipts == c.receipts;
    }
  }

  lemma AssertedGrew(b: Ledger, inp: RoundInput)
    requires UniqueIds(b.claims)
    ensures Grew(b, Asserted(b, inp))
  {
    hide ClaimStep, Moved, Judge;
    var raws := Stamp(inp.asserts, inp.assertor);
    var l, m := IngestAll(b, raws), Asserted(b, inp);
    IngestAllGrew(b, raws);
    forall i | 0 <= i < |b.claims|
      ensures ClaimStep(b.claims[i], m.claims[i])
      ensures Moved(b.claims[i], l.claims[i]) ==> Moved(b.claims[i], m.claims[i])
    {
      UniqueIndex(b.claims, i);
      StepKeepsId(b.claims[i], l.claims[i]);
      JudgeStep(b.claims[i], l.claims[i], m.claims[i]);
    }
  }

  lemma StepKeepsId(c: Claim, d: Claim)
    requires ClaimStep(c, d)
    ensures d.id == c.id && |d.receipts| >= |c.receipts|
  {
  }

  lemma ProbeStep(c: Claim, d: Claim, p: Option<Probe>)
    requires ClaimStep(c, d)
    ensures ClaimStep(c, ProbeClaim(d, p))
    ensures Moved(c, d) ==> Moved(c, ProbeClaim(d, p))
  {
    if p.Some? && d.status == Open {
      RestateStep(c, d, [ClerkReceipt(p.value)]);
    }
  }

  lemma ProbedGrew(b: Ledger, l: Ledger, probe: nat -> Option<Probe>)
    requires Grew(b, l)
    ensures Grew(b, Probed(l, probe))
  {
    hide ClaimStep, Moved, Compoundable, ClerkProbed;
    forall i | 0 <= i < |b.claims|
      ensures ClaimStep(b.claims[i], Probed(l, probe).claims[i])
      ensures Moved(b.claims[i], l.claims[i]) ==> Moved(b.claims[i], Probed(l, probe).claims[i])
    {
      assert Probed(l, probe).claims[i] == ProbeClaim(l.claims[i], probe(i));
      ProbeStep(b.claims[i], l.claims[i], probe(i));
    }
  }

  /** Any kill attempt on a claim that is not dead is a visible move. */
  lemma StruckGrew(b: Ledger, l: Ledger, i: nat, kill: Kill)
    requires Grew(b, l) && i < |l.claims| && l.claims[i].status != Killed && !kill.addressed
    ensures var m := l.(claims := l.claims[i := Struck(l.claims[i], kill)]); Grew(b, m) && AnyMoved(b, m)
  {
    hide ClaimStep, Moved;
    var m := l.(claims := l.claims[i := Struck(l.claims[i], kill)]);
    if i < |b.claims| {
      StruckStep(b.claims[i], l.claims[i], kill);
      assert Moved(b.claims[i], m.claims[i]);
    }
    GrewReplace(b, l, i, Struck(l.claims[i], kill));
  }

  lemma SlainGrew(b: Ledger, l: Ledger, target: Claim, killer: string, kind: string, round: nat)
    requires Grew(b, l)
    requires var i := IndexOf(l.claims, target.id); i >= 0 && l.claims[i].status != Killed
    ensures Grew(b, Slain(l, target, killer, kind, round))
  {
    hide ClaimStep, Moved;
    var i := IndexOf(l.claims, target.id);
    StruckGrew(b, l, i, FalsifyLedger.Kill(killer, kind, round, true, false));
  }

  lemma WithstoodGrew(b: Ledger, l: Ledger, target: string, killer: string, kind: string, round: nat)
    requires Grew(b, l)
    requires var i := IndexOf(l.claims, target); i >= 0 && l.claims[i].status != Killed
    ensures Grew(b, Withstood(l, target, killer, kind, round))
  {
    hide ClaimStep, Moved;
    StruckGrew(b, l, IndexOf(l.claims, target), FalsifyLedger.Kill(killer, kind, round, false, false));
  }

  /** The target keeps its place when a new claim is registered behind it. */
  lemma TargetStays(l: Ledger, atk: Attack, target: Claim, killer: string, corpus: string)
    requires RegistersContra(l, atk, corpus)
    requires var i := IndexOf(l.claims, target.id); i >= 0 && l.claims[i].status != Killed
    ensures var grown := Ingest(l, ContraClaim(atk, target, killer));
            IndexOf(grown.claims, target.id) == IndexOf(l.claims, target.id)
            && grown.claims[IndexOf(l.claims, target.id)].status != Killed
  {
    StripTwice(atk.newId);
    var grown := Ingest(l, ContraClaim(atk, target, killer));
    if grown.claims != l.claims {
      assert grown.claims[..|grown.claims| - 1] == l.claims;
    }
  }

  lemma ContraMoveGrew(b: Ledger, l: Ledger, atk: Attack, target: Claim, killer: string, corpus: string, round: nat)
    requires Grew(b, l)
    requires var i := IndexOf(l.claims, target.id); i >= 0 && l.claims[i].status != Killed
    ensures Grew(b, ContraMove(l, atk, target, killer, corpus, round))
  {
    hide ClaimStep, Moved, AnyMoved, Ingest, Slain, Withstood, ContraValid, Admissible, RegistersContra;
    if RegistersContra(l, atk, corpus) {
      var raw := ContraClaim(atk, target, killer);
      var grown := Ingest(l, raw);
      IngestGrew(b, l, raw);
      TargetStays(l, atk, target, killer, corpus);
      EdgeGrew(b, grown, Strip(atk.newId), target.id);
      SlainGrew(b, AddContraEdge(grown, Strip(atk.newId), target.id), target, killer, "contra", round);
      WithstoodGrew(b, grown, target.id, killer, "contra", round);
    } else {
      WithstoodGrew(b, l, target.id, killer, "contra", round);
    }
  }

  lemma EdgeGrew(b: Ledger, l: Ledger, src: string, dst: string)
    requires Grew(b, l)
    ensures Grew(b, AddContraEdge(l, src, dst))
  {
    hide ClaimStep, Moved;
  }

  lemma AttackOneGrew(b: Ledger, l: Ledger, atk: Attack, killer: string, corpus: string, round: nat)
    requires Grew(b, l)
    ensures Grew(b, AttackOne(l, atk, killer, corpus, round))
  {
    hide Grew, ContraMove, Slain, Withstood, Compoundable;
    var i := IndexOf(l.claims, Strip(atk.target));
    if i >= 0 && l.claims[i].status != Killed {
      var target := l.claims[i];
      ContraMoveGrew(b, l, atk, target, killer, corpus, round);
      SlainGrew(b, l, target, killer, "run", round);
      SlainGrew(b, l, target, killer, "challenge", round);
      WithstoodGrew(b, l, target.id, killer, "run", round);
      WithstoodGrew(b, l, target.id, killer, "challenge", round);
    }
  }

  lemma {:induction false} AttackedGrew(b: Ledger, l: Ledger, atks: seq<Attack>, killer: string, corpus: string,
                                        round: nat)
    requires Grew(b, l)
    ensures Grew(b, Attacked(l, atks, killer, corpus, round))
  {
    hide Grew, AttackOne;
    if atks != [] {
      AttackedGrew(b, l, atks[..|atks| - 1], killer, corpus, round);
      AttackOneGrew(b, Attacked(l, atks[..|atks| - 1], killer, corpus, round), atks[|atks| - 1], killer, corpus, round);
    }
  }

  /** The ledger after both blocks, before the clerk resolves it. */
  ghost function BeforeResolve(led: Ledger, inp: RoundInput): Ledger {
    var asserted := Asserted(led, inp);
    Attacked(if inp.metamorph then Probed(asserted, inp.probe) else asserted,
             inp.attacks, inp.falsifier, inp.corpus, led.round + 1)
  }

  lemma BeforeResolveGrew(b: Ledger, inp: RoundInput)
    requires UniqueIds(b.claims)
    ensures Grew(b, BeforeResolve(b, inp))
  {
    hide Grew, Asserted, Probed, Attacked;
    AssertedGrew(b, inp);
    ProbedGrew(b, Asserted(b, inp), inp.probe);
    AttackedGrew(b, if inp.metamorph then Probed(Asserted(b, inp), inp.probe) else Asserted(b, inp),
                 inp.attacks, inp.falsifier, inp.corpus, b.round + 1);
  }

  // --- the fixpoint test ------------------------------------------------------------------

  /** A claim whose mark comes out of the round unchanged has not changed at all. */
  lemma SameMarkSameClaim(c: Claim, d: Claim)
    requires ClaimStep(c, d) && MarkOf(Settle(d)) == MarkOf(c)
    ensures Settle(d) == c && !Moved(c, d)
  {
  }

  lemma {:induction false} NoNewSurvivors(before: Ledger, after: Ledger, n: nat)
    requires n <= |after.claims| && after.claims == before.claims
    ensures CreditFirst(before, after, n) == after
  {
    if n > 0 {
      NoNewSurvivors(before, after, n - 1);
    }
  }

  /** Equal signatures mean that resolving gave back the very claims the round began with. */
  lemma SameSignatureSameClaims(b: Ledger, l: Ledger)
    requires Grew(b, l) && IsFixpoint(b, Resolved(l))
    ensures Resolved(l).claims == b.claims && l.edges == b.edges && l.rep == b.rep
  {
    hide ClaimStep, Moved, Settle;
    var r := Resolved(l);
    assert |Signature(b).0| == |Signature(r).0|;
    forall i | 0 <= i < |b.claims| ensures r.claims[i] == b.claims[i] && !Moved(b.claims[i], l.claims[i]) {
      assert Signature(b).0[i] == Signature(r).0[i];
      SameMarkSameClaim(b.claims[i], l.claims[i]);
    }
  }

  lemma PlayedIsResolved(b: Ledger, inp: RoundInput)
    ensures Played(b, inp) == Credited(b, Resolved(BeforeResolve(b, inp))).(round := b.round + 1)
  {
  }

  /** The fixpoint test is exact: it fires exactly when a round left every claim (receipts,
      kills, attempts, reopens and all), every edge and every reputation counter as they were. */
  lemma FixpointIsExact(b: Ledger, inp: RoundInput)
    requires UniqueIds(b.claims)
    ensures IsFixpoint(b, Played(b, inp)) <==>
      Played(b, inp).claims == b.claims && Played(b, inp).edges == b.edges && Played(b, inp).rep == b.rep
  {
    hide Grew, Played, BeforeResolve, Resolved, CreditFirst;
    var l := BeforeResolve(b, inp);
    var r := Resolved(l);
    BeforeResolveGrew(b, inp);
    PlayedIsResolved(b, inp);
    CreditOnlyRep(b, r, |r.claims|);
    assert Signature(Played(b, inp)) == Signature(r);
    if IsFixpoint(b, Played(b, inp)) {
      SameSignatureSameClaims(b, l);
      assert r.edges == b.edges && r.rep == b.rep by { ResolvedOnlyClaims(l); }
      NoNewSurvivors(b, r, |r.claims|);
    }
  }

  lemma ResolvedOnlyClaims(l: Ledger)
    ensures Resolved(l) == l.(claims := Resolved(l).claims)
  {
  }

  /** On every reachable ledger a round reports `fixpoint` exactly when it changed nothing
      but the round number. */
  lemma FixpointRoundChangesNothing(session: string, inputs: seq<RoundInput>, inp: RoundInput)
    ensures var led := Rounds(NewLedger(session), inputs);
            Round(led, inp).phase == Fixpoint <==>
            Round(led, inp) == led.(round := led.round + 1, phase := Fixpoint)
  {
    hide Played, EdgesOk, RepOk, IsFixpoint, Rounds;
    var led := Rounds(NewLedger(session), inputs);
    ReachableOk(session, inputs);
    var b := led.(phase := Active);
    FixpointIsExact(b, inp);
    PlayedHeader(b, inp);
  }

  lemma PlayedHeader(b: Ledger, inp: RoundInput)
    requires UniqueIds(b.claims)
    ensures Played(b, inp).session == b.session && Played(b, inp).round == b.round + 1
  {
    hide Asserted, Probed, Attacked, BeforeResolve, Resolved, CreditFirst;
    BeforeResolveGrew(b, inp);
    PlayedIsResolved(b, inp);
    ResolvedOnlyClaims(BeforeResolve(b, inp));
    CreditOnlyRep(b, Resolved(BeforeResolve(b, inp)), |Resolved(BeforeResolve(b, inp)).claims|);
  }
}
