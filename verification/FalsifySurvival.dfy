/** What it takes to survive, to stay dead, and to be believed. */
module FalsifySurvival {
  import opened Text
  import opened FalsifyLedger
  import opened FalsifyClerk
  import opened FalsifyInvariants
  import opened FalsifyFixpoint

  // --- resolving ----------------------------------------------------------------------

  /** Resolving twice is resolving once, on every ledger. */
  lemma ResolveIdempotent(led: Ledger)
    ensures Resolved(Resolved(led)) == Resolved(led)
  {
    forall i | 0 <= i < |led.claims|
      ensures Settle(Settle(led.claims[i])) == Settle(led.claims[i])
    {
      var c := led.claims[i];
      assert HasSupport(Settle(c)) == HasSupport(c);
    }
    assert Resolved(Resolved(led)).claims == Resolved(led).claims;
  }

  ghost predicate Settled(led: Ledger) {
    forall i :: 0 <= i < |led.claims| ==> led.claims[i] == Settle(led.claims[i])
  }

  lemma RoundClaims(led: Ledger, inp: RoundInput)
    ensures Round(led, inp).claims == Resolved(BeforeResolve(led.(phase := Active), inp)).claims
  {
    hide Asserted, Probed, Attacked, Resolved, CreditFirst, IsFixpoint;
    var b := led.(phase := Active);
    var r := Resolved(BeforeResolve(b, inp));
    CreditOnlyRep(b, r, |r.claims|);
  }

  lemma RoundSettles(led: Ledger, inp: RoundInput)
    ensures Settled(Round(led, inp))
  {
    hide Round, BeforeResolve, Settle;
    RoundClaims(led, inp);
    var l := BeforeResolve(led.(phase := Active), inp);
    forall i | 0 <= i < |l.claims| ensures Resolved(l).claims[i] == Settle(Resolved(l).claims[i]) {
      ResolveIdempotent(l);
      assert Resolved(Resolved(l)).claims[i] == Settle(Resolved(l).claims[i]);
    }
  }

  lemma ReachableSettled(session: string, inputs: seq<RoundInput>)
    ensures Settled(Rounds(NewLedger(session), inputs))
  {
    hide Round, Settle;
    if inputs != [] {
      RoundSettles(Rounds(NewLedger(session), inputs[..|inputs| - 1]), inputs[|inputs| - 1]);
    }
  }

  // --- surviving ------------------------------------------------------------------------

  /** In every reachable ledger a survived claim has support, no kill that still counts, and
      at least two failed attempts since its last accepted kill, hence since its last reopening. */
  lemma SurvivorsEarnedIt(session: string, inputs: seq<RoundInput>, i: nat)
    requires i < |Rounds(NewLedger(session), inputs).claims|
    requires Rounds(NewLedger(session), inputs).claims[i].status == Survived
    ensures var c := Rounds(NewLedger(session), inputs).claims[i];
            HasSupport(c) && !HasLiveKill(c.kills) && FailedSinceKill(c.kills) == c.attempts >= SURVIVE_AFTER
  {
    hide Rounds;
    ReachableOk(session, inputs);
    ReachableSettled(session, inputs);
    var c := Rounds(NewLedger(session), inputs).claims[i];
    assert c == Settle(c) && ClaimOk(c);
  }

  lemma ReachableIds(led: Ledger)
    requires LedgerOk(led)
    ensures UniqueIds(led.claims)
  {
  }

  lemma ReachableClaim(led: Ledger, i: nat)
    requires LedgerOk(led) && i < |led.claims|
    ensures ClaimOk(led.claims[i])
  {
  }

  lemma GrewAt(b: Ledger, l: Ledger, i: nat)
    requires Grew(b, l) && i < |b.claims|
    ensures i < |l.claims| && ClaimStep(b.claims[i], l.claims[i])
  {
  }

  /** Support is never lost: receipts are only appended. */
  lemma SupportKept(c: Claim, d: Claim)
    requires ClaimStep(c, d) && HasSupport(c)
    ensures HasSupport(d)
  {
    var k :| 0 <= k < |c.receipts| && Supports(c.receipts[k]);
    assert d.receipts[k] == c.receipts[k];
  }

  // --- staying dead -----------------------------------------------------------------------

  /** A raw claim that legally answers the kill of `id`: it names the claim, has text, and a
      receipt that is not a metamorph one addresses the id. */
  ghost predicate Answers(raw: RawClaim, id: string) {
    && Strip(raw.id) == id && Strip(raw.text) != ""
    && AddressesKill(raw.(receipts := Scrub(raw.receipts)), id)
  }

  ghost predicate Answered(raws: seq<RawClaim>, id: string) {
    exists n :: 0 <= n < |raws| && Answers(raws[n], id)
  }

  /** Dead claims keep their place and content; nobody's reopen count moves. */
  ghost predicate DeadKept(l: Ledger, m: Ledger) {
    && |l.claims| <= |m.claims|
    && forall i :: 0 <= i < |l.claims| ==>
         && m.claims[i].id == l.claims[i].id
         && m.claims[i].reopens == l.claims[i].reopens
         && (l.claims[i].status == Killed ==> m.claims[i] == l.claims[i])
  }

  /** During the assert phase a dead claim is untouched until the first legal answer. */
  lemma {:induction false} IngestDead(led: Ledger, raws: seq<RawClaim>, author: string, i: nat)
    requires UniqueIds(led.claims) && i < |led.claims| && led.claims[i].id != ""
    requires led.claims[i].status == Killed
    ensures var l, c := IngestAll(led, Stamp(raws, author)), led.claims[i];
            && i < |l.claims| && UniqueIds(l.claims) && l.claims[i].id == c.id
            && if c.reopens < MAX_REOPENS && Answered(raws, c.id)
               then l.claims[i].reopens == c.reopens + 1 && l.claims[i].status == Open
               else l.claims[i] == c
  {
    if raws != [] {
      var n := |raws| - 1;
      IngestDead(led, raws[..n], author, i);
      assert Stamp(raws, author)[..n] == Stamp(raws[..n], author);
      AnsweredStep(raws, led.claims[i].id);
      IngestDeadOne(IngestAll(led, Stamp(raws[..n], author)), raws[n], author, i);
    }
  }

  lemma AnsweredStep(raws: seq<RawClaim>, id: string)
    requires raws != []
    ensures Answered(raws, id) <==> Answered(raws[..|raws| - 1], id) || Answers(raws[|raws| - 1], id)
  {
    hide Answers;
    var n := |raws| - 1;
    if Answered(raws, id) {
      var k :| 0 <= k < |raws| && Answers(raws[k], id);
      assert k < n ==> Answers(raws[..n][k], id);
    }
    if Answered(raws[..n], id) {
      var k :| 0 <= k < n && Answers(raws[..n][k], id);
      assert Answers(raws[k], id);
    }
  }

  lemma IngestDeadOne(l: Ledger, raw: RawClaim, author: string, i: nat)
    requires UniqueIds(l.claims) && i < |l.claims| && l.claims[i].id != ""
    ensures var m, c := Ingest(l, raw.(author := author, receipts := Scrub(raw.receipts))), l.claims[i];
            && i < |m.claims| && UniqueIds(m.claims) && m.claims[i].id == c.id
            && (c.status == Killed ==>
                  if c.reopens < MAX_REOPENS && Answers(raw, c.id)
                  then m.claims[i].reopens == c.reopens + 1 && m.claims[i].status == Open
                  else m.claims[i] == c)
            && (c.status == Open ==> m.claims[i].reopens == c.reopens && m.claims[i].status == Open)
  {
    UniqueIndex(l.claims, i);
    var stamped := raw.(author := author, receipts := Scrub(raw.receipts));
    var scrubbed := raw.(receipts := Scrub(raw.receipts));
    assert AddressesKill(stamped, l.claims[i].id) == AddressesKill(scrubbed, l.claims[i].id);
  }

  lemma AttackOneDead(l: Ledger, atk: Attack, killer: string, corpus: string, round: nat)
    ensures DeadKept(l, AttackOne(l, atk, killer, corpus, round))
  {
    hide Admissible, ContraValid, Compoundable;
    if RegistersContra(l, atk, corpus) {
      StripTwice(atk.newId);
    }
    var i := IndexOf(l.claims, Strip(atk.target));
    if i >= 0 && l.claims[i].status != Killed && atk.move == "contra" {
      ContraMoveDead(l, atk, l.claims[i], killer, corpus, round);
    }
  }

  lemma ContraMoveDead(l: Ledger, atk: Attack, target: Claim, killer: string, corpus: string, round: nat)
    requires var i := IndexOf(l.claims, target.id); i >= 0 && l.claims[i].status != Killed
    ensures DeadKept(l, ContraMove(l, atk, target, killer, corpus, round))
  {
    hide ContraValid, Ingest, RegistersContra, Admissible;
    if RegistersContra(l, atk, corpus) {
      TargetStays(l, atk, target, killer, corpus);
      RegisteredContra(l, atk, target, killer, corpus);
    }
  }

  lemma {:induction false} AttackedDead(l: Ledger, atks: seq<Attack>, killer: string, corpus: string, round: nat)
    ensures DeadKept(l, Attacked(l, atks, killer, corpus, round))
  {
    hide AttackOne;
    if atks != [] {
      AttackedDead(l, atks[..|atks| - 1], killer, corpus, round);
      AttackOneDead(Attacked(l, atks[..|atks| - 1], killer, corpus, round), atks[|atks| - 1], killer, corpus, round);
    }
  }

  /** A killed claim is reopened by a round exactly when the assertor's block legally answers
      the kill and the claim has reopenings left; otherwise the round leaves it untouched. */
  lemma DeadUnlessAnswered(session: string, inputs: seq<RoundInput>, inp: RoundInput, i: nat)
    requires i < |Rounds(NewLedger(session), inputs).claims|
    requires Rounds(NewLedger(session), inputs).claims[i].status == Killed
    ensures var led := Rounds(NewLedger(session), inputs);
            var c := led.claims[i];
            var after := Round(led, inp);
            && i < |after.claims|
            && if c.reopens < MAX_REOPENS && Answered(inp.asserts, c.id)
               then after.claims[i].reopens == c.reopens + 1
               else after.claims[i] == c
  {
    hide Rounds, Round, Attacked, EdgesOk, RepOk, DeadKept, Answered, IngestAll;
    var led := Rounds(NewLedger(session), inputs);
    var b := led.(phase := Active);
    ReachableOk(session, inputs);
    RoundClaims(led, inp);
    AssertedDead(b, inp, i);
    var asserted := Asserted(b, inp);
    var probed := if inp.metamorph then Probed(asserted, inp.probe) else asserted;
    AttackedDead(probed, inp.attacks, inp.falsifier, inp.corpus, b.round + 1);
    assert Probed(asserted, inp.probe).claims[i] == ProbeClaim(asserted.claims[i], inp.probe(i));
    DeadKeptAt(probed, BeforeResolve(b, inp), i);
    assert ClaimOk(led.claims[i]);
    assert Settle(led.claims[i]) == led.claims[i];
    assert Round(led, inp).claims[i] == Settle(BeforeResolve(b, inp).claims[i]);
  }

  lemma DeadKeptAt(l: Ledger, m: Ledger, i: nat)
    requires DeadKept(l, m) && i < |l.claims|
    ensures i < |m.claims| && m.claims[i].reopens == l.claims[i].reopens
    ensures l.claims[i].status == Killed ==> m.claims[i] == l.claims[i]
  {
  }

  /** During the assert phase a live claim keeps its status and is not reopened. */
  lemma {:induction false} IngestLive(led: Ledger, raws: seq<RawClaim>, i: nat)
    requires i < |led.claims| && led.claims[i].status != Killed
    ensures var l := IngestAll(led, raws);
            i < |l.claims| && l.claims[i].status == led.claims[i].status && l.claims[i].reopens == led.claims[i].reopens
  {
    if raws != [] {
      IngestLive(led, raws[..|raws| - 1], i);
    }
  }

  /** A live claim is never reopened within a round. */
  lemma LiveNotReopened(b: Ledger, inp: RoundInput, i: nat)
    requires i < |b.claims| && b.claims[i].status != Killed
    ensures i < |BeforeResolve(b, inp).claims|
    ensures BeforeResolve(b, inp).claims[i].reopens == b.claims[i].reopens
  {
    hide IngestAll, Attacked, DeadKept, JudgeFrom;
    IngestLive(b, Stamp(inp.asserts, inp.assertor), i);
    var probed := if inp.metamorph then Probed(Asserted(b, inp), inp.probe) else Asserted(b, inp);
    assert Asserted(b, inp).claims[i].reopens == b.claims[i].reopens;
    assert Probed(Asserted(b, inp), inp.probe).claims[i] == ProbeClaim(Asserted(b, inp).claims[i], inp.probe(i));
    AttackedDead(probed, inp.attacks, inp.falsifier, inp.corpus, b.round + 1);
    DeadKeptAt(probed, BeforeResolve(b, inp), i);
  }

  /** A survived claim leaves a round either still survived or freshly killed. */
  lemma SurvivorStands(session: string, inputs: seq<RoundInput>, inp: RoundInput, i: nat)
    requires i < |Rounds(NewLedger(session), inputs).claims|
    requires Rounds(NewLedger(session), inputs).claims[i].status == Survived
    ensures var led := Rounds(NewLedger(session), inputs);
            var after := Round(led, inp);
            && i < |after.claims|
            && (after.claims[i].status == Survived ||
                (after.claims[i].status == Killed &&
                 AcceptedKills(after.claims[i].kills) > AcceptedKills(led.claims[i].kills)))
  {
    hide Rounds, Round, BeforeResolve, LedgerOk, Grew;
    var led := Rounds(NewLedger(session), inputs);
    var b := led.(phase := Active);
    ReachableOk(session, inputs);
    ReachableIds(led);
    SurvivorsEarnedIt(session, inputs, i);
    BeforeResolveGrew(b, inp);
    RoundClaims(led, inp);
    var l := BeforeResolve(b, inp);
    GrewAt(b, l, i);
    RoundOk(led, inp);
    ReachableClaim(Round(led, inp), i);
    ReachableClaim(led, i);
    LiveNotReopened(b, inp, i);
    SupportKept(b.claims[i], l.claims[i]);
  }

  lemma AssertedDead(b: Ledger, inp: RoundInput, i: nat)
    requires UniqueIds(b.claims) && i < |b.claims| && b.claims[i].id != "" && b.claims[i].status == Killed
    ensures var l, c := Asserted(b, inp), b.claims[i];
            && i < |l.claims|
            && if c.reopens < MAX_REOPENS && Answered(inp.asserts, c.id)
               then l.claims[i].reopens == c.reopens + 1 && l.claims[i].status == Open
               else l.claims[i] == c
  {
    hide IngestAll, Answered, Judge;
    IngestDead(b, inp.asserts, inp.assertor, i);
    UniqueIndex(b.claims, i);
  }

  /** After three reopenings a killed claim stays dead, whatever both models say, forever. */
  lemma {:induction false} DeadForever(session: string, inputs: seq<RoundInput>, more: seq<RoundInput>, i: nat)
    requires i < |Rounds(NewLedger(session), inputs).claims|
    requires Rounds(NewLedger(session), inputs).claims[i].status == Killed
    requires Rounds(NewLedger(session), inputs).claims[i].reopens == MAX_REOPENS
    ensures i < |Rounds(NewLedger(session), inputs + more).claims|
    ensures Rounds(NewLedger(session), inputs + more).claims[i] == Rounds(NewLedger(session), inputs).claims[i]
  {
    hide Round;
    if more == [] {
      assert inputs + more == inputs;
    } else {
      var n := |more| - 1;
      DeadForever(session, inputs, more[..n], i);
      assert (inputs + more)[..|inputs + more| - 1] == inputs + more[..n];
      DeadUnlessAnswered(session, inputs + more[..n], more[n], i);
    }
  }

  // --- whose evidence counts ----------------------------------------------------------------

  /** The clerk's own ground for a supporting receipt, in one round. */
  ghost predicate Warrant(r: Receipt, inp: RoundInput) {
    || CiteSupported(r, inp.corpus)
    || (r.kind == "run" && exists i: nat, j: nat :: inp.sandbox(r.code, i, j) == Pass)
    || (inp.metamorph && exists i: nat ::
          inp.probe(i).Some? && inp.probe(i).value.stable && r == ClerkReceipt(inp.probe(i).value))
  }

  ghost predicate Warranted(r: Receipt, inputs: seq<RoundInput>) {
    exists n :: 0 <= n < |inputs| && Warrant(r, inputs[n])
  }

  ghost predicate Grounded(rs: seq<Receipt>, inputs: seq<RoundInput>) {
    forall j :: 0 <= j < |rs| && Supports(rs[j]) ==> Warranted(rs[j], inputs)
  }

  ghost predicate AllGrounded(led: Ledger, inputs: seq<RoundInput>) {
    forall i :: 0 <= i < |led.claims| ==> Grounded(led.claims[i].receipts, inputs)
  }

  lemma {:induction false} ScrubGrounded(rs: seq<Receipt>, inputs: seq<RoundInput>)
    ensures Grounded(Scrub(rs), inputs)
  {
    if rs != [] {
      ScrubGrounded(rs[..|rs| - 1], inputs);
    }
  }

  lemma IngestGrounded(led: Ledger, raw: RawClaim, inputs: seq<RoundInput>)
    requires AllGrounded(led, inputs) && Grounded(raw.receipts, inputs)
    ensures AllGrounded(Ingest(led, raw), inputs)
  {
  }

  lemma {:induction false} IngestAllGrounded(led: Ledger, raws: seq<RawClaim>, author: string, inputs: seq<RoundInput>)
    requires AllGrounded(led, inputs)
    ensures AllGrounded(IngestAll(led, Stamp(raws, author)), inputs)
  {
    hide Ingest, AllGrounded;
    if raws != [] {
      var n := |raws| - 1;
      IngestAllGrounded(led, raws[..n], author, inputs);
      assert Stamp(raws, author)[..n] == Stamp(raws[..n], author);
      ScrubGrounded(raws[n].receipts, inputs);
      IngestGrounded(IngestAll(led, Stamp(raws[..n], author)), Stamp(raws, author)[n], inputs);
    }
  }

  lemma AssertedGrounded(led: Ledger, inp: RoundInput, inputs: seq<RoundInput>)
    requires AllGrounded(led, inputs) && inp in inputs
    ensures AllGrounded(Asserted(led, inp), inputs)
  {
    hide IngestAll, Warrant;
    var raws := Stamp(inp.asserts, inp.assertor);
    IngestAllGrounded(led, inp.asserts, inp.assertor, inputs);
    var l, m := IngestAll(led, raws), Asserted(led, inp);
    forall i, j | 0 <= i < |m.claims| && 0 <= j < |m.claims[i].receipts| && Supports(m.claims[i].receipts[j])
      ensures Warranted(m.claims[i].receipts[j], inputs)
    {
      var r := l.claims[i].receipts[j];
      if m.claims[i].receipts[j] != r {
        JudgedIsWarranted(r, inp, i, j);
        var n :| 0 <= n < |inputs| && inputs[n] == inp;
        assert Warrant(m.claims[i].receipts[j], inputs[n]);
      }
    }
  }

  lemma JudgedIsWarranted(r: Receipt, inp: RoundInput, i: nat, j: nat)
    ensures var q := Judge(r, inp.corpus, inp.sandbox(r.code, i, j));
            Supports(q) ==> q == r || Warrant(q, inp)
  {
  }

  lemma ProbedGrounded(led: Ledger, inp: RoundInput, inputs: seq<RoundInput>)
    requires AllGrounded(led, inputs) && inp in inputs && inp.metamorph
    ensures AllGrounded(Probed(led, inp.probe), inputs)
  {
    hide Compoundable, ClerkProbed;
    forall i, j | 0 <= i < |led.claims| && 0 <= j < |Probed(led, inp.probe).claims[i].receipts| &&
                  Supports(Probed(led, inp.probe).claims[i].receipts[j])
      ensures Warranted(Probed(led, inp.probe).claims[i].receipts[j], inputs)
    {
      var c := led.claims[i];
      var d := ProbeClaim(c, inp.probe(i));
      assert Probed(led, inp.probe).claims[i] == d;
      if j == |c.receipts| {
        var n :| 0 <= n < |inputs| && inputs[n] == inp;
        assert Warrant(d.receipts[j], inputs[n]);
      } else {
        assert d.receipts[j] == c.receipts[j];
        assert Grounded(c.receipts, inputs);
      }
    }
  }

  lemma ContraMoveGrounded(led: Ledger, atk: Attack, target: Claim, killer: string, inp: RoundInput, round: nat,
                           inputs: seq<RoundInput>)
    requires AllGrounded(led, inputs) && inp in inputs
    ensures AllGrounded(ContraMove(led, atk, target, killer, inp.corpus, round), inputs)
  {
    hide ContraValid, Ingest, Admissible, Warranted;
    if RegistersContra(led, atk, inp.corpus) {
      var raw := ContraClaim(atk, target, killer);
      assert Warranted(raw.receipts[0], inputs) by {
        var n :| 0 <= n < |inputs| && inputs[n] == inp;
        WarrantedBy(raw.receipts[0], inputs, n);
      }
      IngestGrounded(led, raw, inputs);
    }
  }

  lemma WarrantedBy(r: Receipt, inputs: seq<RoundInput>, n: nat)
    requires n < |inputs| && Warrant(r, inputs[n])
    ensures Warranted(r, inputs)
  {
  }

  lemma AttackOneGrounded(led: Ledger, atk: Attack, killer: string, inp: RoundInput, round: nat,
                          inputs: seq<RoundInput>)
    requires AllGrounded(led, inputs) && inp in inputs
    ensures AllGrounded(AttackOne(led, atk, killer, inp.corpus, round), inputs)
  {
    hide ContraMove, Compoundable, Grounded;
    var i := IndexOf(led.claims, Strip(atk.target));
    if i >= 0 {
      ContraMoveGrounded(led, atk, led.claims[i], killer, inp, round, inputs);
    }
  }

  lemma {:induction false} AttackedGrounded(led: Ledger, atks: seq<Attack>, killer: string, inp: RoundInput, round: nat,
                                            inputs: seq<RoundInput>)
    requires AllGrounded(led, inputs) && inp in inputs
    ensures AllGrounded(Attacked(led, atks, killer, inp.corpus, round), inputs)
  {
    hide AttackOne, AllGrounded;
    if atks != [] {
      AttackedGrounded(led, atks[..|atks| - 1], killer, inp, round, inputs);
      AttackOneGrounded(Attacked(led, atks[..|atks| - 1], killer, inp.corpus, round), atks[|atks| - 1], killer, inp,
                        round, inputs);
    }
  }

  lemma RoundGrounded(led: Ledger, inp: RoundInput, inputs: seq<RoundInput>)
    requires AllGrounded(led, inputs) && inp in inputs
    ensures AllGrounded(Round(led, inp), inputs)
  {
    hide Asserted, Probed, Attacked, Grounded, Round, Verdict;
    var b := led.(phase := Active);
    AssertedGrounded(b, inp, inputs);
    var asserted := Asserted(b, inp);
    if inp.metamorph {
      ProbedGrounded(asserted, inp, inputs);
    }
    AttackedGrounded(if inp.metamorph then Probed(asserted, inp.probe) else asserted,
                     inp.attacks, inp.falsifier, inp, b.round + 1, inputs);
    RoundClaims(led, inp);
  }

  lemma MoreInputs(led: Ledger, inputs: seq<RoundInput>, inp: RoundInput)
    requires AllGrounded(led, inputs)
    ensures AllGrounded(led, inputs + [inp])
  {
    forall r | Warranted(r, inputs) ensures Warranted(r, inputs + [inp]) {
      var n :| 0 <= n < |inputs| && Warrant(r, inputs[n]);
      assert Warrant(r, (inputs + [inp])[n]);
    }
  }

  /** Every receipt that supports a claim was verified by the clerk in some round: its quote
      stands in that round's corpus, its code passed that round's sandbox, or it is the
      clerk's own stable metamorph receipt. */
  lemma {:induction false} SupportIsClerkWritten(session: string, inputs: seq<RoundInput>)
    ensures AllGrounded(Rounds(NewLedger(session), inputs), inputs)
  {
    hide Round, Warranted, Grounded;
    if inputs != [] {
      var n := |inputs| - 1;
      SupportIsClerkWritten(session, inputs[..n]);
      assert inputs[..n] + [inputs[n]] == inputs;
      MoreInputs(Rounds(NewLedger(session), inputs[..n]), inputs[..n], inputs[n]);
      RoundGrounded(Rounds(NewLedger(session), inputs[..n]), inputs[n], inputs);
    }
  }

  // --- what a model writes about its own evidence is ignored ----------------------------------

  datatype Visible = Visible(kind: string, quote: string, code: string, addresses: string, text: string)

  /** What is left of a model's receipts once verdict fields and metamorph receipts are ignored. */
  function VisiblePart(rs: seq<Receipt>): seq<Visible> {
    if rs == [] then []
    else
      var n := |rs| - 1;
      VisiblePart(rs[..n]) +
      (if rs[n].kind == "metamorph" then []
       else [Visible(rs[n].kind, rs[n].quote, rs[n].code, rs[n].addresses, rs[n].text)])
  }

  function Blank(v: Visible): Receipt {
    Receipt(v.kind, v.quote, v.code, v.addresses, v.text, false, false, false, "")
  }

  lemma {:induction false} ScrubIsVisiblePart(rs: seq<Receipt>)
    ensures Scrub(rs) == seq(|VisiblePart(rs)|, i requires 0 <= i < |VisiblePart(rs)| => Blank(VisiblePart(rs)[i]))
  {
    if rs != [] {
      ScrubIsVisiblePart(rs[..|rs| - 1]);
    }
  }

  /** Two raw claims that differ at most in what a model must not decide. */
  ghost predicate Alike(a: RawClaim, b: RawClaim) {
    a.id == b.id && a.text == b.text && a.domain == b.domain && VisiblePart(a.receipts) == VisiblePart(b.receipts)
  }

  lemma {:induction false} AlikeIngest(led: Ledger, a: seq<RawClaim>, b: seq<RawClaim>, author: string)
    requires |a| == |b| && forall i :: 0 <= i < |a| ==> Alike(a[i], b[i])
    ensures IngestAll(led, Stamp(a, author)) == IngestAll(led, Stamp(b, author))
    ensures AcceptedIds(led, Stamp(a, author)) == AcceptedIds(led, Stamp(b, author))
  {
    if a != [] {
      var n := |a| - 1;
      AlikeIngest(led, a[..n], b[..n], author);
      assert Stamp(a, author)[..n] == Stamp(a[..n], author) && Stamp(b, author)[..n] == Stamp(b[..n], author);
      ScrubIsVisiblePart(a[n].receipts);
      ScrubIsVisiblePart(b[n].receipts);
      SameAdmission(IngestAll(led, Stamp(a[..n], author)), Stamp(a, author)[n], Stamp(b, author)[n]);
    }
  }

  lemma SameAdmission(led: Ledger, a: RawClaim, b: RawClaim)
    requires a.id == b.id && a.text == b.text && a.domain == b.domain && a.author == b.author
    requires a.receipts == b.receipts
    ensures Admissible(led, a) == Admissible(led, b) && Ingest(led, a) == Ingest(led, b)
  {
  }

  /** Two assert blocks that differ only in clerk fields, metamorph receipts, or the author,
      status, kills and attempts a model wrote itself give the same ledger after the round. */
  lemma ForgeryIsIgnored(led: Ledger, inp: RoundInput, forged: seq<RawClaim>)
    requires |forged| == |inp.asserts| && forall i :: 0 <= i < |forged| ==> Alike(inp.asserts[i], forged[i])
    ensures Round(led, inp.(asserts := forged)) == Round(led, inp)
  {
    hide Alike, IngestAll, AcceptedIds, JudgeAll, Attacked, Probed;
    AlikeIngest(led.(phase := Active), inp.asserts, forged, inp.assertor);
    assert Asserted(led.(phase := Active), inp.(asserts := forged)) == Asserted(led.(phase := Active), inp);
  }
}
