/** What the messages about stakes do to each single staker: bonds, claims and payments. */
module StakeEffects {
  import opened FixedPoint
  import opened Results
  import opened Bonding
  import opened StakeState
  import opened StakeBooks
  import opened StakeQuickUnbond
  import opened StakeExit

  // ---- bond ----

  /** What a list of delegations gives to one staker. */
  function DelegatedTo(ds: seq<Delegation>, a: Addr): nat {
    if ds == [] then 0
    else
      var n := |ds| - 1;
      DelegatedTo(ds[..n], a) + if ds[n].to == a then ds[n].amount else 0
  }

  /** The bond with more unlocked stake and the same locked entries. */
  predicate Raises(b: Bond, after: Bond, amount: nat) {
    after.stake == b.stake + amount && after.locked == b.locked
  }

  /** Of the staker's tokens only the unlocked stake in one period changed: it grew by the amount. */
  ghost predicate OnlyRaised(s: State, t: State, a: Addr, period: nat, amount: nat) {
    && t.cfg == s.cfg && ClaimsOf(t.claims, a) == ClaimsOf(s.claims, a) && SentTo(t.sent, a) == SentTo(s.sent, a)
    && forall p :: RaisesFor(s, t, a, period, amount, p)
  }

  predicate RaisesFor(s: State, t: State, a: Addr, period: nat, amount: nat, p: nat) {
    Raises(BondOf(s.stakes, a, p), BondOf(t.stakes, a, p), if p == period then amount else 0)
  }

  /** The same of a single period. */
  predicate RaisedIn(s: State, t: State, a: Addr, p: nat, amount: nat) {
    && t.cfg == s.cfg && ClaimsOf(t.claims, a) == ClaimsOf(s.claims, a) && SentTo(t.sent, a) == SentTo(s.sent, a)
    && Raises(BondOf(s.stakes, a, p), BondOf(t.stakes, a, p), amount)
  }

  lemma BondOneRaises(s: State, i: nat, to: Addr, amount: nat, a: Addr, p: nat)
    requires i < |s.cfg.periods| && BondOne(s, i, to, amount).Ok?
    ensures RaisedIn(s, BondOne(s, i, to, amount).value, a, p, if p == s.cfg.periods[i] && to == a then amount else 0)
  {
  }

  lemma RaisedTwice(s: State, t: State, u: State, a: Addr, p: nat, x: nat, y: nat)
    requires RaisedIn(s, t, a, p, x) && RaisedIn(t, u, a, p, y)
    ensures RaisedIn(s, u, a, p, x + y)
  {
  }

  lemma {:induction false} BondEachRaises(s: State, i: nat, ds: seq<Delegation>, a: Addr, p: nat)
    requires i < |s.cfg.periods| && BondEach(s, i, ds).Ok?
    ensures RaisedIn(s, BondEach(s, i, ds).value, a, p, if p == s.cfg.periods[i] then DelegatedTo(ds, a) else 0)
  {
    if ds != [] {
      var front, d := ds[..|ds| - 1], ds[|ds| - 1];
      BondEachRaises(s, i, front, a, p);
      var m := BondEach(s, i, front).value;
      BondOneRaises(m, i, d.to, d.amount, a, p);
      RaisedTwice(s, m, BondEach(s, i, ds).value, a, p, if p == s.cfg.periods[i] then DelegatedTo(front, a) else 0,
                  if p == s.cfg.periods[i] && d.to == a then d.amount else 0);
    }
  }

  /** Bonding does exactly this to every staker: in the period bonded for, the unlocked stake grows by what
      was delegated to the staker; locked entries, other periods, claims and payments stay. */
  lemma BondRaises(s: State, cw20: Addr, sent: nat, period: nat, ds: seq<Delegation>, a: Addr)
    requires MassBond(s, cw20, sent, period, ds).Ok?
    ensures OnlyRaised(s, MassBond(s, cw20, sent, period, ds).value, a, period, DelegatedTo(ds, a))
  {
    var t := MassBond(s, cw20, sent, period, ds).value;
    MassBondRaises(s, cw20, sent, period, ds, a, period);
    forall p ensures RaisesFor(s, t, a, period, DelegatedTo(ds, a), p) {
      MassBondRaises(s, cw20, sent, period, ds, a, p);
    }
  }

  lemma MassBondRaises(s: State, cw20: Addr, sent: nat, period: nat, ds: seq<Delegation>, a: Addr, p: nat)
    requires MassBond(s, cw20, sent, period, ds).Ok?
    ensures RaisedIn(s, MassBond(s, cw20, sent, period, ds).value, a, p, if p == period then DelegatedTo(ds, a) else 0)
  {
    BondEachRaises(s, FindPeriod(s.cfg.periods, period).value, ds, a, p);
  }

  /** So what a staker can hold by a deadline grows by exactly what is delegated to the staker, where the
      deadline leaves time for the whole unbonding period, and not at all otherwise. */
  lemma BondReach(s: State, now: nat, cw20: Addr, sent: nat, period: nat, ds: seq<Delegation>, a: Addr, deadline: nat)
    requires MassBond(s, cw20, sent, period, ds).Ok?
    ensures Reach(MassBond(s, cw20, sent, period, ds).value, a, now, deadline)
            == Reach(s, a, now, deadline) + if now + period * NANOS <= deadline then DelegatedTo(ds, a) else 0
  {
    BondRaises(s, cw20, sent, period, ds, a);
    RaisedReach(s, MassBond(s, cw20, sent, period, ds).value, a, FindPeriod(s.cfg.periods, period).value,
                DelegatedTo(ds, a), now, deadline);
  }

  lemma RaisedReach(s: State, t: State, a: Addr, i: nat, amount: nat, now: nat, deadline: nat)
    requires i < |s.cfg.periods| && OnlyRaised(s, t, a, s.cfg.periods[i], amount)
    ensures Reach(t, a, now, deadline)
            == Reach(s, a, now, deadline) + if now + s.cfg.periods[i] * NANOS <= deadline then amount else 0
  {
    var p := s.cfg.periods[i];
    var raised := AddUnlocked(BondOf(s.stakes, a, p), amount);
    var put := PutBond(s.cfg, s.stakes, a, p, raised);
    forall q ensures BondOf(t.stakes, a, q) == BondOf(put, a, q) {
      assert RaisesFor(s, t, a, p, amount, q);
    }
    ExitAfterPut(s.cfg, s.stakes, a, i, raised, now, deadline);
    ExitIgnoresOthers(put, t.stakes, a, s.cfg.periods, now, deadline);
  }

  // ---- unbond, migrate ----

  /** Only one bond of the staker changed: the amount was released from it. */
  ghost predicate Released(s: State, t: State, now: nat, a: Addr, period: nat, amount: nat) {
    && t.cfg == s.cfg
    && Release(BondOf(s.stakes, a, period), now, amount) == Ok(BondOf(t.stakes, a, period))
    && forall x, p | x != a || p != period :: BondOf(t.stakes, x, p) == BondOf(s.stakes, x, p)
  }

  lemma RemoveStakeReleases(s: State, now: nat, a: Addr, period: nat, amount: nat)
    requires RemoveStake(s, now, a, period, amount).Ok?
    ensures var t := RemoveStake(s, now, a, period, amount).value;
            && Released(s, t, now, a, period, amount)
            && t == s.(stakes := t.stakes, totals := t.totals, flows := t.flows)
  {
  }

  /** Unbonding adds a claim that matures after the whole unbonding period, and pays nothing; while the
      unbonder has lifted the periods it pays at once, and adds no claim. */
  lemma UnbondPays(s: State, now: nat, a: Addr, amount: nat, period: nat)
    requires Unbond(s, now, a, amount, period).Ok?
    ensures var t := Unbond(s, now, a, amount, period).value;
            && Released(s, t, now, a, period, amount)
            && (if s.unbondAll then t.claims == s.claims && t.token.unbonding == s.token.unbonding
                                    && t.lpHeld == s.lpHeld - amount
                                    && t.sent == s.sent[a := SentTo(s.sent, a) + amount]
                else t.sent == s.sent && t.lpHeld == s.lpHeld && t.token.unbonding == s.token.unbonding + amount
                     && t.claims == s.claims[a := ClaimsOf(s.claims, a) + [Claim(amount, now + period * NANOS)]])
  {
    RemoveStakeReleases(s, now, a, period, amount);
    var removed := RemoveStake(s, now, a, period, amount).value;
    assert Unbond(s, now, a, amount, period) == Unbonded(removed, now, a, amount, period);
    SameRelease(s, removed, Unbond(s, now, a, amount, period).value, now, a, period, amount);
  }

  lemma MigratedSends(s: State, to: Addr, amount: nat)
    requires Migrated(s, to, amount).Ok?
    ensures var t := Migrated(s, to, amount).value;
            && t == s.(token := t.token, lpHeld := t.lpHeld, sent := t.sent)
            && t.lpHeld == s.lpHeld - amount && t.token.unbonding == s.token.unbonding
            && t.sent == s.sent[to := SentTo(s.sent, to) + amount]
  {
  }

  /** Migrating pays the converter at once, and adds no claim. */
  lemma MigratePays(s: State, now: nat, a: Addr, amount: nat, period: nat)
    requires MigrateStake(s, now, a, amount, period).Ok?
    ensures s.cfg.converter.Some?
    ensures var t := MigrateStake(s, now, a, amount, period).value; var to := s.cfg.converter.value;
            && Released(s, t, now, a, period, amount)
            && t.claims == s.claims && t.lpHeld == s.lpHeld - amount && t.token.unbonding == s.token.unbonding
            && t.sent == s.sent[to := SentTo(s.sent, to) + amount]
  {
    RemoveStakeReleases(s, now, a, period, amount);
    var removed := RemoveStake(s, now, a, period, amount).value;
    MigratedSends(removed, s.cfg.converter.value, amount);
    assert MigrateStake(s, now, a, amount, period) == Migrated(removed, s.cfg.converter.value, amount);
    SameRelease(s, removed, MigrateStake(s, now, a, amount, period).value, now, a, period, amount);
  }

  lemma SameRelease(s: State, t: State, u: State, now: nat, a: Addr, period: nat, amount: nat)
    requires Released(s, t, now, a, period, amount) && u.cfg == t.cfg && u.stakes == t.stakes
    ensures Released(s, u, now, a, period, amount)
  {
  }

  // ---- quick-unbond ----

  lemma {:induction false} SameAcross(stakes: Stakes, after: Stakes, a: Addr, periods: seq<nat>)
    requires forall p :: BondOf(after, a, p) == BondOf(stakes, a, p)
    ensures StakeAcross(after, a, periods) == StakeAcross(stakes, a, periods)
  {
    if periods != [] {
      SameAcross(stakes, after, a, periods[..|periods| - 1]);
    }
  }

  lemma {:induction false} NoneAcross(stakes: Stakes, a: Addr, periods: seq<nat>)
    requires forall p :: BondOf(stakes, a, p) == EMPTY
    ensures StakeAcross(stakes, a, periods) == 0
  {
    if periods != [] {
      NoneAcross(stakes, a, periods[..|periods| - 1]);
    }
  }

  /** What quick-unbonding owes one staker. */
  function Owed(s: State, a: Addr): nat {
    StakeAcross(s.stakes, a, s.cfg.periods) + ClaimSum(ClaimsOf(s.claims, a))
  }

  lemma {:induction false} SweptPays(s: State, stakers: seq<Addr>, a: Addr)
    ensures var w := Swept(s, stakers);
            && SentTo(w.sent, a) == SentTo(s.sent, a) + (if a in stakers then Owed(s, a) else 0)
            && ClaimsOf(w.claims, a) == if a in stakers then [] else ClaimsOf(s.claims, a)
  {
    if stakers != [] {
      var front, x := stakers[..|stakers| - 1], stakers[|stakers| - 1];
      SweptPays(s, front, a);
      SweptLast(s, stakers);
      StillOwed(s, front, x);
      LastIsPaid(s.cfg, Swept(s, front), x, a);
      assert a in stakers <==> a in front || a == x;
    }
  }

  /** One staker swept: paid what is left in the sweep, and nobody else is. */
  lemma LastIsPaid(cfg: Config, w: Sweep, x: Addr, a: Addr)
    requires |w.unbonded| == |cfg.periods|
    ensures var v := SweepOne(cfg, w, x);
            && SentTo(v.sent, a) == SentTo(w.sent, a)
                 + (if a == x then StakeAcross(w.stakes, x, cfg.periods) + ClaimSum(ClaimsOf(w.claims, x)) else 0)
            && ClaimsOf(v.claims, a) == if a == x then [] else ClaimsOf(w.claims, a)
  {
  }

  /** Nothing is left of a staker already swept, and everything of one who was not. */
  lemma StillOwed(s: State, front: seq<Addr>, x: Addr)
    ensures StakeAcross(Swept(s, front).stakes, x, s.cfg.periods)
            == if x in front then 0 else StakeAcross(s.stakes, x, s.cfg.periods)
  {
    var w := Swept(s, front);
    forall p ensures BondOf(w.stakes, x, p) == if x in front then EMPTY else BondOf(s.stakes, x, p) {
      SweptStakes(s, front, x, p);
    }
    if x in front {
      NoneAcross(w.stakes, x, s.cfg.periods);
    } else {
      SameAcross(s.stakes, w.stakes, x, s.cfg.periods);
    }
  }

  /** Quick-unbonding pays every listed staker all stake, locked or not, and all open claims, once however
      often the staker is listed, and leaves neither bonds nor claims; nobody else is touched. */
  lemma QuickUnbondPays(s: State, y: Addr, stakers: seq<Addr>, a: Addr)
    requires QuickUnbond(s, y, stakers).Ok?
    ensures var t := QuickUnbond(s, y, stakers).value;
            && SentTo(t.sent, a) == SentTo(s.sent, a) + (if a in stakers then Owed(s, a) else 0)
            && ClaimsOf(t.claims, a) == (if a in stakers then [] else ClaimsOf(s.claims, a))
            && forall p :: BondOf(t.stakes, a, p) == if a in stakers then EMPTY else BondOf(s.stakes, a, p)
  {
    var w := Swept(s, stakers);
    SweptPays(s, stakers, a);
    FinishCarries(s, w);
    forall p ensures BondOf(w.stakes, a, p) == if a in stakers then EMPTY else BondOf(s.stakes, a, p) {
      SweptStakes(s, stakers, a, p);
    }
  }

  // ---- claims ----

  /** Claiming pays the matured claims and keeps exactly the others. */
  lemma ClaimPays(s: State, now: nat, a: Addr)
    requires ClaimMatured(s, now, a).Ok?
    ensures var t := ClaimMatured(s, now, a).value; var matured := Matured(ClaimsOf(s.claims, a), now);
            && matured > 0 && t.stakes == s.stakes && t.lpHeld == s.lpHeld - matured
            && t.sent == s.sent[a := SentTo(s.sent, a) + matured]
            && t.claims == s.claims[a := ClaimsOf(t.claims, a)]
            && forall c :: c in ClaimsOf(t.claims, a) <==> c in ClaimsOf(s.claims, a) && now < c.releaseAt
  {
    forall c ensures c in Waiting(ClaimsOf(s.claims, a), now) <==> c in ClaimsOf(s.claims, a) && now < c.releaseAt {
      WaitingKeeps(ClaimsOf(s.claims, a), now, c);
    }
  }

  lemma {:induction false} WaitingKeeps(claims: seq<Claim>, now: nat, c: Claim)
    ensures c in Waiting(claims, now) <==> c in claims && now < c.releaseAt
  {
    if claims != [] {
      var n := |claims| - 1;
      WaitingKeeps(claims[..n], now, c);
      assert c in claims <==> c in claims[..n] || c == claims[n];
    }
  }

  // ---- rebond ----

  /** What is free of a bond by time `t`. */
  function FreeAt(b: Bond, t: nat): nat {
    b.stake + FreeBy(b.locked, t)
  }

  /** A rebond takes the amount from the one bond as a release does, and adds it to the other, where it is
      free at once, or only after the difference of the two periods if the new one is shorter. */
  lemma RebondMovesBonds(s: State, now: nat, a: Addr, amount: nat, bondFrom: nat, bondTo: nat)
    requires Rebond(s, now, a, amount, bondFrom, bondTo).Ok?
    ensures var t := Rebond(s, now, a, amount, bondFrom, bondTo).value;
            var b, c := BondOf(s.stakes, a, bondTo), BondOf(t.stakes, a, bondTo);
            && bondFrom != bondTo
            && Release(BondOf(s.stakes, a, bondFrom), now, amount) == Ok(BondOf(t.stakes, a, bondFrom))
            && Total(c) == Total(b) + amount
            && (forall x, p | x != a || (p != bondFrom && p != bondTo) ::
               BondOf(t.stakes, x, p) == BondOf(s.stakes, x, p))
            && forall time: nat :: FreeAt(c, time) == FreeAt(b, time)
                 + (if bondFrom > bondTo && time < now + (bondFrom - bondTo) * NANOS then 0 else amount)
  {
    var b := BondOf(s.stakes, a, bondTo);
    var c := Raised(b, now, amount, bondFrom, bondTo);
    RaisedTotal(b, now, amount, bondFrom, bondTo);
    forall time: nat
      ensures FreeAt(c, time) == FreeAt(b, time)
                + (if bondFrom > bondTo && time < now + (bondFrom - bondTo) * NANOS then 0 else amount)
    {
      if bondFrom > bondTo {
        InsertCounts(b.locked, Lock(now + (bondFrom - bondTo) * NANOS, amount), time);
      }
    }
    RebondPuts(s, now, a, amount, bondFrom, bondTo);
  }

  lemma RebondPuts(s: State, now: nat, a: Addr, amount: nat, bondFrom: nat, bondTo: nat)
    requires Rebond(s, now, a, amount, bondFrom, bondTo).Ok?
    ensures var t := Rebond(s, now, a, amount, bondFrom, bondTo).value;
            && bondFrom != bondTo
            && Release(BondOf(s.stakes, a, bondFrom), now, amount) == Ok(BondOf(t.stakes, a, bondFrom))
            && BondOf(t.stakes, a, bondTo) == Raised(BondOf(s.stakes, a, bondTo), now, amount, bondFrom, bondTo)
            && forall x, p | x != a || (p != bondFrom && p != bondTo) ::
                 BondOf(t.stakes, x, p) == BondOf(s.stakes, x, p)
  {
  }

  // ---- the messages ----

  /** A bond message stakes its amount for the staker it names, in the period it names. */
  lemma BondMessage(s: State, e: Env, cw20: Addr, amount: nat, period: nat, staker: Addr, a: Addr)
    requires Execute(s, e, BondMsg(cw20, amount, period, staker)).Ok?
    ensures OnlyRaised(s, Execute(s, e, BondMsg(cw20, amount, period, staker)).value, a, period,
                       if a == staker then amount else 0)
  {
    var ds := [Delegation(staker, amount)];
    BondRaises(s, cw20, amount, period, ds, a);
    OnlyDelegation(staker, amount, a);
  }

  lemma OnlyDelegation(staker: Addr, amount: nat, a: Addr)
    ensures DelegatedTo([Delegation(staker, amount)], a) == if a == staker then amount else 0
  {
    assert [Delegation(staker, amount)][..0] == [];
  }

  /** Unbonding, migrating and rebonding act on the sender's stake, at the time of the message, with the
      amount and the periods the message names. */
  lemma UnbondMessage(s: State, e: Env, amount: nat, period: nat)
    requires Execute(s, e, UnbondMsg(amount, period)).Ok?
    ensures Released(s, Execute(s, e, UnbondMsg(amount, period)).value, e.now, e.sender, period, amount)
  {
    UnbondPays(s, e.now, e.sender, amount, period);
  }

  lemma MigrateMessage(s: State, e: Env, amount: nat, period: nat)
    requires Execute(s, e, MigrateMsg(amount, period)).Ok?
    ensures Released(s, Execute(s, e, MigrateMsg(amount, period)).value, e.now, e.sender, period, amount)
  {
    MigratePays(s, e.now, e.sender, amount, period);
  }

  lemma RebondMessage(s: State, e: Env, amount: nat, bondFrom: nat, bondTo: nat)
    requires Execute(s, e, RebondMsg(amount, bondFrom, bondTo)).Ok?
    ensures var t := Execute(s, e, RebondMsg(amount, bondFrom, bondTo)).value;
            && Release(BondOf(s.stakes, e.sender, bondFrom), e.now, amount) == Ok(BondOf(t.stakes, e.sender, bondFrom))
            && BondOf(t.stakes, e.sender, bondTo)
               == Raised(BondOf(s.stakes, e.sender, bondTo), e.now, amount, bondFrom, bondTo)
  {
    RebondPuts(s, e.now, e.sender, amount, bondFrom, bondTo);
  }

  /** The unbonder alone lifts the periods, the unbonder or the admin restores them, each only if that
      changes anything, and the admin alone names the next one; nothing else changes by these. */
  lemma SwitchMessages(s: State, e: Env, next: Option<Addr>)
    ensures Execute(s, e, UnbondAllMsg).Ok? <==> s.cfg.unbonder == Some(e.sender) && !s.unbondAll
    ensures Execute(s, e, UnbondAllMsg).Ok? ==> Execute(s, e, UnbondAllMsg).value == s.(unbondAll := true)
    ensures Execute(s, e, StopUnbondAllMsg).Ok?
            <==> (s.cfg.unbonder == Some(e.sender) || s.admin == Some(e.sender)) && s.unbondAll
    ensures Execute(s, e, StopUnbondAllMsg).Ok? ==> Execute(s, e, StopUnbondAllMsg).value == s.(unbondAll := false)
    ensures Execute(s, e, UpdateAdminMsg(next)).Ok? <==> s.admin == Some(e.sender)
    ensures Execute(s, e, UpdateAdminMsg(next)).Ok? ==> Execute(s, e, UpdateAdminMsg(next)).value == s.(admin := next)
  {
  }
}
