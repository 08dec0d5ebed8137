/** The invariants of the whole staking contract, and the messages that move one staker's bonds. */
module StakeBooks {
  import opened FixedPoint
  import opened FiniteSums
  import opened Results
  import opened Bonding
  import opened StakeState
  import opened StakeTotals
  import opened StakeRewards

  function StakedSum(totals: seq<TotalStake>): nat {
    if totals == [] then 0 else StakedSum(totals[..|totals| - 1]) + totals[|totals| - 1].staked
  }

  ghost function ClaimAt(claims: map<Addr, seq<Claim>>): Addr -> int {
    a => ClaimSum(ClaimsOf(claims, a))
  }

  /** The staked totals and every flow's books, at a time in seconds. */
  ghost predicate Ledgers(s: State, seconds: nat) {
    LedgersOf(s.cfg, s.stakes, s.totals, s.flows, seconds)
  }

  ghost predicate LedgersOf(cfg: Config, stakes: Stakes, totals: seq<TotalStake>, flows: map<Asset, Flow>,
                            seconds: nat) {
    StakedOk(cfg, stakes, totals) && AllBooks(cfg, stakes, flows, seconds)
  }

  ghost predicate AllBooks(cfg: Config, stakes: Stakes, flows: map<Asset, Flow>, seconds: nat) {
    forall x | x in flows :: FlowBooks(cfg, stakes, flows[x], seconds)
  }

  /** The powered totals are exact. */
  ghost predicate Exact(s: State) {
    PoweredOk(s.cfg, s.stakes, s.totals)
  }

  ghost predicate AllSolvent(cfg: Config, stakes: Stakes, flows: map<Asset, Flow>) {
    forall x | x in flows :: Solvent(cfg, stakes, flows[x])
  }

  /** Every flow is solvent, whatever the stored totals are. */
  ghost predicate Backed(s: State) {
    AllSolvent(s.cfg, s.stakes, s.flows)
  }

  /** Staked tokens are conserved: held is staked plus unbonding, unbonding is the open claims, and
      staked is all stakes plus what mass-bonds sent beyond their delegations. */
  ghost predicate TokensConserved(s: State) {
    && s.lpHeld == s.token.staked + s.token.unbonding
    && s.token.unbonding == Sum(s.claims.Keys, ClaimAt(s.claims))
    && s.token.staked == StakedSum(s.totals) + s.undelegated
  }

  /** The step from `s` to `t` kept the ledgers and the tokens, and exactness and solvency if there
      were any. */
  ghost predicate Keeps(s: State, t: State, seconds: nat) {
    && Ledgers(t, seconds) && TokensConserved(t)
    && (Exact(s) ==> Exact(t))
    && (Backed(s) ==> Backed(t))
  }

  ghost predicate Books(s: State) {
    Ledgers(s, s.clock / NANOS) && TokensConserved(s)
  }

  ghost predicate Good(s: State) {
    Books(s) && Exact(s) && Backed(s)
  }

  // ---- time ----

  lemma LedgersLater(s: State, seconds: nat, later: nat)
    requires Ledgers(s, seconds) && seconds <= later
    ensures Ledgers(s, later)
  {
    forall x | x in s.flows ensures FlowBooks(s.cfg, s.stakes, s.flows[x], later) {
      DistributableIsNat(s.cfg, s.stakes, s.flows[x], seconds, later);
    }
  }

  // ---- moving one staker's bonds ----

  lemma PutMoves(cfg: Config, stakes: Stakes, a: Addr, period: nat, b: Bond)
    requires StakesMatch(cfg, stakes) && period in cfg.periods
    ensures OnlyMoved(stakes, PutBond(cfg, stakes, a, period, b), a)
  {
    HoldersAfterPut(cfg, stakes, a, period, b);
  }

  lemma RestakeKeeps(s: State, seconds: nat, stakes: Stakes, totals: seq<TotalStake>, a: Addr)
    requires Ledgers(s, seconds) && StakesMatch(s.cfg, stakes) && OnlyMoved(s.stakes, stakes, a)
    requires |totals| == |s.totals| && StakedOk(s.cfg, stakes, totals)
    ensures Ledgers(Restake(s, stakes, totals, a), seconds)
    ensures Exact(s) && PoweredOk(s.cfg, stakes, totals) ==> Exact(Restake(s, stakes, totals, a))
    ensures Backed(s) ==> Backed(Restake(s, stakes, totals, a))
  {
    forall x | x in s.flows
      ensures var g := Recorrect(s.cfg, s.stakes, stakes, s.flows[x], a);
            FlowBooks(s.cfg, stakes, g, seconds) && (Solvent(s.cfg, s.stakes, s.flows[x]) ==> Solvent(s.cfg, stakes, g))
    {
      CorrectKeepsFlow(s.cfg, s.stakes, stakes, s.flows[x], a, seconds);
    }
  }

  lemma {:induction false} StakedSumUpdate(totals: seq<TotalStake>, i: nat, t: TotalStake)
    requires i < |totals|
    ensures StakedSum(totals[i := t]) == StakedSum(totals) - totals[i].staked + t.staked
  {
    var n := |totals| - 1;
    if i == n {
      assert totals[i := t][..n] == totals[..n];
    } else {
      assert totals[i := t][..n] == totals[..n][i := t];
      StakedSumUpdate(totals[..n], i, t);
    }
  }

  lemma {:induction false} StakedSumDominates(totals: seq<TotalStake>, i: nat)
    requires i < |totals|
    ensures totals[i].staked <= StakedSum(totals)
  {
    var n := |totals| - 1;
    if i < n {
      StakedSumDominates(totals[..n], i);
    }
  }

  /** The powered total can take a stake moving from `o` to `n`. */
  predicate PoweredFits(cfg: Config, t: TotalStake, o: nat, n: nat) {
    Powered(cfg, o) <= t.powered + Powered(cfg, n)
  }

  /** That is all an update needs: the staked total, being exact, never underflows. */
  lemma UpdateFits(cfg: Config, stakes: Stakes, totals: seq<TotalStake>, a: Addr, i: nat, n: nat)
    requires i < |cfg.periods| && StakedOk(cfg, stakes, totals)
    ensures var o := StakeIn(stakes, a, cfg.periods[i]);
            UpdateTotals(cfg, totals, i, o, n).Ok? <==> PoweredFits(cfg, totals[i], o, n)
  {
    StakeWithinTotal(cfg, stakes, a, cfg.periods[i]);
    UpdateTotalMeaning(cfg, totals[i], StakeIn(stakes, a, cfg.periods[i]), n);
  }

  /** The totals after one bond changes. */
  lemma MoveBondTotals(cfg: Config, stakes: Stakes, totals: seq<TotalStake>, a: Addr, i: nat, b: Bond)
    requires StakesMatch(cfg, stakes) && i < |cfg.periods| && StakedOk(cfg, stakes, totals)
    ensures var p := cfg.periods[i]; var after := PutBond(cfg, stakes, a, p, b);
            var r := UpdateTotals(cfg, totals, i, StakeIn(stakes, a, p), Total(b));
            && OnlyMoved(stakes, after, a)
            && (r.Ok? <==> PoweredFits(cfg, totals[i], StakeIn(stakes, a, p), Total(b)))
            && (PoweredOk(cfg, stakes, totals) ==> r.Ok? && PoweredOk(cfg, after, r.value))
            && (r.Ok? ==>
                  && StakedOk(cfg, after, r.value)
                  && StakedSum(r.value) == StakedSum(totals) - StakeIn(stakes, a, p) + Total(b))
  {
    var p := cfg.periods[i];
    PutBondKeepsTotals(cfg, stakes, totals, a, i, b);
    UpdateFits(cfg, stakes, totals, a, i, Total(b));
    PutMoves(cfg, stakes, a, p, b);
    UpdateTotalMeaning(cfg, totals[i], StakeIn(stakes, a, p), Total(b));
    var r := UpdateTotal(cfg, totals[i], StakeIn(stakes, a, p), Total(b));
    if r.Ok? {
      StakedSumUpdate(totals, i, r.value);
    }
  }

  /** `t` is `s` after bonds, totals and corrections moved by `change` tokens, and before the token
      counters are brought up to date. */
  ghost predicate Moved(s: State, t: State, seconds: nat, change: int) {
    && t == s.(stakes := t.stakes, totals := t.totals, flows := t.flows)
    && Ledgers(t, seconds) && (Exact(s) ==> Exact(t)) && (Backed(s) ==> Backed(t))
    && StakedSum(t.totals) == StakedSum(s.totals) + change
  }

  lemma RestakeMoves(s: State, seconds: nat, stakes: Stakes, totals: seq<TotalStake>, a: Addr)
    requires Ledgers(s, seconds) && StakesMatch(s.cfg, stakes) && OnlyMoved(s.stakes, stakes, a)
    requires |totals| == |s.totals| && StakedOk(s.cfg, stakes, totals)
    requires Exact(s) ==> PoweredOk(s.cfg, stakes, totals)
    ensures Moved(s, Restake(s, stakes, totals, a), seconds, StakedSum(totals) - StakedSum(s.totals))
  {
    RestakeKeeps(s, seconds, stakes, totals, a);
  }

  /** Changing one bond keeps the ledgers and solvency, moves the staked sum by the change, and fails
      exactly where the powered total is too small; with exact totals it neither fails nor loses
      exactness. */
  lemma MoveBondKeeps(s: State, seconds: nat, i: nat, a: Addr, b: Bond)
    requires i < |s.cfg.periods| && Ledgers(s, seconds)
    ensures var r := MoveBond(s, i, a, b);
            && (Exact(s) ==> r.Ok?)
            && (r.Ok? <==> PoweredFits(s.cfg, s.totals[i], StakeIn(s.stakes, a, s.cfg.periods[i]), Total(b)))
            && (r.Ok? ==> Moved(s, r.value, seconds, Total(b) - StakeIn(s.stakes, a, s.cfg.periods[i])))
  {
    var p := s.cfg.periods[i];
    MoveBondTotals(s.cfg, s.stakes, s.totals, a, i, b);
    var r := UpdateTotals(s.cfg, s.totals, i, StakeIn(s.stakes, a, p), Total(b));
    if r.Ok? {
      var after := PutBond(s.cfg, s.stakes, a, p, b);
      RestakeMoves(s, seconds, after, r.value, a);
      assert MoveBond(s, i, a, b) == Ok(Restake(s, after, r.value, a));
    }
  }

  /** The totals after two bonds of one staker change. */
  lemma MoveBondsTotals(cfg: Config, stakes: Stakes, totals: seq<TotalStake>, a: Addr, i: nat, b: Bond, j: nat, c: Bond)
    requires StakesMatch(cfg, stakes) && i < |cfg.periods| && j < |cfg.periods| && i != j
             && StakedOk(cfg, stakes, totals)
    ensures var p, q := cfg.periods[i], cfg.periods[j];
            var after := PutBond(cfg, PutBond(cfg, stakes, a, p, b), a, q, c);
            var t := UpdateTotals(cfg, totals, i, StakeIn(stakes, a, p), Total(b));
            && OnlyMoved(stakes, after, a)
            && (PoweredOk(cfg, stakes, totals) ==> t.Ok?)
            && (t.Ok? <==> PoweredFits(cfg, totals[i], StakeIn(stakes, a, p), Total(b)))
            && (t.Ok? ==>
                  var u := UpdateTotals(cfg, t.value, j, StakeIn(stakes, a, q), Total(c));
                  && (u.Ok? <==> PoweredFits(cfg, totals[j], StakeIn(stakes, a, q), Total(c)))
                  && (PoweredOk(cfg, stakes, totals) ==> u.Ok? && PoweredOk(cfg, after, u.value))
                  && (u.Ok? ==>
                        && StakedOk(cfg, after, u.value)
                        && StakedSum(u.value) == StakedSum(totals) - StakeIn(stakes, a, p) + Total(b)
                                                 - StakeIn(stakes, a, q) + Total(c)))
  {
    var p, q := cfg.periods[i], cfg.periods[j];
    var mid := PutBond(cfg, stakes, a, p, b);
    MoveBondTotals(cfg, stakes, totals, a, i, b);
    DistinctPeriods(cfg, i, j);
    assert StakeIn(mid, a, q) == StakeIn(stakes, a, q);
    PutMoves(cfg, mid, a, q, c);
    var t := UpdateTotals(cfg, totals, i, StakeIn(stakes, a, p), Total(b));
    if t.Ok? {
      MoveBondTotals(cfg, mid, t.value, a, j, c);
    }
  }

  /** The same for two bonds of one staker changed together. */
  lemma MoveBondsKeeps(s: State, seconds: nat, a: Addr, i: nat, b: Bond, j: nat, c: Bond)
    requires i < |s.cfg.periods| && j < |s.cfg.periods| && i != j && Ledgers(s, seconds)
    ensures var r := MoveBonds(s, a, i, b, j, c);
            && (Exact(s) ==> r.Ok?)
            && (r.Ok? <==> PoweredFits(s.cfg, s.totals[i], StakeIn(s.stakes, a, s.cfg.periods[i]), Total(b))
                           && PoweredFits(s.cfg, s.totals[j], StakeIn(s.stakes, a, s.cfg.periods[j]), Total(c)))
            && (r.Ok? ==> Moved(s, r.value, seconds, Total(b) - StakeIn(s.stakes, a, s.cfg.periods[i])
                                                     + Total(c) - StakeIn(s.stakes, a, s.cfg.periods[j])))
  {
    MoveBondsTotals(s.cfg, s.stakes, s.totals, a, i, b, j, c);
    var r := MoveBonds(s, a, i, b, j, c);
    if r.Ok? {
      RestakeMoves(s, seconds, r.value.stakes, r.value.totals, a);
    }
  }

  // ---- bond ----

  lemma {:induction false} BondEachKeeps(s: State, seconds: nat, i: nat, ds: seq<Delegation>)
    requires i < |s.cfg.periods| && Ledgers(s, seconds)
    ensures var r := BondEach(s, i, ds); r.Ok? && Moved(s, r.value, seconds, DelegatedSum(ds))
  {
    if ds != [] {
      var front, d := ds[..|ds| - 1], ds[|ds| - 1];
      BondEachKeeps(s, seconds, i, front);
      var m := BondEach(s, i, front).value;
      MoveBondKeeps(m, seconds, i, d.to, AddUnlocked(BondOf(m.stakes, d.to, s.cfg.periods[i]), d.amount));
    }
  }

  /** Bonding in the name of any list of stakers keeps the books and, whatever the powered totals are,
      succeeds unless one of its checks fails. What is sent beyond the delegations is staked for nobody. */
  lemma MassBondKeeps(s: State, seconds: nat, cw20: Addr, sent: nat, period: nat, ds: seq<Delegation>)
    requires Ledgers(s, seconds) && TokensConserved(s)
    ensures var r := MassBond(s, cw20, sent, period, ds);
            r.Ok? ==>
              && Keeps(s, r.value, seconds)
              && StakedSum(r.value.totals) == StakedSum(s.totals) + DelegatedSum(ds)
              && r.value.undelegated == s.undelegated + (sent - DelegatedSum(ds))
    ensures var r := MassBond(s, cw20, sent, period, ds);
            r.Ok? <==> !s.unbondAll && cw20 == s.cfg.cw20 && period in s.cfg.periods && DelegatedSum(ds) <= sent
  {
    match FindPeriod(s.cfg.periods, period)
    case None =>
    case Some(i) => BondEachKeeps(s, seconds, i, ds);
  }

  // ---- when the powered total covers a release ----

  /** Taking `amount` off the stake takes no more off the powered total of the period than it holds. */
  predicate TotalCovers(s: State, a: Addr, period: nat, amount: nat) {
    match FindPeriod(s.cfg.periods, period)
    case None => false
    case Some(i) =>
      var o := StakeIn(s.stakes, a, period);
      amount <= o && PoweredFits(s.cfg, s.totals[i], o, o - amount)
  }

  /** An exact powered total covers everybody's stake. */
  lemma ExactCovers(s: State, a: Addr, period: nat, amount: nat)
    requires Exact(s) && period in s.cfg.periods && amount <= StakeIn(s.stakes, a, period)
    ensures TotalCovers(s, a, period, amount)
  {
    StakeWithinTotal(s.cfg, s.stakes, a, period);
  }

  // ---- rebond ----

  /** When rebonding is allowed: what a caller can check beforehand. */
  predicate MayRebond(s: State, now: nat, a: Addr, amount: nat, bondFrom: nat, bondTo: nat) {
    && !s.unbondAll && amount > 0 && bondFrom != bondTo
    && bondFrom in s.cfg.periods && bondTo in s.cfg.periods
    && amount <= FreeUnlocked(BondOf(s.stakes, a, bondFrom), now).stake
  }

  lemma RaisedTotal(b: Bond, now: nat, amount: nat, bondFrom: nat, bondTo: nat)
    ensures Total(Raised(b, now, amount, bondFrom, bondTo)) == Total(b) + amount
  {
    if bondFrom > bondTo {
      InsertCounts(b.locked, Lock(now + (bondFrom - bondTo) * NANOS, amount), 0);
    }
  }

  lemma MovedKeeps(s: State, t: State, seconds: nat)
    requires TokensConserved(s) && Moved(s, t, seconds, 0)
    ensures Keeps(s, t, seconds)
  {
  }

  /** Adding to a stake never takes from the powered total. */
  lemma RaisedFits(s: State, j: nat, b: Bond, now: nat, amount: nat, bondFrom: nat, bondTo: nat)
    requires j < |s.totals|
    ensures PoweredFits(s.cfg, s.totals[j], Total(b), Total(Raised(b, now, amount, bondFrom, bondTo)))
  {
    RaisedTotal(b, now, amount, bondFrom, bondTo);
  }

  /** The two bonds of an allowed rebond. */
  lemma RebondMoves(s: State, seconds: nat, now: nat, a: Addr, amount: nat, i: nat, j: nat, reduced: Bond)
    requires i < |s.cfg.periods| && j < |s.cfg.periods| && i != j && Ledgers(s, seconds)
    requires Release(BondOf(s.stakes, a, s.cfg.periods[i]), now, amount) == Ok(reduced)
    ensures var p, q := s.cfg.periods[i], s.cfg.periods[j];
            var r := MoveBonds(s, a, i, reduced, j, Raised(BondOf(s.stakes, a, q), now, amount, p, q));
            && (r.Ok? <==> PoweredFits(s.cfg, s.totals[i], StakeIn(s.stakes, a, p), Total(reduced)))
            && (r.Ok? ==> Moved(s, r.value, seconds, 0))
  {
    var p, q := s.cfg.periods[i], s.cfg.periods[j];
    var raised := Raised(BondOf(s.stakes, a, q), now, amount, p, q);
    MoveBondsKeeps(s, seconds, a, i, reduced, j, raised);
    RaisedFits(s, j, BondOf(s.stakes, a, q), now, amount, p, q);
    ReleaseMeaning(BondOf(s.stakes, a, p), now, amount);
    RaisedTotal(BondOf(s.stakes, a, q), now, amount, p, q);
  }

  /** The condition for a rebond in its own terms. */
  lemma ReleaseCovers(s: State, now: nat, a: Addr, amount: nat, period: nat, i: nat)
    requires FindPeriod(s.cfg.periods, period) == Some(i)
    ensures var r := Release(BondOf(s.stakes, a, period), now, amount);
            && (r.Ok? <==> amount <= FreeUnlocked(BondOf(s.stakes, a, period), now).stake)
            && (r.Ok? ==>
                  && amount <= StakeIn(s.stakes, a, period)
                  && (TotalCovers(s, a, period, amount)
                      <==> PoweredFits(s.cfg, s.totals[i], StakeIn(s.stakes, a, period), Total(r.value))))
  {
    ReleaseMeaning(BondOf(s.stakes, a, period), now, amount);
  }

  /** Rebonding keeps the books; it succeeds exactly when it is allowed and the powered total of the
      period it leaves covers it, as exact totals always do. */
  lemma RebondKeeps(s: State, seconds: nat, now: nat, a: Addr, amount: nat, bondFrom: nat, bondTo: nat)
    requires Ledgers(s, seconds) && TokensConserved(s)
    ensures var r := Rebond(s, now, a, amount, bondFrom, bondTo); r.Ok? ==> Keeps(s, r.value, seconds)
    ensures Rebond(s, now, a, amount, bondFrom, bondTo).Ok?
            <==> MayRebond(s, now, a, amount, bondFrom, bondTo) && TotalCovers(s, a, bondFrom, amount)
    ensures Exact(s) && MayRebond(s, now, a, amount, bondFrom, bondTo) ==> TotalCovers(s, a, bondFrom, amount)
  {
    match (FindPeriod(s.cfg.periods, bondFrom), FindPeriod(s.cfg.periods, bondTo)) {
      case (Some(i), Some(j)) =>
        ReleaseCovers(s, now, a, amount, bondFrom, i);
        if Exact(s) && amount <= StakeIn(s.stakes, a, bondFrom) {
          ExactCovers(s, a, bondFrom, amount);
        }
        if bondFrom != bondTo && !s.unbondAll && amount > 0 {
          RebondFound(s, seconds, now, a, amount, i, j);
        }
      case _ =>
    }
  }

  lemma RebondFound(s: State, seconds: nat, now: nat, a: Addr, amount: nat, i: nat, j: nat)
    requires Ledgers(s, seconds) && TokensConserved(s) && amount > 0 && !s.unbondAll
    requires i < |s.cfg.periods| && j < |s.cfg.periods| && i != j
    requires FindPeriod(s.cfg.periods, s.cfg.periods[i]) == Some(i)
    requires FindPeriod(s.cfg.periods, s.cfg.periods[j]) == Some(j)
    ensures var p, q := s.cfg.periods[i], s.cfg.periods[j];
            var rel, r := Release(BondOf(s.stakes, a, p), now, amount), Rebond(s, now, a, amount, p, q);
            && (r.Ok? <==>
                rel.Ok? && PoweredFits(s.cfg, s.totals[i], StakeIn(s.stakes, a, p), Total(rel.value)))
            && (r.Ok? ==> Keeps(s, r.value, seconds))
  {
    var p, q := s.cfg.periods[i], s.cfg.periods[j];
    DistinctPeriods(s.cfg, i, j);
    var rel := Release(BondOf(s.stakes, a, p), now, amount);
    if rel.Ok? {
      RebondMoves(s, seconds, now, a, amount, i, j, rel.value);
      var r := Rebond(s, now, a, amount, p, q);
      if r.Ok? {
        MovedKeeps(s, r.value, seconds);
      }
    }
  }

  // ---- unbond, migrate, claim ----

  predicate MayRelease(s: State, now: nat, a: Addr, period: nat, amount: nat) {
    period in s.cfg.periods && amount <= FreeUnlocked(BondOf(s.stakes, a, period), now).stake
  }

  /** Removing stake takes exactly the amount from the staked sum; it succeeds exactly when the amount
      is unlocked and the powered total covers it, as exact totals always do. */
  lemma RemoveStakeKeeps(s: State, seconds: nat, now: nat, a: Addr, period: nat, amount: nat)
    requires Ledgers(s, seconds)
    ensures var r := RemoveStake(s, now, a, period, amount);
            r.Ok? ==> amount <= StakedSum(s.totals) && Moved(s, r.value, seconds, -(amount as int))
    ensures RemoveStake(s, now, a, period, amount).Ok?
            <==> MayRelease(s, now, a, period, amount) && TotalCovers(s, a, period, amount)
    ensures Exact(s) && MayRelease(s, now, a, period, amount) ==> TotalCovers(s, a, period, amount)
  {
    match FindPeriod(s.cfg.periods, period)
    case None =>
    case Some(i) =>
      var bond := BondOf(s.stakes, a, period);
      ReleaseMeaning(bond, now, amount);
      var rel := Release(bond, now, amount);
      if rel.Ok? {
        MoveBondKeeps(s, seconds, i, a, rel.value);
        StakeWithinTotal(s.cfg, s.stakes, a, period);
        StakedSumDominates(s.totals, i);
        if Exact(s) {
          ExactCovers(s, a, period, amount);
        }
      }
  }

  lemma {:induction false} ClaimSumAppend(claims: seq<Claim>, c: Claim)
    ensures ClaimSum(claims + [c]) == ClaimSum(claims) + c.amount
  {
    assert (claims + [c])[..|claims + [c]| - 1] == claims;
  }

  /** Replacing one staker's claims moves the sum of all claims by the difference. */
  lemma ClaimsUpdate(claims: map<Addr, seq<Claim>>, a: Addr, cs: seq<Claim>)
    ensures var after := claims[a := cs];
            Sum(after.Keys, ClaimAt(after))
            == Sum(claims.Keys, ClaimAt(claims)) - ClaimSum(ClaimsOf(claims, a)) + ClaimSum(cs)
  {
    var after := claims[a := cs];
    assert after.Keys == claims.Keys + {a};
    SumUpdate(claims.Keys, a, ClaimAt(claims), ClaimAt(after));
  }

  lemma ClaimsWithinUnbonding(claims: map<Addr, seq<Claim>>, a: Addr)
    ensures ClaimSum(ClaimsOf(claims, a)) <= Sum(claims.Keys, ClaimAt(claims))
  {
    if a in claims {
      SumDominates(claims.Keys, ClaimAt(claims), a);
    } else {
      SumNonNegative(claims.Keys, ClaimAt(claims));
    }
  }

  lemma {:induction false} WaitingConserves(claims: seq<Claim>, t: nat)
    ensures Matured(claims, t) + ClaimSum(Waiting(claims, t)) == ClaimSum(claims)
  {
    if claims != [] {
      var front, last := claims[..|claims| - 1], claims[|claims| - 1];
      WaitingConserves(front, t);
      if last.releaseAt > t {
        ClaimSumAppend(Waiting(front, t), last);
      }
    }
  }

  /** Sending removed tokens out at once: the token never refuses, and nothing clips. */
  lemma SentAtOnce(s: State, t: State, seconds: nat, to: Addr, amount: nat)
    requires TokensConserved(s) && amount <= StakedSum(s.totals) && Moved(s, t, seconds, -(amount as int))
    ensures var r := Migrated(t, to, amount);
            r.Ok? && Keeps(s, r.value, seconds) && r.value.token.staked == s.token.staked - amount
  {
  }

  /** Turning removed tokens into a claim. */
  lemma ClaimedLater(s: State, t: State, seconds: nat, a: Addr, amount: nat, c: Claim)
    requires TokensConserved(s) && amount <= StakedSum(s.totals) && Moved(s, t, seconds, -(amount as int))
             && c.amount == amount
    ensures var u := t.(token := TokenInfo(SaturatingMinus(t.token.staked, amount), t.token.unbonding + amount),
                        claims := t.claims[a := ClaimsOf(t.claims, a) + [c]]);
            Keeps(s, u, seconds) && u.token.staked == s.token.staked - amount
  {
    ClaimSumAppend(ClaimsOf(s.claims, a), c);
    ClaimsUpdate(s.claims, a, ClaimsOf(s.claims, a) + [c]);
  }

  lemma UnbondedKeeps(s: State, t: State, seconds: nat, now: nat, a: Addr, amount: nat, period: nat)
    requires TokensConserved(s) && amount <= StakedSum(s.totals) && Moved(s, t, seconds, -(amount as int))
    ensures var r := Unbonded(t, now, a, amount, period);
            r.Ok? && Keeps(s, r.value, seconds) && r.value.token.staked == s.token.staked - amount
  {
    if t.unbondAll {
      SentAtOnce(s, t, seconds, a, amount);
    } else {
      ClaimedLater(s, t, seconds, a, amount, Claim(amount, now + period * NANOS));
    }
  }

  /** Unbonding keeps the books and the saturating subtraction never clips; it succeeds exactly when the
      amount is unlocked in an existing period and the powered total covers it. */
  lemma UnbondKeeps(s: State, seconds: nat, now: nat, a: Addr, amount: nat, period: nat)
    requires Ledgers(s, seconds) && TokensConserved(s)
    ensures var r := Unbond(s, now, a, amount, period);
            r.Ok? ==> Keeps(s, r.value, seconds) && r.value.token.staked == s.token.staked - amount
    ensures Unbond(s, now, a, amount, period).Ok?
            <==> MayRelease(s, now, a, period, amount) && TotalCovers(s, a, period, amount)
    ensures Exact(s) && MayRelease(s, now, a, period, amount) ==> TotalCovers(s, a, period, amount)
  {
    RemoveStakeKeeps(s, seconds, now, a, period, amount);
    var removed := RemoveStake(s, now, a, period, amount);
    if removed.Ok? {
      UnbondedKeeps(s, removed.value, seconds, now, a, amount, period);
    }
  }

  /** Migrating sends the stake to the converter, and succeeds exactly when one is configured, the amount
      is unlocked in an existing period and the powered total covers it. */
  lemma MigrateKeeps(s: State, seconds: nat, now: nat, a: Addr, amount: nat, period: nat)
    requires Ledgers(s, seconds) && TokensConserved(s)
    ensures var r := MigrateStake(s, now, a, amount, period);
            r.Ok? ==> Keeps(s, r.value, seconds) && r.value.token.staked == s.token.staked - amount
    ensures MigrateStake(s, now, a, amount, period).Ok?
            <==> s.cfg.converter.Some? && MayRelease(s, now, a, period, amount) && TotalCovers(s, a, period, amount)
    ensures Exact(s) && MayRelease(s, now, a, period, amount) ==> TotalCovers(s, a, period, amount)
  {
    RemoveStakeKeeps(s, seconds, now, a, period, amount);
    var removed := RemoveStake(s, now, a, period, amount);
    if removed.Ok? && s.cfg.converter.Some? {
      SentAtOnce(s, removed.value, seconds, s.cfg.converter.value, amount);
    }
  }

  /** Dropping the matured claims takes exactly their sum from the sum of all claims. */
  lemma MaturedLeaves(claims: map<Addr, seq<Claim>>, now: nat, a: Addr)
    ensures var release := Matured(ClaimsOf(claims, a), now);
            var after := claims[a := Waiting(ClaimsOf(claims, a), now)];
            && release <= Sum(claims.Keys, ClaimAt(claims))
            && Sum(after.Keys, ClaimAt(after)) == Sum(claims.Keys, ClaimAt(claims)) - release
  {
    WaitingConserves(ClaimsOf(claims, a), now);
    ClaimsWithinUnbonding(claims, a);
    ClaimsUpdate(claims, a, Waiting(ClaimsOf(claims, a), now));
  }

  /** Claiming pays exactly the matured claims; the saturating subtraction never clips, and it fails
      only when nothing has matured. */
  lemma ClaimKeeps(s: State, seconds: nat, now: nat, a: Addr)
    requires Ledgers(s, seconds) && TokensConserved(s)
    ensures var r := ClaimMatured(s, now, a); var release := Matured(ClaimsOf(s.claims, a), now);
            r.Ok? ==>
              && Keeps(s, r.value, seconds)
              && r.value.token.unbonding == s.token.unbonding - release
              && SentTo(r.value.sent, a) == SentTo(s.sent, a) + release
    ensures ClaimMatured(s, now, a).Ok? <==> Matured(ClaimsOf(s.claims, a), now) > 0
  {
    MaturedLeaves(s.claims, now, a);
  }
}
