/** No sequence of rebonds lets a staker leave early: what can have been paid out by a deadline
    never grows, except by bonding more. */
module StakeExit {
  import opened Results
  import opened FixedPoint
  import opened Bonding
  import opened StakeState
  import opened StakeTotals
  import opened StakeQuickUnbond
  import opened StakeRuns

  /** The tokens of a bond that can be unbonded, and their claim mature, by `deadline`, starting now. */
  function ExitBy(b: Bond, period: nat, now: nat, deadline: nat): nat {
    if now + period * NANOS <= deadline then b.stake + FreeBy(b.locked, deadline - period * NANOS) else 0
  }

  function ExitAcross(stakes: Stakes, a: Addr, periods: seq<nat>, now: nat, deadline: nat): nat {
    if periods == [] then 0
    else
      var n := |periods| - 1;
      ExitAcross(stakes, a, periods[..n], now, deadline)
          + ExitBy(BondOf(stakes, a, periods[n]), periods[n], now, deadline)
  }

  /** Everything a staker can hold by the deadline without bonding more: what was already paid, the
      claims maturing by then, and the bonds that can still leave in time. */
  function Reach(s: State, a: Addr, now: nat, deadline: nat): nat {
    SentTo(s.sent, a) + Matured(ClaimsOf(s.claims, a), deadline) + ExitAcross(s.stakes, a, s.cfg.periods, now, deadline)
  }

  // ---- one bond replaced ----

  lemma {:induction false} ExitIgnoresOthers(stakes: Stakes, after: Stakes, a: Addr, periods: seq<nat>, now: nat,
                                             deadline: nat)
    requires forall i | 0 <= i < |periods| :: BondOf(after, a, periods[i]) == BondOf(stakes, a, periods[i])
    ensures ExitAcross(after, a, periods, now, deadline) == ExitAcross(stakes, a, periods, now, deadline)
  {
    if periods != [] {
      ExitIgnoresOthers(stakes, after, a, periods[..|periods| - 1], now, deadline);
    }
  }

  lemma {:induction false} ExitAfterPutUpTo(cfg: Config, stakes: Stakes, a: Addr, i: nat, b: Bond, now: nat,
                                            deadline: nat, n: nat)
    requires StakesMatch(cfg, stakes) && i < n <= |cfg.periods|
    ensures var p := cfg.periods[i];
            ExitAcross(PutBond(cfg, stakes, a, p, b), a, cfg.periods[..n], now, deadline) ==
            ExitAcross(stakes, a, cfg.periods[..n], now, deadline)
              - ExitBy(BondOf(stakes, a, p), p, now, deadline) + ExitBy(b, p, now, deadline)
  {
    var after := PutBond(cfg, stakes, a, cfg.periods[i], b);
    assert cfg.periods[..n][..n - 1] == cfg.periods[..n - 1];
    if i == n - 1 {
      forall j | 0 <= j < n - 1 ensures BondOf(after, a, cfg.periods[j]) == BondOf(stakes, a, cfg.periods[j]) {
        DistinctPeriods(cfg, i, j);
      }
      ExitIgnoresOthers(stakes, after, a, cfg.periods[..n - 1], now, deadline);
    } else {
      DistinctPeriods(cfg, i, n - 1);
      ExitAfterPutUpTo(cfg, stakes, a, i, b, now, deadline, n - 1);
    }
  }

  lemma ExitAfterPut(cfg: Config, stakes: Stakes, a: Addr, i: nat, b: Bond, now: nat, deadline: nat)
    requires StakesMatch(cfg, stakes) && i < |cfg.periods|
    ensures var p := cfg.periods[i];
            ExitAcross(PutBond(cfg, stakes, a, p, b), a, cfg.periods, now, deadline) ==
            ExitAcross(stakes, a, cfg.periods, now, deadline)
              - ExitBy(BondOf(stakes, a, p), p, now, deadline) + ExitBy(b, p, now, deadline)
  {
    assert cfg.periods[..|cfg.periods|] == cfg.periods;
    ExitAfterPutUpTo(cfg, stakes, a, i, b, now, deadline, |cfg.periods|);
  }

  /** A release takes its amount from exactly the deadlines by which it could have left. */
  lemma ReleaseExit(b: Bond, period: nat, now: nat, amount: nat, deadline: nat)
    requires Release(b, now, amount).Ok?
    ensures ExitBy(Release(b, now, amount).value, period, now, deadline) ==
            ExitBy(b, period, now, deadline) - (if now + period * NANOS <= deadline then amount else 0)
  {
    ReleaseMeaning(b, now, amount);
  }

  /** A rebonded amount can leave from its new period exactly as late as the longer of the two
      periods allows, counted from now. */
  lemma RaisedExit(b: Bond, now: nat, amount: nat, bondFrom: nat, bondTo: nat, deadline: nat)
    ensures var longer := if bondFrom > bondTo then bondFrom else bondTo;
            ExitBy(Raised(b, now, amount, bondFrom, bondTo), bondTo, now, deadline) ==
            ExitBy(b, bondTo, now, deadline) + (if now + longer * NANOS <= deadline then amount else 0)
  {
    if bondFrom > bondTo {
      assert bondFrom * NANOS == bondTo * NANOS + (bondFrom - bondTo) * NANOS;
      if now + bondTo * NANOS <= deadline {
        InsertCounts(b.locked, Lock(now + (bondFrom - bondTo) * NANOS, amount), deadline - bondTo * NANOS);
      }
    }
  }

  /** Rebonding exactly: the amount stops being able to leave by the deadlines between the old and
      the longer period, and nothing else changes. */
  lemma RebondReach(s: State, now: nat, a: Addr, amount: nat, bondFrom: nat, bondTo: nat, deadline: nat)
    requires Rebond(s, now, a, amount, bondFrom, bondTo).Ok?
    ensures var t := Rebond(s, now, a, amount, bondFrom, bondTo).value;
            var longer := if bondFrom > bondTo then bondFrom else bondTo;
            Reach(t, a, now, deadline) == Reach(s, a, now, deadline)
              - (if now + bondFrom * NANOS <= deadline < now + longer * NANOS then amount else 0)
  {
    var i, j := FindPeriod(s.cfg.periods, bondFrom).value, FindPeriod(s.cfg.periods, bondTo).value;
    var bond := BondOf(s.stakes, a, bondFrom);
    var reduced := Release(bond, now, amount).value;
    var raised := Raised(BondOf(s.stakes, a, bondTo), now, amount, bondFrom, bondTo);
    ReleaseExit(bond, bondFrom, now, amount, deadline);
    RaisedExit(BondOf(s.stakes, a, bondTo), now, amount, bondFrom, bondTo, deadline);
    var mid := PutBond(s.cfg, s.stakes, a, bondFrom, reduced);
    ExitAfterPut(s.cfg, s.stakes, a, i, reduced, now, deadline);
    ExitAfterPut(s.cfg, mid, a, j, raised, now, deadline);
    assert BondOf(mid, a, bondTo) == BondOf(s.stakes, a, bondTo);
  }

  // ---- every message ----

  lemma {:induction false} MaturedAppend(claims: seq<Claim>, c: Claim, t: nat)
    ensures Matured(claims + [c], t) == Matured(claims, t) + (if c.releaseAt <= t then c.amount else 0)
  {
    assert (claims + [c])[..|claims + [c]| - 1] == claims;
  }

  /** Claiming now and keeping the rest loses nothing of what matures later. */
  lemma {:induction false} MaturedSplits(claims: seq<Claim>, now: nat, t: nat)
    requires now <= t
    ensures Matured(claims, now) + Matured(Waiting(claims, now), t) == Matured(claims, t)
  {
    if claims != [] {
      var n := |claims| - 1;
      MaturedSplits(claims[..n], now, t);
      if claims[n].releaseAt > now {
        MaturedAppend(Waiting(claims[..n], now), claims[n], t);
      }
    }
  }

  lemma {:induction false} ExitShrinks(stakes: Stakes, a: Addr, periods: seq<nat>, now: nat, later: nat, deadline: nat)
    requires now <= later
    ensures ExitAcross(stakes, a, periods, later, deadline) <= ExitAcross(stakes, a, periods, now, deadline)
  {
    if periods != [] {
      ExitShrinks(stakes, a, periods[..|periods| - 1], now, later, deadline);
    }
  }

  /** Unbonding turns stake that could leave by the deadline into a claim that matures by it. */
  lemma UnbondReach(s: State, now: nat, a: Addr, amount: nat, period: nat, deadline: nat)
    requires !s.unbondAll && Unbond(s, now, a, amount, period).Ok?
    ensures Reach(Unbond(s, now, a, amount, period).value, a, now, deadline) == Reach(s, a, now, deadline)
  {
    var i := FindPeriod(s.cfg.periods, period).value;
    var bond := BondOf(s.stakes, a, period);
    var reduced := Release(bond, now, amount).value;
    ReleaseExit(bond, period, now, amount, deadline);
    ExitAfterPut(s.cfg, s.stakes, a, i, reduced, now, deadline);
    MaturedAppend(ClaimsOf(s.claims, a), Claim(amount, now + period * NANOS), deadline);
    UnbondLeaves(s, now, a, amount, period, reduced);
  }

  /** What of the storage an unbond leaves behind for its staker. */
  lemma UnbondLeaves(s: State, now: nat, a: Addr, amount: nat, period: nat, reduced: Bond)
    requires !s.unbondAll && Unbond(s, now, a, amount, period).Ok?
    requires Release(BondOf(s.stakes, a, period), now, amount) == Ok(reduced)
    ensures period in s.cfg.periods
    ensures var t := Unbond(s, now, a, amount, period).value;
            && t.cfg == s.cfg && t.sent == s.sent && t.stakes == PutBond(s.cfg, s.stakes, a, period, reduced)
            && ClaimsOf(t.claims, a) == ClaimsOf(s.claims, a) + [Claim(amount, now + period * NANOS)]
  {
  }

  lemma MigrateReach(s: State, now: nat, a: Addr, amount: nat, period: nat, deadline: nat)
    requires s.cfg.converter != Some(a) && MigrateStake(s, now, a, amount, period).Ok?
    ensures Reach(MigrateStake(s, now, a, amount, period).value, a, now, deadline) <= Reach(s, a, now, deadline)
  {
    var i := FindPeriod(s.cfg.periods, period).value;
    ReleaseExit(BondOf(s.stakes, a, period), period, now, amount, deadline);
    ExitAfterPut(s.cfg, s.stakes, a, i, Release(BondOf(s.stakes, a, period), now, amount).value, now, deadline);
  }

  lemma ClaimReach(s: State, now: nat, a: Addr, deadline: nat)
    requires now <= deadline && ClaimMatured(s, now, a).Ok?
    ensures Reach(ClaimMatured(s, now, a).value, a, now, deadline) == Reach(s, a, now, deadline)
  {
    MaturedSplits(ClaimsOf(s.claims, a), now, deadline);
  }

  /** The parts of the storage that concern one staker's tokens. */
  ghost predicate SameTokens(s: State, t: State, a: Addr) {
    && s.cfg == t.cfg
    && SentTo(s.sent, a) == SentTo(t.sent, a)
    && ClaimsOf(s.claims, a) == ClaimsOf(t.claims, a)
    && forall period :: BondOf(s.stakes, a, period) == BondOf(t.stakes, a, period)
  }

  lemma SameTokensSameReach(s: State, t: State, a: Addr, now: nat, deadline: nat)
    requires SameTokens(s, t, a)
    ensures Reach(s, a, now, deadline) == Reach(t, a, now, deadline)
  {
    ExitIgnoresOthers(s.stakes, t.stakes, a, s.cfg.periods, now, deadline);
  }

  lemma {:induction false} BondEachOthers(s: State, i: nat, ds: seq<Delegation>, a: Addr)
    requires i < |s.cfg.periods| && BondEach(s, i, ds).Ok? && forall k | 0 <= k < |ds| :: ds[k].to != a
    ensures SameTokens(s, BondEach(s, i, ds).value, a)
  {
    if ds != [] {
      BondEachOthers(s, i, ds[..|ds| - 1], a);
    }
  }

  lemma {:induction false} SweptOthers(s: State, stakers: seq<Addr>, a: Addr)
    requires a !in stakers
    ensures var w := Swept(s, stakers);
            SentTo(w.sent, a) == SentTo(s.sent, a) && ClaimsOf(w.claims, a) == ClaimsOf(s.claims, a)
  {
    if stakers != [] {
      SweptOthers(s, stakers[..|stakers| - 1], a);
      SweptLast(s, stakers);
    }
  }

  lemma QuickUnbondOthers(s: State, y: Addr, stakers: seq<Addr>, a: Addr)
    requires a !in stakers && QuickUnbond(s, y, stakers).Ok?
    ensures SameTokens(s, QuickUnbond(s, y, stakers).value, a)
  {
    var w := Swept(s, stakers);
    SweptOthers(s, stakers, a);
    FinishCarries(s, w);
    forall period ensures BondOf(w.stakes, a, period) == BondOf(s.stakes, a, period) {
      SweptStakes(s, stakers, a, period);
    }
  }

  /** A message that gives `a` no new bond and does not lift `a`'s unbonding period; only the
      unbonder can do the latter. */
  predicate KeepsPeriods(cfg: Config, e: Env, m: Msg, a: Addr) {
    match m
    case BondMsg(_, _, _, staker) => staker != a
    case MassBondMsg(_, _, _, ds) => forall k | 0 <= k < |ds| :: ds[k].to != a
    case UnbondAllMsg => cfg.unbonder != Some(e.sender)
    case QuickUnbondMsg(stakers) => cfg.unbonder != Some(e.sender) || a !in stakers
    case _ => true
  }

  lemma MassBondOthers(s: State, cw20: Addr, sent: nat, period: nat, ds: seq<Delegation>, a: Addr)
    requires MassBond(s, cw20, sent, period, ds).Ok? && forall k | 0 <= k < |ds| :: ds[k].to != a
    ensures SameTokens(s, MassBond(s, cw20, sent, period, ds).value, a)
  {
    BondEachOthers(s, FindPeriod(s.cfg.periods, period).value, ds, a);
  }

  lemma RebondOthers(s: State, now: nat, y: Addr, amount: nat, bondFrom: nat, bondTo: nat, a: Addr)
    requires y != a && Rebond(s, now, y, amount, bondFrom, bondTo).Ok?
    ensures SameTokens(s, Rebond(s, now, y, amount, bondFrom, bondTo).value, a)
  {
  }

  lemma RemoveStakeOthers(s: State, now: nat, y: Addr, period: nat, amount: nat, a: Addr)
    requires y != a && RemoveStake(s, now, y, period, amount).Ok?
    ensures SameTokens(s, RemoveStake(s, now, y, period, amount).value, a)
  {
  }

  lemma UnbondOthers(s: State, now: nat, y: Addr, amount: nat, period: nat, a: Addr)
    requires y != a && s.cfg.converter != Some(a)
    ensures Unbond(s, now, y, amount, period).Ok? ==> SameTokens(s, Unbond(s, now, y, amount, period).value, a)
    ensures MigrateStake(s, now, y, amount, period).Ok? ==>
            SameTokens(s, MigrateStake(s, now, y, amount, period).value, a)
  {
    if RemoveStake(s, now, y, period, amount).Ok? {
      RemoveStakeOthers(s, now, y, period, amount, a);
    }
  }

  lemma ClaimOthers(s: State, now: nat, y: Addr, a: Addr)
    requires y != a && ClaimMatured(s, now, y).Ok?
    ensures SameTokens(s, ClaimMatured(s, now, y).value, a)
  {
  }

  /** What somebody else does leaves `a`'s tokens alone. */
  lemma OthersLeaveTokens(s: State, e: Env, m: Msg, a: Addr)
    requires e.sender != a && s.cfg.converter != Some(a) && KeepsPeriods(s.cfg, e, m, a) && Execute(s, e, m).Ok?
    ensures SameTokens(s, Execute(s, e, m).value, a)
  {
    match m {
      case BondMsg(cw20, amount, period, staker) =>
        MassBondOthers(s, cw20, amount, period, [Delegation(staker, amount)], a);
      case MassBondMsg(cw20, sent, period, ds) => MassBondOthers(s, cw20, sent, period, ds, a);
      case RebondMsg(amount, bondFrom, bondTo) => RebondOthers(s, e.now, e.sender, amount, bondFrom, bondTo, a);
      case UnbondMsg(amount, period) => UnbondOthers(s, e.now, e.sender, amount, period, a);
      case MigrateMsg(amount, period) => UnbondOthers(s, e.now, e.sender, amount, period, a);
      case QuickUnbondMsg(stakers) => QuickUnbondOthers(s, e.sender, stakers, a);
      case ClaimMsg => ClaimOthers(s, e.now, e.sender, a);
      case _ => RewardMsgFrame(s, e, m);
    }
  }

  /** What `a` does, short of bonding, does not make more reachable. */
  lemma OwnReach(s: State, e: Env, m: Msg, deadline: nat)
    requires !s.unbondAll && e.now <= deadline && s.cfg.converter != Some(e.sender)
    requires KeepsPeriods(s.cfg, e, m, e.sender) && Execute(s, e, m).Ok?
    ensures Reach(Execute(s, e, m).value, e.sender, e.now, deadline) <= Reach(s, e.sender, e.now, deadline)
  {
    var a := e.sender;
    match m {
      case RebondMsg(amount, bondFrom, bondTo) => RebondReach(s, e.now, a, amount, bondFrom, bondTo, deadline);
      case UnbondMsg(amount, period) => UnbondReach(s, e.now, a, amount, period, deadline);
      case MigrateMsg(amount, period) => MigrateReach(s, e.now, a, amount, period, deadline);
      case ClaimMsg => ClaimReach(s, e.now, a, deadline);
      case BondMsg(cw20, amount, period, staker) =>
        MassBondOthers(s, cw20, amount, period, [Delegation(staker, amount)], a);
        SameTokensSameReach(s, Execute(s, e, m).value, a, e.now, deadline);
      case MassBondMsg(cw20, sent, period, ds) =>
        MassBondOthers(s, cw20, sent, period, ds, a);
        SameTokensSameReach(s, Execute(s, e, m).value, a, e.now, deadline);
      case QuickUnbondMsg(stakers) =>
        QuickUnbondOthers(s, a, stakers, a);
        SameTokensSameReach(s, Execute(s, e, m).value, a, e.now, deadline);
      case _ => RewardMsgFrame(s, e, m);
    }
  }

  lemma FlagStaysOff(s: State, e: Env, m: Msg, a: Addr)
    requires !s.unbondAll && KeepsPeriods(s.cfg, e, m, a)
    ensures !Step(s, e, m).unbondAll && Step(s, e, m).cfg == s.cfg
  {
    ExecuteFrame(s, e, m);
  }

  /** Only the unbonder's message turns the flag on, and none changes the configuration. */
  lemma ExecuteFrame(s: State, e: Env, m: Msg)
    ensures var r := Execute(s, e, m);
            r.Ok? ==> r.value.cfg == s.cfg
                      && (r.value.unbondAll ==> s.unbondAll || (m.UnbondAllMsg? && s.cfg.unbonder == Some(e.sender)))
  {
    if IsRewardMsg(m) {
      RewardMsgFrame(s, e, m);
      RewardMsgFlag(s, e, m);
    } else {
      StakeMsgFrame(s, e, m);
    }
  }

  lemma StakeMsgFrame(s: State, e: Env, m: Msg)
    requires !IsRewardMsg(m)
    ensures var r := Execute(s, e, m); r.Ok? ==> r.value.cfg == s.cfg && r.value.unbondAll == s.unbondAll
  {
    match m {
      case BondMsg(cw20, amount, period, staker) => BondFrame(s, cw20, amount, period, [Delegation(staker, amount)]);
      case MassBondMsg(cw20, sent, period, ds) => BondFrame(s, cw20, sent, period, ds);
      case RebondMsg(amount, bondFrom, bondTo) => RebondFrame(s, e.now, e.sender, amount, bondFrom, bondTo);
      case UnbondMsg(amount, period) => UnbondFrame(s, e.now, e.sender, amount, period);
      case MigrateMsg(amount, period) => UnbondFrame(s, e.now, e.sender, amount, period);
      case QuickUnbondMsg(stakers) => QuickUnbondFrame(s, e.sender, stakers);
      case ClaimMsg =>
    }
  }

  lemma RebondFrame(s: State, now: nat, a: Addr, amount: nat, bondFrom: nat, bondTo: nat)
    ensures var r := Rebond(s, now, a, amount, bondFrom, bondTo);
            r.Ok? ==> r.value.cfg == s.cfg && r.value.unbondAll == s.unbondAll
  {
  }

  lemma RemoveStakeFrame(s: State, now: nat, a: Addr, period: nat, amount: nat)
    ensures var r := RemoveStake(s, now, a, period, amount);
            r.Ok? ==> r.value.cfg == s.cfg && r.value.unbondAll == s.unbondAll
  {
  }

  lemma UnbondFrame(s: State, now: nat, a: Addr, amount: nat, period: nat)
    ensures var r := Unbond(s, now, a, amount, period);
            r.Ok? ==> r.value.cfg == s.cfg && r.value.unbondAll == s.unbondAll
    ensures var r := MigrateStake(s, now, a, amount, period);
            r.Ok? ==> r.value.cfg == s.cfg && r.value.unbondAll == s.unbondAll
  {
    RemoveStakeFrame(s, now, a, period, amount);
  }

  lemma QuickUnbondFrame(s: State, a: Addr, stakers: seq<Addr>)
    ensures var r := QuickUnbond(s, a, stakers);
            r.Ok? ==> r.value.cfg == s.cfg && r.value.unbondAll == s.unbondAll
  {
  }

  lemma RewardMsgFlag(s: State, e: Env, m: Msg)
    requires IsRewardMsg(m)
    ensures var r := Execute(s, e, m);
            r.Ok? && r.value.unbondAll ==> s.unbondAll || (m.UnbondAllMsg? && s.cfg.unbonder == Some(e.sender))
  {
  }

  lemma BondFrame(s: State, cw20: Addr, sent: nat, period: nat, ds: seq<Delegation>)
    ensures var r := MassBond(s, cw20, sent, period, ds);
            r.Ok? ==> r.value.cfg == s.cfg && r.value.unbondAll == s.unbondAll
  {
    match FindPeriod(s.cfg.periods, period)
    case None =>
    case Some(i) => BondEachFrame(s, i, ds);
  }

  lemma {:induction false} BondEachFrame(s: State, i: nat, ds: seq<Delegation>)
    requires i < |s.cfg.periods|
    ensures var r := BondEach(s, i, ds); r.Ok? ==> r.value.cfg == s.cfg && r.value.unbondAll == s.unbondAll
  {
    if ds != [] {
      BondEachFrame(s, i, ds[..|ds| - 1]);
    }
  }

  lemma StepReach(s: State, e: Env, m: Msg, a: Addr, deadline: nat)
    requires !s.unbondAll && s.clock <= e.now <= deadline && s.cfg.converter != Some(a) && KeepsPeriods(s.cfg, e, m, a)
    ensures Reach(Step(s, e, m), a, e.now, deadline) <= Reach(s, a, s.clock, deadline)
  {
    ExitShrinks(s.stakes, a, s.cfg.periods, s.clock, e.now, deadline);
    var r := Execute(s, e, m);
    if r.Ok? {
      if e.sender == a {
        OwnReach(s, e, m, deadline);
      } else {
        OthersLeaveTokens(s, e, m, a);
        SameTokensSameReach(s, r.value, a, e.now, deadline);
      }
    }
    SettleReach(s, r, e.now, a, deadline);
  }

  lemma SettleReach(s: State, r: Result<State>, now: nat, a: Addr, deadline: nat)
    ensures Reach(Settle(s, r, now), a, now, deadline)
            == if r.Ok? then Reach(r.value, a, now, deadline) else Reach(s, a, now, deadline)
  {
  }

  /** No early exit, over any run in which `a` receives no new bond and nobody lifts the unbonding
      period: whatever rebonds, unbonds and claims the run holds, what `a` has been paid by the end is
      at most what was within reach by that deadline at the start. */
  lemma {:induction false} NoEarlyExit(s: State, events: seq<Event>, a: Addr, deadline: nat)
    requires !s.unbondAll && s.cfg.converter != Some(a) && InOrder(s.clock, events)
    requires forall i | 0 <= i < |events| ::
               events[i].env.now <= deadline && KeepsPeriods(s.cfg, events[i].env, events[i].msg, a)
    ensures !Run(s, events).unbondAll && Run(s, events).cfg == s.cfg
    ensures Reach(Run(s, events), a, Run(s, events).clock, deadline) <= Reach(s, a, s.clock, deadline)
    ensures SentTo(Run(s, events).sent, a) <= Reach(s, a, s.clock, deadline)
  {
    if events != [] {
      var n := |events| - 1;
      NoEarlyExit(s, events[..n], a, deadline);
      var t := Run(s, events[..n]);
      RunClock(s, events[..n]);
      RunClock(s, events);
      FlagStaysOff(t, events[n].env, events[n].msg, a);
      StepReach(t, events[n].env, events[n].msg, a, deadline);
    }
  }
}
