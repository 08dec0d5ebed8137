/** One reward flow: the invariants of its lazy ledger and the operations that keep them. */
module StakeRewards {
  import opened FixedPoint
  import opened FiniteSums
  import opened StakeState
  import opened StakeTotals

  ghost function EntitlementAt(cfg: Config, stakes: Stakes, f: Flow): Addr -> int {
    a => Entitlement(cfg, stakes, f, a)
  }

  ghost function WithdrawnAt(f: Flow): Addr -> int {
    a => AdjustmentOf(f, a).withdrawn
  }

  ghost function WithdrawableAt(cfg: Config, stakes: Stakes, f: Flow): Addr -> int {
    a => Withdrawable(cfg, stakes, f, a)
  }

  /** Nobody has withdrawn more than the whole tokens in their (non-negative) entitlement. */
  ghost predicate Covered(cfg: Config, stakes: Stakes, f: Flow) {
    forall a :: AdjustmentOf(f, a).withdrawn * SHARES <= Entitlement(cfg, stakes, f, a)
  }

  /** What holds of a flow whatever the stored totals are. */
  ghost predicate FlowBooks(cfg: Config, stakes: Stakes, f: Flow, seconds: nat) {
    && f.adjustments.Keys <= Holders(stakes)
    && Covered(cfg, stakes, f)
    && f.withdrawable + Sum(Holders(stakes), WithdrawnAt(f)) == f.distributed
    && f.withdrawable + CurveValue(f.curve, seconds) <= f.balance
  }

  /** All entitlements together, plus the leftover, never exceed what was distributed. */
  ghost predicate Solvent(cfg: Config, stakes: Stakes, f: Flow) {
    Sum(Holders(stakes), EntitlementAt(cfg, stakes, f)) + f.leftover <= f.distributed * SHARES
  }

  // ---- what solvency gives the stakers ----

  lemma EntitlementOfStranger(cfg: Config, stakes: Stakes, f: Flow, a: Addr)
    requires a !in Holders(stakes)
    ensures RewardsPower(cfg, stakes, f.multipliers, a) == 0
    ensures f.adjustments.Keys <= Holders(stakes) ==>
              Entitlement(cfg, stakes, f, a) == 0 && AdjustmentOf(f, a) == Adjustment(0, 0)
  {
    PowerOfStranger(cfg, stakes, f.multipliers, a);
  }

  lemma {:induction false} PowerOfStranger(cfg: Config, stakes: Stakes, multipliers: seq<Multiplier>, a: Addr)
    requires forall period :: StakeIn(stakes, a, period) == 0
    ensures RewardsPower(cfg, stakes, multipliers, a) == 0
  {
    if multipliers != [] {
      PowerOfStranger(cfg, stakes, multipliers[..|multipliers| - 1], a);
    }
  }

  /** What a staker can withdraw is the whole tokens of the entitlement, less those withdrawn. */
  lemma WithdrawableIs(cfg: Config, stakes: Stakes, f: Flow, a: Addr)
    requires Covered(cfg, stakes, f)
    ensures Withdrawable(cfg, stakes, f, a) == Entitlement(cfg, stakes, f, a) / SHARES - AdjustmentOf(f, a).withdrawn
    ensures Withdrawable(cfg, stakes, f, a) >= 0
  {
    var e, w := Entitlement(cfg, stakes, f, a), AdjustmentOf(f, a).withdrawn;
    assert w * SHARES <= e;
    FloorAtLeast(e, SHARES, w);
  }

  /** Everyone's withdrawable rewards together are at most `withdrawable_total`, which in turn is
      covered by the balance. */
  lemma RewardsAreBacked(cfg: Config, stakes: Stakes, f: Flow, seconds: nat)
    requires FlowBooks(cfg, stakes, f, seconds) && Solvent(cfg, stakes, f)
    ensures Sum(Holders(stakes), WithdrawableAt(cfg, stakes, f)) <= f.withdrawable <= f.balance
  {
    var h := Holders(stakes);
    var whole := (a: Addr) => Withdrawable(cfg, stakes, f, a) + AdjustmentOf(f, a).withdrawn;
    var shares := (a: Addr) => SHARES * whole(a);
    forall a | a in h ensures shares(a) <= Entitlement(cfg, stakes, f, a) {
      WithdrawableIs(cfg, stakes, f, a);
      var e := Entitlement(cfg, stakes, f, a);
      assert e / SHARES * SHARES <= e;
    }
    SumPlus(h, WithdrawableAt(cfg, stakes, f), WithdrawnAt(f), whole);
    SumTimes(h, SHARES, whole, shares);
    SumAtMost(h, shares, EntitlementAt(cfg, stakes, f));
    assert SHARES * Sum(h, whole) <= f.distributed * SHARES;
  }

  /** So no single withdrawal can underflow `withdrawable_total` or the balance. */
  lemma EachWithdrawalIsBacked(cfg: Config, stakes: Stakes, f: Flow, seconds: nat, a: Addr)
    requires FlowBooks(cfg, stakes, f, seconds) && Solvent(cfg, stakes, f)
    ensures 0 <= Withdrawable(cfg, stakes, f, a) <= f.withdrawable <= f.balance
  {
    RewardsAreBacked(cfg, stakes, f, seconds);
    forall x ensures Withdrawable(cfg, stakes, f, x) >= 0 {
      WithdrawableIs(cfg, stakes, f, x);
    }
    if a in Holders(stakes) {
      SumDominates(Holders(stakes), WithdrawableAt(cfg, stakes, f), a);
    } else {
      EntitlementOfStranger(cfg, stakes, f, a);
    }
  }

  // ---- changes of stake ----

  /** Only `a`'s bonds differ between the two. */
  ghost predicate OnlyMoved(before: Stakes, after: Stakes, a: Addr) {
    && Holders(before) <= Holders(after) <= Holders(before) + {a}
    && forall x, period | x != a :: BondOf(after, x, period) == BondOf(before, x, period)
  }

  lemma {:induction false} PowerOfOthers(cfg: Config, before: Stakes, after: Stakes, multipliers: seq<Multiplier>,
                                         a: Addr, x: Addr)
    requires OnlyMoved(before, after, a) && x != a
    ensures RewardsPower(cfg, before, multipliers, x) == RewardsPower(cfg, after, multipliers, x)
  {
    if multipliers != [] {
      PowerOfOthers(cfg, before, after, multipliers[..|multipliers| - 1], a, x);
    }
  }

  lemma CorrectionCancels(shares: int, p: int, q: int, correction: int)
    ensures shares * q + (correction - shares * (q - p)) == shares * p + correction
  {
  }

  /** The same staker, entitled to the same shares, having withdrawn as much. */
  ghost predicate SameClaim(cfg: Config, before: Stakes, f: Flow, after: Stakes, g: Flow, x: Addr) {
    && Entitlement(cfg, before, f, x) == Entitlement(cfg, after, g, x)
    && AdjustmentOf(f, x).withdrawn == AdjustmentOf(g, x).withdrawn
  }

  /** The correction keeps every staker's entitlement exactly, across any change of one staker's bonds. */
  lemma CorrectKeepsEntitlement(cfg: Config, before: Stakes, after: Stakes, f: Flow, a: Addr, x: Addr)
    requires OnlyMoved(before, after, a)
    ensures SameClaim(cfg, before, f, after, Recorrect(cfg, before, after, f, a), x)
  {
    if x != a {
      PowerOfOthers(cfg, before, after, f.multipliers, a, x);
    } else {
      CorrectionCancels(f.sharesPerPoint, RewardsPower(cfg, before, f.multipliers, a),
                        RewardsPower(cfg, after, f.multipliers, a), AdjustmentOf(f, a).correction);
    }
  }

  lemma MovedSum(before: set<Addr>, after: set<Addr>, a: Addr, e: Addr -> int, d: Addr -> int)
    requires before <= after <= before + {a}
    requires forall x | x in after :: e(x) == d(x)
    requires a !in before ==> e(a) == 0
    ensures Sum(after, d) == Sum(before, e)
  {
    if after == before {
      SumAgrees(before, e, d);
    } else {
      assert after == before + {a};
      SumUpdate(before, a, e, d);
    }
  }

  /** Two states of a flow in which every staker has the same claim have the same books. */
  lemma SameClaimsSameBooks(cfg: Config, before: Stakes, f: Flow, after: Stakes, g: Flow, a: Addr, seconds: nat)
    requires FlowBooks(cfg, before, f, seconds)
    requires Holders(before) <= Holders(after) <= Holders(before) + {a}
    requires forall x :: SameClaim(cfg, before, f, after, g, x)
    requires g == f.(adjustments := g.adjustments) && g.adjustments.Keys <= Holders(after)
    ensures FlowBooks(cfg, after, g, seconds)
    ensures Solvent(cfg, before, f) ==> Solvent(cfg, after, g)
  {
    if a !in Holders(before) {
      EntitlementOfStranger(cfg, before, f, a);
    }
    forall x
      ensures AdjustmentOf(g, x).withdrawn * SHARES <= Entitlement(cfg, after, g, x)
      ensures WithdrawnAt(f)(x) == WithdrawnAt(g)(x)
      ensures EntitlementAt(cfg, before, f)(x) == EntitlementAt(cfg, after, g)(x)
    {
      assert SameClaim(cfg, before, f, after, g, x);
      assert AdjustmentOf(f, x).withdrawn * SHARES <= Entitlement(cfg, before, f, x);
    }
    MovedSum(Holders(before), Holders(after), a, WithdrawnAt(f), WithdrawnAt(g));
    MovedSum(Holders(before), Holders(after), a, EntitlementAt(cfg, before, f), EntitlementAt(cfg, after, g));
  }

  /** Any change of one staker's bonds, corrected as the contract does, keeps the flow's books and
      its solvency. */
  lemma CorrectKeepsFlow(cfg: Config, before: Stakes, after: Stakes, f: Flow, a: Addr, seconds: nat)
    requires OnlyMoved(before, after, a) && FlowBooks(cfg, before, f, seconds)
    ensures var g := Recorrect(cfg, before, after, f, a);
            FlowBooks(cfg, after, g, seconds) && (Solvent(cfg, before, f) ==> Solvent(cfg, after, g))
  {
    var g := Recorrect(cfg, before, after, f, a);
    forall x ensures SameClaim(cfg, before, f, after, g, x) {
      CorrectKeepsEntitlement(cfg, before, after, f, a, x);
    }
    CorrectKeys(cfg, before, after, f, a);
    SameClaimsSameBooks(cfg, before, f, after, g, a, seconds);
  }

  lemma CorrectKeys(cfg: Config, before: Stakes, after: Stakes, f: Flow, a: Addr)
    requires OnlyMoved(before, after, a) && f.adjustments.Keys <= Holders(before)
    ensures Recorrect(cfg, before, after, f, a).adjustments.Keys <= Holders(after)
  {
    if a !in Holders(after) {
      EntitlementOfStranger(cfg, before, f, a);
      EntitlementOfStranger(cfg, after, f, a);
    }
  }

  // ---- distributing ----

  lemma {:induction false} CurveFalls(curve: seq<Schedule>, s: nat, t: nat)
    requires s <= t
    ensures CurveValue(curve, t) <= CurveValue(curve, s)
  {
    if curve != [] {
      CurveFalls(curve[..|curve| - 1], s, t);
      ScheduleFalls(curve[|curve| - 1], s, t);
    }
  }

  /** A schedule only ever unlocks. */
  lemma ScheduleFalls(c: Schedule, s: nat, t: nat)
    requires s <= t
    ensures ScheduleValue(c, t) <= ScheduleValue(c, s)
  {
    if c.start < s && t < c.end {
      var r, q := Ratio(s - c.start, c.end - c.start), Ratio(t - c.start, c.end - c.start);
      FloorMono((s - c.start) * ONE, (t - c.start) * ONE, c.end - c.start);
      MulMono(r, q, c.amount);
      FloorMono(c.amount * r, c.amount * q, ONE);
    }
  }

  /** With the books in order the amount to distribute is never negative, at any later time. */
  lemma DistributableIsNat(cfg: Config, stakes: Stakes, f: Flow, s: nat, t: nat)
    requires FlowBooks(cfg, stakes, f, s) && s <= t
    ensures Distributable(f, t) >= 0 && FlowBooks(cfg, stakes, f, t)
  {
    CurveFalls(f.curve, s, t);
  }

  lemma CreditSplits(shares: int, points: int, power: int, correction: int)
    ensures (shares + points) * power + correction == shares * power + correction + points * power
  {
  }

  /** What a distribution does to every staker at once: the eager credit of points times power. */
  lemma DistributeCredits(cfg: Config, stakes: Stakes, f: Flow, total: nat, seconds: nat, a: Addr)
    requires DistributeFlow(f, total, seconds).Ok?
    ensures var g := DistributeFlow(f, total, seconds).value;
            && g.sharesPerPoint >= f.sharesPerPoint
            && Entitlement(cfg, stakes, g, a) == Entitlement(cfg, stakes, f, a)
                 + (g.sharesPerPoint - f.sharesPerPoint) * RewardsPower(cfg, stakes, f.multipliers, a)
            && AdjustmentOf(g, a) == AdjustmentOf(f, a)
  {
    DistributeOnlyAdds(f, total, seconds);
    var g := DistributeFlow(f, total, seconds).value;
    CreditSplits(f.sharesPerPoint, g.sharesPerPoint - f.sharesPerPoint,
                 RewardsPower(cfg, stakes, f.multipliers, a), AdjustmentOf(f, a).correction);
  }

  /** A distribution changes only the four running numbers of a flow, and never lowers the counter. */
  lemma DistributeOnlyAdds(f: Flow, total: nat, seconds: nat)
    requires DistributeFlow(f, total, seconds).Ok?
    ensures var g := DistributeFlow(f, total, seconds).value;
            && g == f.(leftover := g.leftover, sharesPerPoint := g.sharesPerPoint,
                       distributed := g.distributed, withdrawable := g.withdrawable)
            && g.sharesPerPoint >= f.sharesPerPoint
            && g.distributed - f.distributed == g.withdrawable - f.withdrawable
  {
  }

  /** The division of `points` by the total power, and the cast of its remainder to 64 bits. */
  lemma PointsAreDivided(points: nat, total: nat)
    requires total > 0
    ensures points == points / total * total + points % total && points % total < total
    ensures points % total % TWO_64 <= points % total
    ensures total <= TWO_64 ==> points % total % TWO_64 == points % total
    ensures (points % total - points % total % TWO_64) % TWO_64 == 0
  {
    assert points == points / total * total + points % total;
    var r := points % total;
    assert r - r % TWO_64 == r / TWO_64 * TWO_64;
  }

  /** A distribution uses up the points there were: what it credits to the total power and the leftover
      it stores never exceed them, and fall short of them by a multiple of 2^64 less than the total,
      which is nothing when the total power is at most 2^64. */
  lemma PointsAreConserved(f: Flow, total: nat, seconds: nat)
    requires total > 0 && DistributeFlow(f, total, seconds).Ok?
    ensures var g := DistributeFlow(f, total, seconds).value;
            var lost := Distributable(f, seconds) * SHARES + f.leftover
                        - (g.sharesPerPoint - f.sharesPerPoint) * total - g.leftover;
            && 0 <= lost && (lost < total || lost == 0) && lost % TWO_64 == 0
            && (total <= TWO_64 ==> lost == 0)
            && (Distributable(f, seconds) > 0 ==> lost + g.leftover < total && g.leftover < TWO_64)
  {
    var d := Distributable(f, seconds);
    if d > 0 {
      PointsAreDivided(d * SHARES + f.leftover, total);
    }
  }

  /** A distribution over some power hands out everything there is: afterwards all of the balance is owed
      or still locked. */
  lemma NothingIsLeft(f: Flow, total: nat, seconds: nat)
    requires DistributeFlow(f, total, seconds).Ok?
    ensures var g := DistributeFlow(f, total, seconds).value;
            if total == 0 then g == f else g.withdrawable + CurveValue(g.curve, seconds) == g.balance
  {
  }

  lemma DistributeKeepsCover(cfg: Config, stakes: Stakes, f: Flow, total: nat, seconds: nat)
    requires Covered(cfg, stakes, f) && DistributeFlow(f, total, seconds).Ok?
    ensures Covered(cfg, stakes, DistributeFlow(f, total, seconds).value)
  {
    var g := DistributeFlow(f, total, seconds).value;
    forall a ensures AdjustmentOf(g, a).withdrawn * SHARES <= Entitlement(cfg, stakes, g, a) {
      assert AdjustmentOf(f, a).withdrawn * SHARES <= Entitlement(cfg, stakes, f, a);
      EntitlementNeverFalls(cfg, stakes, f, total, seconds, a);
    }
  }

  /** A distribution takes nothing from anybody. */
  lemma EntitlementNeverFalls(cfg: Config, stakes: Stakes, f: Flow, total: nat, seconds: nat, a: Addr)
    requires DistributeFlow(f, total, seconds).Ok?
    ensures var g := DistributeFlow(f, total, seconds).value;
            Entitlement(cfg, stakes, f, a) <= Entitlement(cfg, stakes, g, a) && AdjustmentOf(g, a) == AdjustmentOf(f, a)
  {
    DistributeCredits(cfg, stakes, f, total, seconds, a);
    CreditIsNat(DistributeFlow(f, total, seconds).value.sharesPerPoint - f.sharesPerPoint,
                RewardsPower(cfg, stakes, f.multipliers, a));
  }

  lemma CreditIsNat(points: nat, power: nat)
    ensures points * power >= 0
  {
  }

  /** Distributing keeps the books; it keeps solvency when the total power it divides by is at least
      everyone's power together. */
  lemma DistributeKeepsFlow(cfg: Config, stakes: Stakes, f: Flow, total: nat, seconds: nat)
    requires FlowBooks(cfg, stakes, f, seconds)
    ensures var r := DistributeFlow(f, total, seconds);
            && r.Ok?
            && FlowBooks(cfg, stakes, r.value, seconds)
            && (Solvent(cfg, stakes, f) && Sum(Holders(stakes), PowerAt(cfg, stakes, f.multipliers)) <= total ==>
                  Solvent(cfg, stakes, r.value))
  {
    var g := DistributeFlow(f, total, seconds).value;
    DistributeOnlyAdds(f, total, seconds);
    DistributeKeepsCover(cfg, stakes, f, total, seconds);
    SumAgrees(Holders(stakes), WithdrawnAt(f), WithdrawnAt(g));
    if Solvent(cfg, stakes, f) && Sum(Holders(stakes), PowerAt(cfg, stakes, f.multipliers)) <= total && g != f {
      CreditsFit(cfg, stakes, f, total, seconds);
    }
  }

  lemma CreditsFit(cfg: Config, stakes: Stakes, f: Flow, total: nat, seconds: nat)
    requires Solvent(cfg, stakes, f) && Sum(Holders(stakes), PowerAt(cfg, stakes, f.multipliers)) <= total
    requires total > 0 && Distributable(f, seconds) > 0
    ensures Solvent(cfg, stakes, DistributeFlow(f, total, seconds).value)
  {
    var g := DistributeFlow(f, total, seconds).value;
    var amount: nat := Distributable(f, seconds);
    forall a
      ensures EntitlementAt(cfg, stakes, g)(a) ==
              EntitlementAt(cfg, stakes, f)(a)
                  + PointsPerShare(f, total, amount) * PowerAt(cfg, stakes, f.multipliers)(a)
    {
      DistributeCredits(cfg, stakes, f, total, seconds, a);
    }
    CreditsSum(Holders(stakes), EntitlementAt(cfg, stakes, f), EntitlementAt(cfg, stakes, g),
               PowerAt(cfg, stakes, f.multipliers), PointsPerShare(f, total, amount), total);
    PointsAreDivided(amount * SHARES + f.leftover, total);
    assert (f.distributed + amount) * SHARES == f.distributed * SHARES + amount * SHARES;
  }

  lemma CreditsSum(h: set<Addr>, before: Addr -> int, after: Addr -> int, power: Addr -> int, points: nat, total: nat)
    requires forall a | a in h :: after(a) == before(a) + points * power(a)
    requires Sum(h, power) <= total
    ensures Sum(h, after) <= Sum(h, before) + points * total
  {
    var credit := (a: Addr) => points * power(a);
    SumPlus(h, before, credit, after);
    SumTimes(h, points, power, credit);
    assert points * total == points * Sum(h, power) + points * (total - Sum(h, power));
  }

  // ---- withdrawing ----

  /** What a withdrawal does: it pays the owner's whole withdrawable amount out of the balance and
      `withdrawable_total`, records it, and changes nobody's entitlement. */
  ghost predicate PaidOut(cfg: Config, stakes: Stakes, f: Flow, owner: Addr, g: Flow) {
    && f.balance - g.balance == Withdrawable(cfg, stakes, f, owner) == f.withdrawable - g.withdrawable
    && AdjustmentOf(g, owner).withdrawn == AdjustmentOf(f, owner).withdrawn + Withdrawable(cfg, stakes, f, owner)
    && g.sharesPerPoint == f.sharesPerPoint && g.multipliers == f.multipliers && g.distributed == f.distributed
    && g.curve == f.curve && g.leftover == f.leftover
    && forall a :: AdjustmentOf(g, a) == AdjustmentOf(f, a).(withdrawn := AdjustmentOf(g, a).withdrawn)
                   && (a != owner ==> AdjustmentOf(g, a) == AdjustmentOf(f, a))
  }

  lemma WithdrawPays(cfg: Config, stakes: Stakes, f: Flow, owner: Addr)
    requires WithdrawFlow(cfg, stakes, f, owner).Ok?
    ensures PaidOut(cfg, stakes, f, owner, WithdrawFlow(cfg, stakes, f, owner).value)
  {
  }

  /** A withdrawal from a flow with its books in order keeps them, and its solvency; from a solvent
      flow it always succeeds. */
  lemma WithdrawKeepsFlow(cfg: Config, stakes: Stakes, f: Flow, owner: Addr, seconds: nat)
    requires FlowBooks(cfg, stakes, f, seconds)
    ensures var r := WithdrawFlow(cfg, stakes, f, owner);
            && (Solvent(cfg, stakes, f) ==> r.Ok?)
            && (r.Ok? ==> FlowBooks(cfg, stakes, r.value, seconds) && PaidOut(cfg, stakes, f, owner, r.value)
                          && (Solvent(cfg, stakes, f) ==> Solvent(cfg, stakes, r.value)))
  {
    if Solvent(cfg, stakes, f) {
      EachWithdrawalIsBacked(cfg, stakes, f, seconds, owner);
    }
    var r := WithdrawFlow(cfg, stakes, f, owner);
    if r.Ok? {
      WithdrawPays(cfg, stakes, f, owner);
      if r.value != f {
        PaidKeepsFlow(cfg, stakes, f, owner, seconds);
      }
    }
  }

  lemma PaidKeepsFlow(cfg: Config, stakes: Stakes, f: Flow, owner: Addr, seconds: nat)
    requires FlowBooks(cfg, stakes, f, seconds)
    requires var r := WithdrawFlow(cfg, stakes, f, owner); r.Ok? && r.value != f
    ensures var g := WithdrawFlow(cfg, stakes, f, owner).value;
            && FlowBooks(cfg, stakes, g, seconds)
            && (Solvent(cfg, stakes, f) ==> Solvent(cfg, stakes, g))
  {
    var g := WithdrawFlow(cfg, stakes, f, owner).value;
    WithdrawableIs(cfg, stakes, f, owner);
    OnlyHoldersWithdraw(cfg, stakes, f, owner);
    var e := Entitlement(cfg, stakes, f, owner);
    assert e / SHARES * SHARES <= e;
    assert Holders(stakes) + {owner} == Holders(stakes);
    forall a ensures Entitlement(cfg, stakes, f, a) == Entitlement(cfg, stakes, g, a) {
    }
    SumUpdate(Holders(stakes), owner, WithdrawnAt(f), WithdrawnAt(g));
    SumAgrees(Holders(stakes), EntitlementAt(cfg, stakes, f), EntitlementAt(cfg, stakes, g));
  }

  /** Only a holder has anything to withdraw. */
  lemma OnlyHoldersWithdraw(cfg: Config, stakes: Stakes, f: Flow, a: Addr)
    requires f.adjustments.Keys <= Holders(stakes) && Withdrawable(cfg, stakes, f, a) > 0
    ensures a in Holders(stakes)
  {
    if a !in Holders(stakes) {
      EntitlementOfStranger(cfg, stakes, f, a);
    }
  }
}
