/** The staking contract as it runs: storage fields that its messages update step by step, in loops
    over delegations, stakers, periods and distributions. Every method is proved to have the effect
    of its function in `StakeState`; what those functions guarantee is proved in the other modules. */
module StakeContract {
  import opened FixedPoint
  import opened Results
  import opened Bonding
  import opened StakeState

  class Contract {
    const cfg: Config
    var stakes: Stakes
    var totals: seq<TotalStake>
    var token: TokenInfo
    var claims: map<Addr, seq<Claim>>
    var flows: map<Asset, Flow>
    var delegated: map<Addr, Addr>
    var unbondAll: bool
    var admin: Option<Addr>
    var lpHeld: nat
    var undelegated: nat
    var sent: map<Addr, nat>
    var clock: nat

    function View(): StateData
      reads this
    {
      StateData(cfg, stakes, totals, token, claims, flows, delegated, unbondAll, admin, lpHeld,
                undelegated, sent, clock)
    }

    ghost predicate Valid()
      reads this
    {
      Shaped(View())
    }

    /** The method ended as the function says: the same outcome, and on success the same storage. */
    ghost predicate Ended(r: Result<()>, spec: Result<State>)
      reads this
    {
      match r
      case Ok(_) => spec.Ok? && View() == spec.value
      case Err(error) => spec == Err(error)
    }

    /** Instantiation sorts the periods; here they come sorted and distinct as part of `Config`. */
    constructor (config: Config, now: nat)
      ensures View() == Init(config, now)
    {
      cfg := config;
      stakes, claims, flows, delegated, sent := map[], map[], map[], map[], map[];
      totals := seq(|config.periods|, _ => TotalStake(0, 0));
      token := TokenInfo(0, 0);
      unbondAll, admin := false, config.admin;
      lpHeld, undelegated, clock := 0, 0, now;
    }

    // ---- searching and adding up ----

    /** Binary search in the sorted unbonding periods. */
    method SearchPeriod(period: nat) returns (r: Option<nat>)
      ensures r == FindPeriod(cfg.periods, period)
    {
      var lo, hi := 0, |cfg.periods|;
      while lo < hi
        invariant 0 <= lo <= hi <= |cfg.periods|
        invariant forall i | 0 <= i < lo :: cfg.periods[i] < period
        invariant forall i | hi <= i < |cfg.periods| :: period < cfg.periods[i]
      {
        var mid := (lo + hi) / 2;
        if cfg.periods[mid] < period {
          forall i | 0 <= i < mid ensures cfg.periods[i] < period {
            assert Shorter(cfg.periods, i, mid);
          }
          lo := mid + 1;
        } else if period < cfg.periods[mid] {
          forall i | mid < i < |cfg.periods| ensures period < cfg.periods[i] {
            assert Shorter(cfg.periods, mid, i);
          }
          hi := mid;
        } else {
          FindIsUnique(cfg, period, mid);
          return Some(mid);
        }
      }
      r := None;
    }

    static lemma FindIsUnique(c: Config, period: nat, i: nat)
      requires i < |c.periods| && c.periods[i] == period
      ensures FindPeriod(c.periods, period) == Some(i)
    {
      var r := FindPeriod(c.periods, period);
      assert r.Some?;
      assert r.value == i || Shorter(c.periods, if r.value < i then r.value else i, if r.value < i then i else r.value);
    }

    method CalcRewardsPower(multipliers: seq<Multiplier>, a: Addr) returns (power: nat)
      ensures power == RewardsPower(cfg, stakes, multipliers, a)
    {
      power := 0;
      for i := 0 to |multipliers|
        invariant power == RewardsPower(cfg, stakes, multipliers[..i], a)
      {
        assert multipliers[..i + 1][..i] == multipliers[..i];
        var info := new BondingInfo(BondOf(stakes, a, multipliers[i].period));
        var stake := info.TotalStake();
        power := power + CalcPower(cfg, stake, multipliers[i].rate);
      }
      assert multipliers[..|multipliers|] == multipliers;
    }

    method TotalRewardsPower(multipliers: seq<Multiplier>) returns (power: nat)
      requires |multipliers| == |totals|
      ensures power == TotalPower(cfg, totals, multipliers)
    {
      power := 0;
      for i := 0 to |multipliers|
        invariant power == TotalPower(cfg, totals[..i], multipliers[..i])
      {
        assert multipliers[..i + 1][..i] == multipliers[..i] && totals[..i + 1][..i] == totals[..i];
        power := power + CalcPower(cfg, totals[i].powered, multipliers[i].rate);
      }
      assert multipliers[..|multipliers|] == multipliers && totals[..|totals|] == totals;
    }

    /** A staker's power in every distribution. */
    method CalcRewardsPowers(a: Addr) returns (powers: map<Asset, nat>)
      ensures powers == map x | x in flows :: RewardsPower(cfg, stakes, flows[x].multipliers, a)
    {
      powers := map[];
      var todo := flows.Keys;
      while todo != {}
        invariant todo <= flows.Keys && powers.Keys == flows.Keys - todo
        invariant forall x | x in powers :: powers[x] == RewardsPower(cfg, stakes, flows[x].multipliers, a)
        decreases |todo|
      {
        var x :| x in todo;
        var power := CalcRewardsPower(flows[x].multipliers, a);
        powers := powers[x := power];
        todo := todo - {x};
      }
    }

    method UpdateRewards(x: Asset, a: Addr, oldPower: nat, newPower: nat)
      requires x in flows
      modifies this`flows
      ensures flows == old(flows)[x := Correct(old(flows[x]), a, oldPower, newPower)]
    {
      if oldPower == newPower {
        return;
      }
      var f := flows[x];
      var diff := newPower - oldPower;
      var adj := AdjustmentOf(f, a);
      adj := adj.(correction := adj.correction - f.sharesPerPoint * diff);
      flows := flows[x := f.(adjustments := f.adjustments[a := adj])];
    }

    /** The corrections of every distribution after a staker's bonds changed. */
    method UpdateAllRewards(a: Addr, powers: map<Asset, nat>, ghost before: Stakes)
      requires powers == map x | x in flows :: RewardsPower(cfg, before, flows[x].multipliers, a)
      modifies this`flows
      ensures flows == CorrectFlows(cfg, before, stakes, old(flows), a)
    {
      ghost var target := CorrectFlows(cfg, before, stakes, flows, a);
      var newPowers := CalcRewardsPowers(a);
      UpdateEach(a, powers, newPowers);
      assert flows == target;
    }

    /** The flows outside `todo` are corrected, those in it are as at the start. */
    static ghost predicate CorrectedBut(todo: set<Asset>, start: map<Asset, Flow>, now: map<Asset, Flow>, a: Addr,
                                        powers: map<Asset, nat>, newPowers: map<Asset, nat>) {
      && now.Keys == start.Keys == powers.Keys == newPowers.Keys && todo <= now.Keys
      && (forall x | x in todo :: now[x] == start[x])
      && (forall x | x in now.Keys - todo :: now[x] == Correct(start[x], a, powers[x], newPowers[x]))
    }

    static lemma CorrectedMore(todo: set<Asset>, x: Asset, start: map<Asset, Flow>, now: map<Asset, Flow>, a: Addr,
                               powers: map<Asset, nat>, newPowers: map<Asset, nat>)
      requires CorrectedBut(todo, start, now, a, powers, newPowers) && x in todo
      ensures CorrectedBut(todo - {x}, start, now[x := Correct(now[x], a, powers[x], newPowers[x])], a,
                           powers, newPowers)
    {
    }

    method UpdateEach(a: Addr, powers: map<Asset, nat>, newPowers: map<Asset, nat>)
      requires powers.Keys == newPowers.Keys == flows.Keys
      modifies this`flows
      ensures flows == map x | x in old(flows) :: Correct(old(flows)[x], a, powers[x], newPowers[x])
    {
      ghost var start := flows;
      var todo := flows.Keys;
      while todo != {}
        invariant CorrectedBut(todo, start, flows, a, powers, newPowers)
        decreases |todo|
      {
        var x :| x in todo;
        CorrectedMore(todo, x, start, flows, a, powers, newPowers);
        UpdateRewards(x, a, powers[x], newPowers[x]);
        todo := todo - {x};
      }
    }

    method UpdateTotalStake(i: nat, oldStake: nat, newStake: nat) returns (r: Result<()>)
      requires i < |totals|
      modifies this`totals
      ensures match r
              case Ok(_) => UpdateTotals(cfg, old(totals), i, oldStake, newStake) == Ok(totals)
              case Err(error) => UpdateTotals(cfg, old(totals), i, oldStake, newStake) == Err(error)
    {
      var total := totals[i];
      if oldStake <= newStake {
        total := total.(staked := total.staked + (newStake - oldStake));
      } else {
        if total.staked < oldStake - newStake {
          return Err(Overflow);
        }
        total := total.(staked := total.staked - (oldStake - newStake));
      }
      var wasAbove, isAbove := oldStake >= cfg.minBond, newStake >= cfg.minBond;
      if !wasAbove && isAbove {
        total := total.(powered := total.powered + newStake);
      } else if wasAbove && !isAbove {
        if total.powered < oldStake {
          return Err(Overflow);
        }
        total := total.(powered := total.powered - oldStake);
      } else if wasAbove && isAbove {
        if newStake >= oldStake {
          total := total.(powered := total.powered + (newStake - oldStake));
        } else {
          if total.powered < oldStake - newStake {
            return Err(Overflow);
          }
          total := total.(powered := total.powered - (oldStake - newStake));
        }
      }
      totals := totals[i := total];
      r := Ok(());
    }

    // ---- bonding ----

    /** One bond changed in memory is saved, its total updated, and the rewards corrected. */
    method SaveBond(i: nat, a: Addr, b: Bond) returns (r: Result<()>)
      requires Valid() && i < |cfg.periods|
      modifies this`stakes, this`totals, this`flows
      ensures Ended(r, MoveBond(old(View()), i, a, b))
    {
      var period := cfg.periods[i];
      ghost var before := stakes;
      var powers := CalcRewardsPowers(a);
      var oldStake := StakeOf(BondOf(stakes, a, period));
      var newStake := StakeOf(b);
      stakes := stakes[(a, period) := b];
      r := UpdateTotalStake(i, oldStake, newStake);
      if r.Err? {
        return;
      }
      UpdateAllRewards(a, powers, before);
    }

    method StakeOf(b: Bond) returns (stake: nat)
      ensures stake == Total(b)
    {
      var info := new BondingInfo(b);
      stake := info.TotalStake();
    }

    method Delegate(i: nat, a: Addr, amount: nat) returns (r: Result<()>)
      requires Valid() && i < |cfg.periods|
      modifies this`stakes, this`totals, this`flows
      ensures Ended(r, BondOne(old(View()), i, a, amount))
    {
      var info := new BondingInfo(BondOf(stakes, a, cfg.periods[i]));
      var _ := info.AddUnlockedTokens(amount);
      r := SaveBond(i, a, Bond(info.stake, info.locked));
    }

    method ExecuteMassBond(cw20: Addr, amountSent: nat, period: nat, ds: seq<Delegation>) returns (r: Result<()>)
      requires Valid()
      modifies this
      ensures Ended(r, MassBond(old(View()), cw20, amountSent, period, ds))
    {
      if unbondAll {
        return Err(CannotDelegateIfUnbondAll);
      }
      if cfg.cw20 != cw20 {
        return Err(Cw20AddressesNotMatch);
      }
      var index := SearchPeriod(period);
      if index.None? {
        return Err(NoUnbondingPeriodFound);
      }
      var i := index.value;
      var total := SumDelegations(ds);
      if total > amountSent {
        return Err(MassDelegateTooMuch);
      }
      r := DelegateEach(i, ds);
      if r.Err? {
        return;
      }
      token := token.(staked := token.staked + amountSent);
      lpHeld := lpHeld + amountSent;
      undelegated := undelegated + (amountSent - total);
    }

    method SumDelegations(ds: seq<Delegation>) returns (total: nat)
      ensures total == DelegatedSum(ds)
    {
      total := 0;
      for k := 0 to |ds|
        invariant total == DelegatedSum(ds[..k])
      {
        assert ds[..k + 1][..k] == ds[..k];
        total := total + ds[k].amount;
      }
      assert ds[..|ds|] == ds;
    }

    method DelegateEach(i: nat, ds: seq<Delegation>) returns (r: Result<()>)
      requires Valid() && i < |cfg.periods|
      modifies this`stakes, this`totals, this`flows
      ensures Ended(r, BondEach(old(View()), i, ds))
    {
      ghost var s0: State := View();
      for k := 0 to |ds|
        invariant BondEach(s0, i, ds[..k]) == Ok(View())
      {
        BondEachNext(s0, i, ds, k);
        r := Delegate(i, ds[k].to, ds[k].amount);
        if r.Err? {
          BondEachStops(s0, i, ds, k + 1);
          return;
        }
      }
      assert ds[..|ds|] == ds;
      r := Ok(());
    }

    static lemma BondEachNext(s: State, i: nat, ds: seq<Delegation>, k: nat)
      requires i < |s.cfg.periods| && k < |ds| && BondEach(s, i, ds[..k]).Ok?
      ensures BondEach(s, i, ds[..k + 1]) == BondOne(BondEach(s, i, ds[..k]).value, i, ds[k].to, ds[k].amount)
    {
      assert ds[..k + 1][..k] == ds[..k];
    }

    /** A failure for one delegate is the failure of the whole. */
    static lemma {:induction false} BondEachStops(s: State, i: nat, ds: seq<Delegation>, k: nat)
      requires i < |s.cfg.periods| && k <= |ds| && BondEach(s, i, ds[..k]).Err?
      ensures BondEach(s, i, ds) == BondEach(s, i, ds[..k])
      decreases |ds| - k
    {
      if k == |ds| {
        assert ds[..k] == ds;
      } else {
        assert ds[..k + 1][..k] == ds[..k];
        BondEachStops(s, i, ds, k + 1);
      }
    }

    method ExecuteRebond(now: nat, a: Addr, amount: nat, bondFrom: nat, bondTo: nat) returns (r: Result<()>)
      requires Valid()
      modifies this`stakes, this`totals, this`flows
      ensures Ended(r, Rebond(old(View()), now, a, amount, bondFrom, bondTo))
    {
      if unbondAll {
        return Err(CannotRebondIfUnbondAll);
      }
      if amount == 0 {
        return Err(NoRebondAmount);
      }
      if bondFrom == bondTo {
        return Err(SameUnbondingRebond);
      }
      var i := SearchPeriod(bondFrom);
      if i.None? {
        return Err(NoUnbondingPeriodFound);
      }
      var j := SearchPeriod(bondTo);
      if j.None? {
        return Err(NoUnbondingPeriodFound);
      }
      var from_ := new BondingInfo(BondOf(stakes, a, bondFrom));
      var released := from_.ReleaseStake(now, amount);
      if released.Err? {
        return Err(released.error);
      }
      var raised := RaiseBond(BondOf(stakes, a, bondTo), now, amount, bondFrom, bondTo);
      r := SaveBonds(a, i.value, Bond(from_.stake, from_.locked), j.value, raised);
    }

    /** The bond a rebond ends in: the amount stays locked for the difference if its new period is shorter. */
    method RaiseBond(bond: Bond, now: nat, amount: nat, bondFrom: nat, bondTo: nat) returns (raised: Bond)
      ensures raised == Raised(bond, now, amount, bondFrom, bondTo)
    {
      var to := new BondingInfo(bond);
      if bondFrom > bondTo {
        to.AddLockedTokens(now + (bondFrom - bondTo) * NANOS, amount);
      } else {
        var _ := to.AddUnlockedTokens(amount);
      }
      raised := Bond(to.stake, to.locked);
    }

    /** Both bonds of a rebond saved, then both totals, then one correction for both. */
    method SaveBonds(a: Addr, i: nat, b: Bond, j: nat, c: Bond) returns (r: Result<()>)
      requires Valid() && i < |cfg.periods| && j < |cfg.periods|
      modifies this`stakes, this`totals, this`flows
      ensures Ended(r, MoveBonds(old(View()), a, i, b, j, c))
    {
      var p, q := cfg.periods[i], cfg.periods[j];
      ghost var before := stakes;
      var powers := CalcRewardsPowers(a);
      var oldFrom, oldTo := Total(BondOf(stakes, a, p)), Total(BondOf(stakes, a, q));
      stakes := stakes[(a, p) := b][(a, q) := c];
      r := UpdateTotalStake(i, oldFrom, Total(b));
      if r.Err? {
        return;
      }
      r := UpdateTotalStake(j, oldTo, Total(c));
      if r.Err? {
        return;
      }
      UpdateAllRewards(a, powers, before);
    }

    // ---- unbonding ----

    method RemoveStakeWithoutTotal(now: nat, a: Addr, period: nat, amount: nat) returns (r: Result<()>)
      requires Valid()
      modifies this`stakes, this`totals, this`flows
      ensures Ended(r, RemoveStake(old(View()), now, a, period, amount))
    {
      var index := SearchPeriod(period);
      if index.None? {
        return Err(NoUnbondingPeriodFound);
      }
      var info := new BondingInfo(BondOf(stakes, a, period));
      var released := info.ReleaseStake(now, amount);
      if released.Err? {
        return Err(released.error);
      }
      r := SaveBond(index.value, a, Bond(info.stake, info.locked));
    }

    method Transfer(to: Addr, amount: nat) returns (r: Result<()>)
      requires Valid()
      modifies this`lpHeld, this`sent
      ensures Ended(r, Send(old(View()), to, amount))
    {
      if lpHeld < amount {
        return Err(Overflow);
      }
      lpHeld := lpHeld - amount;
      sent := sent[to := SentTo(sent, to) + amount];
      r := Ok(());
    }

    method ExecuteUnbond(now: nat, a: Addr, amount: nat, period: nat) returns (r: Result<()>)
      requires Valid()
      modifies this
      ensures Ended(r, Unbond(old(View()), now, a, amount, period))
    {
      r := RemoveStakeWithoutTotal(now, a, period, amount);
      if r.Err? {
        return;
      }
      token := TokenInfo(SaturatingMinus(token.staked, amount), token.unbonding + if unbondAll then 0 else amount);
      if unbondAll {
        r := Transfer(a, amount);
      } else {
        claims := claims[a := ClaimsOf(claims, a) + [Claim(amount, now + period * NANOS)]];
      }
    }

    method ExecuteMigrateStake(now: nat, a: Addr, amount: nat, period: nat) returns (r: Result<()>)
      requires Valid()
      modifies this
      ensures Ended(r, MigrateStake(old(View()), now, a, amount, period))
    {
      if cfg.converter.None? {
        return Err(NoConverter);
      }
      r := RemoveStakeWithoutTotal(now, a, period, amount);
      if r.Err? {
        return;
      }
      token := token.(staked := SaturatingMinus(token.staked, amount));
      r := Transfer(cfg.converter.value, amount);
    }

    /** The claims that have matured, summed, and the rest. */
    method ClaimTokens(cs: seq<Claim>, now: nat) returns (release: nat, waiting: seq<Claim>)
      ensures release == Matured(cs, now) && waiting == Waiting(cs, now)
    {
      release, waiting := 0, [];
      for k := 0 to |cs|
        invariant release == Matured(cs[..k], now) && waiting == Waiting(cs[..k], now)
      {
        assert cs[..k + 1][..k] == cs[..k];
        if cs[k].releaseAt <= now {
          release := release + cs[k].amount;
        } else {
          waiting := waiting + [cs[k]];
        }
      }
      assert cs[..|cs|] == cs;
    }

    method ExecuteClaim(now: nat, a: Addr) returns (r: Result<()>)
      requires Valid()
      modifies this
      ensures Ended(r, ClaimMatured(old(View()), now, a))
    {
      var release, waiting := ClaimTokens(ClaimsOf(claims, a), now);
      if release == 0 {
        return Err(NothingToClaim);
      }
      claims := claims[a := waiting];
      token := token.(unbonding := SaturatingMinus(token.unbonding, release));
      r := Transfer(a, release);
    }

    // ---- quick unbonding ----

    /** One staker's bonds force-unlocked and released in every period, counted per period. */
    method ReleaseAll(stored: Stakes, a: Addr, unbonded: seq<nat>)
      returns (after: Stakes, counted: seq<nat>, total: nat)
      requires |unbonded| == |cfg.periods| && StakesMatch(cfg, stored)
      ensures after == ClearStakes(stored, a)
      ensures |counted| == |unbonded|
      ensures forall i | 0 <= i < |counted| :: counted[i] == unbonded[i] + StakeIn(stored, a, cfg.periods[i])
      ensures total == StakeAcross(stored, a, cfg.periods)
    {
      after, counted, total := stored, unbonded, 0;
      for i := 0 to |cfg.periods|
        invariant Emptied(cfg, stored, after, a, i) && |counted| == |unbonded|
        invariant forall j | 0 <= j < |counted| ::
                    counted[j] == unbonded[j] + if j < i then StakeIn(stored, a, cfg.periods[j]) else 0
        invariant total == StakeAcross(stored, a, cfg.periods[..i])
      {
        var period := cfg.periods[i];
        assert cfg.periods[..i + 1][..i] == cfg.periods[..i];
        EmptyOne(cfg, stored, after, a, i);
        var oldStake;
        after, oldStake := ReleasePeriod(after, a, period);
        counted := counted[i := counted[i] + oldStake];
        total := total + oldStake;
      }
      assert cfg.periods[..|cfg.periods|] == cfg.periods;
      AllCleared(cfg, stored, a, after);
    }

    /** The bonds in the first `n` periods are empty and all others as they were. */
    static ghost predicate Emptied(c: Config, stored: Stakes, after: Stakes, a: Addr, n: nat)
      requires n <= |c.periods|
    {
      && after.Keys == stored.Keys
      && (forall k | k in stored && k.0 != a :: after[k] == stored[k])
      && (forall j | 0 <= j < n :: BondOf(after, a, c.periods[j]) == EMPTY)
      && (forall j | n <= j < |c.periods| :: BondOf(after, a, c.periods[j]) == BondOf(stored, a, c.periods[j]))
    }

    static lemma EmptyOne(c: Config, stored: Stakes, after: Stakes, a: Addr, i: nat)
      requires i < |c.periods| && Emptied(c, stored, after, a, i)
      ensures var key := (a, c.periods[i]);
              Emptied(c, stored, if key in after then after[key := EMPTY] else after, a, i + 1)
      ensures StakeIn(after, a, c.periods[i]) == StakeIn(stored, a, c.periods[i])
    {
      PeriodIsNew(c, i);
    }

    /** One period: a stored bond is emptied and its stake reported. */
    method ReleasePeriod(stored: Stakes, a: Addr, period: nat) returns (after: Stakes, oldStake: nat)
      ensures after == if (a, period) in stored then stored[(a, period) := EMPTY] else stored
      ensures oldStake == StakeIn(stored, a, period)
    {
      after, oldStake := stored, 0;
      if (a, period) in stored {
        var b;
        oldStake, b := ReleaseBond(stored[(a, period)]);
        after := stored[(a, period) := b];
      }
    }

    /** A bond unlocked by force and released in full. */
    method ReleaseBond(b: Bond) returns (oldStake: nat, after: Bond)
      ensures oldStake == Total(b) && after == EMPTY
    {
      var info := new BondingInfo(b);
      oldStake := info.TotalStake();
      info.ForceUnlockAll();
      var _ := info.ReleaseStake(0, oldStake);
      after := Bond(info.stake, info.locked);
    }

    static lemma AllCleared(c: Config, stored: Stakes, a: Addr, after: Stakes)
      requires StakesMatch(c, stored) && after.Keys == stored.Keys
      requires forall k | k in stored && k.0 != a :: after[k] == stored[k]
      requires forall j | 0 <= j < |c.periods| :: BondOf(after, a, c.periods[j]) == EMPTY
      ensures after == ClearStakes(stored, a)
    {
      forall k | k in stored ensures after[k] == ClearStakes(stored, a)[k] {
        assert KnownPeriod(c, k.1);
        if k.0 == a {
          var j :| 0 <= j < |c.periods| && c.periods[j] == k.1;
          assert BondOf(after, a, c.periods[j]) == EMPTY;
        }
      }
    }

    static lemma PeriodIsNew(c: Config, i: nat)
      requires i < |c.periods|
      ensures forall j | 0 <= j < |c.periods| && j != i :: c.periods[j] != c.periods[i]
    {
      forall j | 0 <= j < |c.periods| && j != i ensures c.periods[j] != c.periods[i] {
        assert if i < j then Shorter(c.periods, i, j) else Shorter(c.periods, j, i);
      }
    }

    /** The corrections for a staker who keeps no power, skipping distributions without any. */
    method ClearRewards(stored: Stakes, before: map<Asset, Flow>, a: Addr) returns (after: map<Asset, Flow>)
      requires stored == stakes
      ensures after == ClearFlows(cfg, stored, before, a)
    {
      after := before;
      var todo := before.Keys;
      while todo != {}
        invariant after.Keys == before.Keys && todo <= before.Keys
        invariant forall x | x in todo :: after[x] == before[x]
        invariant forall x | x in before.Keys - todo :: after[x] == ClearFlows(cfg, stored, before, a)[x]
        decreases |todo|
      {
        var x :| x in todo;
        var power := CalcRewardsPower(before[x].multipliers, a);
        if power != 0 {
          after := after[x := Correct(before[x], a, power, 0)];
        }
        todo := todo - {x};
      }
    }

    method SumClaims(cs: seq<Claim>) returns (total: nat)
      ensures total == ClaimSum(cs)
    {
      total := 0;
      for k := 0 to |cs|
        invariant total == ClaimSum(cs[..k])
      {
        assert cs[..k + 1][..k] == cs[..k];
        total := total + cs[k].amount;
      }
      assert cs[..|cs|] == cs;
    }

    /** One staker of the list: bonds, corrections and claims cleared, the payment recorded. */
    method SweepStaker(w: Sweep, a: Addr) returns (v: Sweep)
      requires |w.unbonded| == |cfg.periods| && StakesMatch(cfg, w.stakes)
      modifies this`stakes
      ensures v == SweepOne(cfg, w, a) && stakes == v.stakes
    {
      stakes := w.stakes;
      var corrected := ClearRewards(w.stakes, w.flows, a);
      var after, unbonded, total := ReleaseAll(w.stakes, a, w.unbonded);
      stakes := after;
      var open := SumClaims(ClaimsOf(w.claims, a));
      var amount := total + open;
      v := Sweep(after, corrected, w.claims[a := []], unbonded, w.claimed + open,
                 if amount == 0 then w.sent else w.sent[a := SentTo(w.sent, a) + amount], w.paid + amount);
    }

    /** One aggregated update per period, in whatever order the periods come. */
    method ReduceAllTotals(unbonded: seq<nat>) returns (r: Result<()>)
      requires |unbonded| == |totals|
      modifies this`totals
      ensures match r
              case Ok(_) => ReduceTotals(cfg, old(totals), unbonded) == Ok(totals)
              case Err(error) => ReduceTotals(cfg, old(totals), unbonded) == Err(error)
    {
      var todo: set<nat> := {};
      for i := 0 to |totals|
        invariant forall j: nat :: j in todo <==> j < i
      {
        todo := todo + {i};
      }
      ghost var before := totals;
      while todo != {}
        invariant |totals| == |before| && forall i | i in todo :: i < |before| && totals[i] == before[i]
        invariant forall i: nat | i < |before| && i !in todo ::
                  UpdateTotal(cfg, before[i], unbonded[i], 0) == Ok(totals[i])
        decreases |todo|
      {
        var i :| i in todo;
        r := UpdateTotalStake(i, unbonded[i], 0);
        if r.Err? {
          return;
        }
        todo := todo - {i};
      }
      ReduceIs(cfg, before, unbonded, totals);
      r := Ok(());
    }

    static lemma ReduceIs(c: Config, before: seq<TotalStake>, unbonded: seq<nat>, after: seq<TotalStake>)
      requires |before| == |unbonded| == |after|
      requires forall i: nat | i < |before| :: UpdateTotal(c, before[i], unbonded[i], 0) == Ok(after[i])
      ensures ReduceTotals(c, before, unbonded) == Ok(after)
    {
      assert ReduceTotals(c, before, unbonded).Ok?;
      assert ReduceTotals(c, before, unbonded).value == after;
    }

    method SumAmounts(xs: seq<nat>) returns (total: nat)
      ensures total == SeqSum(xs)
    {
      total := 0;
      for k := 0 to |xs|
        invariant total == SeqSum(xs[..k])
      {
        assert xs[..k + 1][..k] == xs[..k];
        total := total + xs[k];
      }
      assert xs[..|xs|] == xs;
    }

    method SweepEach(stakers: seq<Addr>) returns (w: Sweep)
      requires Valid()
      modifies this`stakes
      ensures w == Swept(old(View()), stakers)
    {
      ghost var s0: State := View();
      w := Sweep(stakes, flows, claims, seq(|cfg.periods|, _ => 0), 0, sent, 0);
      for k := 0 to |stakers|
        invariant w == Swept(s0, stakers[..k])
      {
        assert stakers[..k + 1][..k] == stakers[..k];
        w := SweepStaker(w, stakers[k]);
      }
      assert stakers[..|stakers|] == stakers;
    }

    method ExecuteQuickUnbond(a: Addr, stakers: seq<Addr>) returns (r: Result<()>)
      requires Valid()
      modifies this
      ensures Ended(r, QuickUnbond(old(View()), a, stakers))
    {
      if cfg.unbonder != Some(a) {
        return Err(Unauthorized);
      }
      ghost var s0: State := View();
      var w := SweepEach(stakers);
      r := FinishQuickUnbond(w, s0);
    }

    /** After the loop: totals, counters and everything collected are saved. */
    method FinishQuickUnbond(w: Sweep, ghost s: State) returns (r: Result<()>)
      requires |w.unbonded| == |cfg.periods| && StakesMatch(cfg, w.stakes) && FlowsMatch(cfg, w.flows)
      requires View() == s.(stakes := stakes)
      modifies this
      ensures Ended(r, FinishSweep(s, w))
    {
      r := ReduceAllTotals(w.unbonded);
      if r.Err? {
        return;
      }
      var unbondedTotal := SumAmounts(w.unbonded);
      r := SaveSweep(w, unbondedTotal);
    }

    method SaveSweep(w: Sweep, unbondedTotal: nat) returns (r: Result<()>)
      modifies this
      ensures r.Ok? <==>
                old(token.staked) >= unbondedTotal && old(token.unbonding) >= w.claimed && old(lpHeld) >= w.paid
      ensures r.Err? ==> r.error == Overflow
      ensures r.Ok? ==>
                View()
                == old(View()).(token := TokenInfo(old(token.staked) - unbondedTotal,
                                                   old(token.unbonding) - w.claimed),
                                       stakes := w.stakes, flows := w.flows, claims := w.claims, sent := w.sent,
                                       lpHeld := old(lpHeld) - w.paid)
    {
      if token.staked < unbondedTotal || token.unbonding < w.claimed || lpHeld < w.paid {
        return Err(Overflow);
      }
      token := TokenInfo(token.staked - unbondedTotal, token.unbonding - w.claimed);
      stakes, flows, claims, sent, lpHeld := w.stakes, w.flows, w.claims, w.sent, lpHeld - w.paid;
      return Ok(());
    }

    method ExecuteUnbondAll(a: Addr) returns (r: Result<()>)
      requires Valid()
      modifies this`unbondAll
      ensures Ended(r, SetUnbondAll(old(View()), a))
    {
      if cfg.unbonder != Some(a) {
        return Err(Unauthorized);
      }
      if unbondAll {
        return Err(FlagAlreadySet);
      }
      unbondAll := true;
      r := Ok(());
    }

    method ExecuteStopUnbondAll(a: Addr) returns (r: Result<()>)
      requires Valid()
      modifies this`unbondAll
      ensures Ended(r, StopUnbondAll(old(View()), a))
    {
      if cfg.unbonder != Some(a) && admin != Some(a) {
        return Err(Unauthorized);
      }
      if !unbondAll {
        return Err(FlagAlreadySet);
      }
      unbondAll := false;
      r := Ok(());
    }

    method ExecuteUpdateAdmin(a: Addr, next: Option<Addr>) returns (r: Result<()>)
      requires Valid()
      modifies this`admin
      ensures Ended(r, UpdateAdmin(old(View()), a, next))
    {
      if admin != Some(a) {
        return Err(Unauthorized);
      }
      admin := next;
      r := Ok(());
    }

    // ---- rewards ----

    method ExecuteCreateDistributionFlow(a: Addr, asset: Asset, rewards: seq<Multiplier>,
                                         held: nat) returns (r: Result<()>)
      requires Valid()
      modifies this`flows
      ensures Ended(r, CreateFlow(old(View()), a, asset, rewards, held))
    {
      if admin != Some(a) {
        return Err(Unauthorized);
      }
      if asset == Token(cfg.cw20) {
        return Err(InvalidAsset);
      }
      if !PeriodsMatch(cfg, rewards) {
        return Err(InvalidRewards);
      }
      var i := 1;
      while i < |rewards|
        invariant 1 <= i && forall j | 0 <= j < i - 1 && j < |rewards| - 1 :: rewards[j].rate <= rewards[j + 1].rate
      {
        if rewards[i - 1].rate > rewards[i].rate {
          assert exists j | 0 <= j < |rewards| - 1 :: j == i - 1 && rewards[j].rate > rewards[j + 1].rate;
          return Err(InvalidRewards);
        }
        i := i + 1;
      }
      if |flows| >= cfg.maxDistributions {
        return Err(TooManyDistributions);
      }
      if asset in flows {
        return Err(DistributionAlreadyExists);
      }
      flows := flows[asset := Flow(0, 0, 0, 0, rewards, [], map[], held)];
      r := Ok(());
    }

    method UpdateRewardConfig(asset: Asset, amountSent: nat, info: Funding) returns (r: Result<()>)
      modifies this`flows
      ensures match r
              case Ok(_) => FundAsset(old(flows), asset, amountSent, info) == Ok(flows)
              case Err(error) => FundAsset(old(flows), asset, amountSent, info) == Err(error)
    {
      if asset !in flows {
        return Err(NoDistributionFlow);
      }
      if info.amount > amountSent {
        return Err(InvalidRewards);
      }
      var f := flows[asset];
      flows := flows[asset := f.(curve := f.curve + [Schedule(info.start, info.start + info.duration, info.amount)],
                                 balance := f.balance + amountSent)];
      r := Ok(());
    }

    method ExecuteFundDistribution(now: nat, coins: seq<Coin>, info: Funding) returns (r: Result<()>)
      requires Valid()
      modifies this`flows
      ensures Ended(r, Fund(old(View()), now, coins, info))
    {
      if unbondAll {
        return Err(CannotDistributeIfUnbondAll);
      }
      if info.start < now / NANOS {
        return Err(PastStartingTime);
      }
      ghost var before := flows;
      for k := 0 to |coins|
        invariant FundEach(before, coins[..k], info) == Ok(flows)
      {
        assert coins[..k + 1][..k] == coins[..k];
        r := UpdateRewardConfig(Native(coins[k].denom), coins[k].amount, info);
        if r.Err? {
          FundEachStops(before, coins, info, k + 1);
          return;
        }
      }
      assert coins[..|coins|] == coins;
      r := Ok(());
    }

    static lemma {:induction false} FundEachStops(before: map<Asset, Flow>, coins: seq<Coin>, info: Funding, k: nat)
      requires k <= |coins| && FundEach(before, coins[..k], info).Err?
      ensures FundEach(before, coins, info) == FundEach(before, coins[..k], info)
      decreases |coins| - k
    {
      if k == |coins| {
        assert coins[..k] == coins;
      } else {
        assert coins[..k + 1][..k] == coins[..k];
        FundEachStops(before, coins, info, k + 1);
      }
    }

    method ExecuteFundToken(now: nat, contract: Addr, amountSent: nat, info: Funding) returns (r: Result<()>)
      requires Valid()
      modifies this`flows
      ensures Ended(r, FundToken(old(View()), now, contract, amountSent, info))
    {
      if unbondAll {
        return Err(CannotDistributeIfUnbondAll);
      }
      if info.start < now / NANOS {
        return Err(PastStartingTime);
      }
      r := UpdateRewardConfig(Token(contract), amountSent, info);
    }

    /** The bank credits native coins before the message runs. */
    method CreditCoins(coins: seq<Coin>)
      modifies this`flows
      ensures flows == ReceiveEach(old(flows), coins)
    {
      ghost var before := flows;
      for k := 0 to |coins|
        invariant flows == ReceiveEach(before, coins[..k])
      {
        assert coins[..k + 1][..k] == coins[..k];
        var asset := Native(coins[k].denom);
        if asset in flows {
          flows := flows[asset := Receive(flows[asset], coins[k].amount)];
        }
      }
      assert coins[..|coins|] == coins;
    }

    method SumCurve(curve: seq<Schedule>, t: nat) returns (locked: nat)
      ensures locked == CurveValue(curve, t)
    {
      locked := 0;
      for k := 0 to |curve|
        invariant locked == CurveValue(curve[..k], t)
      {
        assert curve[..k + 1][..k] == curve[..k];
        locked := locked + ScheduleValue(curve[k], t);
      }
      assert curve[..|curve|] == curve;
    }

    /** One distribution's turn in the loop. */
    method DistributeTo(f: Flow, seconds: nat) returns (r: Result<Flow>)
      requires |f.multipliers| == |totals|
      ensures r == DistributeFlow(f, TotalPower(cfg, totals, f.multipliers), seconds)
    {
      var total := TotalRewardsPower(f.multipliers);
      if total == 0 {
        return Ok(f);
      }
      var locked := SumCurve(f.curve, seconds);
      if f.balance < f.withdrawable + locked {
        return Err(Overflow);
      }
      var amount := f.balance - f.withdrawable - locked;
      if amount == 0 {
        return Ok(f);
      }
      var points := amount * SHARES + f.leftover;
      var pointsPerShare := points / total;
      r := Ok(f.(leftover := points % total % TWO_64, sharesPerPoint := f.sharesPerPoint + pointsPerShare,
                 distributed := f.distributed + amount, withdrawable := f.withdrawable + amount));
    }

    method ExecuteDistributeRewards(now: nat, coins: seq<Coin>) returns (r: Result<()>)
      requires Valid()
      modifies this`flows
      ensures Ended(r, Distribute(old(View()), now, coins))
    {
      if unbondAll {
        return Err(CannotDistributeIfUnbondAll);
      }
      var supported := AllSupported(coins);
      if !supported {
        return Err(NoDistributionFlow);
      }
      ghost var s0: State := View();
      CreditCoins(coins);
      ReceiveMatches(s0, coins);
      r := DistributeEach(now / NANOS);
    }

    /** Every coin sent along has a distribution. */
    method AllSupported(coins: seq<Coin>) returns (supported: bool)
      ensures supported <==> forall j | 0 <= j < |coins| :: Native(coins[j].denom) in flows
    {
      for k := 0 to |coins|
        invariant forall j | 0 <= j < k :: Native(coins[j].denom) in flows
      {
        if Native(coins[k].denom) !in flows {
          return false;
        }
      }
      return true;
    }

    static lemma ReceiveMatches(s: State, coins: seq<Coin>)
      ensures FlowsMatch(s.cfg, ReceiveEach(s.flows, coins))
    {
      forall x | x in s.flows ensures PeriodsMatch(s.cfg, ReceiveEach(s.flows, coins)[x].multipliers) {
        assert PeriodsMatch(s.cfg, s.flows[x].multipliers);
      }
    }

    static lemma CollectIs(next: map<Asset, Result<Flow>>, all: map<Asset, Flow>)
      requires all.Keys == next.Keys && forall x | x in all :: next[x] == Ok(all[x])
      ensures Collect(next) == Ok(all)
    {
      assert Collect(next).Ok?;
      assert Collect(next).value == all;
    }

    static lemma CollectFails(next: map<Asset, Result<Flow>>, x: Asset)
      requires x in next && next[x].Err?
      ensures Collect(next) == Err(Overflow)
    {
    }

    method DistributeEach(seconds: nat) returns (r: Result<()>)
      requires |totals| == |cfg.periods| && FlowsMatch(cfg, flows)
      modifies this`flows
      ensures match r
              case Ok(_) => Collect(DistributeAll(cfg, totals, old(flows), seconds)) == Ok(flows)
              case Err(error) => Collect(DistributeAll(cfg, totals, old(flows), seconds)) == Err(error)
    {
      ghost var before := flows;
      var todo := flows.Keys;
      while todo != {}
        invariant flows.Keys == before.Keys && todo <= flows.Keys
        invariant forall x | x in todo :: flows[x] == before[x]
        invariant forall x | x in flows.Keys - todo :: DistributeAll(cfg, totals, before, seconds)[x] == Ok(flows[x])
        decreases |todo|
      {
        var x :| x in todo;
        assert PeriodsMatch(cfg, before[x].multipliers);
        var next := DistributeTo(flows[x], seconds);
        assert DistributeAll(cfg, totals, before, seconds)[x] == next;
        if next.Err? {
          CollectFails(DistributeAll(cfg, totals, before, seconds), x);
          return Err(Overflow);
        }
        flows := flows[x := next.value];
        todo := todo - {x};
      }
      CollectIs(DistributeAll(cfg, totals, before, seconds), flows);
      r := Ok(());
    }

    /** One distribution's turn: the owner's reward is recorded and taken from the balance. */
    method WithdrawFrom(f: Flow, owner: Addr) returns (r: Result<Flow>)
      ensures r == WithdrawFlow(cfg, stakes, f, owner)
    {
      var adj := AdjustmentOf(f, owner);
      var power := CalcRewardsPower(f.multipliers, owner);
      var points := f.sharesPerPoint * power + adj.correction;
      var amount := AsU128(points) / SHARES;
      if amount < adj.withdrawn {
        return Err(Overflow);
      }
      var reward := amount - adj.withdrawn;
      if reward == 0 {
        return Ok(f);
      }
      if f.withdrawable < reward || f.balance < reward {
        return Err(Overflow);
      }
      r := Ok(f.(adjustments := f.adjustments[owner := adj.(withdrawn := adj.withdrawn + reward)],
                 withdrawable := f.withdrawable - reward, balance := f.balance - reward));
    }

    method ExecuteWithdrawRewards(a: Addr, owner: Addr) returns (r: Result<()>)
      requires Valid()
      modifies this`flows
      ensures Ended(r, Withdraw(old(View()), a, owner))
    {
      var delegate := if owner in delegated then delegated[owner] else owner;
      if a != owner && a != delegate {
        return Err(Unauthorized);
      }
      r := WithdrawEach(owner);
    }

    method WithdrawEach(owner: Addr) returns (r: Result<()>)
      modifies this`flows
      ensures match r
              case Ok(_) => Collect(WithdrawAll(cfg, stakes, old(flows), owner)) == Ok(flows)
              case Err(error) => Collect(WithdrawAll(cfg, stakes, old(flows), owner)) == Err(error)
    {
      ghost var before, held := flows, stakes;
      var todo := flows.Keys;
      while todo != {}
        invariant flows.Keys == before.Keys && todo <= flows.Keys
        invariant forall x | x in todo :: flows[x] == before[x]
        invariant stakes == held
        invariant forall x | x in flows.Keys - todo :: WithdrawFlow(cfg, held, before[x], owner) == Ok(flows[x])
        decreases |todo|
      {
        var x :| x in todo;
        var next := WithdrawFrom(flows[x], owner);
        if next.Err? {
          CollectFails(WithdrawAll(cfg, held, before, owner), x);
          return Err(Overflow);
        }
        flows := flows[x := next.value];
        todo := todo - {x};
      }
      CollectIs(WithdrawAll(cfg, held, before, owner), flows);
      r := Ok(());
    }

    // ---- the entry point ----

    /** Tokens of a reward asset arrive outside any message. */
    method TakeTransfer(asset: Asset, amount: nat) returns (r: Result<()>)
      requires Valid()
      modifies this`flows
      ensures r == Ok(())
      ensures View() == if asset !in old(flows) then old(View())
                        else old(View()).(flows := old(flows)[asset := Receive(old(flows)[asset], amount)])
    {
      if asset in flows {
        flows := flows[asset := Receive(flows[asset], amount)];
      }
      return Ok(());
    }

    /** `execute`: hands each message to its method. */
    method Dispatch(e: Env, m: Msg) returns (r: Result<()>)
      requires Valid()
      modifies this
      ensures Ended(r, Execute(old(View()), e, m))
    {
      match m {
        case BondMsg(cw20, amount, period, staker) =>
          r := ExecuteMassBond(cw20, amount, period, [Delegation(staker, amount)]);
        case MassBondMsg(cw20, amountSent, period, ds) => r := ExecuteMassBond(cw20, amountSent, period, ds);
        case RebondMsg(amount, bondFrom, bondTo) => r := ExecuteRebond(e.now, e.sender, amount, bondFrom, bondTo);
        case UnbondMsg(amount, period) => r := ExecuteUnbond(e.now, e.sender, amount, period);
        case QuickUnbondMsg(stakers) => r := ExecuteQuickUnbond(e.sender, stakers);
        case ClaimMsg => r := ExecuteClaim(e.now, e.sender);
        case MigrateMsg(amount, period) => r := ExecuteMigrateStake(e.now, e.sender, amount, period);
        case _ => r := DispatchOther(e, m);
      }
    }

    /** The messages about rewards, flags and delegations. */
    method DispatchOther(e: Env, m: Msg) returns (r: Result<()>)
      requires Valid() && !m.BondMsg? && !m.MassBondMsg? && !m.RebondMsg? && !m.UnbondMsg?
      requires !m.QuickUnbondMsg? && !m.ClaimMsg? && !m.MigrateMsg?
      modifies this
      ensures Ended(r, Execute(old(View()), e, m))
    {
      match m {
        case UnbondAllMsg => r := ExecuteUnbondAll(e.sender);
        case StopUnbondAllMsg => r := ExecuteStopUnbondAll(e.sender);
        case CreateFlowMsg(asset, rewards, held) => r := ExecuteCreateDistributionFlow(e.sender, asset, rewards, held);
        case FundMsg(coins, info) => r := ExecuteFundDistribution(e.now, coins, info);
        case FundTokenMsg(contract, amountSent, info) => r := ExecuteFundToken(e.now, contract, amountSent, info);
        case DistributeMsg(coins) => r := ExecuteDistributeRewards(e.now, coins);
        case WithdrawMsg(owner) => r := ExecuteWithdrawRewards(e.sender, owner);
        case DelegateMsg(delegate) =>
          delegated := delegated[e.sender := delegate];
          r := Ok(());
        case UpdateAdminMsg(next) => r := ExecuteUpdateAdmin(e.sender, next);
        case TransferIn(asset, amount) => r := TakeTransfer(asset, amount);
      }
    }

    /** A message tried: a failure puts the storage back. */
    method Attempt(e: Env, m: Msg) returns (r: Result<()>)
      requires Valid()
      modifies this
      ensures r.Ok? ==> Ended(r, Execute(old(View()), e, m))
      ensures r.Err? ==> View() == old(View()) && Execute(old(View()), e, m) == Err(r.error)
    {
      var saved := View();
      r := Dispatch(e, m);
      if r.Err? {
        Restore(saved);
      }
    }

    method Restore(saved: StateData)
      requires saved.cfg == cfg
      modifies this
      ensures View() == saved
    {
      stakes, totals, token, claims, flows := saved.stakes, saved.totals, saved.token, saved.claims, saved.flows;
      delegated, unbondAll, admin := saved.delegated, saved.unbondAll, saved.admin;
      lpHeld, undelegated, sent, clock := saved.lpHeld, saved.undelegated, saved.sent, saved.clock;
    }

    /** A message as the host runs it, at its block time. */
    method ExecuteMessage(e: Env, m: Msg) returns (r: Result<()>)
      requires Valid()
      modifies this
      ensures Valid() && View() == Step(old(View()), e, m)
      ensures match r
              case Ok(_) => Execute(old(View()), e, m).Ok?
              case Err(error) => Execute(old(View()), e, m) == Err(error)
    {
      ghost var s: State := View();
      ghost var outcome := Execute(s, e, m);
      r := Attempt(e, m);
      ghost var t: State := View();
      assert t == if r.Ok? then outcome.value else s;
      Advance(e.now);
      assert View() == Settle(s, outcome, e.now);
    }

    /** The time last seen moves on. */
    method Advance(now: nat)
      requires Valid()
      modifies this`clock
      ensures Valid() && View() == old(View()).(clock := now)
    {
      clock := now;
    }
  }
}
