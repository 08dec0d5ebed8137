/** The storage of the staking contract as a value, and each of its messages as a function from
    one storage to the next. Token transfers are the fields `lpHeld`, `sent` and `balance`. */
module StakeState {
  import opened FixedPoint
  import opened Results
  import opened Bonding

  type Addr = string

  datatype Asset = Token(contract: Addr) | Native(denom: string)

  /** 2^32: one token is this many shares. */
  const SHARES: nat := 0x1_0000_0000

  const TWO_64: nat := 0x1_0000_0000_0000_0000
  const TWO_128: nat := 0x1_0000_0000_0000_0000_0000_0000_0000_0000

  /** What instantiation fixes; `admin` is the first administrator. */
  datatype ConfigData = ConfigData(
    cw20: Addr, tokensPerPower: nat, minBond: nat, periods: seq<nat>, maxDistributions: nat,
    admin: Option<Addr>, unbonder: Option<Addr>, converter: Option<Addr>)

  predicate Shorter(periods: seq<nat>, i: nat, j: nat)
    requires i < |periods| && j < |periods|
  {
    periods[i] < periods[j]
  }

  /** `min_bond` is raised to at least 1 and the periods are sorted when the contract is set up;
      that they are distinct and that `tokens_per_power` is positive is assumed of the deployer. */
  type Config = c: ConfigData |
    && c.minBond >= 1 && c.tokensPerPower > 0
    && forall i, j | 0 <= i < j < |c.periods| :: Shorter(c.periods, i, j)
    witness ConfigData("", 1, 1, [], 0, None, None, None)

  datatype TotalStake = TotalStake(staked: nat, powered: nat)

  datatype TokenInfo = TokenInfo(staked: nat, unbonding: nat)

  datatype Claim = Claim(amount: nat, releaseAt: nat)

  datatype Adjustment = Adjustment(correction: int, withdrawn: nat)

  datatype Multiplier = Multiplier(period: nat, rate: nat)

  /** A reward schedule that locks `amount` until `start` and releases it linearly until `end`. */
  datatype Schedule = Schedule(start: nat, end: nat, amount: nat)

  /** Everything stored about one reward asset, and the contract's balance of it. */
  datatype Flow = Flow(
    sharesPerPoint: nat, leftover: nat, distributed: nat, withdrawable: nat,
    multipliers: seq<Multiplier>, curve: seq<Schedule>, adjustments: map<Addr, Adjustment>, balance: nat)

  type Stakes = map<(Addr, nat), Bond>

  datatype StateData = StateData(
    cfg: Config, stakes: Stakes, totals: seq<TotalStake>, token: TokenInfo, claims: map<Addr, seq<Claim>>,
    flows: map<Asset, Flow>, delegated: map<Addr, Addr>, unbondAll: bool,
    admin: Option<Addr>, lpHeld: nat, undelegated: nat, sent: map<Addr, nat>, clock: nat)

  predicate PeriodsMatch(cfg: Config, multipliers: seq<Multiplier>) {
    && |multipliers| == |cfg.periods|
    && forall i | 0 <= i < |multipliers| :: multipliers[i].period == cfg.periods[i]
  }

  predicate StakesMatch(cfg: Config, stakes: Stakes) {
    forall k {:trigger KnownPeriod(cfg, k.1)} | k in stakes :: KnownPeriod(cfg, k.1)
  }

  predicate KnownPeriod(cfg: Config, period: nat) {
    period in cfg.periods
  }

  predicate FlowsMatch(cfg: Config, flows: map<Asset, Flow>) {
    forall a {:trigger PeriodsMatch(cfg, flows[a].multipliers)} | a in flows :: PeriodsMatch(cfg, flows[a].multipliers)
  }

  predicate Shaped(s: StateData) {
    && |s.totals| == |s.cfg.periods|
    && StakesMatch(s.cfg, s.stakes)
    && FlowsMatch(s.cfg, s.flows)
  }

  type State = s: StateData | Shaped(s)
    witness StateData(ConfigData("", 1, 1, [], 0, None, None, None), map[], [], TokenInfo(0, 0), map[],
                      map[], map[], false, None, 0, 0, map[], 0)

  datatype Env = Env(now: nat, sender: Addr)

  // ---- reading ----

  function BondOf(stakes: Stakes, a: Addr, period: nat): Bond {
    if (a, period) in stakes then stakes[(a, period)] else EMPTY
  }

  function StakeIn(stakes: Stakes, a: Addr, period: nat): nat {
    Total(BondOf(stakes, a, period))
  }

  function AdjustmentOf(f: Flow, a: Addr): Adjustment {
    if a in f.adjustments then f.adjustments[a] else Adjustment(0, 0)
  }

  function ClaimsOf(claims: map<Addr, seq<Claim>>, a: Addr): seq<Claim> {
    if a in claims then claims[a] else []
  }

  function SentTo(sent: map<Addr, nat>, a: Addr): nat {
    if a in sent then sent[a] else 0
  }

  function FindPeriod(periods: seq<nat>, period: nat): (r: Option<nat>)
    ensures r.Some? ==> r.value < |periods| && periods[r.value] == period
    ensures r.None? ==> period !in periods
  {
    if periods == [] then None
    else if periods[|periods| - 1] == period then Some(|periods| - 1)
    else FindPeriod(periods[..|periods| - 1], period)
  }

  // ---- power ----

  function CalcPower(cfg: Config, stake: nat, rate: nat): nat {
    if stake < cfg.minBond then 0 else Floor(Scale(stake, rate), cfg.tokensPerPower)
  }

  /** A staker's power in a distribution: the sum over all unbonding periods. */
  function RewardsPower(cfg: Config, stakes: Stakes, multipliers: seq<Multiplier>, a: Addr): nat {
    if multipliers == [] then 0
    else
      var last := multipliers[|multipliers| - 1];
      RewardsPower(cfg, stakes, multipliers[..|multipliers| - 1], a)
      + CalcPower(cfg, StakeIn(stakes, a, last.period), last.rate)
  }

  /** The total power the contract divides a distribution by, from the stored powered totals. */
  function TotalPower(cfg: Config, totals: seq<TotalStake>, multipliers: seq<Multiplier>): nat
    requires |totals| == |multipliers|
  {
    if multipliers == [] then 0
    else
      var n := |multipliers| - 1;
      TotalPower(cfg, totals[..n], multipliers[..n]) + CalcPower(cfg, totals[n].powered, multipliers[n].rate)
  }

  // ---- totals and corrections ----

  function UpdateTotal(cfg: Config, t: TotalStake, oldStake: nat, newStake: nat): Result<TotalStake> {
    var staked :- if oldStake <= newStake then Ok(t.staked + (newStake - oldStake))
                  else Minus(t.staked, oldStake - newStake);
    var powered :-
      if oldStake < cfg.minBond && newStake < cfg.minBond then Ok(t.powered)
      else if oldStake < cfg.minBond then Ok(t.powered + newStake)
      else if newStake < cfg.minBond then Minus(t.powered, oldStake)
      else if newStake >= oldStake then Ok(t.powered + (newStake - oldStake))
      else Minus(t.powered, oldStake - newStake);
    Ok(TotalStake(staked, powered))
  }

  function UpdateTotals(cfg: Config, totals: seq<TotalStake>, i: nat, oldStake: nat, newStake: nat)
      : (r: Result<seq<TotalStake>>)
    requires i < |totals|
    ensures r.Ok? ==> |r.value| == |totals|
  {
    var t :- UpdateTotal(cfg, totals[i], oldStake, newStake);
    Ok(totals[i := t])
  }

  /** The points correction that keeps a staker's shares unchanged when the power moves. */
  function Correct(f: Flow, a: Addr, oldPower: nat, newPower: nat): Flow {
    if oldPower == newPower then f
    else
      var adj := AdjustmentOf(f, a);
      f.(adjustments :=
           f.adjustments[a := adj.(correction := adj.correction - f.sharesPerPoint * (newPower - oldPower))])
  }

  function Recorrect(cfg: Config, before: Stakes, after: Stakes, f: Flow, a: Addr): Flow {
    Correct(f, a, RewardsPower(cfg, before, f.multipliers, a), RewardsPower(cfg, after, f.multipliers, a))
  }

  function CorrectFlows(cfg: Config, before: Stakes, after: Stakes, flows: map<Asset, Flow>, a: Addr): map<Asset,
                        Flow> {
    map x | x in flows :: Recorrect(cfg, before, after, flows[x], a)
  }

  /** The storage after one staker's bonds changed: new totals, and corrections in every flow. */
  function Restake(s: State, stakes: Stakes, totals: seq<TotalStake>, a: Addr): (t: State)
    requires StakesMatch(s.cfg, stakes) && |totals| == |s.totals|
    ensures t == s.(stakes := stakes, totals := totals, flows := CorrectFlows(s.cfg, s.stakes, stakes, s.flows, a))
  {
    var flows := CorrectFlows(s.cfg, s.stakes, stakes, s.flows, a);
    assert FlowsMatch(s.cfg, flows);
    s.(stakes := stakes, totals := totals, flows := flows)
  }

  function PutBond(cfg: Config, stakes: Stakes, a: Addr, period: nat, b: Bond): (r: Stakes)
    requires StakesMatch(cfg, stakes) && period in cfg.periods
    ensures StakesMatch(cfg, r)
  {
    stakes[(a, period) := b]
  }

  /** One bond replaced, with its period's total and all corrections brought up to date. */
  function MoveBond(s: State, i: nat, a: Addr, b: Bond): Result<State>
    requires i < |s.cfg.periods|
  {
    var period := s.cfg.periods[i];
    var totals :- UpdateTotals(s.cfg, s.totals, i, StakeIn(s.stakes, a, period), Total(b));
    Ok(Restake(s, PutBond(s.cfg, s.stakes, a, period, b), totals, a))
  }

  /** Two bonds of one staker replaced: both stakes first, then both totals, then one correction. */
  function MoveBonds(s: State, a: Addr, i: nat, b: Bond, j: nat, c: Bond): Result<State>
    requires i < |s.cfg.periods| && j < |s.cfg.periods|
  {
    var p, q := s.cfg.periods[i], s.cfg.periods[j];
    var stakes := PutBond(s.cfg, PutBond(s.cfg, s.stakes, a, p, b), a, q, c);
    var totals :- UpdateTotals(s.cfg, s.totals, i, StakeIn(s.stakes, a, p), Total(b));
    var totals' :- UpdateTotals(s.cfg, totals, j, StakeIn(s.stakes, a, q), Total(c));
    Ok(Restake(s, stakes, totals', a))
  }

  // ---- bonding ----

  function BondOne(s: State, i: nat, a: Addr, amount: nat): Result<State>
    requires i < |s.cfg.periods|
  {
    MoveBond(s, i, a, AddUnlocked(BondOf(s.stakes, a, s.cfg.periods[i]), amount))
  }

  datatype Delegation = Delegation(to: Addr, amount: nat)

  function DelegatedSum(ds: seq<Delegation>): nat {
    if ds == [] then 0 else DelegatedSum(ds[..|ds| - 1]) + ds[|ds| - 1].amount
  }

  function BondEach(s: State, i: nat, ds: seq<Delegation>): (r: Result<State>)
    requires i < |s.cfg.periods|
    ensures r.Ok? ==> r.value.cfg == s.cfg
  {
    if ds == [] then Ok(s)
    else
      var front :- BondEach(s, i, ds[..|ds| - 1]);
      BondOne(front, i, ds[|ds| - 1].to, ds[|ds| - 1].amount)
  }

  function MassBond(s: State, cw20: Addr, sent: nat, period: nat, ds: seq<Delegation>): Result<State> {
    if s.unbondAll then Err(CannotDelegateIfUnbondAll)
    else if s.cfg.cw20 != cw20 then Err(Cw20AddressesNotMatch)
    else
      match FindPeriod(s.cfg.periods, period)
      case None => Err(NoUnbondingPeriodFound)
      case Some(i) =>
        if DelegatedSum(ds) > sent then Err(MassDelegateTooMuch)
        else
          var t :- BondEach(s, i, ds);
          Ok(t.(token := t.token.(staked := t.token.staked + sent),
                lpHeld := t.lpHeld + sent, undelegated := t.undelegated + (sent - DelegatedSum(ds))))
  }

  /** The bond moved to: locked for the difference when the new period is shorter. */
  function Raised(b: Bond, now: nat, amount: nat, bondFrom: nat, bondTo: nat): Bond {
    if bondFrom > bondTo then AddLocked(b, now + (bondFrom - bondTo) * NANOS, amount) else AddUnlocked(b, amount)
  }

  function Rebond(s: State, now: nat, a: Addr, amount: nat, bondFrom: nat, bondTo: nat): Result<State> {
    if s.unbondAll then Err(CannotRebondIfUnbondAll)
    else if amount == 0 then Err(NoRebondAmount)
    else if bondFrom == bondTo then Err(SameUnbondingRebond)
    else
      match (FindPeriod(s.cfg.periods, bondFrom), FindPeriod(s.cfg.periods, bondTo))
      case (Some(i), Some(j)) =>
        var reduced :- Release(BondOf(s.stakes, a, bondFrom), now, amount);
        MoveBonds(s, a, i, reduced, j, Raised(BondOf(s.stakes, a, bondTo), now, amount, bondFrom, bondTo))
      case _ => Err(NoUnbondingPeriodFound)
  }

  // ---- unbonding ----

  function RemoveStake(s: State, now: nat, a: Addr, period: nat, amount: nat): Result<State> {
    match FindPeriod(s.cfg.periods, period)
    case None => Err(NoUnbondingPeriodFound)
    case Some(i) =>
      var reduced :- Release(BondOf(s.stakes, a, period), now, amount);
      MoveBond(s, i, a, reduced)
  }

  function SaturatingMinus(a: nat, b: nat): nat {
    if b <= a then a - b else 0
  }

  /** A transfer of staked tokens out of the contract; the token refuses what is not held. */
  function Send(s: State, to: Addr, amount: nat): Result<State> {
    var held :- Minus(s.lpHeld, amount);
    Ok(s.(lpHeld := held, sent := s.sent[to := SentTo(s.sent, to) + amount]))
  }

  function Unbond(s: State, now: nat, a: Addr, amount: nat, period: nat): Result<State> {
    var t :- RemoveStake(s, now, a, period, amount);
    Unbonded(t, now, a, amount, period)
  }

  /** Removed stake becomes a claim, or leaves at once while unbonding is lifted for all. */
  function Unbonded(t: State, now: nat, a: Addr, amount: nat, period: nat): Result<State> {
    var token := TokenInfo(SaturatingMinus(t.token.staked, amount),
                           t.token.unbonding + if t.unbondAll then 0 else amount);
    var u := t.(token := token);
    if t.unbondAll then Send(u, a, amount)
    else Ok(u.(claims := u.claims[a := ClaimsOf(u.claims, a) + [Claim(amount, now + period * NANOS)]]))
  }

  function MigrateStake(s: State, now: nat, a: Addr, amount: nat, period: nat): Result<State> {
    match s.cfg.converter
    case None => Err(NoConverter)
    case Some(converter) =>
      var t :- RemoveStake(s, now, a, period, amount);
      Migrated(t, converter, amount)
  }

  /** Removed stake leaves for the converter at once. */
  function Migrated(t: State, converter: Addr, amount: nat): Result<State> {
    Send(t.(token := t.token.(staked := SaturatingMinus(t.token.staked, amount))), converter, amount)
  }

  function ClaimSum(claims: seq<Claim>): nat {
    if claims == [] then 0 else ClaimSum(claims[..|claims| - 1]) + claims[|claims| - 1].amount
  }

  /** What the claims mature to by time `t`. */
  function Matured(claims: seq<Claim>, t: nat): nat {
    if claims == [] then 0
    else
      var last := claims[|claims| - 1];
      Matured(claims[..|claims| - 1], t) + if last.releaseAt <= t then last.amount else 0
  }

  function Waiting(claims: seq<Claim>, t: nat): seq<Claim> {
    if claims == [] then []
    else
      var rest := Waiting(claims[..|claims| - 1], t);
      var last := claims[|claims| - 1];
      if last.releaseAt <= t then rest else rest + [last]
  }

  function ClaimMatured(s: State, now: nat, a: Addr): Result<State> {
    var release := Matured(ClaimsOf(s.claims, a), now);
    if release == 0 then Err(NothingToClaim)
    else
      Send(s.(claims := s.claims[a := Waiting(ClaimsOf(s.claims, a), now)],
              token := s.token.(unbonding := SaturatingMinus(s.token.unbonding, release))), a, release)
  }

  // ---- quick unbonding ----

  /** What the loop over the stakers has changed so far; `unbonded` is indexed by period. */
  datatype Sweep = Sweep(stakes: Stakes, flows: map<Asset, Flow>, claims: map<Addr, seq<Claim>>,
                         unbonded: seq<nat>, claimed: nat, sent: map<Addr, nat>, paid: nat)

  function ClearStakes(stakes: Stakes, a: Addr): Stakes {
    map k | k in stakes :: if k.0 == a then EMPTY else stakes[k]
  }

  /** The corrections for a staker whose power drops to nothing. */
  function ClearFlows(cfg: Config, stakes: Stakes, flows: map<Asset, Flow>, a: Addr): map<Asset, Flow> {
    map x | x in flows :: Correct(flows[x], a, RewardsPower(cfg, stakes, flows[x].multipliers, a), 0)
  }

  /** A staker's stake in all the given periods. */
  function StakeAcross(stakes: Stakes, a: Addr, periods: seq<nat>): nat {
    if periods == [] then 0
    else StakeAcross(stakes, a, periods[..|periods| - 1]) + StakeIn(stakes, a, periods[|periods| - 1])
  }

  function SeqSum(xs: seq<nat>): nat {
    if xs == [] then 0 else SeqSum(xs[..|xs| - 1]) + xs[|xs| - 1]
  }

  function SweepOne(cfg: Config, w: Sweep, a: Addr): (r: Sweep)
    requires |w.unbonded| == |cfg.periods|
    ensures |r.unbonded| == |cfg.periods|
  {
    var open := ClaimSum(ClaimsOf(w.claims, a));
    var amount := StakeAcross(w.stakes, a, cfg.periods) + open;
    Sweep(ClearStakes(w.stakes, a),
          ClearFlows(cfg, w.stakes, w.flows, a),
          w.claims[a := []],
          seq(|cfg.periods|, i requires 0 <= i < |cfg.periods| => w.unbonded[i] + StakeIn(w.stakes, a, cfg.periods[i])),
          w.claimed + open,
          if amount == 0 then w.sent else w.sent[a := SentTo(w.sent, a) + amount],
          w.paid + amount)
  }

  function SweepAll(cfg: Config, w: Sweep, stakers: seq<Addr>): (r: Sweep)
    requires |w.unbonded| == |cfg.periods|
    ensures |r.unbonded| == |cfg.periods|
  {
    if stakers == [] then w
    else SweepOne(cfg, SweepAll(cfg, w, stakers[..|stakers| - 1]), stakers[|stakers| - 1])
  }

  function StartSweep(s: State): (w: Sweep)
    ensures |w.unbonded| == |s.cfg.periods|
  {
    Sweep(s.stakes, s.flows, s.claims, seq(|s.cfg.periods|, _ => 0), 0, s.sent, 0)
  }

  /** One aggregated update per period, in no particular order; any underflow aborts. */
  function ReduceTotals(cfg: Config, totals: seq<TotalStake>, unbonded: seq<nat>): (r: Result<seq<TotalStake>>)
    requires |totals| == |unbonded|
    ensures r.Ok? ==> |r.value| == |totals|
  {
    if forall i | 0 <= i < |totals| :: UpdateTotal(cfg, totals[i], unbonded[i], 0).Ok?
    then Ok(seq(|totals|, i requires 0 <= i < |totals| && UpdateTotal(cfg, totals[i], unbonded[i], 0).Ok?
                            => UpdateTotal(cfg, totals[i], unbonded[i], 0).value))
    else Err(Overflow)
  }

  /** The storage once the sweep is over: the totals updated, and everything else as swept. */
  function FinishSweep(s: State, w: Sweep): Result<State>
    requires |w.unbonded| == |s.cfg.periods| && StakesMatch(s.cfg, w.stakes) && FlowsMatch(s.cfg, w.flows)
  {
    var totals :- ReduceTotals(s.cfg, s.totals, w.unbonded);
    var staked :- Minus(s.token.staked, SeqSum(w.unbonded));
    var unbonding :- Minus(s.token.unbonding, w.claimed);
    var held :- Minus(s.lpHeld, w.paid);
    Ok(s.(stakes := w.stakes, totals := totals, token := TokenInfo(staked, unbonding), claims := w.claims,
          flows := w.flows, sent := w.sent, lpHeld := held))
  }

  function Swept(s: State, stakers: seq<Addr>): (w: Sweep)
    ensures |w.unbonded| == |s.cfg.periods| && StakesMatch(s.cfg, w.stakes) && FlowsMatch(s.cfg, w.flows)
  {
    var w := SweepAll(s.cfg, StartSweep(s), stakers);
    SweepShape(s, stakers);
    assert StakesMatch(s.cfg, w.stakes) && FlowsMatch(s.cfg, w.flows);
    w
  }

  function QuickUnbond(s: State, a: Addr, stakers: seq<Addr>): Result<State> {
    if s.cfg.unbonder != Some(a) then Err(Unauthorized) else FinishSweep(s, Swept(s, stakers))
  }

  lemma {:induction false} SweepShape(s: State, stakers: seq<Addr>)
    ensures var w := SweepAll(s.cfg, StartSweep(s), stakers);
            && w.stakes.Keys == s.stakes.Keys
            && w.flows.Keys == s.flows.Keys
            && forall asset | asset in s.flows :: w.flows[asset].multipliers == s.flows[asset].multipliers
  {
    if stakers != [] {
      SweepShape(s, stakers[..|stakers| - 1]);
    }
  }

  function SetUnbondAll(s: State, a: Addr): Result<State> {
    if s.cfg.unbonder != Some(a) then Err(Unauthorized)
    else if s.unbondAll then Err(FlagAlreadySet)
    else Ok(s.(unbondAll := true))
  }

  function StopUnbondAll(s: State, a: Addr): Result<State> {
    if s.cfg.unbonder != Some(a) && s.admin != Some(a) then Err(Unauthorized)
    else if !s.unbondAll then Err(FlagAlreadySet)
    else Ok(s.(unbondAll := false))
  }

  function UpdateAdmin(s: State, a: Addr, admin: Option<Addr>): Result<State> {
    if s.admin != Some(a) then Err(Unauthorized) else Ok(s.(admin := admin))
  }

  // ---- rewards ----

  /** `held` is what the contract already holds of the asset. */
  function CreateFlow(s: State, a: Addr, asset: Asset, rewards: seq<Multiplier>, held: nat): Result<State> {
    if s.admin != Some(a) then Err(Unauthorized)
    else if asset == Token(s.cfg.cw20) then Err(InvalidAsset)
    else if !PeriodsMatch(s.cfg, rewards) then Err(InvalidRewards)
    else if exists i | 0 <= i < |rewards| - 1 :: rewards[i].rate > rewards[i + 1].rate then Err(InvalidRewards)
    else if |s.flows| >= s.cfg.maxDistributions then Err(TooManyDistributions)
    else if asset in s.flows then Err(DistributionAlreadyExists)
    else Ok(s.(flows := s.flows[asset := Flow(0, 0, 0, 0, rewards, [], map[], held)]))
  }

  function ScheduleValue(c: Schedule, t: nat): (v: nat)
    ensures v <= c.amount
  {
    if t <= c.start then c.amount
    else if c.end <= t then 0
    else c.amount - UnlockedPart(c, t)
  }

  /** The interpolated part of a schedule already released at `t`. */
  function UnlockedPart(c: Schedule, t: nat): (v: nat)
    requires c.start < t < c.end
    ensures v <= c.amount
  {
    var ratio := Ratio(t - c.start, c.end - c.start);
    FloorAtMost((t - c.start) * ONE, c.end - c.start, ONE);
    MulMono(ratio, ONE, c.amount);
    FloorAtMost(c.amount * ratio, ONE, c.amount);
    Scale(c.amount, ratio)
  }

  /** Combined schedules lock the sum of what each locks. */
  function CurveValue(curve: seq<Schedule>, t: nat): nat {
    if curve == [] then 0 else CurveValue(curve[..|curve| - 1], t) + ScheduleValue(curve[|curve| - 1], t)
  }

  datatype Funding = Funding(start: nat, duration: nat, amount: nat)

  /** One asset funded: the tokens arrive and the schedule is added to the asset's curve. */
  function FundAsset(flows: map<Asset, Flow>, asset: Asset, sent: nat, info: Funding): Result<map<Asset, Flow>> {
    if asset !in flows then Err(NoDistributionFlow)
    else if info.amount > sent then Err(InvalidRewards)
    else
      var f := flows[asset];
      Ok(flows[asset := f.(curve := f.curve + [Schedule(info.start, info.start + info.duration, info.amount)],
                           balance := f.balance + sent)])
  }

  datatype Coin = Coin(denom: string, amount: nat)

  function FundEach(flows: map<Asset, Flow>, coins: seq<Coin>, info: Funding): Result<map<Asset, Flow>> {
    if coins == [] then Ok(flows)
    else
      var front :- FundEach(flows, coins[..|coins| - 1], info);
      FundAsset(front, Native(coins[|coins| - 1].denom), coins[|coins| - 1].amount, info)
  }

  function Fund(s: State, now: nat, coins: seq<Coin>, info: Funding): Result<State> {
    if s.unbondAll then Err(CannotDistributeIfUnbondAll)
    else if info.start < now / NANOS then Err(PastStartingTime)
    else
      var flows :- FundEach(s.flows, coins, info);
      FundEachShape(s.cfg, s.flows, coins, info);
      assert FlowsMatch(s.cfg, flows);
      Ok(s.(flows := flows))
  }

  function FundToken(s: State, now: nat, token: Addr, sent: nat, info: Funding): Result<State> {
    if s.unbondAll then Err(CannotDistributeIfUnbondAll)
    else if info.start < now / NANOS then Err(PastStartingTime)
    else
      var flows :- FundAsset(s.flows, Token(token), sent, info);
      Ok(s.(flows := flows))
  }

  lemma {:induction false} FundEachShape(cfg: Config, flows: map<Asset, Flow>, coins: seq<Coin>, info: Funding)
    requires forall a | a in flows :: PeriodsMatch(cfg, flows[a].multipliers)
    ensures var r := FundEach(flows, coins, info);
            r.Ok? ==> r.value.Keys == flows.Keys
                      && forall a | a in flows :: r.value[a].multipliers == flows[a].multipliers
  {
    if coins != [] {
      FundEachShape(cfg, flows, coins[..|coins| - 1], info);
    }
  }

  function Receive(f: Flow, amount: nat): Flow {
    f.(balance := f.balance + amount)
  }

  /** Native coins that arrive with a message. */
  function ReceiveEach(flows: map<Asset, Flow>, coins: seq<Coin>): (r: map<Asset, Flow>)
    ensures r.Keys == flows.Keys
    ensures forall a | a in flows :: r[a] == flows[a].(balance := r[a].balance) && flows[a].balance <= r[a].balance
  {
    if coins == [] then flows
    else
      var front := ReceiveEach(flows, coins[..|coins| - 1]);
      var asset := Native(coins[|coins| - 1].denom);
      if asset in front then front[asset := Receive(front[asset], coins[|coins| - 1].amount)] else front
  }

  /** What a distribution would hand out: the balance that is neither owed nor still locked. */
  function Distributable(f: Flow, seconds: nat): int {
    f.balance - f.withdrawable - CurveValue(f.curve, seconds)
  }

  function PointsPerShare(f: Flow, total: nat, amount: nat): nat
    requires total > 0
  {
    (amount * SHARES + f.leftover) / total
  }

  function DistributeFlow(f: Flow, total: nat, seconds: nat): (r: Result<Flow>)
    ensures r.Ok? ==> r.value.multipliers == f.multipliers
  {
    if total == 0 then Ok(f)
    else if Distributable(f, seconds) < 0 then Err(Overflow)
    else if Distributable(f, seconds) == 0 then Ok(f)
    else
      var amount: nat := Distributable(f, seconds);
      Ok(f.(leftover := (amount * SHARES + f.leftover) % total % TWO_64,
            sharesPerPoint := f.sharesPerPoint + PointsPerShare(f, total, amount),
            distributed := f.distributed + amount,
            withdrawable := f.withdrawable + amount))
  }

  /** All the flows updated, or the first failure. */
  function Collect(next: map<Asset, Result<Flow>>): (r: Result<map<Asset, Flow>>)
    ensures r.Ok? <==> forall a | a in next :: next[a].Ok?
    ensures r.Ok? ==> r.value.Keys == next.Keys && forall a | a in next :: r.value[a] == next[a].value
    ensures r.Err? ==> r.error == Overflow
  {
    if forall a | a in next :: next[a].Ok? then Ok(map a | a in next :: next[a].value) else Err(Overflow)
  }

  function DistributeAll(cfg: Config, totals: seq<TotalStake>, flows: map<Asset, Flow>, seconds: nat)
      : map<Asset, Result<Flow>>
    requires |totals| == |cfg.periods| && FlowsMatch(cfg, flows)
  {
    map a | a in flows :: DistributeOne(cfg, totals, flows[a], seconds)
  }

  function DistributeOne(cfg: Config, totals: seq<TotalStake>, f: Flow, seconds: nat): Result<Flow>
    requires |totals| == |cfg.periods| && PeriodsMatch(cfg, f.multipliers)
  {
    DistributeFlow(f, TotalPower(cfg, totals, f.multipliers), seconds)
  }

  function Distribute(s: State, now: nat, coins: seq<Coin>): Result<State> {
    if s.unbondAll then Err(CannotDistributeIfUnbondAll)
    else if exists i | 0 <= i < |coins| :: Native(coins[i].denom) !in s.flows then Err(NoDistributionFlow)
    else
      var received := ReceiveEach(s.flows, coins);
      assert FlowsMatch(s.cfg, received);
      var flows :- Collect(DistributeAll(s.cfg, s.totals, received, now / NANOS));
      assert FlowsMatch(s.cfg, flows);
      Ok(s.(flows := flows))
  }

  /** A staker's entitlement in shares: power times the per-point counter, plus the correction. */
  function Entitlement(cfg: Config, stakes: Stakes, f: Flow, a: Addr): int {
    f.sharesPerPoint * RewardsPower(cfg, stakes, f.multipliers, a) + AdjustmentOf(f, a).correction
  }

  /** A signed 128-bit number reinterpreted as unsigned. */
  function AsU128(x: int): int {
    if x < 0 then x + TWO_128 else x
  }

  function Withdrawable(cfg: Config, stakes: Stakes, f: Flow, a: Addr): int {
    AsU128(Entitlement(cfg, stakes, f, a)) / SHARES - AdjustmentOf(f, a).withdrawn
  }

  function WithdrawFlow(cfg: Config, stakes: Stakes, f: Flow, owner: Addr): (r: Result<Flow>)
    ensures r.Ok? ==> r.value.multipliers == f.multipliers
  {
    var reward := Withdrawable(cfg, stakes, f, owner);
    if reward < 0 then Err(Overflow)
    else if reward == 0 then Ok(f)
    else
      var withdrawable :- Minus(f.withdrawable, reward);
      var balance :- Minus(f.balance, reward);
      var adj := AdjustmentOf(f, owner);
      Ok(f.(adjustments := f.adjustments[owner := adj.(withdrawn := adj.withdrawn + reward)],
            withdrawable := withdrawable, balance := balance))
  }

  function WithdrawAll(cfg: Config, stakes: Stakes, flows: map<Asset, Flow>, owner: Addr): map<Asset, Result<Flow>> {
    map asset | asset in flows :: WithdrawFlow(cfg, stakes, flows[asset], owner)
  }

  function Withdraw(s: State, a: Addr, owner: Addr): Result<State> {
    var delegate := if owner in s.delegated then s.delegated[owner] else owner;
    if a != owner && a != delegate then Err(Unauthorized)
    else
      var flows :- Collect(WithdrawAll(s.cfg, s.stakes, s.flows, owner));
      assert FlowsMatch(s.cfg, flows);
      Ok(s.(flows := flows))
  }

  // ---- messages and runs ----

  datatype Msg =
    | BondMsg(cw20: Addr, amount: nat, period: nat, staker: Addr)
    | MassBondMsg(cw20: Addr, sent: nat, period: nat, delegations: seq<Delegation>)
    | RebondMsg(amount: nat, bondFrom: nat, bondTo: nat)
    | UnbondMsg(amount: nat, period: nat)
    | QuickUnbondMsg(stakers: seq<Addr>)
    | UnbondAllMsg
    | StopUnbondAllMsg
    | ClaimMsg
    | MigrateMsg(amount: nat, period: nat)
    | CreateFlowMsg(asset: Asset, rewards: seq<Multiplier>, held: nat)
    | FundMsg(coins: seq<Coin>, info: Funding)
    | FundTokenMsg(token: Addr, sent: nat, info: Funding)
    | DistributeMsg(coins: seq<Coin>)
    | WithdrawMsg(owner: Addr)
    | DelegateMsg(delegate: Addr)
    | UpdateAdminMsg(admin: Option<Addr>)
    /** Somebody sends the contract reward tokens outside any message. */
    | TransferIn(asset: Asset, amount: nat)

  function Execute(s: State, e: Env, m: Msg): Result<State> {
    match m
    case BondMsg(cw20, amount, period, staker) => MassBond(s, cw20, amount, period, [Delegation(staker, amount)])
    case MassBondMsg(cw20, sent, period, ds) => MassBond(s, cw20, sent, period, ds)
    case RebondMsg(amount, bondFrom, bondTo) => Rebond(s, e.now, e.sender, amount, bondFrom, bondTo)
    case UnbondMsg(amount, period) => Unbond(s, e.now, e.sender, amount, period)
    case QuickUnbondMsg(stakers) => QuickUnbond(s, e.sender, stakers)
    case UnbondAllMsg => SetUnbondAll(s, e.sender)
    case StopUnbondAllMsg => StopUnbondAll(s, e.sender)
    case ClaimMsg => ClaimMatured(s, e.now, e.sender)
    case MigrateMsg(amount, period) => MigrateStake(s, e.now, e.sender, amount, period)
    case CreateFlowMsg(asset, rewards, held) => CreateFlow(s, e.sender, asset, rewards, held)
    case FundMsg(coins, info) => Fund(s, e.now, coins, info)
    case FundTokenMsg(token, sent, info) => FundToken(s, e.now, token, sent, info)
    case DistributeMsg(coins) => Distribute(s, e.now, coins)
    case WithdrawMsg(owner) => Withdraw(s, e.sender, owner)
    case DelegateMsg(delegate) => Ok(s.(delegated := s.delegated[e.sender := delegate]))
    case UpdateAdminMsg(admin) => UpdateAdmin(s, e.sender, admin)
    case TransferIn(asset, amount) =>
      Ok(if asset in s.flows then s.(flows := s.flows[asset := Receive(s.flows[asset], amount)]) else s)
  }

  /** A message that fails changes nothing but the time. */
  function Settle(s: State, r: Result<State>, now: nat): State {
    match r
    case Ok(t) => t.(clock := now)
    case Err(_) => s.(clock := now)
  }

  function Step(s: State, e: Env, m: Msg): State {
    Settle(s, Execute(s, e, m), e.now)
  }

  datatype Event = Event(env: Env, msg: Msg)

  function Run(s: State, events: seq<Event>): State {
    if events == [] then s
    else
      var last := events[|events| - 1];
      Step(Run(s, events[..|events| - 1]), last.env, last.msg)
  }

  /** Block times never go back, from `clock` on. */
  predicate InOrder(clock: nat, events: seq<Event>) {
    events == [] || (
      var n := |events| - 1;
      InOrder(clock, events[..n]) && (if n == 0 then clock else events[n - 1].env.now) <= events[n].env.now)
  }

  /** The contract as set up by its instantiate message. */
  function Init(cfg: Config, now: nat): State {
    StateData(cfg, map[], seq(|cfg.periods|, _ => TotalStake(0, 0)), TokenInfo(0, 0), map[], map[], map[],
              false, cfg.admin, 0, 0, map[], now)
  }
}
