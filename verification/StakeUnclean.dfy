/** A run in which quick-unbonding two small stakers in one call leaves a third one's rewards unpayable
    and part of that staker's stake stuck. */
module StakeUnclean {
  import opened FixedPoint
  import opened Results
  import opened Bonding
  import opened FiniteSums
  import opened StakeState
  import opened StakeTotals
  import opened StakeBooks
  import opened StakeQuickUnbond
  import StakeRuns

  const DAY: nat := 86400

  /** A contract with one period in which bonds below 100 have no power, a reward asset, and three
      stakers, of whom `c` is the only one with power. */
  datatype Setting = Setting(cfg: Config, admin: Addr, unbonder: Addr, x: Asset, a: Addr, b: Addr, c: Addr)

  predicate Fits(k: Setting) {
    && k.cfg.tokensPerPower == 1 && k.cfg.minBond == 100 && k.cfg.periods == [DAY] && k.cfg.maxDistributions > 0
    && k.cfg.admin == Some(k.admin) && k.cfg.unbonder == Some(k.unbonder)
    && k.x != Token(k.cfg.cw20)
    && k.a != k.b && k.b != k.c && k.a != k.c
  }

  const RATES: seq<Multiplier> := [Multiplier(DAY, ONE)]

  function Delegations(k: Setting): seq<Delegation> {
    [Delegation(k.a, 60), Delegation(k.b, 70), Delegation(k.c, 500)]
  }

  /** The flow in which nothing but the counter, the leftover, the amount distributed and the
      corrections has changed; it holds 1000. */
  function FlowOf(sharesPerPoint: nat, leftover: nat, amount: nat, adjustments: map<Addr, Adjustment>): Flow {
    Flow(sharesPerPoint, leftover, amount, amount, RATES, [], adjustments, 1000)
  }

  function Flows(k: Setting, f: Flow): map<Asset, Flow> {
    map[k.x := f]
  }

  // ---- powers ----

  function Power(stake: nat): nat {
    if stake < 100 then 0 else stake
  }

  lemma PowerIs(k: Setting, stakes: Stakes, a: Addr)
    requires Fits(k)
    ensures RewardsPower(k.cfg, stakes, RATES, a) == Power(StakeIn(stakes, a, DAY))
  {
    assert RATES[..0] == [];
    assert Scale(StakeIn(stakes, a, DAY), ONE) == StakeIn(stakes, a, DAY);
  }

  lemma TotalIs(k: Setting, t: TotalStake)
    requires Fits(k)
    ensures TotalPower(k.cfg, [t], RATES) == Power(t.powered)
  {
    assert RATES[..0] == [];
    assert Scale(t.powered, ONE) == t.powered;
  }

  /** Before anything is distributed a correction is zero, and is stored where the power changes. */
  lemma ZeroCorrection(adjustments: map<Addr, Adjustment>, a: Addr, p: nat, q: nat)
    ensures Correct(FlowOf(0, 0, 0, adjustments), a, p, q)
            == FlowOf(0, 0, 0, if p == q then adjustments
                               else adjustments[a := AdjustmentOf(FlowOf(0, 0, 0, adjustments), a)])
  {
  }

  // ---- bonding ----

  /** One bond in a state with the flow untouched by distributions. */
  lemma FirstBond(k: Setting, s: State, a: Addr, amount: nat)
    requires Fits(k) && s.cfg == k.cfg && (a, DAY) !in s.stakes && s.flows == Flows(k, FlowOf(0, 0, 0, map[]))
    ensures KnownPeriod(k.cfg, DAY)
    ensures BondOne(s, 0, a, amount)
            == Ok(s.(stakes := PutBond(k.cfg, s.stakes, a, DAY, Bond(amount, [])),
                     totals := [TotalStake(s.totals[0].staked + amount, s.totals[0].powered + Power(amount))],
                     flows := Flows(k, FlowOf(0, 0, 0, if Power(amount) == 0 then map[]
                                                    else map[a := Adjustment(0, 0)]))))
  {
    var after := PutBond(k.cfg, s.stakes, a, DAY, Bond(amount, []));
    PowerIs(k, s.stakes, a);
    PowerIs(k, after, a);
    ZeroCorrection(map[], a, 0, Power(amount));
    assert StakeIn(s.stakes, a, DAY) == 0 && StakeIn(after, a, DAY) == amount;
    assert AddUnlocked(BondOf(s.stakes, a, DAY), amount) == Bond(amount, []);
    assert CorrectFlows(k.cfg, s.stakes, after, s.flows, a)
           == Flows(k, FlowOf(0, 0, 0, if Power(amount) == 0 then map[] else map[a := Adjustment(0, 0)]));
    var t := TotalStake(s.totals[0].staked + amount, s.totals[0].powered + Power(amount));
    assert UpdateTotal(k.cfg, s.totals[0], 0, amount) == Ok(t);
    assert s.totals[0 := t] == [t];
  }

  function Created(k: Setting, clock: nat): State
    requires Fits(k)
  {
    Init(k.cfg, 0).(flows := Flows(k, FlowOf(0, 0, 0, map[])), clock := clock)
  }

  function Bonds(k: Setting, a: nat, b: nat, c: nat): Stakes {
    map[(k.a, DAY) := Bond(a, []), (k.b, DAY) := Bond(b, []), (k.c, DAY) := Bond(c, [])]
  }

  function Bonded(k: Setting, clock: nat): State
    requires Fits(k)
  {
    Created(k, clock).(stakes := Bonds(k, 60, 70, 500), totals := [TotalStake(630, 500)], token := TokenInfo(630, 0),
                flows := Flows(k, FlowOf(0, 0, 0, map[k.c := Adjustment(0, 0)])), lpHeld := 630)
  }

  function Created1(k: Setting): State
    requires Fits(k)
  {
    Created(k, 0).(stakes := map[(k.a, DAY) := Bond(60, [])], totals := [TotalStake(60, 0)])
  }

  function Created2(k: Setting): State
    requires Fits(k)
  {
    Created(k, 0).(stakes := map[(k.a, DAY) := Bond(60, []), (k.b, DAY) := Bond(70, [])],
        totals := [TotalStake(130, 0)])
  }

  lemma BondA(k: Setting)
    requires Fits(k)
    ensures BondOne(Created(k, 0), 0, k.a, 60) == Ok(Created1(k))
  {
    FirstBond(k, Created(k, 0), k.a, 60);
  }

  lemma BondB(k: Setting)
    requires Fits(k)
    ensures BondOne(Created1(k), 0, k.b, 70) == Ok(Created2(k))
  {
    FirstBond(k, Created1(k), k.b, 70);
  }

  lemma BondC(k: Setting)
    requires Fits(k)
    ensures BondOne(Created2(k), 0, k.c, 500)
            == Ok(Bonded(k, 0).(token := TokenInfo(0, 0), lpHeld := 0))
  {
    FirstBond(k, Created2(k), k.c, 500);
  }

  lemma ThreeBonds(s: State, ds: seq<Delegation>, t: State, u: State, v: State)
    requires |ds| == 3 && |s.cfg.periods| > 0 && t.cfg == u.cfg == s.cfg
    requires BondOne(s, 0, ds[0].to, ds[0].amount) == Ok(t) && BondOne(t, 0, ds[1].to, ds[1].amount) == Ok(u)
    requires BondOne(u, 0, ds[2].to, ds[2].amount) == Ok(v)
    ensures BondEach(s, 0, ds) == Ok(v)
  {
    var d2, d1 := ds[..2], ds[..2][..1];
    assert d1[..0] == [];
    assert BondEach(s, 0, d1) == Ok(t);
    assert BondEach(s, 0, d2) == Ok(u);
  }

  lemma BondAll(k: Setting)
    requires Fits(k)
    ensures BondEach(Created(k, 0), 0, Delegations(k)) == Ok(Bonded(k, 0).(token := TokenInfo(0, 0), lpHeld := 0))
  {
    BondA(k);
    BondB(k);
    BondC(k);
    ThreeBonds(Created(k, 0), Delegations(k), Created1(k), Created2(k),
        Bonded(k, 0).(token := TokenInfo(0, 0), lpHeld := 0));
  }

  lemma AllBond(k: Setting)
    requires Fits(k)
    ensures MassBond(Created(k, 0), k.cfg.cw20, 630, DAY, Delegations(k)) == Ok(Bonded(k, 0))
  {
    var ds := Delegations(k);
    assert ds[..2][..1][..0] == [];
    assert DelegatedSum(ds[..2][..1]) == 60;
    assert DelegatedSum(ds[..2]) == 130;
    assert DelegatedSum(ds) == 630;
    assert FindPeriod(k.cfg.periods, DAY) == Some(0);
    BondAll(k);
  }

  // ---- quick-unbonding ----

  function QuickUnbonded(k: Setting, clock: nat): State
    requires Fits(k)
  {
    Bonded(k, clock).(stakes := Bonds(k, 0, 0, 500), totals := [TotalStake(500, 370)], token := TokenInfo(500, 0),
               claims := map[k.a := [], k.b := []], sent := map[k.a := 60, k.b := 70], lpHeld := 500)
  }

  lemma SweepOf(k: Setting, w: Sweep, a: Addr, stake: nat)
    requires Fits(k) && |w.unbonded| == 1 && a !in w.claims && a !in w.sent
    requires StakeIn(w.stakes, a, DAY) == stake && 0 < stake < 100
    requires exists adjustments :: w.flows == Flows(k, FlowOf(0, 0, 0, adjustments))
    ensures SweepOne(k.cfg, w, a) == w.(stakes := ClearStakes(w.stakes, a), claims := w.claims[a := []],
                                        unbonded := [w.unbonded[0] + stake], sent := w.sent[a := stake],
                                        paid := w.paid + stake)
  {
    PowerIs(k, w.stakes, a);
    assert k.cfg.periods[..0] == [];
    assert StakeAcross(w.stakes, a, k.cfg.periods) == stake;
    assert ClearFlows(k.cfg, w.stakes, w.flows, a) == w.flows;
  }

  function OneSwept(k: Setting): Sweep
    requires Fits(k)
  {
    Sweep(Bonds(k, 0, 70, 500), Bonded(k, 1).flows, map[k.a := []], [60], 0, map[k.a := 60], 60)
  }

  function TwoSwept(k: Setting): Sweep
    requires Fits(k)
  {
    Sweep(Bonds(k, 0, 0, 500), Bonded(k, 1).flows, map[k.a := [], k.b := []], [130], 0,
          map[k.a := 60, k.b := 70], 130)
  }

  lemma SweepA(k: Setting)
    requires Fits(k)
    ensures SweepOne(k.cfg, StartSweep(Bonded(k, 1)), k.a) == OneSwept(k)
  {
    SweepOf(k, StartSweep(Bonded(k, 1)), k.a, 60);
    assert ClearStakes(Bonds(k, 60, 70, 500), k.a) == Bonds(k, 0, 70, 500);
  }

  lemma SweepB(k: Setting)
    requires Fits(k)
    ensures SweepOne(k.cfg, OneSwept(k), k.b) == TwoSwept(k)
  {
    SweepOf(k, OneSwept(k), k.b, 70);
    assert ClearStakes(Bonds(k, 0, 70, 500), k.b) == Bonds(k, 0, 0, 500);
  }

  lemma BothSwept(k: Setting)
    requires Fits(k)
    ensures Swept(Bonded(k, 1), [k.a, k.b]) == TwoSwept(k)
  {
    SweepA(k);
    SweepB(k);
    var both := [k.a, k.b];
    assert both[..1] == [k.a] && both[..1][..0] == [];
    assert SweepAll(k.cfg, StartSweep(Bonded(k, 1)), both[..1][..0]) == StartSweep(Bonded(k, 1));
    assert SweepAll(k.cfg, StartSweep(Bonded(k, 1)), both[..1]) == OneSwept(k);
  }

  /** The aggregate of 130 is taken off a powered total of 500 that never contained it. */
  lemma BothUnbond(k: Setting)
    requires Fits(k)
    ensures QuickUnbond(Bonded(k, 1), k.unbonder, [k.a, k.b]) == Ok(QuickUnbonded(k, 1))
  {
    BothSwept(k);
    assert UpdateTotal(k.cfg, TotalStake(630, 500), 130, 0) == Ok(TotalStake(500, 370));
    var r := ReduceTotals(k.cfg, [TotalStake(630, 500)], [130]);
    assert r.Ok? && r.value == [TotalStake(500, 370)];
    assert [130][..0] == [];
    assert SeqSum([130]) == 130;
  }

  // ---- distributing ----

  function Distributed(k: Setting, clock: nat): State
    requires Fits(k)
  {
    QuickUnbonded(k, clock).(flows := Flows(k, FlowOf(11608019718, 340, 1000, map[k.c := Adjustment(0, 0)])))
  }

  lemma FlowDistributed(adjustments: map<Addr, Adjustment>, seconds: nat)
    ensures DistributeFlow(FlowOf(0, 0, 0, adjustments), 370, seconds)
            == Ok(FlowOf(11608019718, 340, 1000, adjustments))
  {
    assert 1000 * SHARES == 370 * 11608019718 + 340;
  }

  lemma AllDistributed(k: Setting, now: nat)
    requires Fits(k)
    ensures Distribute(QuickUnbonded(k, 2), now, []) == Ok(Distributed(k, 2))
  {
    var f := FlowOf(0, 0, 0, map[k.c := Adjustment(0, 0)]);
    TotalIs(k, TotalStake(500, 370));
    FlowDistributed(map[k.c := Adjustment(0, 0)], now / NANOS);
    var next := DistributeAll(k.cfg, [TotalStake(500, 370)], Flows(k, f), now / NANOS);
    assert next == map[k.x := Ok(FlowOf(11608019718, 340, 1000, map[k.c := Adjustment(0, 0)]))];
    assert Collect(next).value == Distributed(k, 2).flows;
  }

  /** What `c` may withdraw exceeds everything there is to withdraw. */
  lemma TooMuch(k: Setting)
    requires Fits(k)
    ensures Withdrawable(k.cfg, Distributed(k, 3).stakes, Distributed(k, 3).flows[k.x], k.c) == 1351
    ensures Distributed(k, 3).flows[k.x].withdrawable == 1000
    ensures Withdraw(Distributed(k, 3), k.c, k.c) == Err(Overflow)
  {
    PowerIs(k, Distributed(k, 3).stakes, k.c);
    var f := Distributed(k, 3).flows[k.x];
    assert Entitlement(k.cfg, Distributed(k, 3).stakes, f, k.c) == 11608019718 * 500;
    assert WithdrawFlow(k.cfg, Distributed(k, 3).stakes, f, k.c).Err?;
    assert WithdrawAll(k.cfg, Distributed(k, 3).stakes, Distributed(k, 3).flows, k.c)[k.x].Err?;
  }

  // ---- the run ----

  /** A flow that holds 1000 is set up; the three bond 60, 70 and 500 in one call; the first two are
      quick-unbonded in one call; the rewards are distributed. */
  function Events(k: Setting): seq<Event> {
    [Event(Env(0, k.admin), CreateFlowMsg(k.x, RATES, 1000)),
     Event(Env(1, k.cfg.cw20), MassBondMsg(k.cfg.cw20, 630, DAY, Delegations(k))),
     Event(Env(2, k.unbonder), QuickUnbondMsg([k.a, k.b])),
     Event(Env(3, k.admin), DistributeMsg([]))]
  }

  lemma StepCreates(k: Setting)
    requires Fits(k)
    ensures Step(Init(k.cfg, 0), Env(0, k.admin), CreateFlowMsg(k.x, RATES, 1000)) == Created(k, 0)
  {
  }

  lemma StepBonds(k: Setting)
    requires Fits(k)
    ensures Step(Created(k, 0), Env(1, k.cfg.cw20), MassBondMsg(k.cfg.cw20, 630, DAY, Delegations(k))) == Bonded(k, 1)
  {
    AllBond(k);
  }

  lemma StepUnbonds(k: Setting)
    requires Fits(k)
    ensures Step(Bonded(k, 1), Env(2, k.unbonder), QuickUnbondMsg([k.a, k.b])) == QuickUnbonded(k, 2)
  {
    BothUnbond(k);
  }

  lemma StepDistributes(k: Setting)
    requires Fits(k)
    ensures Step(QuickUnbonded(k, 2), Env(3, k.admin), DistributeMsg([])) == Distributed(k, 3)
  {
    AllDistributed(k, 3);
  }

  /** The run, from instantiation: every message succeeds, and afterwards the rewards of `c`, who has
      done nothing but bond, cannot be withdrawn. */
  lemma UncleanRun(k: Setting)
    requires Fits(k)
    ensures InOrder(0, Events(k))
    ensures var s := Run(Init(k.cfg, 0), Events(k));
            && s.totals == [TotalStake(500, 370)]
            && k.x in s.flows && s.flows[k.x].withdrawable == 1000
            && Withdrawable(s.cfg, s.stakes, s.flows[k.x], k.c) == 1351
            && Withdraw(s, k.c, k.c) == Err(Overflow)
  {
    InOneOrder(Events(k));
    EndsDistributed(k);
    TooMuch(k);
  }

  lemma EndsDistributed(k: Setting)
    requires Fits(k)
    ensures Run(Init(k.cfg, 0), Events(k)) == Distributed(k, 3)
  {
    StepCreates(k);
    StepBonds(k);
    StepUnbonds(k);
    StepDistributes(k);
    var s, es := Init(k.cfg, 0), Events(k);
    assert es[..0] == [] && es[..4] == es;
    OneMore(s, es, 0, s, Created(k, 0));
    OneMore(s, es, 1, Created(k, 0), Bonded(k, 1));
    OneMore(s, es, 2, Bonded(k, 1), QuickUnbonded(k, 2));
    OneMore(s, es, 3, QuickUnbonded(k, 2), Distributed(k, 3));
  }

  /** And neither can all of `c`'s stake be had back, although every token of it is unlocked: no more than
      370 of the 500 can be unbonded, and the unbonder's quick-unbond fails as well. */
  lemma StakeIsStuck(k: Setting, later: nat, amount: nat)
    requires Fits(k) && amount <= 500
    ensures var s := Run(Init(k.cfg, 0), Events(k));
            && MayRelease(s, later, k.c, DAY, amount)
            && (Unbond(s, later, k.c, amount, DAY).Ok? <==> amount <= 370)
            && (amount > 370 ==> Unbond(s, later, k.c, amount, DAY) == Err(Overflow))
            && QuickUnbond(s, k.unbonder, [k.c]) == Err(Overflow)
  {
    var s := Run(Init(k.cfg, 0), Events(k));
    EndsDistributed(k);
    InOneOrder(Events(k));
    StakeRuns.InitIsGood(k.cfg, 0);
    StakeRuns.RunKeeps(Init(k.cfg, 0), Events(k));
    EndsStuck(k);
    OnlyPart(s, later, k.c, amount);
    NotAtOnce(s, k.unbonder, k.c);
  }

  /** What is left of the run: a stake of 500 in a period whose powered total is 370. */
  predicate Stuck(s: State, c: Addr) {
    && s.cfg.minBond == 100 && s.cfg.periods == [DAY] && s.totals == [TotalStake(500, 370)]
    && BondOf(s.stakes, c, DAY) == Bond(500, [])
  }

  lemma EndsStuck(k: Setting)
    requires Fits(k)
    ensures Stuck(Distributed(k, 3), k.c)
  {
  }

  lemma OnlyPart(s: State, later: nat, c: Addr, amount: nat)
    requires Stuck(s, c) && Books(s) && amount <= 500
    ensures MayRelease(s, later, c, DAY, amount)
    ensures Unbond(s, later, c, amount, DAY).Ok? <==> amount <= 370
    ensures amount > 370 ==> Unbond(s, later, c, amount, DAY) == Err(Overflow)
  {
    OnlyPartCovered(s, c, amount);
    OnlyPartUnlocked(s, later, c, amount);
    UnbondKeeps(s, s.clock / NANOS, later, c, amount, DAY);
  }

  lemma OnlyPartCovered(s: State, c: Addr, amount: nat)
    requires Stuck(s, c) && amount <= 500
    ensures TotalCovers(s, c, DAY, amount) <==> amount <= 370
  {
    assert FindPeriod(s.cfg.periods, DAY) == Some(0);
    assert StakeIn(s.stakes, c, DAY) == 500;
  }

  /** Past the check of the amount nothing but an underflow can fail. */
  lemma OnlyPartUnlocked(s: State, later: nat, c: Addr, amount: nat)
    requires Stuck(s, c) && amount <= 500
    ensures MayRelease(s, later, c, DAY, amount)
    ensures var r := Unbond(s, later, c, amount, DAY); r.Err? ==> r.error == Overflow
  {
    assert FindPeriod(s.cfg.periods, DAY) == Some(0);
    assert Release(Bond(500, []), later, amount).Ok?;
  }

  lemma NotAtOnce(s: State, unbonder: Addr, c: Addr)
    requires Stuck(s, c) && Books(s) && s.cfg.unbonder == Some(unbonder)
    ensures QuickUnbond(s, unbonder, [c]) == Err(Overflow)
  {
    NoFit(s, c);
    NoneFit(s, unbonder, c);
    QuickUnbondFails(s, unbonder, [c]);
  }

  lemma NoneFit(s: State, unbonder: Addr, c: Addr)
    requires Books(s) && |s.cfg.periods| > 0 && !AggregateFits(s, [c], 0)
    ensures QuickUnbond(s, unbonder, [c]).Err?
  {
    QuickUnbondSucceedsIff(s, s.clock / NANOS, unbonder, [c]);
  }

  lemma NoFit(s: State, c: Addr)
    requires Stuck(s, c)
    ensures !AggregateFits(s, [c], 0)
  {
    assert Members([c]) == {c};
    SumPick({c}, StakeAt(s.stakes, DAY), c);
    assert Sum({c} - {c}, StakeAt(s.stakes, DAY)) == 0;
    assert StakeIn(s.stakes, c, DAY) == 500;
  }

  lemma OneMore(s: State, es: seq<Event>, n: nat, t: State, u: State)
    requires n < |es| && Run(s, es[..n]) == t && Step(t, es[n].env, es[n].msg) == u
    ensures Run(s, es[..n + 1]) == u
  {
    assert es[..n + 1][..n] == es[..n];
  }

  lemma InOneOrder(es: seq<Event>)
    requires |es| == 4 && es[0].env.now <= es[1].env.now <= es[2].env.now <= es[3].env.now
    ensures InOrder(0, es)
  {
    var e3, e2, e1 := es[..3], es[..3][..2], es[..3][..2][..1];
    assert e1[..0] == [];
    assert InOrder(0, e1);
    assert InOrder(0, e2);
    assert InOrder(0, e3);
  }
}
