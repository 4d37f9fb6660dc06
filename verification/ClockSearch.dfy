/**
 The seven-deep search for sensor clock settings (src/camera_layer/camera_control.c).  It returns the last
 minimiser of the clock error over exactly the feasible settings, in the order the loops visit them.
 */
module ClockSearch {
  import opened Arith
  import opened Wrappers

  const MAX_BASE := 800_000_000
  const INT32 := 0x8000_0000

  /** One setting of the seven dividers and the multiplier. */
  datatype Setting = Setting(root: nat, sclk: nat, pclk: nat, sys: nat, mipi: nat, pre: nat, mult: nat)

  /** The crystal, the wanted clock, and what two sensor registers say. */
  datatype Sensor = Sensor(xclk: nat, target: nat, bitDiv: nat, scaling: bool)

  /** XCLK up to 24 MHz, and exactly large enough that the system clock never comes out as 0. */
  predicate SensorOk(p: Sensor) {
    1 <= p.bitDiv <= 3 && 448 * p.bitDiv <= p.xclk <= 24_000_000 && p.target < INT32
  }

  predicate PowerOfTwo(n: nat) {
    n == 1 || n == 2 || n == 4 || n == 8
  }

  predicate PreDivider(n: nat) {
    n == 1 || n == 2 || n == 3 || n == 4 || n == 6 || n == 8
  }

  /** 4 to 252, even above 128. */
  predicate Multiplier(n: nat) {
    4 <= n <= 252 && (n <= 128 || n % 2 == 0)
  }

  predicate Valid(t: Setting) {
    && 1 <= t.root <= 2 && PowerOfTwo(t.sclk) && PowerOfTwo(t.pclk)
    && 1 <= t.sys <= 14 && 1 <= t.mipi <= 14 && PreDivider(t.pre) && Multiplier(t.mult)
  }

  // ---------------------------------------------------------------- the clocks of a setting

  function BaseHz(p: Sensor, t: Setting): nat
    requires Valid(t)
  {
    TimesPositive(t.pre, t.root);
    Times(t.mult, Quotient(p.xclk, Times(t.pre, t.root)))
  }

  function SysPll(p: Sensor, t: Setting): nat
    requires Valid(t)
  {
    TimesPositive(t.pre, t.sys);
    Times(t.mult, Quotient(p.xclk, Times(t.pre, t.sys)))
  }

  function BitHz(p: Sensor, t: Setting): nat
    requires Valid(t) && p.bitDiv > 0
  {
    Quotient(Quotient(SysPll(p, t), t.root), p.bitDiv)
  }

  function SysHz(p: Sensor, t: Setting): nat
    requires Valid(t) && p.bitDiv > 0
  {
    Quotient(BitHz(p, t), t.sclk)
  }

  function MipiPclk(p: Sensor, t: Setting): nat
    requires Valid(t) && p.bitDiv > 0
  {
    TimesPositive(t.mipi, t.pclk);
    Quotient(BitHz(p, t), Times(t.mipi, t.pclk))
  }

  function MipiRate(p: Sensor, t: Setting): nat
    requires Valid(t)
  {
    Quotient(SysPll(p, t), t.mipi)
  }

  /** How far the MIPI clock of a setting is from the wanted one. */
  function ClockError(p: Sensor, t: Setting): nat
    requires Valid(t)
  {
    TimesPositive(t.pclk, t.mipi);
    var hz := Quotient(BaseHz(p, t), Times(t.pclk, t.mipi));
    if p.target >= hz then p.target - hz else hz - p.target
  }

  /** The base clock is in range and the clock ratios, kept in eight bits, are the ones the sensor needs. */
  predicate RatiosOk(p: Sensor, t: Setting)
    requires Valid(t) && p.bitDiv > 0 && SysHz(p, t) > 0
  {
    var s := SysHz(p, t);
    && MipiPclk(p, t) % s == 0 && MipiRate(p, t) % s == 0
    && var pclkRatio := MipiPclk(p, t) / s % 256; var mipiRatio := MipiRate(p, t) / s % 256;
       if p.scaling then mipiRatio == 2 && pclkRatio == 1 else mipiRatio == 8 && pclkRatio == 2
  }

  lemma TimesSum(m: nat, a: nat)
    ensures Times(m, 2 * a + 1) == 2 * Times(m, a) + m
    ensures Times(m + 2, a) == Times(m, a) + 2 * a
    ensures Times(4, a) == 4 * a
  {
  }

  lemma Products(n: nat)
    ensures Times(8, 14) == 112 && Times(4 * n, 112) == 448 * n && Times(4, 4 * n) == 16 * n
    ensures Times(8 * n, 2) == 16 * n && Times(8, n) == 8 * n && Times(1, 8) == 8
  {
  }

  lemma SysHzPositive(p: Sensor, t: Setting)
    requires p.bitDiv > 0 && 448 * p.bitDiv <= p.xclk && Valid(t)
    ensures SysHz(p, t) > 0
  {
    hide Times, Quotient;
    var n := p.bitDiv;
    Products(n);
    var d := Times(t.pre, t.sys);
    TimesPositive(t.pre, t.sys);
    TimesMono(t.sys, t.pre, 8);
    TimesMono(8, t.sys, 14);
    TimesMono(4 * n, d, 112);
    DivideLarge(p.xclk, d, 4 * n);
    TimesMono(Quotient(p.xclk, d), 4, t.mult);
    TimesMono(4, 4 * n, Quotient(p.xclk, d));
    assert SysPll(p, t) >= 16 * n;
    TimesMono(8 * n, t.root, 2);
    DivideLarge(SysPll(p, t), t.root, 8 * n);
    DivideLarge(Quotient(SysPll(p, t), t.root), n, 8);
    TimesMono(1, t.sclk, 8);
    DivideLarge(BitHz(p, t), t.sclk, 1);
  }

  /** The setting that slows the crystal down most. */
  const SLOWEST := Setting(2, 8, 1, 14, 1, 8, 4)

  lemma SlowestVanishes(p: Sensor)
    requires 1 <= p.bitDiv <= 3 && p.xclk < 448 * p.bitDiv
    ensures Valid(SLOWEST) && BaseHz(p, SLOWEST) <= MAX_BASE && SysHz(p, SLOWEST) == 0
  {
  }

  /**
   The divisor of the ratio tests, which are made for every setting within the base clock limit, is never 0
   exactly for crystals of at least 448 Hz times the bit divider.
   */
  lemma NeverDividesByZeroIff(p: Sensor)
    requires 1 <= p.bitDiv <= 3
    ensures (forall t :: Valid(t) && BaseHz(p, t) <= MAX_BASE ==> SysHz(p, t) > 0) <==> 448 * p.bitDiv <= p.xclk
  {
    hide SysHz, BaseHz;
    if 448 * p.bitDiv <= p.xclk {
      forall t | Valid(t) && BaseHz(p, t) <= MAX_BASE ensures SysHz(p, t) > 0 {
        SysHzPositive(p, t);
      }
    } else {
      SlowestVanishes(p);
    }
  }

  predicate Feasible(p: Sensor, t: Setting)
    requires SensorOk(p) && Valid(t)
  {
    SysHzPositive(p, t);
    BaseHz(p, t) <= MAX_BASE && RatiosOk(p, t)
  }

  // ---------------------------------------------------------------- the same in plain numbers

  /** The clocks of a setting, each a quotient cut off to a whole number. */
  datatype Clocks = Clocks(base: nat, sys: nat, root: nat, bit: nat, sysHz: nat, pclk: nat, rate: nat, hz: nat)

  predicate Produces(p: Sensor, t: Setting, c: Clocks) {
    && c.base * (t.pre * t.root) <= p.xclk < (c.base + 1) * (t.pre * t.root)
    && c.hz * (t.pclk * t.mipi) <= t.mult * c.base < (c.hz + 1) * (t.pclk * t.mipi)
    && c.sys * (t.pre * t.sys) <= p.xclk < (c.sys + 1) * (t.pre * t.sys)
    && c.rate * t.mipi <= t.mult * c.sys < (c.rate + 1) * t.mipi
    && c.root * t.root <= t.mult * c.sys < (c.root + 1) * t.root
    && c.bit * p.bitDiv <= c.root < (c.bit + 1) * p.bitDiv
    && c.sysHz * t.sclk <= c.bit < (c.sysHz + 1) * t.sclk
    && c.pclk * (t.mipi * t.pclk) <= c.bit < (c.pclk + 1) * (t.mipi * t.pclk)
  }

  /**
   The base clock is at most 800 MHz, and MIPI rate and pixel clock are 8 and 2 times the system clock, or 2
   and 1 times with scaling; the source keeps the two factors in eight bits, so whole laps do not show.
   */
  predicate Meets(p: Sensor, t: Setting, c: Clocks, rateLaps: nat, pclkLaps: nat) {
    && t.mult * c.base <= 800_000_000
    && c.rate == (256 * rateLaps + (if p.scaling then 2 else 8)) * c.sysHz
    && c.pclk == (256 * pclkLaps + (if p.scaling then 1 else 2)) * c.sysHz
  }

  predicate OffBy(p: Sensor, c: Clocks, error: nat) {
    p.target == c.hz + error || c.hz == p.target + error
  }

  function ClocksOf(p: Sensor, t: Setting): Clocks
    requires Valid(t) && p.bitDiv > 0
  {
    TimesPositive(t.pre, t.root);
    TimesPositive(t.pre, t.sys);
    TimesPositive(t.pclk, t.mipi);
    Clocks(Quotient(p.xclk, Times(t.pre, t.root)), Quotient(p.xclk, Times(t.pre, t.sys)),
           Quotient(SysPll(p, t), t.root), BitHz(p, t), SysHz(p, t), MipiPclk(p, t), MipiRate(p, t),
           Quotient(BaseHz(p, t), Times(t.pclk, t.mipi)))
  }

  /** The definitions compute exactly these clocks. */
  lemma ClocksIff(p: Sensor, t: Setting, c: Clocks)
    requires Valid(t) && p.bitDiv > 0
    ensures Produces(p, t, c) <==> c == ClocksOf(p, t)
  {
    hide Quotient;
    TimesPositive(t.pre, t.root);
    TimesPositive(t.pre, t.sys);
    TimesPositive(t.pclk, t.mipi);
    QuotientIff(p.xclk, t.pre * t.root, c.base);
    QuotientIff(t.mult * c.base, t.pclk * t.mipi, c.hz);
    QuotientIff(p.xclk, t.pre * t.sys, c.sys);
    QuotientIff(t.mult * c.sys, t.mipi, c.rate);
    QuotientIff(t.mult * c.sys, t.root, c.root);
    QuotientIff(c.root, p.bitDiv, c.bit);
    QuotientIff(c.bit, t.sclk, c.sysHz);
    QuotientIff(c.bit, t.mipi * t.pclk, c.pclk);
  }

  lemma OffByIff(p: Sensor, t: Setting, error: nat)
    requires Valid(t) && p.bitDiv > 0
    ensures OffBy(p, ClocksOf(p, t), error) <==> error == ClockError(p, t)
  {
    hide Quotient, Times;
  }

  lemma FeasibleMeets(p: Sensor, t: Setting) returns (rateLaps: nat, pclkLaps: nat)
    requires SensorOk(p) && Valid(t) && Feasible(p, t)
    ensures Meets(p, t, ClocksOf(p, t), rateLaps, pclkLaps)
  {
    hide Quotient, SysHz, MipiRate, MipiPclk;
    SysHzPositive(p, t);
    var s := SysHz(p, t);
    rateLaps, pclkLaps := MipiRate(p, t) / s / 256, MipiPclk(p, t) / s / 256;
    RatioBack(MipiRate(p, t), s, if p.scaling then 2 else 8);
    RatioBack(MipiPclk(p, t), s, if p.scaling then 1 else 2);
  }

  lemma MeetsFeasible(p: Sensor, t: Setting, rateLaps: nat, pclkLaps: nat)
    requires SensorOk(p) && Valid(t) && Meets(p, t, ClocksOf(p, t), rateLaps, pclkLaps)
    ensures Feasible(p, t)
  {
    hide Quotient, SysHz, MipiRate, MipiPclk;
    SysHzPositive(p, t);
    RatioOf(MipiRate(p, t), SysHz(p, t), if p.scaling then 2 else 8, rateLaps);
    RatioOf(MipiPclk(p, t), SysHz(p, t), if p.scaling then 1 else 2, pclkLaps);
  }

  /** The seven loops visit `t` before `u`. */
  predicate Before(t: Setting, u: Setting) {
    if t.root != u.root then t.root > u.root
    else if t.sclk != u.sclk then t.sclk < u.sclk
    else if t.pclk != u.pclk then t.pclk < u.pclk
    else if t.sys != u.sys then t.sys > u.sys
    else if t.mipi != u.mipi then t.mipi > u.mipi
    else if t.pre != u.pre then t.pre < u.pre
    else t.mult < u.mult
  }

  // ---------------------------------------------------------------- the order of the loops

  function PowerIndex(n: nat): nat
    requires PowerOfTwo(n)
  {
    if n == 1 then 0 else if n == 2 then 1 else if n == 4 then 2 else 3
  }

  function PreIndex(n: nat): nat
    requires PreDivider(n)
  {
    if n <= 4 then n - 1 else if n == 6 then 4 else 5
  }

  const MULTS := 187

  function MultIndex(n: nat): nat
    requires Multiplier(n)
  {
    if n <= 128 then n - 4 else 124 + (n - 128) / 2
  }

  /** One more loop inside: `lo` of `base` places behind the place `hi` of the loops around it. */
  function Place(hi: nat, base: nat, lo: nat): nat {
    hi * base + lo
  }

  lemma PlaceSplits(hi: nat, lo: nat, hi': nat, lo': nat, base: nat)
    requires lo < base && lo' < base && Place(hi, base, lo) == Place(hi', base, lo')
    ensures hi == hi' && lo == lo'
  {
    if hi < hi' {
      MonoTimes(hi + 1, hi', base);
    } else if hi' < hi {
      MonoTimes(hi' + 1, hi, base);
    }
  }

  function OuterRank(t: Setting): nat
    requires Valid(t)
  {
    Place(Place(Place(Place(Place(2 - t.root, 4, PowerIndex(t.sclk)), 4, PowerIndex(t.pclk)), 14, 14 - t.sys),
                14, 14 - t.mipi), 6, PreIndex(t.pre))
  }

  /** A setting's place in the order in which the nested loops visit the settings. */
  function Rank(t: Setting): nat
    requires Valid(t)
  {
    Place(OuterRank(t), MULTS, MultIndex(t.mult))
  }

  const OUTERS := 2 * 4 * 4 * 14 * 14 * 6

  lemma OuterInjective(t: Setting, u: Setting)
    requires Valid(t) && Valid(u) && OuterRank(t) == OuterRank(u)
    ensures t.(mult := 4) == u.(mult := 4)
  {
    hide Place;
    var a, a' := 2 - t.root, 2 - u.root;
    var b, b' := Place(a, 4, PowerIndex(t.sclk)), Place(a', 4, PowerIndex(u.sclk));
    var c, c' := Place(b, 4, PowerIndex(t.pclk)), Place(b', 4, PowerIndex(u.pclk));
    var d, d' := Place(c, 14, 14 - t.sys), Place(c', 14, 14 - u.sys);
    var e, e' := Place(d, 14, 14 - t.mipi), Place(d', 14, 14 - u.mipi);
    PlaceSplits(e, PreIndex(t.pre), e', PreIndex(u.pre), 6);
    PlaceSplits(d, 14 - t.mipi, d', 14 - u.mipi, 14);
    PlaceSplits(c, 14 - t.sys, c', 14 - u.sys, 14);
    PlaceSplits(b, PowerIndex(t.pclk), b', PowerIndex(u.pclk), 4);
    PlaceSplits(a, PowerIndex(t.sclk), a', PowerIndex(u.sclk), 4);
  }

  lemma MultIndexInjective(m: nat, n: nat)
    requires Multiplier(m) && Multiplier(n)
    ensures MultIndex(m) == MultIndex(n) ==> m == n
    ensures MultIndex(m) <= MultIndex(n) ==> m <= n
  {
  }

  lemma MultIndexSmall(n: nat)
    requires Multiplier(n)
    ensures MultIndex(n) < MULTS
  {
  }

  lemma RankInjective(t: Setting, u: Setting)
    requires Valid(t) && Valid(u) && Rank(t) == Rank(u)
    ensures t == u
  {
    hide Place, OuterRank, MultIndex;
    MultIndexSmall(t.mult);
    MultIndexSmall(u.mult);
    PlaceSplits(OuterRank(t), MultIndex(t.mult), OuterRank(u), MultIndex(u.mult), MULTS);
    OuterInjective(t, u);
    MultIndexInjective(t.mult, u.mult);
  }

  lemma RankInRange(t: Setting)
    requires Valid(t)
    ensures Rank(t) < OUTERS * MULTS
  {
    MultIndexSmall(t.mult);
  }

  // ---------------------------------------------------------------- the result

  /** The feasible settings among the first `r` visited. */
  ghost predicate Candidate(p: Sensor, t: Setting, r: int)
    requires SensorOk(p)
  {
    Valid(t) && Rank(t) < r && Feasible(p, t)
  }

  ghost predicate NoWorse(p: Sensor, b: Setting, t: Setting)
    requires Valid(b) && Valid(t)
  {
    ClockError(p, b) < ClockError(p, t) || (ClockError(p, b) == ClockError(p, t) && Rank(t) <= Rank(b))
  }

  /** The last of those with the least error, if there is any. */
  ghost predicate Best(p: Sensor, best: Option<Setting>, r: int)
    requires SensorOk(p)
  {
    && (best.Some? ==> Candidate(p, best.value, r))
    && forall t :: Candidate(p, t, r) ==> best.Some? && NoWorse(p, best.value, t)
  }

  lemma Earlier(p: Sensor, t: Setting, u: Setting)
    requires SensorOk(p) && Valid(t) && Candidate(p, u, Rank(t) + 1) && u != t
    ensures Candidate(p, u, Rank(t))
  {
    hide Feasible, Rank, Valid;
    if Rank(u) == Rank(t) {
      RankInjective(t, u);
    }
  }

  /** What one visit does to the result so far. */
  lemma Visit(p: Sensor, best: Option<Setting>, t: Setting)
    requires SensorOk(p) && Valid(t) && Best(p, best, Rank(t))
    ensures !Feasible(p, t) ==> Best(p, best, Rank(t) + 1)
    ensures Feasible(p, t) && (best.Some? ==> ClockError(p, t) <= ClockError(p, best.value)) ==>
      Best(p, Some(t), Rank(t) + 1)
    ensures Feasible(p, t) && best.Some? && ClockError(p, t) > ClockError(p, best.value) ==>
      Best(p, best, Rank(t) + 1)
  {
    hide Feasible, ClockError, Rank, Valid;
    var next := Rank(t) + 1;
    if !Feasible(p, t) {
      forall u | Candidate(p, u, next) ensures best.Some? && NoWorse(p, best.value, u) {
        Earlier(p, t, u);
      }
    } else if best.Some? && ClockError(p, t) > ClockError(p, best.value) {
      forall u | Candidate(p, u, next) ensures NoWorse(p, best.value, u) {
        if u != t {
          Earlier(p, t, u);
        }
      }
    } else {
      forall u | Candidate(p, u, next) ensures NoWorse(p, t, u) {
        if u != t {
          Earlier(p, t, u);
          assert NoWorse(p, best.value, u);
        }
      }
    }
  }

  lemma RankBeforeEnd(t: Setting)
    requires Valid(t)
    ensures Rank(t) < Place(OuterRank(t) + 1, MULTS, 0)
  {
    hide OuterRank;
    MultIndexSmall(t.mult);
  }

  lemma SameOuter(t: Setting, u: Setting)
    requires Valid(t) && Valid(u) && Rank(t) <= Rank(u) < Place(OuterRank(t) + 1, MULTS, 0)
    ensures u == t.(mult := u.mult) && t.mult <= u.mult
  {
    hide OuterRank, MultIndex;
    MultIndexSmall(t.mult);
    MultIndexSmall(u.mult);
    assert OuterRank(t) == OuterRank(u);
    OuterInjective(t, u);
    MultIndexInjective(t.mult, u.mult);
  }

  lemma LargerBase(p: Sensor, t: Setting, u: Setting)
    requires SensorOk(p) && Valid(t) && Valid(u) && u == t.(mult := u.mult) && t.mult <= u.mult
    requires BaseHz(p, t) > MAX_BASE
    ensures !Feasible(p, u)
  {
    hide Times, Quotient;
    TimesPositive(t.pre, t.root);
    TimesMono(Quotient(p.xclk, Times(t.pre, t.root)), t.mult, u.mult);
  }

  /** Beyond the base clock limit no larger multiplier is feasible. */
  lemma BreakDropsNothing(p: Sensor, best: Option<Setting>, t: Setting)
    requires SensorOk(p) && Valid(t) && Best(p, best, Rank(t))
    requires BaseHz(p, t) > MAX_BASE
    ensures Best(p, best, Place(OuterRank(t) + 1, MULTS, 0))
  {
    hide Feasible, ClockError, Rank, OuterRank, Valid, BaseHz, Place;
    var end := Place(OuterRank(t) + 1, MULTS, 0);
    RankBeforeEnd(t);
    assert forall u :: Candidate(p, u, end) ==> Candidate(p, u, Rank(t)) by {
      forall u | Candidate(p, u, end) ensures Candidate(p, u, Rank(t)) {
        if Rank(u) >= Rank(t) {
          SameOuter(t, u);
          LargerBase(p, t, u);
        }
      }
    }
    assert best.Some? ==> Candidate(p, best.value, end);
  }

  // ---------------------------------------------------------------- 32-bit arithmetic

  /** The signed and unsigned 32-bit products and sums of one visit stay in range. */
  predicate InRange(p: Sensor, t: Setting)
    requires Valid(t)
  {
    BaseHz(p, t) < INT32 && SysPll(p, t) < INT32
  }

  lemma Doubled(q: nat, d: nat)
    ensures Times(q + 1, 2 * d) == Times(2 * q + 2, d)
  {
  }

  lemma HalfStep(x: nat, d: nat)
    requires d > 0
    ensures Quotient(x, d) <= 2 * Quotient(x, 2 * d) + 1
  {
    hide Times, Quotient;
    var q := Quotient(x, 2 * d);
    QuotientTimes(x, 2 * d);
    Doubled(q, d);
    if Quotient(x, d) > 2 * q + 1 {
      QuotientTimes(x, d);
      TimesMono(d, 2 * q + 2, Quotient(x, d));
    }
  }

  lemma AtLeast(a: nat, b: nat)
    requires b > 0
    ensures Times(a, b) >= a
  {
    MonoTimes(1, b, a);
  }

  lemma RootCases(x: nat, pre: nat, root: nat)
    requires pre > 0 && 1 <= root <= 2
    ensures Times(pre, root) > 0 && Quotient(x, pre) <= 2 * Quotient(x, Times(pre, root)) + 1
  {
    hide Quotient;
    if root == 2 {
      assert Times(pre, root) == 2 * pre;
      HalfStep(x, pre);
    } else {
      assert Times(pre, root) == pre;
    }
  }

  /** The bound on the base clock also bounds the system PLL, whatever its own divider. */
  lemma SysPllInRange(p: Sensor, t: Setting)
    requires SensorOk(p) && Valid(t) && BaseHz(p, t) <= MAX_BASE
    ensures SysPll(p, t) <= 2 * MAX_BASE + 252
  {
    hide Times, Quotient;
    RootCases(p.xclk, t.pre, t.root);
    var a := Quotient(p.xclk, Times(t.pre, t.root));
    TimesPositive(t.pre, t.sys);
    AtLeast(t.pre, t.sys);
    DivideMore(p.xclk, t.pre, Times(t.pre, t.sys));
    TimesMono(t.mult, Quotient(p.xclk, Times(t.pre, t.sys)), 2 * a + 1);
    TimesSum(t.mult, a);
  }

  /** The next multiplier overshoots the bound by two crystal periods at most. */
  lemma NextInRange(p: Sensor, t: Setting, u: Setting)
    requires SensorOk(p) && Valid(t) && Valid(u) && u == t.(mult := u.mult) && t.mult <= u.mult <= t.mult + 2
    requires BaseHz(p, t) <= MAX_BASE
    ensures BaseHz(p, u) < INT32
  {
    hide Times, Quotient;
    TimesPositive(t.pre, t.root);
    var a := Quotient(p.xclk, Times(t.pre, t.root));
    QuotientAtMost(p.xclk, Times(t.pre, t.root));
    TimesMono(a, u.mult, t.mult + 2);
    TimesSum(t.mult, a);
  }

  lemma FirstInRange(p: Sensor, t: Setting)
    requires SensorOk(p) && Valid(t) && t.mult == 4
    ensures BaseHz(p, t) < INT32
  {
    hide Times, Quotient;
    TimesPositive(t.pre, t.root);
    QuotientAtMost(p.xclk, Times(t.pre, t.root));
    TimesSum(4, Quotient(p.xclk, Times(t.pre, t.root)));
  }

  // ---------------------------------------------------------------- the loops

  const NONE_YET := 0xFFFF_FFFF

  /** `clock_settings` and `best_clock_error` hold the result so far; the array is unspecified before a first match. */
  predicate Stored(p: Sensor, settings: seq<nat>, error: nat, best: Option<Setting>) {
    && |settings| == 8
    && match best
       case None => error == NONE_YET
       case Some(b) =>
         Valid(b) && error == ClockError(p, b)
         && settings == [b.mult, b.root, b.pre, 1, b.sclk, b.sys, b.mipi, b.pclk]
  }

  function NextMult(m: nat): nat {
    m + (if m >= 128 then 2 else 1)
  }

  lemma SameOuterRank(t: Setting, m: nat)
    requires Valid(t) && Multiplier(m)
    ensures OuterRank(t.(mult := m)) == OuterRank(t)
  {
    hide Place;
  }

  lemma NextRank(t: Setting)
    requires Valid(t)
    ensures t.mult < 252 ==> Multiplier(NextMult(t.mult)) && Rank(t.(mult := NextMult(t.mult))) == Rank(t) + 1
    ensures t.mult == 252 ==> Rank(t) + 1 == (OuterRank(t) + 1) * MULTS
  {
    hide OuterRank;
    if t.mult < 252 {
      SameOuterRank(t, NextMult(t.mult));
    }
  }

  lemma ErrorSmall(p: Sensor, t: Setting)
    requires SensorOk(p) && Valid(t) && BaseHz(p, t) <= MAX_BASE
    ensures ClockError(p, t) < INT32
  {
    hide BaseHz;
    TimesPositive(t.pclk, t.mipi);
    QuotientAtMost(BaseHz(p, t), Times(t.pclk, t.mipi));
  }

  /** What the search records for one setting whose base clock is in range. */
  method Consider(p: Sensor, t: Setting, settings: array<nat>, error: nat, ghost best: Option<Setting>)
    returns (error': nat, ghost best': Option<Setting>)
    requires SensorOk(p) && Valid(t) && settings.Length == 8
    requires BaseHz(p, t) <= MAX_BASE && InRange(p, t)
    requires Best(p, best, Rank(t)) && Stored(p, settings[..], error, best)
    modifies settings
    ensures Best(p, best', Rank(t) + 1) && Stored(p, settings[..], error', best')
  {
    hide Best, Rank, BaseHz, SysPll, BitHz, SysHz, MipiRate, MipiPclk, NoWorse;
    Visit(p, best, t);
    SysHzPositive(p, t);
    ErrorSmall(p, t);
    error', best' := error, best;
    var clockError := ClockError(p, t);
    var sysClk := SysHz(p, t);
    var mipiPclk, mipiRate := MipiPclk(p, t), MipiRate(p, t);
    if mipiPclk % sysClk != 0 || mipiRate % sysClk != 0 {
      return;
    }
    var pclkSclkRatio, mipiSclkRatio := mipiPclk / sysClk % 256, mipiRate / sysClk % 256;
    if (!p.scaling && mipiSclkRatio == 8 && pclkSclkRatio == 2)
       || (p.scaling && mipiSclkRatio == 2 && pclkSclkRatio == 1) {
      if clockError <= error {
        error' := clockError;
        settings[0], settings[1], settings[2], settings[3] := t.mult, t.root, t.pre, 1;
        settings[4], settings[5], settings[6], settings[7] := t.sclk, t.sys, t.mipi, t.pclk;
        best' := Some(t);
        assert settings[..] == [t.mult, t.root, t.pre, 1, t.sclk, t.sys, t.mipi, t.pclk];
      }
    }
  }

  lemma RankOfFirst(t: Setting)
    requires Valid(t) && t.mult == 4
    ensures Rank(t) == OuterRank(t) * MULTS
  {
    hide OuterRank;
  }

  /** The innermost loop, over the multipliers. */
  method SearchMultiplier(p: Sensor, first: Setting, settings: array<nat>, error: nat, ghost best: Option<Setting>)
    returns (error': nat, ghost best': Option<Setting>)
    requires SensorOk(p) && Valid(first) && first.mult == 4 && settings.Length == 8
    requires Best(p, best, OuterRank(first) * MULTS) && Stored(p, settings[..], error, best)
    modifies settings
    ensures Best(p, best', (OuterRank(first) + 1) * MULTS) && Stored(p, settings[..], error', best')
  {
    hide Best, Stored, OuterRank, Rank, BaseHz, SysPll;
    error', best' := error, best;
    var mult: nat := 4;
    RankOfFirst(first);
    FirstInRange(p, first);
    while mult <= 252
      invariant mult == 254 || Multiplier(mult)
      invariant Stored(p, settings[..], error', best')
      invariant mult <= 252 ==> BaseHz(p, first.(mult := mult)) < INT32 && Best(p, best', Rank(first.(mult := mult)))
      invariant mult > 252 ==> Best(p, best', (OuterRank(first) + 1) * MULTS)
    {
      var t := first.(mult := mult);
      SameOuterRank(first, mult);
      if BaseHz(p, t) > MAX_BASE {
        BreakDropsNothing(p, best', t);
        return;
      }
      SysPllInRange(p, t);
      error', best' := Consider(p, t, settings, error', best');
      NextRank(t);
      if mult < 252 {
        NextInRange(p, t, first.(mult := NextMult(mult)));
      }
      mult := NextMult(mult);
    }
  }

  function PowerStep(n: nat): nat
    requires PowerOfTwo(n) || n == 16
  {
    if n == 16 then 4 else PowerIndex(n)
  }

  function PreStep(n: nat): nat
    requires PreDivider(n) || n == 10
  {
    if n == 10 then 6 else PreIndex(n)
  }

  function RootRank(t: Setting): nat
    requires Valid(t)
  {
    ((2 - t.root) * 4 + PowerIndex(t.sclk)) * 4 + PowerIndex(t.pclk)
  }

  lemma OuterFromRoot(t: Setting, u: Setting)
    requires Valid(t) && Valid(u) && u.root == t.root && u.sclk == t.sclk && u.pclk == t.pclk
    ensures OuterRank(u) == ((RootRank(t) * 14 + (14 - u.sys)) * 14 + (14 - u.mipi)) * 6 + PreIndex(u.pre)
  {
  }

  /** The loops over the system, MIPI and pre-dividers, for fixed root dividers. */
  method SearchDividers(p: Sensor, t: Setting, settings: array<nat>, error0: nat, ghost found0: Option<Setting>)
    returns (error: nat, ghost found: Option<Setting>)
    requires SensorOk(p) && Valid(t) && settings.Length == 8
    requires Stored(p, settings[..], error0, found0) && Best(p, found0, RootRank(t) * 1176 * MULTS)
    modifies settings
    ensures Stored(p, settings[..], error, found) && Best(p, found, (RootRank(t) + 1) * 1176 * MULTS)
  {
    hide Best, Stored, RootRank;
    error, found := error0, found0;
    var sys: nat := 14;
    while sys > 0
      invariant sys <= 14 && Stored(p, settings[..], error, found)
      invariant Best(p, found, (RootRank(t) * 14 + (14 - sys)) * 84 * MULTS)
    {
      var mipi: nat := 14;
      while mipi > 0
        invariant mipi <= 14 && Stored(p, settings[..], error, found)
        invariant Best(p, found, ((RootRank(t) * 14 + (14 - sys)) * 14 + (14 - mipi)) * 6 * MULTS)
      {
        var pre: nat := 1;
        while pre <= 8
          invariant PreDivider(pre) || pre == 10
          invariant Stored(p, settings[..], error, found)
          invariant Best(p, found, (((RootRank(t) * 14 + (14 - sys)) * 14 + (14 - mipi)) * 6 + PreStep(pre)) * MULTS)
        {
          var first := Setting(t.root, t.sclk, t.pclk, sys, mipi, pre, 4);
          OuterFromRoot(t, first);
          error, found := SearchMultiplier(p, first, settings, error, found);
          pre := pre + (if pre >= 4 then 2 else 1);
        }
        mipi := mipi - 1;
      }
      sys := sys - 1;
    }
  }

  lemma Begin(p: Sensor, settings: seq<nat>)
    requires SensorOk(p) && |settings| == 8
    ensures Best(p, None, 0) && Stored(p, settings, NONE_YET, None)
  {
  }

  lemma Finish(p: Sensor, found: Option<Setting>)
    requires SensorOk(p) && Best(p, found, OUTERS * MULTS)
    ensures found.Some? ==> Valid(found.value) && Feasible(p, found.value)
    ensures forall t :: Valid(t) && Feasible(p, t) ==> found.Some? && NoWorse(p, found.value, t)
  {
    hide Feasible, NoWorse, Rank;
    forall t | Valid(t) && Feasible(p, t) ensures Candidate(p, t, OUTERS * MULTS) {
      RankInRange(t);
    }
  }

  lemma PlaceOrder(hi: nat, lo: nat, hi': nat, lo': nat, base: nat)
    requires lo < base && lo' < base
    ensures Place(hi, base, lo) < Place(hi', base, lo') <==> hi < hi' || (hi == hi' && lo < lo')
    ensures Place(hi, base, lo) == Place(hi', base, lo') <==> hi == hi' && lo == lo'
  {
    if hi < hi' {
      MonoTimes(hi + 1, hi', base);
    } else if hi' < hi {
      MonoTimes(hi' + 1, hi, base);
    }
  }

  lemma IndexOrder(t: Setting, u: Setting)
    requires Valid(t) && Valid(u)
    ensures PowerIndex(t.sclk) < 4 && PowerIndex(t.pclk) < 4 && PreIndex(t.pre) < 6 && MultIndex(t.mult) < MULTS
    ensures PowerIndex(t.sclk) < PowerIndex(u.sclk) <==> t.sclk < u.sclk
    ensures PowerIndex(t.pclk) < PowerIndex(u.pclk) <==> t.pclk < u.pclk
    ensures PreIndex(t.pre) < PreIndex(u.pre) <==> t.pre < u.pre
    ensures MultIndex(t.mult) < MultIndex(u.mult) <==> t.mult < u.mult
  {
  }

  /** The order of `Rank` is the order of the nested loops: the outermost difference decides. */
  lemma RankIsLoopOrder(t: Setting, u: Setting)
    requires Valid(t) && Valid(u)
    ensures Rank(t) < Rank(u) <==> Before(t, u)
  {
    hide Place, MultIndex, PowerIndex, PreIndex;
    IndexOrder(t, u);
    IndexOrder(u, t);
    var a, a' := 2 - t.root, 2 - u.root;
    var b, b' := Place(a, 4, PowerIndex(t.sclk)), Place(a', 4, PowerIndex(u.sclk));
    var c, c' := Place(b, 4, PowerIndex(t.pclk)), Place(b', 4, PowerIndex(u.pclk));
    var d, d' := Place(c, 14, 14 - t.sys), Place(c', 14, 14 - u.sys);
    var e, e' := Place(d, 14, 14 - t.mipi), Place(d', 14, 14 - u.mipi);
    var f, f' := Place(e, 6, PreIndex(t.pre)), Place(e', 6, PreIndex(u.pre));
    PlaceOrder(a, PowerIndex(t.sclk), a', PowerIndex(u.sclk), 4);
    PlaceOrder(b, PowerIndex(t.pclk), b', PowerIndex(u.pclk), 4);
    PlaceOrder(c, 14 - t.sys, c', 14 - u.sys, 14);
    PlaceOrder(d, 14 - t.mipi, d', 14 - u.mipi, 14);
    PlaceOrder(e, PreIndex(t.pre), e', PreIndex(u.pre), 6);
    PlaceOrder(f, MultIndex(t.mult), f', MultIndex(u.mult), MULTS);
  }

  lemma StoredMeans(p: Sensor, settings: seq<nat>, error: nat, best: Option<Setting>)
    requires Stored(p, settings, error, best)
    ensures best.Some? ==> var b := best.value;
      Valid(b) && error == ClockError(p, b) && settings == [b.mult, b.root, b.pre, 1, b.sclk, b.sys, b.mipi, b.pclk]
  {
    hide ClockError, Valid;
  }

  /** The search's answer is a feasible setting and its error, and every other feasible setting is worse or earlier. */
  ghost predicate LastLeast(p: Sensor, found: Option<Setting>, error: nat) {
    && (found.Some? ==>
          && Valid(found.value)
          && exists c, i, j :: Produces(p, found.value, c) && Meets(p, found.value, c, i, j) && OffBy(p, c, error))
    && forall t, c, i, j, e :: Valid(t) && Produces(p, t, c) && Meets(p, t, c, i, j) && OffBy(p, c, e) ==>
         found.Some? && (error < e || (error == e && (t == found.value || Before(t, found.value))))
  }

  lemma BestIsLastLeast(p: Sensor, found: Option<Setting>, error: nat)
    requires SensorOk(p)
    requires found.Some? ==> Valid(found.value) && Feasible(p, found.value) && error == ClockError(p, found.value)
    requires forall t :: Valid(t) && Feasible(p, t) ==> found.Some? && NoWorse(p, found.value, t)
    ensures LastLeast(p, found, error)
  {
    hide Feasible, ClockError, Rank, Produces, Meets, OffBy, Before, Valid, ClocksOf;
    if found.Some? {
      var b := found.value;
      ClocksIff(p, b, ClocksOf(p, b));
      OffByIff(p, b, error);
      var i, j := FeasibleMeets(p, b);
    }
    forall t, c, i, j, e | Valid(t) && Produces(p, t, c) && Meets(p, t, c, i, j) && OffBy(p, c, e)
      ensures found.Some? && (error < e || (error == e && (t == found.value || Before(t, found.value))))
    {
      ClocksIff(p, t, c);
      OffByIff(p, t, e);
      MeetsFeasible(p, t, i, j);
      assert NoWorse(p, found.value, t);
      RankIsLoopOrder(t, found.value);
      if Rank(t) == Rank(found.value) {
        RankInjective(t, found.value);
      }
    }
  }

  /**
   The whole search.  The array holds the last setting of least clock error among exactly the feasible
   ones, in the order of the loops; `found` is None when there is none and the array is left unspecified.
   */
  method Search(p: Sensor, settings: array<nat>) returns (error: nat, ghost found: Option<Setting>)
    requires SensorOk(p) && settings.Length == 8
    modifies settings
    ensures Stored(p, settings[..], error, found)
    ensures found.Some? ==> Valid(found.value) && Feasible(p, found.value)
    ensures forall t :: Valid(t) && Feasible(p, t) ==> found.Some? && NoWorse(p, found.value, t)
    ensures LastLeast(p, found, error)
    ensures found.Some? ==> var b := found.value;
      settings[..] == [b.mult, b.root, b.pre, 1, b.sclk, b.sys, b.mipi, b.pclk]
  {
    hide Best, Stored, Feasible, NoWorse, Rank, LastLeast;
    error, found := NONE_YET, None;
    Begin(p, settings[..]);
    var root: nat := 2;
    while root > 0
      invariant root <= 2 && Stored(p, settings[..], error, found) && Best(p, found, (2 - root) * 18816 * MULTS)
    {
      var sclk: nat := 1;
      while sclk <= 8
        invariant PowerOfTwo(sclk) || sclk == 16
        invariant Stored(p, settings[..], error, found)
        invariant Best(p, found, ((2 - root) * 4 + PowerStep(sclk)) * 4704 * MULTS)
        decreases 16 - sclk
      {
        var pclk: nat := 1;
        while pclk <= 8
          invariant PowerOfTwo(pclk) || pclk == 16
          invariant Stored(p, settings[..], error, found)
          invariant Best(p, found, (((2 - root) * 4 + PowerStep(sclk)) * 4 + PowerStep(pclk)) * 1176 * MULTS)
          decreases 16 - pclk
        {
          error, found := SearchDividers(p, Setting(root, sclk, pclk, 14, 14, 1, 4), settings, error, found);
          pclk := pclk * 2;
        }
        sclk := sclk * 2;
      }
      root := root - 1;
    }
    Finish(p, found);
    StoredMeans(p, settings[..], error, found);
    BestIsLastLeast(p, found, error);
  }
}
