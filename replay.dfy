/**
 * Replay of a recorded breath profile on two mass-flow controllers (MFCs):
 * the class `two_MFCs` and `read_flow_rates_from_csv`.
 *
 * Each usable profile row becomes one tick: the recorded rate is clamped to
 * [0, 20000] sccm, the rate `lookahead` rows ahead is taken as the
 * prediction, a large predicted step is overdriven by `factor`, and the total
 * is split evenly over the two MFCs. The loop waits until the wall clock has
 * caught up with the profile's own elapsed time, sets MFC1 then MFC2, reads
 * both back and keeps one record per tick. After the loop the records are
 * written once and both MFCs are set to zero; an exception inside the loop
 * skips both.
 *
 * The hardware is abstracted: every call on a device handle is appended to
 * `trace` together with whether it raised; which positions of the trace
 * raise (`faults`) and what a read at a position returns (`measured`) are
 * fixed when the object is built. The wall clock is a parameter `clock`
 * (the k-th reading of `time.time()`), and every `time.sleep` is recorded in
 * `sleeps`.
 */
module Replay {
  import opened Base

  /** A Python float as the profile lists hold it: a number, or NaN for a
      missing cell (pandas' NaN and NaT). */
  datatype Float = NaN | Num(v: real)

  /** The largest rate the MFC pair is asked for, in sccm. */
  const MaxRate: real := 20000.0

  /** `lookahead_steps`, `overshoot_threshold`, `overshoot_factor`. */
  datatype Config = Config(lookahead: nat, threshold: real, factor: real)

  /** The defaults of `run`: one row ahead, 500 sccm, a factor of 1.1. */
  const Defaults: Config := Config(1, 500.0, 1.1)

  function Abs(x: real): real { if x < 0.0 then -x else x }

  /** The rate is forced into [0, MaxRate]; a rate inside is kept. */
  function Clamp(rate: real): (r: real)
    ensures 0.0 <= r <= MaxRate
    ensures 0.0 <= rate <= MaxRate ==> r == rate
    ensures rate < 0.0 ==> r == 0.0
    ensures rate > MaxRate ==> r == MaxRate
  {
    if rate < 0.0 then 0.0 else if rate > MaxRate then MaxRate else rate
  }

  /** The clamped rate is the closest admissible rate to the recorded one. */
  lemma {:induction false} ClampIsNearest(rate: real, x: real)
    requires 0.0 <= x <= MaxRate
    ensures Abs(Clamp(rate) - rate) <= Abs(x - rate)
  {
  }

  /** `x / 2` on a float; NaN stays NaN. */
  function Half(x: Float): Float
  {
    match x
    case NaN => NaN
    case Num(v) => Num(v / 2.0)
  }

  // ---------------------------------------------------------------------
  // Profile loading

  /** A table as pandas reads it: a set of column names and, per row, a
      value for every column (NaN for an empty cell). */
  datatype Table = Table(columns: set<string>, rows: seq<map<string, Float>>)

  const RateColumn: string := "Measured_Flow_Rate_FM(sccm)"
  const TimeColumn: string := "Timestamp"

  /** `read_flow_rates_from_csv`: both columns must exist; rows with either
      value missing are dropped; the rest keep their order. Timestamps are
      given as absolute seconds (their text parsing is not modelled). */
  function LoadProfile(t: Table): (r: Result<(seq<real>, seq<real>)>)
    requires forall i :: 0 <= i < |t.rows| ==> t.rows[i].Keys == t.columns
    ensures r.Raised? <==> !(RateColumn in t.columns && TimeColumn in t.columns)
    ensures r.Ok? ==> |r.value.0| == |r.value.1| == |Complete(t.rows)|
    ensures r.Ok? ==> forall i :: 0 <= i < |r.value.0| ==>
      Num(r.value.0[i]) == Complete(t.rows)[i][RateColumn] && Num(r.value.1[i]) == Complete(t.rows)[i][TimeColumn]
  {
    if RateColumn in t.columns && TimeColumn in t.columns then
      var kept := Complete(t.rows);
      Ok((seq(|kept|, i requires 0 <= i < |kept| => kept[i][RateColumn].v),
          seq(|kept|, i requires 0 <= i < |kept| => kept[i][TimeColumn].v)))
    else Raised("ValueError: Required columns not found")
  }

  /** A row in which both required cells hold numbers. */
  predicate CompleteRow(row: map<string, Float>)
  {
    RateColumn in row && TimeColumn in row && row[RateColumn].Num? && row[TimeColumn].Num?
  }

  /** `df.dropna(subset=[rate, time])`. */
  function Complete(rows: seq<map<string, Float>>): (kept: seq<map<string, Float>>)
    ensures forall i :: 0 <= i < |kept| ==> CompleteRow(kept[i])
    ensures |kept| <= |rows|
  {
    if rows == [] then []
    else (if CompleteRow(rows[0]) then [rows[0]] else []) + Complete(rows[1..])
  }

  /** Dropping rows works row by row: the rows kept from a table in two
      parts are those kept from each part, in order, and a single row is
      kept exactly when it is complete. */
  lemma {:induction false} CompleteAppend(a: seq<map<string, Float>>, b: seq<map<string, Float>>)
    ensures Complete(a + b) == Complete(a) + Complete(b)
    ensures |a| == 1 ==> Complete(a) == if CompleteRow(a[0]) then a else []
    decreases |a|
  {
    if a == [] {
      assert a + b == b;
    } else {
      var head := if CompleteRow(a[0]) then [a[0]] else [];
      assert (a + b)[0] == a[0] && (a + b)[1..] == a[1..] + b;
      assert Complete(a + b) == head + Complete(a[1..] + b);
      assert Complete(a) == head + Complete(a[1..]);
      CompleteAppend(a[1..], b);
      if |a| == 1 {
        assert a[1..] == [];
      }
    }
  }

  /** The table is left as it is exactly when every row is complete, and
      shrinks when some row is incomplete. */
  lemma {:induction false} CompleteKeepsCompleteRows(rows: seq<map<string, Float>>)
    ensures Complete(rows) == rows <==> forall i :: 0 <= i < |rows| ==> CompleteRow(rows[i])
    ensures (exists i :: 0 <= i < |rows| && !CompleteRow(rows[i])) ==> |Complete(rows)| < |rows|
  {
    if rows != [] {
      CompleteKeepsCompleteRows(rows[1..]);
      if !CompleteRow(rows[0]) {
        assert |Complete(rows)| < |rows|;
      } else {
        assert Complete(rows) == [rows[0]] + Complete(rows[1..]);
        if exists i :: 0 <= i < |rows| && !CompleteRow(rows[i]) {
          var i :| 0 <= i < |rows| && !CompleteRow(rows[i]);
          assert !CompleteRow(rows[1..][i - 1]);
        }
        if Complete(rows) == rows {
          assert Complete(rows[1..]) == rows[1..];
        }
      }
    }
  }

  /** The elapsed time of every row from the first timestamp, in seconds;
      NaN where either timestamp is missing. */
  function Elapsed(stamps: seq<Float>): (e: seq<Float>)
    requires |stamps| > 0
    ensures |e| == |stamps|
    ensures stamps[0].Num? ==> e[0] == Num(0.0)
    ensures forall i :: 0 <= i < |stamps| ==> (e[i].Num? <==> stamps[0].Num? && stamps[i].Num?)
    ensures forall i, j :: 0 <= i < |stamps| && 0 <= j < |stamps| && e[i].Num? && e[j].Num? ==>
      e[j].v - e[i].v == stamps[j].v - stamps[i].v
  {
    seq(|stamps|, i requires 0 <= i < |stamps| =>
      if stamps[0].Num? && stamps[i].Num? then Num(stamps[i].v - stamps[0].v) else NaN)
  }

  // ---------------------------------------------------------------------
  // The per-tick setpoint rule

  /** What one tick commands. */
  datatype Plan = Plan(row: nat, rate: real, elapsedFm: real, predicted: Float,
                       compensated: bool, mfc1: Float, mfc2: Float)

  /** The setpoints for profile row `row`: clamp, look ahead in the original
      (unclamped) list, overdrive a large step, split evenly. */
  function TickPlan(rates: seq<Float>, row: nat, elapsedFm: real, cfg: Config): Plan
    requires row < |rates| && rates[row].Num?
  {
    var rate := Clamp(rates[row].v);
    var predicted := if row + cfg.lookahead < |rates| then rates[row + cfg.lookahead] else Num(rate);
    var compensated := predicted.Num? && Abs(predicted.v - rate) > cfg.threshold;
    var total := if compensated then Num(predicted.v * cfg.factor) else predicted;
    Plan(row, rate, elapsedFm, predicted, compensated, Half(total), Half(total))
  }

  /** Both MFCs always receive the same setpoint, and together they are asked
      for the prediction, overdriven by `factor` exactly when the predicted
      step is strictly larger than the threshold. */
  lemma {:induction false} TickSetpoints(rates: seq<Float>, row: nat, elapsedFm: real, cfg: Config)
    requires row < |rates| && rates[row].Num?
    ensures var p := TickPlan(rates, row, elapsedFm, cfg);
      && p.mfc1 == p.mfc2
      && p.rate == Clamp(rates[row].v)
      && (p.compensated <==> p.predicted.Num? && Abs(p.predicted.v - p.rate) > cfg.threshold)
      && (p.compensated ==> p.mfc1 == Num(p.predicted.v * cfg.factor / 2.0))
      && (!p.compensated && p.predicted.Num? ==> p.mfc1 == Num(p.predicted.v / 2.0))
  {
  }

  /** The prediction is the raw value `lookahead` rows ahead while that row
      exists; in the last `lookahead` rows it is the clamped current rate, so
      with a non-negative threshold those ticks never overdrive. */
  lemma {:induction false} TickLookahead(rates: seq<Float>, row: nat, elapsedFm: real, cfg: Config)
    requires row < |rates| && rates[row].Num?
    ensures var p := TickPlan(rates, row, elapsedFm, cfg);
      && (row + cfg.lookahead < |rates| ==> p.predicted == rates[row + cfg.lookahead])
      && (row + cfg.lookahead >= |rates| ==> p.predicted == Num(p.rate))
      && (row + cfg.lookahead >= |rates| && cfg.threshold >= 0.0 ==>
            !p.compensated && p.mfc1 == Num(p.rate / 2.0))
  {
  }

  /** A row the loop handles: inside both lists, neither value NaN. */
  predicate Usable(rates: seq<Float>, elapsed: seq<Float>, i: nat)
  {
    i < |rates| && i < |elapsed| && rates[i].Num? && elapsed[i].Num?
  }

  /** The plans of the rows before `n`, in row order, skipping unusable rows. */
  function PlansUpTo(rates: seq<Float>, elapsed: seq<Float>, cfg: Config, n: nat): seq<Plan>
  {
    if n == 0 then []
    else
      PlansUpTo(rates, elapsed, cfg, n - 1)
      + (if Usable(rates, elapsed, n - 1) then [TickPlan(rates, n - 1, elapsed[n - 1].v, cfg)] else [])
  }

  /** Rows the loop visits: `zip` stops at the shorter list. */
  function Rows(rates: seq<Float>, elapsed: seq<Float>): nat
  {
    if |rates| < |elapsed| then |rates| else |elapsed|
  }

  function Plans(rates: seq<Float>, elapsed: seq<Float>, cfg: Config): seq<Plan>
  {
    PlansUpTo(rates, elapsed, cfg, Rows(rates, elapsed))
  }

  /** Number of usable rows before `n`. */
  function CountUsable(rates: seq<Float>, elapsed: seq<Float>, n: nat): nat
  {
    if n == 0 then 0
    else CountUsable(rates, elapsed, n - 1) + (if Usable(rates, elapsed, n - 1) then 1 else 0)
  }

  /** One plan per usable row, in strictly increasing row order, each computed
      from its own row; unusable rows produce nothing. */
  lemma {:induction false} PlansFollowRows(rates: seq<Float>, elapsed: seq<Float>, cfg: Config, n: nat)
    ensures var ps := PlansUpTo(rates, elapsed, cfg, n);
      && |ps| == CountUsable(rates, elapsed, n)
      && (forall k :: 0 <= k < |ps| ==>
            ps[k].row < n && Usable(rates, elapsed, ps[k].row)
            && ps[k] == TickPlan(rates, ps[k].row, elapsed[ps[k].row].v, cfg))
      && (forall k, j :: 0 <= k < j < |ps| ==> ps[k].row < ps[j].row)
      && (forall i :: 0 <= i < n && Usable(rates, elapsed, i) ==> exists k :: 0 <= k < |ps| && ps[k].row == i)
  {
    if n > 0 {
      PlansFollowRows(rates, elapsed, cfg, n - 1);
      var prev := PlansUpTo(rates, elapsed, cfg, n - 1);
      var ps := PlansUpTo(rates, elapsed, cfg, n);
      if Usable(rates, elapsed, n - 1) {
        assert ps == prev + [TickPlan(rates, n - 1, elapsed[n - 1].v, cfg)];
        assert ps[|prev|].row == n - 1;
        forall i | 0 <= i < n && Usable(rates, elapsed, i)
          ensures exists k :: 0 <= k < |ps| && ps[k].row == i
        {
          if i == n - 1 {
            assert ps[|prev|].row == i;
          } else {
            var k :| 0 <= k < |prev| && prev[k].row == i;
            assert ps[k].row == i;
          }
        }
      } else {
        assert ps == prev;
      }
    }
  }

  /** The plans of fewer rows are a prefix of the plans of more rows. */
  lemma {:induction false} PlansPrefix(rates: seq<Float>, elapsed: seq<Float>, cfg: Config, m: nat, n: nat)
    requires m <= n
    ensures var small, large := PlansUpTo(rates, elapsed, cfg, m), PlansUpTo(rates, elapsed, cfg, n);
      |small| <= |large| && large == small + large[|small|..]
    decreases n
  {
    if m < n {
      PlansPrefix(rates, elapsed, cfg, m, n - 1);
      var small, mid := PlansUpTo(rates, elapsed, cfg, m), PlansUpTo(rates, elapsed, cfg, n - 1);
      var large := PlansUpTo(rates, elapsed, cfg, n);
      var last := if Usable(rates, elapsed, n - 1) then [TickPlan(rates, n - 1, elapsed[n - 1].v, cfg)] else [];
      assert large == mid + last;
      assert mid == small + mid[|small|..];
      AppendAssoc(small, mid[|small|..], last);
      assert large[|small|..] == mid[|small|..] + last;
    }
  }

  /** A profile without missing values ticks every row, in order. */
  lemma {:induction false} GaplessProfileTicksEveryRow(rates: seq<Float>, elapsed: seq<Float>, cfg: Config, n: nat)
    requires n <= |rates| && n <= |elapsed|
    requires forall i :: 0 <= i < n ==> rates[i].Num? && elapsed[i].Num?
    ensures var ps := PlansUpTo(rates, elapsed, cfg, n);
      |ps| == n && forall k :: 0 <= k < n ==> ps[k].row == k && ps[k].rate == Clamp(rates[k].v)
  {
    if n > 0 {
      GaplessProfileTicksEveryRow(rates, elapsed, cfg, n - 1);
      assert PlansUpTo(rates, elapsed, cfg, n)
        == PlansUpTo(rates, elapsed, cfg, n - 1) + [TickPlan(rates, n - 1, elapsed[n - 1].v, cfg)];
    }
  }

  /** The three-row profile 100, 100, 4000 sccm at 0, 0.1, 0.2 s with the
      defaults: tick 0 sends 50/50, tick 1 overdrives to 2200/2200, and the
      last tick, having no row ahead, sends 2000/2000. */
  lemma {:induction false} StepProfileScenario()
    ensures var ps := Plans([Num(100.0), Num(100.0), Num(4000.0)], [Num(0.0), Num(0.1), Num(0.2)], Defaults);
      && |ps| == 3
      && ps[0].mfc1 == Num(50.0) && !ps[0].compensated
      && ps[1].mfc1 == Num(2200.0) && ps[1].compensated
      && ps[2].mfc1 == Num(2000.0) && !ps[2].compensated
  {
    var rates := [Num(100.0), Num(100.0), Num(4000.0)];
    var elapsed := [Num(0.0), Num(0.1), Num(0.2)];
    assert PlansUpTo(rates, elapsed, Defaults, 1) == [TickPlan(rates, 0, 0.0, Defaults)];
    assert PlansUpTo(rates, elapsed, Defaults, 2) == PlansUpTo(rates, elapsed, Defaults, 1) + [TickPlan(rates, 1, 0.1, Defaults)];
    assert PlansUpTo(rates, elapsed, Defaults, 3) == PlansUpTo(rates, elapsed, Defaults, 2) + [TickPlan(rates, 2, 0.2, Defaults)];
  }

  // ---------------------------------------------------------------------
  // Pacing and records

  /** What the loop sleeps before tick `k` (0-based among handled ticks):
      the profile's elapsed time minus the wall-clock time since the start. */
  function Lag(p: Plan, k: nat, clock: nat -> real): real
  {
    p.elapsedFm - (clock(k + 1) - clock(0))
  }

  /** The sleeps of the ticks `ps`: one per tick whose lag is positive. */
  function Waits(ps: seq<Plan>, clock: nat -> real): seq<real>
  {
    if ps == [] then []
    else
      var k := |ps| - 1;
      Waits(ps[..k], clock) + (if Lag(ps[k], k, clock) > 0.0 then [Lag(ps[k], k, clock)] else [])
  }

  /** One row of the output CSV (the wall-clock timestamp text and the
      rounding to two decimals are presentation and are left out). */
  datatype Record = Record(elapsedMfc: real, elapsedFm: real, inputFlow: real,
                           combined: real, measured1: real, measured2: real)

  // ---------------------------------------------------------------------
  // Device calls

  datatype Device = Mfc1 | Mfc2

  /** A call on a device handle. */
  datatype Request = SetSetpoint(device: Device, value: Float) | ReadMeasured(device: Device) | ClosePort(device: Device)

  /** A call as it happened: whether it raised. */
  datatype Attempt = Attempt(request: Request, raised: bool)

  /** The four calls of one tick, in order. */
  function TickRequests(p: Plan): seq<Request>
  {
    [SetSetpoint(Mfc1, p.mfc1), SetSetpoint(Mfc2, p.mfc2), ReadMeasured(Mfc1), ReadMeasured(Mfc2)]
  }

  /** The calls of the ticks `ps`, in order. */
  function TicksRequests(ps: seq<Plan>): (rs: seq<Request>)
    ensures |rs| == 4 * |ps|
  {
    if ps == [] then [] else TicksRequests(ps[..|ps| - 1]) + TickRequests(ps[|ps| - 1])
  }

  lemma {:induction false} TicksRequestsAppend(ps: seq<Plan>, qs: seq<Plan>)
    ensures TicksRequests(ps + qs) == TicksRequests(ps) + TicksRequests(qs)
    decreases |qs|
  {
    if qs == [] {
      assert ps + qs == ps;
    } else {
      var init, last := qs[..|qs| - 1], qs[|qs| - 1];
      assert (ps + qs)[..|ps + qs| - 1] == ps + init;
      TicksRequestsAppend(ps, init);
      AppendAssoc(TicksRequests(ps), TicksRequests(init), TickRequests(last));
    }
  }

  lemma {:induction false} TicksRequestsSnoc(ps: seq<Plan>, p: Plan)
    ensures TicksRequests(ps + [p]) == TicksRequests(ps) + TickRequests(p)
  {
    assert (ps + [p])[..|ps|] == ps;
  }

  /** Every sleep is positive, and there is at most one per tick. */
  lemma {:induction false} WaitsPositive(ps: seq<Plan>, clock: nat -> real)
    ensures forall i :: 0 <= i < |Waits(ps, clock)| ==> Waits(ps, clock)[i] > 0.0
    ensures |Waits(ps, clock)| <= |ps|
  {
    if ps != [] {
      WaitsPositive(ps[..|ps| - 1], clock);
    }
  }

  lemma {:induction false} WaitsSnoc(ps: seq<Plan>, p: Plan, clock: nat -> real)
    ensures Waits(ps + [p], clock) ==
      Waits(ps, clock) + (if Lag(p, |ps|, clock) > 0.0 then [Lag(p, |ps|, clock)] else [])
  {
    assert (ps + [p])[..|ps|] == ps;
  }

  lemma {:induction false} AppendAssoc<T>(a: seq<T>, b: seq<T>, c: seq<T>)
    ensures a + b + c == a + (b + c)
  {
  }

  /** `exit_procedure`: MFC1 to zero, then MFC2. */
  const ZeroBoth: seq<Request> := [SetSetpoint(Mfc1, Num(0.0)), SetSetpoint(Mfc2, Num(0.0))]

  /** The setpoint the device last accepted in a trace, if any. */
  function LastSetpoint(trace: seq<Attempt>, d: Device): Option<Float>
  {
    if trace == [] then None
    else
      var a := trace[|trace| - 1];
      if !a.raised && a.request.SetSetpoint? && a.request.device == d then Some(a.request.value)
      else LastSetpoint(trace[..|trace| - 1], d)
  }

  /** A suffix without an accepted setpoint for `d` leaves its setpoint as it was. */
  lemma {:induction false} LastSetpointSkips(trace: seq<Attempt>, tail: seq<Attempt>, d: Device)
    requires forall i :: 0 <= i < |tail| ==> tail[i].raised || !tail[i].request.SetSetpoint? || tail[i].request.device != d
    ensures LastSetpoint(trace + tail, d) == LastSetpoint(trace, d)
    decreases |tail|
  {
    if tail == [] {
      assert trace + tail == trace;
    } else {
      var t := trace + tail;
      assert t[..|t| - 1] == trace + tail[..|tail| - 1];
      assert t[|t| - 1] == tail[|tail| - 1];
      LastSetpointSkips(trace, tail[..|tail| - 1], d);
    }
  }

  // ---------------------------------------------------------------------
  // The hardware

  /** The hardware as a run sees it: which handles are open (not None), at
      which positions of the call trace a call raises, and what a read at a
      position returns. */
  datatype Hardware = Hardware(open1: bool, open2: bool, faults: set<nat>, measured: nat -> real)

  /** A call at trace position `pos` raises: its handle is None or the device fails. */
  predicate Raises(hw: Hardware, pos: nat, r: Request)
  {
    !(if r.device == Mfc1 then hw.open1 else hw.open2) || pos in hw.faults
  }

  /** How many of `rs`, issued from trace position `base`, succeed before the
      first one that raises. */
  function Succeeding(hw: Hardware, rs: seq<Request>, base: nat): (n: nat)
    ensures n <= |rs|
  {
    if rs == [] then 0
    else if Raises(hw, base, rs[0]) then 0
    else 1 + Succeeding(hw, rs[1..], base + 1)
  }

  /** `Succeeding` counts exactly the calls before the first raising one. */
  lemma {:induction false} SucceedingMeans(hw: Hardware, rs: seq<Request>, base: nat)
    ensures forall j :: 0 <= j < Succeeding(hw, rs, base) ==> !Raises(hw, base + j, rs[j])
    ensures Succeeding(hw, rs, base) < |rs| ==> Raises(hw, base + Succeeding(hw, rs, base), rs[Succeeding(hw, rs, base)])
    decreases |rs|
  {
    if rs != [] && !Raises(hw, base, rs[0]) {
      SucceedingMeans(hw, rs[1..], base + 1);
    }
  }

  lemma {:induction false} SucceedingAppend(hw: Hardware, rs: seq<Request>, qs: seq<Request>, base: nat)
    ensures Succeeding(hw, rs + qs, base) ==
      if Succeeding(hw, rs, base) < |rs| then Succeeding(hw, rs, base) else |rs| + Succeeding(hw, qs, base + |rs|)
    decreases |rs|
  {
    if rs == [] {
      assert rs + qs == qs;
    } else {
      assert (rs + qs)[0] == rs[0];
      assert (rs + qs)[1..] == rs[1..] + qs;
      SucceedingAppend(hw, rs[1..], qs, base + 1);
    }
  }

  /** The attempts recorded for `rs` issued from position `base`. */
  function Attempts(hw: Hardware, rs: seq<Request>, base: nat): (ats: seq<Attempt>)
    ensures |ats| == |rs|
  {
    if rs == [] then [] else [Attempt(rs[0], Raises(hw, base, rs[0]))] + Attempts(hw, rs[1..], base + 1)
  }

  /** Each call is recorded with whether it raised at its own position. */
  lemma {:induction false} AttemptsMeans(hw: Hardware, rs: seq<Request>, base: nat)
    ensures forall j :: 0 <= j < |rs| ==> Attempts(hw, rs, base)[j] == Attempt(rs[j], Raises(hw, base + j, rs[j]))
    decreases |rs|
  {
    if rs != [] {
      AttemptsMeans(hw, rs[1..], base + 1);
    }
  }

  lemma {:induction false} AttemptsAppend(hw: Hardware, rs: seq<Request>, qs: seq<Request>, base: nat)
    ensures Attempts(hw, rs + qs, base) == Attempts(hw, rs, base) + Attempts(hw, qs, base + |rs|)
  {
    var l, r := Attempts(hw, rs + qs, base), Attempts(hw, rs, base) + Attempts(hw, qs, base + |rs|);
    AttemptsMeans(hw, rs + qs, base);
    AttemptsMeans(hw, rs, base);
    AttemptsMeans(hw, qs, base + |rs|);
    assert forall j :: 0 <= j < |l| ==> l[j] == r[j];
  }

  /** Calls issued until the first one that raises (that one included). */
  function Issued(hw: Hardware, rs: seq<Request>, base: nat): seq<Request>
  {
    var n := Succeeding(hw, rs, base);
    if n < |rs| then rs[..n + 1] else rs
  }

  /** No call of the ticks `ps` raises. */
  predicate Clean(hw: Hardware, ps: seq<Plan>, base: nat)
  {
    Succeeding(hw, TicksRequests(ps), base) == 4 * |ps|
  }

  /** The ticks that begin (and so sleep): a tick begins when every call of
      the ticks before it succeeded. */
  function TicksStarted(hw: Hardware, ps: seq<Plan>, base: nat): seq<Plan>
  {
    if ps == [] then []
    else if Clean(hw, ps[..|ps| - 1], base) then ps
    else TicksStarted(hw, ps[..|ps| - 1], base)
  }

  /** The record of the `k`-th tick (0-based) when its calls start at `pos`. */
  function RecordOf(hw: Hardware, p: Plan, k: nat, pos: nat, clock: nat -> real): Record
  {
    var m1, m2 := hw.measured(pos + 2), hw.measured(pos + 3);
    Record(clock(k + 1) - clock(0), p.elapsedFm, p.rate, m1 + m2, m1, m2)
  }

  /** The records of the ticks `ps` when the ticks' calls start at `base`. */
  function Records(hw: Hardware, ps: seq<Plan>, base: nat, clock: nat -> real): (rs: seq<Record>)
    ensures |rs| == |ps|
  {
    if ps == [] then []
    else
      var k := |ps| - 1;
      Records(hw, ps[..k], base, clock) + [RecordOf(hw, ps[k], k, base + 4 * k, clock)]
  }

  /** The device calls of a whole `run`: the ticks until one raises; if none
      does and the CSV is written, the two zeroing calls until one raises. */
  function RunRequests(hw: Hardware, ticks: seq<Request>, base: nat, written: bool): seq<Request>
  {
    if Succeeding(hw, ticks, base) < |ticks| || !written then Issued(hw, ticks, base)
    else ticks + Issued(hw, ZeroBoth, base + |ticks|)
  }

  // ---------------------------------------------------------------------
  // The loop of `run`, row by row

  /** Where the loop stands: the calls, sleeps and records so far, the ticks
      handled, and whether a call raised. */
  datatype Progress = Progress(calls: seq<Attempt>, waits: seq<real>, records: seq<Record>,
                               ticks: nat, stopped: bool)

  /** One tick `p` from progress `s`, the loop's calls starting at `base`. */
  function TickEffect(hw: Hardware, s: Progress, p: Plan, base: nat, clock: nat -> real): Progress
  {
    var at := base + |s.calls|;
    var lag := Lag(p, s.ticks, clock);
    var stopped := Succeeding(hw, TickRequests(p), at) < 4;
    Progress(s.calls + Attempts(hw, Issued(hw, TickRequests(p), at), at),
             s.waits + (if lag > 0.0 then [lag] else []),
             s.records + (if stopped then [] else [RecordOf(hw, p, s.ticks, at, clock)]),
             s.ticks + 1, stopped)
  }

  /** The loop after its first `n` rows: unusable rows are skipped and a
      raising call ends it. */
  function Loop(hw: Hardware, rates: seq<Float>, elapsed: seq<Float>, cfg: Config, clock: nat -> real,
                base: nat, n: nat): Progress
  {
    if n == 0 then Progress([], [], [], 0, false)
    else
      var s := Loop(hw, rates, elapsed, cfg, clock, base, n - 1);
      if s.stopped || !Usable(rates, elapsed, n - 1) then s
      else TickEffect(hw, s, TickPlan(rates, n - 1, elapsed[n - 1].v, cfg), base, clock)
  }

  /** Once a call has raised, later rows change nothing. */
  lemma {:induction false} LoopStaysStopped(hw: Hardware, rates: seq<Float>, elapsed: seq<Float>, cfg: Config,
                                            clock: nat -> real, base: nat, m: nat, n: nat)
    requires m <= n && Loop(hw, rates, elapsed, cfg, clock, base, m).stopped
    ensures Loop(hw, rates, elapsed, cfg, clock, base, n) == Loop(hw, rates, elapsed, cfg, clock, base, m)
    decreases n
  {
    if m < n {
      LoopStaysStopped(hw, rates, elapsed, cfg, clock, base, m, n - 1);
    }
  }

  /** When no call raises, every tick began. */
  lemma {:induction false} CleanStartsAll(hw: Hardware, ps: seq<Plan>, base: nat)
    requires Clean(hw, ps, base)
    ensures TicksStarted(hw, ps, base) == ps
  {
    if ps != [] {
      var q := ps[..|ps| - 1];
      assert ps == q + [ps[|ps| - 1]];
      TicksRequestsSnoc(q, ps[|ps| - 1]);
      SucceedingAppend(hw, TicksRequests(q), TickRequests(ps[|ps| - 1]), base);
    }
  }

  /** A raising call among the ticks `ps` leaves that outcome in place when
      another tick follows. */
  lemma {:induction false} StoppedTickSnoc(hw: Hardware, ps: seq<Plan>, p: Plan, base: nat)
    requires !Clean(hw, ps, base)
    ensures !Clean(hw, ps + [p], base)
    ensures Issued(hw, TicksRequests(ps + [p]), base) == Issued(hw, TicksRequests(ps), base)
    ensures TicksStarted(hw, ps + [p], base) == TicksStarted(hw, ps, base)
  {
    var t, u := TicksRequests(ps), TickRequests(p);
    TicksRequestsSnoc(ps, p);
    SucceedingAppend(hw, t, u, base);
    var f := Succeeding(hw, t, base);
    assert (t + u)[..f + 1] == t[..f + 1];
    assert (ps + [p])[..|ps|] == ps;
  }

  /** A tick all of whose calls succeed, after ticks that all succeeded. */
  lemma {:induction false} TickCompleted(hw: Hardware, done: seq<Plan>, p: Plan, base: nat)
    requires Clean(hw, done, base)
    requires Succeeding(hw, TickRequests(p), base + 4 * |done|) == 4
    ensures Clean(hw, done + [p], base)
    ensures TicksStarted(hw, done + [p], base) == done + [p]
    ensures Issued(hw, TicksRequests(done + [p]), base) == TicksRequests(done + [p])
    ensures Attempts(hw, TicksRequests(done + [p]), base)
      == Attempts(hw, TicksRequests(done), base) + Attempts(hw, TickRequests(p), base + 4 * |done|)
  {
    var prior, tick := TicksRequests(done), TickRequests(p);
    TicksRequestsSnoc(done, p);
    SucceedingAppend(hw, prior, tick, base);
    AttemptsAppend(hw, prior, tick, base);
    assert (done + [p])[..|done|] == done;
  }

  /** A tick with a raising call, after ticks that all succeeded. */
  lemma {:induction false} TickInterrupted(hw: Hardware, done: seq<Plan>, p: Plan, base: nat)
    requires Clean(hw, done, base)
    requires Succeeding(hw, TickRequests(p), base + 4 * |done|) < 4
    ensures !Clean(hw, done + [p], base)
    ensures TicksStarted(hw, done + [p], base) == done + [p]
    ensures Attempts(hw, Issued(hw, TicksRequests(done + [p]), base), base)
      == Attempts(hw, TicksRequests(done), base)
         + Attempts(hw, Issued(hw, TickRequests(p), base + 4 * |done|), base + 4 * |done|)
  {
    var prior, tick := TicksRequests(done), TickRequests(p);
    var at := base + |prior|;
    var f := Succeeding(hw, tick, at);
    TicksRequestsSnoc(done, p);
    SucceedingAppend(hw, prior, tick, base);
    assert (prior + tick)[..|prior| + f + 1] == prior + tick[..f + 1];
    AttemptsAppend(hw, prior, tick[..f + 1], base);
    assert (done + [p])[..|done|] == done;
  }

  /** Progress `s` agrees with the declarative description of `run` over the
      ticks `ps`: it stopped iff some call of the ticks raises; its calls are
      the ticks' calls up to the first raising one; it slept before every
      tick that began; and without a raise it kept one record per tick. */
  predicate Agrees(hw: Hardware, s: Progress, ps: seq<Plan>, base: nat, clock: nat -> real)
  {
    && s.stopped == !Clean(hw, ps, base)
    && s.calls == Attempts(hw, Issued(hw, TicksRequests(ps), base), base)
    && s.waits == Waits(TicksStarted(hw, ps, base), clock)
    && (!s.stopped ==> s.records == Records(hw, ps, base, clock) && s.ticks == |ps|)
  }

  lemma {:induction false} AgreesStopped(hw: Hardware, s: Progress, ps: seq<Plan>, p: Plan, base: nat, clock: nat -> real)
    requires Agrees(hw, s, ps, base, clock) && s.stopped
    ensures Agrees(hw, s, ps + [p], base, clock)
  {
    StoppedTickSnoc(hw, ps, p, base);
  }

  lemma {:induction false} AgreesCompleted(hw: Hardware, s: Progress, ps: seq<Plan>, p: Plan, base: nat, clock: nat -> real)
    requires Agrees(hw, s, ps, base, clock) && !s.stopped
    requires Succeeding(hw, TickRequests(p), base + 4 * |ps|) == 4
    ensures Agrees(hw, TickEffect(hw, s, p, base, clock), ps + [p], base, clock)
  {
    var t := TicksRequests(ps);
    assert Issued(hw, t, base) == t;
    assert |s.calls| == 4 * |ps|;
    TickCompleted(hw, ps, p, base);
    CleanStartsAll(hw, ps, base);
    WaitsSnoc(ps, p, clock);
    RecordsSnoc(hw, ps, p, base, clock);
    var next := TickEffect(hw, s, p, base, clock);
    assert !next.stopped;
    assert next.calls == Attempts(hw, TicksRequests(ps + [p]), base);
  }

  lemma {:induction false} AgreesInterrupted(hw: Hardware, s: Progress, ps: seq<Plan>, p: Plan, base: nat, clock: nat -> real)
    requires Agrees(hw, s, ps, base, clock) && !s.stopped
    requires Succeeding(hw, TickRequests(p), base + 4 * |ps|) < 4
    ensures Agrees(hw, TickEffect(hw, s, p, base, clock), ps + [p], base, clock)
  {
    var t := TicksRequests(ps);
    assert Issued(hw, t, base) == t;
    assert |s.calls| == 4 * |ps|;
    TickInterrupted(hw, ps, p, base);
    CleanStartsAll(hw, ps, base);
    WaitsSnoc(ps, p, clock);
    var next := TickEffect(hw, s, p, base, clock);
    assert next.stopped;
    assert next.calls == Attempts(hw, Issued(hw, TicksRequests(ps + [p]), base), base);
  }

  /** The loop's outcome after `n` rows agrees with the declarative
      description over the plans of those rows. */
  lemma {:induction false} LoopAgrees(hw: Hardware, rates: seq<Float>, elapsed: seq<Float>, cfg: Config,
                                      clock: nat -> real, base: nat, n: nat)
    ensures Agrees(hw, Loop(hw, rates, elapsed, cfg, clock, base, n), PlansUpTo(rates, elapsed, cfg, n), base, clock)
  {
    if n == 0 {
      assert Succeeding(hw, [], base) == 0;
    } else {
      LoopAgrees(hw, rates, elapsed, cfg, clock, base, n - 1);
      var s, ps := Loop(hw, rates, elapsed, cfg, clock, base, n - 1), PlansUpTo(rates, elapsed, cfg, n - 1);
      if Usable(rates, elapsed, n - 1) {
        var p := TickPlan(rates, n - 1, elapsed[n - 1].v, cfg);
        assert PlansUpTo(rates, elapsed, cfg, n) == ps + [p];
        if s.stopped {
          AgreesStopped(hw, s, ps, p, base, clock);
        } else {
          assert |s.calls| == 4 * |ps|;
          if Succeeding(hw, TickRequests(p), base + 4 * |ps|) == 4 {
            AgreesCompleted(hw, s, ps, p, base, clock);
          } else {
            AgreesInterrupted(hw, s, ps, p, base, clock);
          }
        }
      } else {
        assert PlansUpTo(rates, elapsed, cfg, n) == ps;
      }
    }
  }

  /** One tick of the loop, as the device calls, sleeps and record of `Tick`
      add them, is the step `TickEffect` takes. */
  lemma {:induction false} TickStep(hw: Hardware, s: Progress, p: Plan, base: nat, clock: nat -> real,
                 trace0: seq<Attempt>, sleeps0: seq<real>, traceAfter: seq<Attempt>, sleepsAfter: seq<real>,
                 ok: bool, rec: Record)
    requires |trace0| == base
    requires traceAfter == trace0 + s.calls
               + Attempts(hw, Issued(hw, TickRequests(p), base + |s.calls|), base + |s.calls|)
    requires sleepsAfter == sleeps0 + s.waits
               + (if Lag(p, s.ticks, clock) > 0.0 then [Lag(p, s.ticks, clock)] else [])
    requires ok == (Succeeding(hw, TickRequests(p), base + |s.calls|) == 4)
    requires ok ==> rec == RecordOf(hw, p, s.ticks, base + |s.calls|, clock)
    ensures var next := TickEffect(hw, s, p, base, clock);
      && traceAfter == trace0 + next.calls
      && sleepsAfter == sleeps0 + next.waits
      && ok == !next.stopped
      && (ok ==> next.records == s.records + [rec])
      && next.ticks == s.ticks + 1
  {
    var at := base + |s.calls|;
    AppendAssoc(trace0, s.calls, Attempts(hw, Issued(hw, TickRequests(p), at), at));
    AppendAssoc(sleeps0, s.waits, if Lag(p, s.ticks, clock) > 0.0 then [Lag(p, s.ticks, clock)] else []);
  }

  /** The calls of `run` after the loop reached `s`: the loop's, then, when
      no call raised and the CSV was written, those of `exit_procedure`. */
  lemma {:induction false} RunCalls(hw: Hardware, s: Progress, ps: seq<Plan>, base: nat, clock: nat -> real, written: bool,
                 trace0: seq<Attempt>, traceAfter: seq<Attempt>)
    requires Agrees(hw, s, ps, base, clock) && |trace0| == base
    requires traceAfter == trace0 + s.calls
               + (if !s.stopped && written
                  then Attempts(hw, Issued(hw, ZeroBoth, base + |s.calls|), base + |s.calls|) else [])
    ensures traceAfter == trace0 + Attempts(hw, RunRequests(hw, TicksRequests(ps), base, written), base)
    ensures !s.stopped ==> |s.calls| == 4 * |ps|
  {
    var ticks := TicksRequests(ps);
    if s.stopped || !written {
      assert RunRequests(hw, ticks, base, written) == Issued(hw, ticks, base);
    } else {
      assert Issued(hw, ticks, base) == ticks;
      var at := base + |ticks|;
      assert RunRequests(hw, ticks, base, written) == ticks + Issued(hw, ZeroBoth, at);
      AppendAssoc(trace0, Attempts(hw, ticks, base), Attempts(hw, Issued(hw, ZeroBoth, at), at));
      AttemptsAppend(hw, ticks, Issued(hw, ZeroBoth, at), base);
    }
  }

  /** The end of `run` from trace position `base` after its loop reached
      `s`: when no call raised, the CSV write (which succeeds iff `written`)
      and `exit_procedure`. The trace, sleeps and CSV writes go from
      `trace0`, `sleeps0`, `writes0` to `traceAfter`, `sleepsAfter`,
      `writesAfter`. */
  predicate RunSteps(hw: Hardware, s: Progress, base: nat, written: bool,
                     trace0: seq<Attempt>, sleeps0: seq<real>, writes0: seq<seq<Record>>,
                     traceAfter: seq<Attempt>, sleepsAfter: seq<real>,
                     writesAfter: seq<seq<Record>>, out: Result<seq<Record>>)
  {
    var at := base + |s.calls|;
    && sleepsAfter == sleeps0 + s.waits
    && if !s.stopped && written then
         && traceAfter == trace0 + s.calls + Attempts(hw, Issued(hw, ZeroBoth, at), at)
         && writesAfter == writes0 + [s.records]
         && out == (if Succeeding(hw, ZeroBoth, at) == 2 then Ok(s.records) else Raised("device error"))
       else
         traceAfter == trace0 + s.calls && writesAfter == writes0 && out.Raised?
  }

  /** `run` over the plans `ps` of the usable rows, described as a whole: the
      trace is the ticks' calls up to the first that raises, then (no raise,
      CSV written) the zeroing calls up to the first that raises; a sleep
      before every tick that began; the records written once iff no call
      raised and the CSV could be written; success iff, in addition, both
      zeroing calls succeeded, with one record per tick. */
  predicate RunDone(hw: Hardware, ps: seq<Plan>, clock: nat -> real, base: nat, written: bool,
                    trace0: seq<Attempt>, sleeps0: seq<real>, writes0: seq<seq<Record>>,
                    traceAfter: seq<Attempt>, sleepsAfter: seq<real>,
                    writesAfter: seq<seq<Record>>, out: Result<seq<Record>>)
  {
    && traceAfter == trace0 + Attempts(hw, RunRequests(hw, TicksRequests(ps), base, written), base)
    && sleepsAfter == sleeps0 + Waits(TicksStarted(hw, ps, base), clock)
    && writesAfter == writes0 + (if Clean(hw, ps, base) && written then [Records(hw, ps, base, clock)] else [])
    && (out.Ok? <==> Clean(hw, ps, base) && written && Succeeding(hw, ZeroBoth, base + 4 * |ps|) == 2)
    && (out.Ok? ==> out.value == Records(hw, ps, base, clock))
  }

  /** `run` step by step: its loop over the rows, then `RunSteps`. */
  predicate RunLoopSteps(hw: Hardware, rates: seq<Float>, elapsed: seq<Float>, cfg: Config,
                         clock: nat -> real, base: nat, written: bool,
                         trace0: seq<Attempt>, sleeps0: seq<real>, writes0: seq<seq<Record>>,
                         traceAfter: seq<Attempt>, sleepsAfter: seq<real>,
                         writesAfter: seq<seq<Record>>, out: Result<seq<Record>>)
  {
    RunSteps(hw, Loop(hw, rates, elapsed, cfg, clock, base, Rows(rates, elapsed)), base, written,
             trace0, sleeps0, writes0, traceAfter, sleepsAfter, writesAfter, out)
  }

  /** What `run` does step by step is what the description as a whole says. */
  lemma {:induction false} RunOutcome(hw: Hardware, rates: seq<Float>, elapsed: seq<Float>, cfg: Config,
                                      clock: nat -> real, base: nat, written: bool,
                                      trace0: seq<Attempt>, sleeps0: seq<real>, writes0: seq<seq<Record>>,
                                      traceAfter: seq<Attempt>, sleepsAfter: seq<real>,
                                      writesAfter: seq<seq<Record>>, out: Result<seq<Record>>)
    requires |trace0| == base
    requires RunLoopSteps(hw, rates, elapsed, cfg, clock, base, written, trace0, sleeps0, writes0,
                          traceAfter, sleepsAfter, writesAfter, out)
    ensures RunDone(hw, Plans(rates, elapsed, cfg), clock, base, written, trace0, sleeps0, writes0,
                    traceAfter, sleepsAfter, writesAfter, out)
  {
    LoopAgrees(hw, rates, elapsed, cfg, clock, base, Rows(rates, elapsed));
    RunFinish(hw, Loop(hw, rates, elapsed, cfg, clock, base, Rows(rates, elapsed)), Plans(rates, elapsed, cfg),
              clock, base, written, trace0, sleeps0, writes0, traceAfter, sleepsAfter, writesAfter, out);
  }

  /** After a loop that agrees with the plans `ps`, the steps that end `run`
      give the description as a whole. */
  lemma {:induction false} RunFinish(hw: Hardware, s: Progress, ps: seq<Plan>, clock: nat -> real,
                                      base: nat, written: bool,
                                      trace0: seq<Attempt>, sleeps0: seq<real>, writes0: seq<seq<Record>>,
                                      traceAfter: seq<Attempt>, sleepsAfter: seq<real>,
                                      writesAfter: seq<seq<Record>>, out: Result<seq<Record>>)
    requires |trace0| == base && Agrees(hw, s, ps, base, clock)
    requires RunSteps(hw, s, base, written, trace0, sleeps0, writes0, traceAfter, sleepsAfter, writesAfter, out)
    ensures RunDone(hw, ps, clock, base, written, trace0, sleeps0, writes0, traceAfter, sleepsAfter, writesAfter, out)
  {
    RunCalls(hw, s, ps, base, clock, written, trace0, traceAfter);
  }

  lemma {:induction false} RecordsSnoc(hw: Hardware, done: seq<Plan>, p: Plan, base: nat, clock: nat -> real)
    ensures Records(hw, done + [p], base, clock)
      == Records(hw, done, base, clock) + [RecordOf(hw, p, |done|, base + 4 * |done|, clock)]
  {
    assert (done + [p])[..|done|] == done;
  }

  // ---------------------------------------------------------------------
  // Cleanup

  /** The calls `cleanup` makes on one device from position `pos`: the zero
      setpoint, and the port close only if the setpoint went through. */
  function DeviceCleanup(hw: Hardware, d: Device, pos: nat): seq<Attempt>
  {
    var zero := SetSetpoint(d, Num(0.0));
    if Raises(hw, pos, zero) then [Attempt(zero, true)]
    else [Attempt(zero, false), Attempt(ClosePort(d), Raises(hw, pos + 1, ClosePort(d)))]
  }

  /** The calls of `cleanup`: MFC1's, then MFC2's, each caught on its own. */
  function CleanupCalls(hw: Hardware, pos: nat): seq<Attempt>
  {
    var first := DeviceCleanup(hw, Mfc1, pos);
    first + DeviceCleanup(hw, Mfc2, pos + |first|)
  }

  /** `cleanup` handles each device on its own: whatever happened to the
      other one, a device whose zeroing call went through ends at setpoint
      zero, and one whose zeroing call raised keeps the setpoint it had. */
  lemma {:induction false} CleanupZeroesEach(hw: Hardware, trace: seq<Attempt>, d: Device)
    ensures var first := DeviceCleanup(hw, Mfc1, |trace|);
      var pos := if d == Mfc1 then |trace| else |trace| + |first|;
      var after := LastSetpoint(trace + CleanupCalls(hw, |trace|), d);
      && (!Raises(hw, pos, SetSetpoint(d, Num(0.0))) ==> after == Some(Num(0.0)))
      && (Raises(hw, pos, SetSetpoint(d, Num(0.0))) ==> after == LastSetpoint(trace, d))
  {
    var first := DeviceCleanup(hw, Mfc1, |trace|);
    var second := DeviceCleanup(hw, Mfc2, |trace| + |first|);
    AppendAssoc(trace, first, second);
    if d == Mfc1 {
      LastSetpointSkips(trace + first, second, Mfc1);
      var t := trace + first;
      if |first| == 2 {
        assert t[..|t| - 1] == trace + [first[0]];
        assert (trace + [first[0]])[..|trace|] == trace;
      } else {
        assert t[..|t| - 1] == trace;
      }
    } else {
      LastSetpointSkips(trace, first, Mfc2);
      var t := trace + first + second;
      if |second| == 2 {
        assert t[..|t| - 1] == trace + first + [second[0]];
        assert (trace + first + [second[0]])[..|trace + first|] == trace + first;
      } else {
        assert t[..|t| - 1] == trace + first;
      }
    }
  }

  /** A `run` that returns normally leaves both MFCs at setpoint zero. */
  lemma {:induction false} CompletedRunZeroes(hw: Hardware, ps: seq<Plan>, base: nat, trace0: seq<Attempt>, d: Device)
    requires Clean(hw, ps, base) && Succeeding(hw, ZeroBoth, base + 4 * |ps|) == 2
    ensures LastSetpoint(trace0 + Attempts(hw, RunRequests(hw, TicksRequests(ps), base, true), base), d)
      == Some(Num(0.0))
  {
    var ticks := TicksRequests(ps);
    var at := base + |ticks|;
    assert Issued(hw, ZeroBoth, at) == ZeroBoth;
    AttemptsAppend(hw, ticks, ZeroBoth, base);
    var zeros := Attempts(hw, ZeroBoth, at);
    assert zeros == [Attempt(ZeroBoth[0], false), Attempt(ZeroBoth[1], false)];
    var t := trace0 + (Attempts(hw, ticks, base) + zeros);
    assert t[|t| - 1] == Attempt(ZeroBoth[1], false);
    assert t[..|t| - 1][|t| - 2] == Attempt(ZeroBoth[0], false);
  }

  /** `run` has no `finally`: when a read of the first tick raises, the run
      ends there and MFC1 keeps that tick's setpoint; nothing zeroes it. */
  lemma {:induction false} InterruptedRunKeepsSetpoint(hw: Hardware, ps: seq<Plan>, base: nat,
                                                       trace0: seq<Attempt>, written: bool)
    requires hw.open1 && hw.open2 && hw.faults == {base + 2} && ps != []
    ensures !Clean(hw, ps, base)
    ensures LastSetpoint(trace0 + Attempts(hw, RunRequests(hw, TicksRequests(ps), base, written), base), Mfc1)
      == Some(ps[0].mfc1)
  {
    var ticks := TicksRequests(ps);
    TicksRequestsAppend([ps[0]], ps[1..]);
    assert [ps[0]] + ps[1..] == ps;
    assert TicksRequests([ps[0]]) == TickRequests(ps[0]) by {
      assert [ps[0]][..0] == [];
    }
    assert ticks == TickRequests(ps[0]) + TicksRequests(ps[1..]);
    assert ticks[0] == SetSetpoint(Mfc1, ps[0].mfc1) && ticks[1] == SetSetpoint(Mfc2, ps[0].mfc2);
    assert ticks[2] == ReadMeasured(Mfc1);
    assert Succeeding(hw, ticks, base) == 2 by {
      assert ticks[1..][1..][0] == ReadMeasured(Mfc1);
      assert Succeeding(hw, ticks[1..][1..], base + 2) == 0;
      assert ticks[1..][0] == SetSetpoint(Mfc2, ps[0].mfc2);
      assert Succeeding(hw, ticks[1..], base + 1) == 1;
    }
    var issued := ticks[..3];
    assert Issued(hw, ticks, base) == issued;
    AttemptsMeans(hw, issued, base);
    var t := trace0 + Attempts(hw, issued, base);
    assert RunRequests(hw, ticks, base, written) == issued;
    var t1, t2 := t[..|t| - 1], t[..|t| - 2];
    assert t[|t| - 1].request == ReadMeasured(Mfc1);
    assert t1[|t| - 2].request == SetSetpoint(Mfc2, ps[0].mfc2);
    assert t1[..|t| - 2] == t2;
    assert t2[|t| - 3] == Attempt(SetSetpoint(Mfc1, ps[0].mfc1), false);
    assert LastSetpoint(t2, Mfc1) == Some(ps[0].mfc1);
    assert LastSetpoint(t1, Mfc1) == Some(ps[0].mfc1);
  }

  // ---------------------------------------------------------------------
  // The object

  class TwoMfcs {
    /** `self.device1` / `self.device2` hold a connection (are not None). */
    var device1: bool
    var device2: bool
    /** Every call made on a device handle, in order. */
    var trace: seq<Attempt>
    /** Every `time.sleep`, in order. */
    var sleeps: seq<real>
    /** Every `DataFrame.to_csv` of the output, in order. */
    var csvWrites: seq<seq<Record>>
    /** Positions of `trace` at which the hardware raises. */
    const faults: set<nat>
    /** What a read at a position of `trace` returns. */
    const measured: nat -> real

    /** The object after `__init__` connected both MFCs. */
    constructor (faults: set<nat>, measured: nat -> real)
      ensures device1 && device2 && trace == [] && sleeps == [] && csvWrites == []
      ensures this.faults == faults && this.measured == measured
    {
      device1, device2 := true, true;
      trace, sleeps, csvWrites := [], [], [];
      this.faults, this.measured := faults, measured;
    }

    function Hw(): Hardware
      reads this`device1, this`device2
    {
      Hardware(device1, device2, faults, measured)
    }

    /** One call on a device handle. */
    method Issue(r: Request) returns (ok: bool, reading: real)
      modifies this`trace
      ensures ok == !Raises(Hw(), |old(trace)|, r)
      ensures trace == old(trace) + [Attempt(r, !ok)]
      ensures r.ReadMeasured? && ok ==> reading == measured(|old(trace)|)
    {
      ok := !Raises(Hw(), |trace|, r);
      reading := if r.ReadMeasured? && ok then measured(|trace|) else 0.0;
      trace := trace + [Attempt(r, !ok)];
    }

    /** `set_value_MFC1` / `set_value_MFC2`. */
    method SetValue(d: Device, v: Float) returns (ok: bool)
      modifies this`trace
      ensures ok == !Raises(Hw(), |old(trace)|, SetSetpoint(d, v))
      ensures trace == old(trace) + [Attempt(SetSetpoint(d, v), !ok)]
    {
      var reading;
      ok, reading := Issue(SetSetpoint(d, v));
    }

    /** Set MFC1, set MFC2, read MFC1, read MFC2, stopping at the first call
        that raises. */
    method ApplyTick(p: Plan) returns (ok: bool, m1: real, m2: real)
      modifies this`trace
      ensures trace == old(trace) + Attempts(Hw(), Issued(Hw(), TickRequests(p), |old(trace)|), |old(trace)|)
      ensures ok == (Succeeding(Hw(), TickRequests(p), |old(trace)|) == 4)
      ensures ok ==> m1 == measured(|old(trace)| + 2) && m2 == measured(|old(trace)| + 3)
    {
      ghost var base := |trace|;
      ghost var rs := TickRequests(p);
      ghost var hw := Hw();
      SucceedingMeans(hw, rs, base);
      m1, m2 := 0.0, 0.0;
      ok := SetValue(Mfc1, p.mfc1);
      if !ok {
        assert Succeeding(hw, rs, base) == 0;
        assert Issued(hw, rs, base) == rs[..1];
        AttemptsMeans(hw, rs[..1], base);
        return;
      }
      ok := SetValue(Mfc2, p.mfc2);
      if !ok {
        assert Succeeding(hw, rs, base) == 1;
        assert Issued(hw, rs, base) == rs[..2];
        AttemptsMeans(hw, rs[..2], base);
        return;
      }
      ok, m1 := Issue(ReadMeasured(Mfc1));
      if !ok {
        assert !Raises(hw, base, rs[0]) && !Raises(hw, base + 1, rs[1]) && Raises(hw, base + 2, rs[2]);
        assert Succeeding(hw, rs, base) == 2;
        assert Issued(hw, rs, base) == rs[..3];
        AttemptsMeans(hw, rs[..3], base);
        return;
      }
      ok, m2 := Issue(ReadMeasured(Mfc2));
      assert !Raises(hw, base, rs[0]) && !Raises(hw, base + 1, rs[1]) && !Raises(hw, base + 2, rs[2]);
      if !ok {
        assert Raises(hw, base + 3, rs[3]);
        assert Succeeding(hw, rs, base) == 3;
        assert Issued(hw, rs, base) == rs[..4];
        AttemptsMeans(hw, rs[..4], base);
      } else {
        assert Succeeding(hw, rs, base) == 4;
        AttemptsMeans(hw, rs, base);
      }
    }

    /** `exit_procedure`: MFC1 to zero, then MFC2, without any try. */
    method ExitProcedure() returns (ok: bool)
      modifies this`trace
      ensures trace == old(trace) + Attempts(Hw(), Issued(Hw(), ZeroBoth, |old(trace)|), |old(trace)|)
      ensures ok == (Succeeding(Hw(), ZeroBoth, |old(trace)|) == 2)
    {
      ghost var base := |trace|;
      SucceedingMeans(Hw(), ZeroBoth, base);
      ok := SetValue(Mfc1, Num(0.0));
      if !ok {
        assert Issued(Hw(), ZeroBoth, base) == ZeroBoth[..1];
        AttemptsMeans(Hw(), ZeroBoth[..1], base);
        return;
      }
      ok := SetValue(Mfc2, Num(0.0));
      if !ok {
        assert Issued(Hw(), ZeroBoth, base) == ZeroBoth[..2];
      }
      AttemptsMeans(Hw(), ZeroBoth, base);
    }

    /** One pass of the loop body for a usable row: sleep while the wall
        clock is behind the profile, then the four device calls; `rec` is
        the record the row adds when no call raised. `k` counts the ticks
        before this one. */
    method Tick(p: Plan, k: nat, clock: nat -> real) returns (ok: bool, rec: Record)
      modifies this`trace, this`sleeps
      ensures sleeps == old(sleeps) + (if Lag(p, k, clock) > 0.0 then [Lag(p, k, clock)] else [])
      ensures trace == old(trace) + Attempts(Hw(), Issued(Hw(), TickRequests(p), |old(trace)|), |old(trace)|)
      ensures ok == (Succeeding(Hw(), TickRequests(p), |old(trace)|) == 4)
      ensures ok ==> rec == RecordOf(Hw(), p, k, |old(trace)|, clock)
    {
      var realElapsed := clock(k + 1) - clock(0);
      var lag := p.elapsedFm - realElapsed;
      if lag > 0.0 {
        sleeps := sleeps + [lag];
      }
      var m1, m2;
      ok, m1, m2 := ApplyTick(p);
      rec := Record(realElapsed, p.elapsedFm, p.rate, m1 + m2, m1, m2);
    }

    /** `Tick` as one step of the loop from progress `s`, the loop's calls
        starting at `base` after `trace0` and its sleeps after `sleeps0`. */
    method Step(p: Plan, k: nat, clock: nat -> real, ghost hw: Hardware, ghost s: Progress, ghost base: nat,
                ghost trace0: seq<Attempt>, ghost sleeps0: seq<real>)
      returns (ok: bool, rec: Record)
      requires Hw() == hw && |trace0| == base && k == s.ticks
      requires trace == trace0 + s.calls && sleeps == sleeps0 + s.waits
      modifies this`trace, this`sleeps
      ensures var next := TickEffect(hw, s, p, base, clock);
        && trace == trace0 + next.calls
        && sleeps == sleeps0 + next.waits
        && ok == !next.stopped
        && (ok ==> next.records == s.records + [rec])
        && next.ticks == s.ticks + 1
    {
      ok, rec := Tick(p, k, clock);
      TickStep(hw, s, p, base, clock, trace0, sleeps0, trace, sleeps, ok, rec);
    }

    /** The loop of `run` over the rows of the profile; `ok` is false when a
        device call raised, which ends the loop there. */
    method Ticks(rates: seq<Float>, elapsed: seq<Float>, cfg: Config, clock: nat -> real)
      returns (ok: bool, records: seq<Record>)
      modifies this`trace, this`sleeps
      ensures var s := Loop(Hw(), rates, elapsed, cfg, clock, |old(trace)|, Rows(rates, elapsed));
        && trace == old(trace) + s.calls
        && sleeps == old(sleeps) + s.waits
        && ok == !s.stopped
        && records == s.records
    {
      ghost var hw := Hw();
      ghost var base := |trace|;
      var n := Rows(rates, elapsed);
      ghost var s := Loop(hw, rates, elapsed, cfg, clock, base, 0);
      ok, records := true, [];
      var k := 0;
      var idx := 0;
      while idx < n && ok
        invariant 0 <= idx <= n
        invariant s == Loop(hw, rates, elapsed, cfg, clock, base, idx) && ok == !s.stopped
        invariant k == s.ticks && Hw() == hw
        invariant trace == old(trace) + s.calls
        invariant sleeps == old(sleeps) + s.waits
        invariant records == s.records
      {
        if rates[idx].NaN? || elapsed[idx].NaN? {
          assert Loop(hw, rates, elapsed, cfg, clock, base, idx + 1) == s;
        } else {
          var p := TickPlan(rates, idx, elapsed[idx].v, cfg);
          ghost var next := TickEffect(hw, s, p, base, clock);
          assert Loop(hw, rates, elapsed, cfg, clock, base, idx + 1) == next;
          var rec;
          ok, rec := Step(p, k, clock, hw, s, base, old(trace), old(sleeps));
          if ok {
            records := records + [rec];
          }
          s := next;
          k := k + 1;
        }
        idx := idx + 1;
      }
      if !ok {
        LoopStaysStopped(hw, rates, elapsed, cfg, clock, base, idx, n);
      }
    }

    /** `run(original_flow_rates, FM_timestamps, output_file, ...)`.
        `written` says whether `to_csv` succeeds. */
    method Run(rates: seq<Float>, stamps: seq<Float>, cfg: Config, clock: nat -> real, written: bool)
      returns (out: Result<seq<Record>>)
      modifies this`trace, this`sleeps, this`csvWrites
      ensures |stamps| == 0 ==> out.Raised? && trace == old(trace) && sleeps == old(sleeps) && csvWrites == old(csvWrites)
      ensures |stamps| > 0 ==>
        RunDone(Hw(), Plans(rates, Elapsed(stamps), cfg), clock, |old(trace)|, written,
                old(trace), old(sleeps), old(csvWrites), trace, sleeps, csvWrites, out)
    {
      if |stamps| == 0 {
        return Raised("IndexError: FM_timestamps[0]");
      }
      ghost var hw, base := Hw(), |trace|;
      var elapsed := Elapsed(stamps);
      var ok, records := Ticks(rates, elapsed, cfg, clock);
      if ok {
        out := SaveAndExit(records, written);
      } else {
        out := Raised("device error");
      }
      RunOutcome(hw, rates, elapsed, cfg, clock, base, written, old(trace), old(sleeps), old(csvWrites),
                 trace, sleeps, csvWrites, out);
    }

    /** The end of `run`: write the records to the CSV file (`written` says
        whether that succeeds), then `exit_procedure`. */
    method SaveAndExit(records: seq<Record>, written: bool) returns (out: Result<seq<Record>>)
      modifies this`trace, this`csvWrites
      ensures var at := |old(trace)|;
        if written then
          && trace == old(trace) + Attempts(Hw(), Issued(Hw(), ZeroBoth, at), at)
          && csvWrites == old(csvWrites) + [records]
          && out == (if Succeeding(Hw(), ZeroBoth, at) == 2 then Ok(records) else Raised("device error"))
        else
          trace == old(trace) && csvWrites == old(csvWrites) && out.Raised?
    {
      if !written {
        return Raised("to_csv failed");
      }
      csvWrites := csvWrites + [records];
      var ok := ExitProcedure();
      out := if ok then Ok(records) else Raised("device error");
    }

    /** `cleanup`: for each MFC in turn, try to set it to zero and, if that
        worked, close its port; a failure is caught per device. Both handles
        end up None. */
    method Cleanup()
      modifies this`trace, this`device1, this`device2
      ensures !device1 && !device2
      ensures trace == old(trace) + CleanupCalls(old(Hw()), |old(trace)|)
    {
      var ok, reading := Issue(SetSetpoint(Mfc1, Num(0.0)));
      if ok {
        ok, reading := Issue(ClosePort(Mfc1));
      }
      ok, reading := Issue(SetSetpoint(Mfc2, Num(0.0)));
      if ok {
        ok, reading := Issue(ClosePort(Mfc2));
      }
      device1, device2 := false, false;
    }
  }
}
