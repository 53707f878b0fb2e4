/**
 The polling loop of the open-interest sentry (`run_loop`): a monitor that
 holds the history buffer, the Binance/Bybit baseline and the cycle counter,
 and processes one cycle's pair of fetch results at a time. A cycle is skipped
 when either fetch failed, warms up (records the first pair as baseline) when
 there is no baseline yet, and otherwise classifies the pair against the
 baseline. Saving the state file and posting to the webhook are recorded as
 ghost events.
 */
module Sentry {
  import opened History
  import opened Classifier

  datatype Option<T> = None | Some(value: T)

  /** The injected configuration: the four thresholds, `keep_points`,
      `max_iter` and the webhook URL (only whether it is empty matters). */
  datatype Config = Config(thresholds: Thresholds, keepPoints: int, maxIter: int, webhook: string)

  /** One cycle's input: the timestamp and the two fetch results, `None` on failure. */
  datatype Tick = Tick(ts: string, binance: Option<real>, bybit: Option<real>)
  {
    predicate Ok() { binance.Some? && bybit.Some? }

    function Rec(): Record
      requires Ok()
    {
      Record(ts, binance.value, bybit.value)
    }
  }

  /** Which branch a cycle took; a steady cycle carries the alerts it raised. */
  datatype Outcome = Skipped | Warmup | Steady(alerts: seq<Alert>)

  /** The effects of a cycle: the state file written with the buffer as it
      is, the state file written with the buffer cut to its last `keep`
      records (`history[-keep_points:]`, on the way out of the loop), or a
      message posted for a non-empty list of alerts. */
  datatype Event =
    | Saved(buffer: seq<Record>)
    | SavedTrimmed(buffer: seq<Record>, keep: int)
    | Notified(alerts: seq<Alert>)

  /** The history list a save event writes to the state file. */
  function Written(e: Event): (h: seq<Record>)
    requires !e.Notified?
    ensures e.SavedTrimmed? && e.keep >= 1 ==> |h| <= e.keep
    ensures e.SavedTrimmed? && e.keep >= 0 ==> h == KeepLast(h, e.keep)
  {
    if e.Saved? then e.buffer
    else
      var h := KeepLast(e.buffer, e.keep);
      if e.keep >= 0 then KeepLastIdempotent(e.buffer, e.keep); h else h
  }

  /** No state-file write in `es` holds more than `k` records. */
  predicate SavesWithin(es: seq<Event>, k: int)
  {
    forall i :: 0 <= i < |es| && !es[i].Notified? ==> |Written(es[i])| <= k
  }

  /** The alerts a cycle raised: none unless it was steady. */
  function AlertsOf(o: Outcome): seq<Alert>
  {
    if o.Steady? then o.alerts else []
  }

  /** `args.max_iter and _iters >= args.max_iter`: a zero bound never stops
      the loop, any other bound stops it once the counter reaches it. */
  predicate Stops(maxIter: int, iters: int)
  {
    maxIter != 0 && iters >= maxIter
  }

  /** Counting cycles from 0: a zero bound never stops the loop, a positive
      bound first stops it after exactly that many cycles, and a negative bound
      (still truthy) stops it after the first cycle. */
  lemma FirstStop(maxIter: int)
    ensures maxIter == 0 ==> forall i :: !Stops(maxIter, i)
    ensures maxIter > 0 ==> Stops(maxIter, maxIter) && forall i :: 0 <= i < maxIter ==> !Stops(maxIter, i)
    ensures maxIter < 0 ==> Stops(maxIter, 1)
  {
  }

  /** The records that the successful cycles among `ticks` append, in order. */
  function Observed(ticks: seq<Tick>): (rs: seq<Record>)
    ensures |rs| <= |ticks|
  {
    if ticks == [] then []
    else
      var last := ticks[|ticks| - 1];
      Observed(ticks[..|ticks| - 1]) + if last.Ok() then [last.Rec()] else []
  }

  /** Nothing is absorbed exactly when every cycle failed a fetch. */
  lemma {:induction false} ObservedNone(ticks: seq<Tick>)
    ensures Observed(ticks) == [] <==> forall i :: 0 <= i < |ticks| ==> !ticks[i].Ok()
  {
    if ticks != [] {
      var init := ticks[..|ticks| - 1];
      ObservedNone(init);
      assert forall i :: 0 <= i < |init| ==> init[i] == ticks[i];
    }
  }

  /** One more cycle adds its record when, and only when, both fetches succeeded. */
  lemma ObservedSnoc(ticks: seq<Tick>, c: nat)
    requires c < |ticks|
    ensures Observed(ticks[..c + 1]) ==
              Observed(ticks[..c]) + if ticks[c].Ok() then [ticks[c].Rec()] else []
  {
    assert ticks[..c + 1][..c] == ticks[..c];
  }

  /** The state-file writes and webhook posts of one cycle, in order, given
      its outcome, the buffer after it, the webhook and whether it reached the
      iteration bound: a skipped cycle writes only when it stops (the buffer
      cut to `keep`); a warmup cycle writes the buffer once, even when it stops;
      a steady cycle posts its alerts when there are any and a webhook is set,
      writes the buffer, and writes it cut to `keep` again when it stops. */
  function CycleEvents(o: Outcome, h: seq<Record>, webhook: string, stop: bool, keep: int): (r: seq<Event>)
    ensures |r| <= 3
    ensures o.Skipped? ==> (r != [] <==> stop)
    ensures stop && !o.Warmup? ==> |r| > 0 && r[|r| - 1] == SavedTrimmed(h, keep)
    ensures forall i :: 0 <= i < |r| && r[i].SavedTrimmed? ==> stop && i == |r| - 1
  {
    match o
    case Skipped => if stop then [SavedTrimmed(h, keep)] else []
    case Warmup => [Saved(h)]
    case Steady(alerts) =>
      (if alerts != [] && webhook != [] then [Notified(alerts)] else [])
      + [Saved(h)] + (if stop then [SavedTrimmed(h, keep)] else [])
  }

  /** A cycle notifies exactly when it was steady, raised at least one alert
      and a webhook is set, and it does so before writing the state file. */
  lemma CycleNotifies(o: Outcome, h: seq<Record>, webhook: string, stop: bool, keep: int)
    ensures var es := CycleEvents(o, h, webhook, stop, keep);
            (exists i :: 0 <= i < |es| && es[i].Notified?) <==>
              o.Steady? && o.alerts != [] && webhook != []
    ensures var es := CycleEvents(o, h, webhook, stop, keep);
            forall i :: 0 <= i < |es| && es[i].Notified? ==>
              i == 0 && es[i] == Notified(AlertsOf(o)) && |es| >= 2 && es[1] == Saved(h)
  {
    var es := CycleEvents(o, h, webhook, stop, keep);
    if o.Steady? && o.alerts != [] && webhook != [] {
      assert es[0].Notified?;
    }
  }

  /** When the bound is at least 1 and the buffer of an absorbing cycle obeys
      it, nothing a cycle writes to the state file exceeds the bound. */
  lemma CycleSavesBounded(o: Outcome, h: seq<Record>, webhook: string, stop: bool, keep: int)
    requires keep >= 1 && (o.Skipped? || |h| <= keep)
    ensures SavesWithin(CycleEvents(o, h, webhook, stop, keep), keep)
  {
  }

  /** The baseline after absorbing the records `rs`, starting from (`b0`, `y0`):
      the pair of the newest record, or the starting pair when there is none. */
  function BaselineAfter(b0: Option<real>, y0: Option<real>, rs: seq<Record>): (Option<real>, Option<real>)
  {
    if rs == [] then (b0, y0) else (Some(rs[|rs| - 1].oiBinance), Some(rs[|rs| - 1].oiBybit))
  }

  /** The branch a cycle takes on `tick` against the baseline (`b`, `y`):
      skip on a failed fetch, warm up without a baseline, otherwise classify. */
  function CycleOutcome(b: Option<real>, y: Option<real>, tick: Tick, t: Thresholds): (o: Outcome)
    ensures o.Skipped? <==> !tick.Ok()
    ensures o.Warmup? <==> tick.Ok() && (b.None? || y.None?)
    ensures o.Steady? ==> o.alerts == Assess(tick.binance.value, tick.bybit.value, b.value, y.value, t)
  {
    if !tick.Ok() then Skipped
    else if b.None? || y.None? then Warmup
    else Steady(Assess(tick.binance.value, tick.bybit.value, b.value, y.value, t))
  }

  /** Everything a run saves and posts, starting from the history `h0` and
      the counter `n0`, when its cycles took the branches `outs` on the first
      |outs| entries of `ticks`: each cycle's events in turn, on the buffer
      the cycles so far have built. */
  function RunEvents(h0: seq<Record>, n0: int, ticks: seq<Tick>, outs: seq<Outcome>, cfg: Config): (r: seq<Event>)
    requires |outs| <= |ticks|
    ensures |r| <= 3 * |outs|
    decreases |outs|
  {
    if outs == [] then []
    else
      var c := |outs| - 1;
      RunEvents(h0, n0, ticks, outs[..c], cfg)
      + CycleEvents(outs[c], PushAll(h0, Observed(ticks[..c + 1]), cfg.keepPoints),
                    cfg.webhook, Stops(cfg.maxIter, n0 + c + 1), cfg.keepPoints)
  }

  /** The branches a run took are the ones its inputs dictate: cycle `c` is
      judged on `ticks[c]` against the baseline the earlier cycles left. */
  ghost predicate Dictated(b0: Option<real>, y0: Option<real>, ticks: seq<Tick>, outs: seq<Outcome>, t: Thresholds)
    requires |outs| <= |ticks|
    decreases |outs|
  {
    outs == [] ||
    var c := |outs| - 1;
    Dictated(b0, y0, ticks, outs[..c], t) && outs[c] == Verdict(b0, y0, ticks, c, t)
  }

  /** How cycle `c` of a run from baseline (`b0`, `y0`) is judged: on its own
      fetch results against the baseline the earlier cycles left. */
  function Verdict(b0: Option<real>, y0: Option<real>, ticks: seq<Tick>, c: nat, t: Thresholds): Outcome
    requires c < |ticks|
  {
    var before := BaselineAfter(b0, y0, Observed(ticks[..c]));
    CycleOutcome(before.0, before.1, ticks[c], t)
  }

  /** A cycle judged on its own input against the baseline the earlier cycles
      left extends a dictated run. */
  lemma DictatedNext(b0: Option<real>, y0: Option<real>, ticks: seq<Tick>, outs: seq<Outcome>, o: Outcome, t: Thresholds)
    requires |outs| < |ticks| && Dictated(b0, y0, ticks, outs, t)
    requires o == Verdict(b0, y0, ticks, |outs|, t)
    ensures Dictated(b0, y0, ticks, outs + [o], t)
  {
    assert (outs + [o])[..|outs|] == outs;
  }

  /** A dictated run judged every cycle, not only the last, by its own input. */
  lemma {:induction false} DictatedEach(b0: Option<real>, y0: Option<real>, ticks: seq<Tick>, outs: seq<Outcome>, t: Thresholds)
    requires |outs| <= |ticks| && Dictated(b0, y0, ticks, outs, t)
    ensures forall c :: 0 <= c < |outs| ==> outs[c] == Verdict(b0, y0, ticks, c, t)
    decreases |outs|
  {
    if outs != [] {
      var c := |outs| - 1;
      DictatedEach(b0, y0, ticks, outs[..c], t);
      forall i | 0 <= i < c
        ensures outs[i] == outs[..c][i]
      {
      }
    }
  }

  /** With a bound of at least 1, no state-file write of a whole run exceeds
      it, even when the restored history was longer: a cycle that absorbed a
      record writes the freshly trimmed buffer, and a skipped cycle writes
      only the buffer cut to the bound. */
  lemma {:induction false} RunSavesBounded(h0: seq<Record>, n0: int, ticks: seq<Tick>, outs: seq<Outcome>, cfg: Config)
    requires |outs| <= |ticks| && cfg.keepPoints >= 1
    requires forall c :: 0 <= c < |outs| ==> (outs[c].Skipped? <==> !ticks[c].Ok())
    ensures SavesWithin(RunEvents(h0, n0, ticks, outs, cfg), cfg.keepPoints)
    decreases |outs|
  {
    if outs != [] {
      var c := |outs| - 1;
      var init := outs[..c];
      assert forall i :: 0 <= i < |init| ==> init[i] == outs[i];
      RunSavesBounded(h0, n0, ticks, init, cfg);
      var h := PushAll(h0, Observed(ticks[..c + 1]), cfg.keepPoints);
      if !outs[c].Skipped? {
        ObservedSnoc(ticks, c);
        assert |Observed(ticks[..c + 1])| > 0;
      }
      CycleSavesBounded(outs[c], h, cfg.webhook, Stops(cfg.maxIter, n0 + c + 1), cfg.keepPoints);
      SavesWithinAppend(RunEvents(h0, n0, ticks, init, cfg),
                        CycleEvents(outs[c], h, cfg.webhook, Stops(cfg.maxIter, n0 + c + 1), cfg.keepPoints),
                        cfg.keepPoints);
    }
  }

  /** Two logs that each respect the bound respect it together. */
  lemma SavesWithinAppend(a: seq<Event>, b: seq<Event>, k: int)
    requires SavesWithin(a, k) && SavesWithin(b, k)
    ensures SavesWithin(a + b, k)
  {
    forall i | 0 <= i < |a + b| && !(a + b)[i].Notified? ensures |Written((a + b)[i])| <= k {
      if i >= |a| {
        assert (a + b)[i] == b[i - |a|];
      }
    }
  }

  /** One more cycle with outcome `o` appends exactly that cycle's events,
      on the buffer it leaves, to the log of a run. */
  lemma RunEventsNext(log: seq<Event>, h0: seq<Record>, n0: int, ticks: seq<Tick>, outs: seq<Outcome>,
                      o: Outcome, cfg: Config)
    requires |outs| < |ticks|
    ensures var c := |outs|;
            log + RunEvents(h0, n0, ticks, outs, cfg)
            + CycleEvents(o, PushAll(h0, Observed(ticks[..c + 1]), cfg.keepPoints),
                          cfg.webhook, Stops(cfg.maxIter, n0 + c + 1), cfg.keepPoints)
            == log + RunEvents(h0, n0, ticks, outs + [o], cfg)
  {
    assert (outs + [o])[..|outs|] == outs;
  }

  /** One more cycle of `ticks` moves the absorbed buffer and the baseline
      forward exactly as a cycle of the monitor does. */
  lemma AbsorbNext(h0: seq<Record>, b0: Option<real>, y0: Option<real>, ticks: seq<Tick>, c: nat, k: int)
    requires c < |ticks|
    ensures var seen, tick := Observed(ticks[..c]), ticks[c];
            tick.Ok() ==>
              PushAll(h0, Observed(ticks[..c + 1]), k) == KeepLast(PushAll(h0, seen, k) + [tick.Rec()], k) &&
              BaselineAfter(b0, y0, Observed(ticks[..c + 1])) == (tick.binance, tick.bybit)
    ensures var seen, tick := Observed(ticks[..c]), ticks[c];
            !tick.Ok() ==> Observed(ticks[..c + 1]) == seen
  {
    var seen, tick := Observed(ticks[..c]), ticks[c];
    ObservedSnoc(ticks, c);
    if tick.Ok() {
      PushAllSnoc(h0, seen, tick.Rec(), k);
    } else {
      assert seen + [] == seen;
    }
  }

  class Monitor {
    const cfg: Config
    var history: seq<Record>
    var lastBinance: Option<real>
    var lastBybit: Option<real>
    var iters: nat
    /** Everything saved and notified so far, oldest first. */
    ghost var events: seq<Event>

    /** The baseline is both values or neither; with a non-negative bound it is
        the pair of the newest record, and absent exactly when the history is
        empty; with a positive bound no state-file write so far exceeds it. */
    ghost predicate Valid()
      reads this
    {
      (lastBinance.None? <==> lastBybit.None?) &&
      (cfg.keepPoints >= 0 ==>
        if |history| == 0 then lastBinance.None?
        else lastBinance == Some(history[|history| - 1].oiBinance) &&
             lastBybit == Some(history[|history| - 1].oiBybit)) &&
      (cfg.keepPoints >= 1 ==> SavesWithin(events, cfg.keepPoints))
    }

    /** Start-up: the history is the one read from the state file and the
        baseline is the pair of its newest record, or absent when it is empty. */
    constructor (config: Config, saved: seq<Record>)
      ensures Valid()
      ensures cfg == config && history == saved && iters == 0 && events == []
      ensures saved == [] ==> lastBinance.None? && lastBybit.None?
      ensures saved != [] ==> lastBinance == Some(saved[|saved| - 1].oiBinance) &&
                              lastBybit == Some(saved[|saved| - 1].oiBybit)
    {
      cfg := config;
      history := saved;
      iters := 0;
      events := [];
      if saved == [] {
        lastBinance, lastBybit := None, None;
      } else {
        lastBinance := Some(saved[|saved| - 1].oiBinance);
        lastBybit := Some(saved[|saved| - 1].oiBybit);
      }
    }

    /** One cycle of the polling loop on the cycle's fetch results. */
    method Step(tick: Tick) returns (outcome: Outcome, stop: bool)
      requires Valid()
      modifies this
      ensures Valid()
      ensures iters == old(iters) + 1
      ensures stop == Stops(cfg.maxIter, iters)
      // skip on a failed fetch, warm up without a baseline, otherwise classify
      ensures outcome == CycleOutcome(old(lastBinance), old(lastBybit), tick, cfg.thresholds)
      ensures events == old(events) + CycleEvents(outcome, history, cfg.webhook, stop, cfg.keepPoints)
      // a failed fetch changes nothing but the counter
      ensures !tick.Ok() ==>
                history == old(history) && lastBinance == old(lastBinance) && lastBybit == old(lastBybit)
      // a successful fetch appends, trims and makes the pair the new baseline
      ensures tick.Ok() ==>
                history == KeepLast(old(history) + [tick.Rec()], cfg.keepPoints) &&
                lastBinance == tick.binance && lastBybit == tick.bybit
      ensures tick.Ok() && cfg.keepPoints >= 1 ==> |history| <= cfg.keepPoints
    {
      if tick.binance.None? || tick.bybit.None? {
        outcome := Skipped;
      } else {
        var b, y := tick.binance.value, tick.bybit.value;
        Absorb(Record(tick.ts, b, y));
        if lastBinance.None? || lastBybit.None? {
          outcome := Warmup;
        } else {
          outcome := Steady(Assess(b, y, lastBinance.value, lastBybit.value, cfg.thresholds));
        }
        lastBinance, lastBybit := Some(b), Some(y);
      }
      iters := iters + 1;
      stop := Stops(cfg.maxIter, iters);
      ghost var cycle := CycleEvents(outcome, history, cfg.webhook, stop, cfg.keepPoints);
      if cfg.keepPoints >= 1 {
        CycleSavesBounded(outcome, history, cfg.webhook, stop, cfg.keepPoints);
        SavesWithinAppend(events, cycle, cfg.keepPoints);
      }
      events := events + cycle;
    }

    /** Append the record and cut the buffer back to its bound, in place. */
    method Absorb(rec: Record)
      modifies this`history
      ensures history == KeepLast(old(history) + [rec], cfg.keepPoints)
      ensures cfg.keepPoints >= 0 ==>
                |history| > 0 && history[|history| - 1] == rec
    {
      if cfg.keepPoints >= 0 {
        KeepLastNewest(history, rec, cfg.keepPoints);
      }
      history := KeepLast(history + [rec], cfg.keepPoints);
    }

    /** After `cycles` cycles of a run that started from history `h0`, baseline
        (`b0`, `y0`), counter `n0` and log `e0`: the buffer, baseline, counter
        and log are those the cycles' ticks and `outcomes` dictate. */
    ghost predicate Tracks(h0: seq<Record>, b0: Option<real>, y0: Option<real>, n0: nat,
                           e0: seq<Event>, ticks: seq<Tick>, cycles: nat, outcomes: seq<Outcome>)
      reads this
    {
      cycles <= |ticks| && |outcomes| == cycles && iters == n0 + cycles &&
      history == PushAll(h0, Observed(ticks[..cycles]), cfg.keepPoints) &&
      (lastBinance, lastBybit) == BaselineAfter(b0, y0, Observed(ticks[..cycles])) &&
      Dictated(b0, y0, ticks, outcomes, cfg.thresholds) &&
      events == e0 + RunEvents(h0, n0, ticks, outcomes, cfg)
    }

    /** The next cycle of a run: `Step` on the next tick, which keeps the run
        tracked one cycle further. */
    method Advance(ghost h0: seq<Record>, ghost b0: Option<real>, ghost y0: Option<real>,
                   ghost n0: nat, ghost e0: seq<Event>, ticks: seq<Tick>, cycles: nat,
                   ghost outcomes: seq<Outcome>)
      returns (outcome: Outcome, stop: bool)
      requires Valid() && cycles < |ticks|
      requires Tracks(h0, b0, y0, n0, e0, ticks, cycles, outcomes)
      modifies this
      ensures Valid()
      ensures Tracks(h0, b0, y0, n0, e0, ticks, cycles + 1, outcomes + [outcome])
      ensures stop == Stops(cfg.maxIter, iters)
    {
      AbsorbNext(h0, b0, y0, ticks, cycles, cfg.keepPoints);
      outcome, stop := Step(ticks[cycles]);
      DictatedNext(b0, y0, ticks, outcomes, outcome, cfg.thresholds);
      RunEventsNext(e0, h0, n0, ticks, outcomes, outcome, cfg);
    }

    /** The loop itself, over the fetch results of successive cycles: it runs
        until a cycle reaches the iteration bound or the inputs run out. */
    method Run(ticks: seq<Tick>) returns (cycles: nat, stopped: bool, outcomes: seq<Outcome>)
      requires Valid()
      modifies this
      ensures Valid()
      ensures cycles <= |ticks| && iters == old(iters) + cycles
      ensures stopped ==> cycles > 0 && Stops(cfg.maxIter, iters)
      ensures !stopped ==> cycles == |ticks|
      // the loop stops at the first cycle that reaches the bound
      ensures forall j :: old(iters) < j < iters ==> !Stops(cfg.maxIter, j)
      ensures cfg.maxIter == 0 ==> !stopped && cycles == |ticks|
      ensures cfg.maxIter > 0 && old(iters) == 0 && |ticks| >= cfg.maxIter ==>
                stopped && cycles == cfg.maxIter
      // the buffer has absorbed exactly the successful cycles run
      ensures history == PushAll(old(history), Observed(ticks[..cycles]), cfg.keepPoints)
      ensures cfg.keepPoints >= 0 && Observed(ticks[..cycles]) != [] ==>
                history == KeepLast(old(history) + Observed(ticks[..cycles]), cfg.keepPoints)
      // the baseline is the pair of the newest absorbed record, or unchanged
      ensures (lastBinance, lastBybit) ==
                BaselineAfter(old(lastBinance), old(lastBybit), Observed(ticks[..cycles]))
      // each cycle took the branch its fetch results and the baseline dictate,
      // and the log grows by exactly the saves and posts of those cycles
      ensures |outcomes| == cycles
      ensures Dictated(old(lastBinance), old(lastBybit), ticks, outcomes, cfg.thresholds)
      ensures events == old(events) + RunEvents(old(history), old(iters), ticks, outcomes, cfg)
    {
      cycles, stopped, outcomes := 0, false, [];
      while cycles < |ticks| && !stopped
        invariant Valid()
        invariant Tracks(old(history), old(lastBinance), old(lastBybit), old(iters), old(events),
                         ticks, cycles, outcomes)
        invariant stopped ==> cycles > 0 && Stops(cfg.maxIter, iters)
        invariant forall j :: old(iters) < j < iters ==> !Stops(cfg.maxIter, j)
        invariant !stopped && cycles > 0 ==> !Stops(cfg.maxIter, iters)
        invariant cfg.maxIter > 0 && old(iters) == 0 ==> cycles <= cfg.maxIter
        decreases |ticks| - cycles
      {
        var outcome, stop := Advance(old(history), old(lastBinance), old(lastBybit), old(iters),
                                     old(events), ticks, cycles, outcomes);
        outcomes := outcomes + [outcome];
        cycles := cycles + 1;
        stopped := stop;
      }
      if cfg.keepPoints >= 0 && Observed(ticks[..cycles]) != [] {
        PushAllKeepsLast(old(history), Observed(ticks[..cycles]), cfg.keepPoints);
      }
    }
  }
}
