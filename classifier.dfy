/**
 The divergence classifier of the open-interest sentry: the percentage change
 of each exchange against the baseline, the absolute swing of the combined open
 interest, and the four threshold rules that turn them into alerts.
 Open-interest quantities are modelled as exact reals.
 */
module Classifier {

  /** `pct_change(new, old)`: the change from `prev` to `cur` in percent of
      `prev`, and 0 when `prev` is 0 (the source's zero-denominator policy). */
  function PctChange(cur: real, prev: real): (r: real)
    ensures prev == 0.0 ==> r == 0.0
    ensures prev != 0.0 ==> r * prev == (cur - prev) * 100.0
    ensures cur == prev ==> r == 0.0
  {
    if prev == 0.0 then 0.0 else (cur - prev) / prev * 100.0
  }

  /** Against a positive baseline, a change of at least `t` percent is a rise
      of at least `t` hundredths of the baseline, and a change of at most
      `t` percent a rise of at most that much. */
  lemma PctChangeThreshold(cur: real, prev: real, t: real)
    requires prev > 0.0
    ensures PctChange(cur, prev) >= t <==> cur - prev >= prev * t / 100.0
    ensures PctChange(cur, prev) <= t <==> cur - prev <= prev * t / 100.0
  {
    var r := PctChange(cur, prev);
    assert r == (cur - prev) * 100.0 / prev;
    assert r >= t <==> (cur - prev) * 100.0 >= t * prev by {
      MulPositive(r - t, prev);
      MulPositive(t - r, prev);
    }
    assert r <= t <==> (cur - prev) * 100.0 <= t * prev by {
      MulPositive(r - t, prev);
      MulPositive(t - r, prev);
    }
  }

  lemma MulPositive(a: real, b: real)
    requires b > 0.0
    ensures a >= 0.0 <==> a * b >= 0.0
    ensures a > 0.0 <==> a * b > 0.0
  {
  }

  function Abs(x: real): real { if x < 0.0 then -x else x }

  /** The total swing `|(nowB + nowY) - (lastB + lastY)|`: never negative, and
      it is the change of the combined open interest in one direction or the other. */
  function Swing(nowB: real, nowY: real, lastB: real, lastY: real): (s: real)
    ensures s >= 0.0
    ensures s == (nowB + nowY) - (lastB + lastY) || s == (lastB + lastY) - (nowB + nowY)
  {
    Abs((nowB + nowY) - (lastB + lastY))
  }

  /** The four alert thresholds: three percentages and one absolute quantity. */
  datatype Thresholds = Thresholds(upPct: real, downPct: real, syncPct: real, totalSwing: real)

  /** Which exchange rose in a seesaw. */
  datatype Side = BinanceUp | BybitUp

  datatype Alert = Seesaw(side: Side) | SyncPump | SyncFlush | TotalSwing

  /** The position of each category in the alert list. */
  function Rank(a: Alert): nat
  {
    match a
    case Seesaw(_) => 0
    case SyncPump => 1
    case SyncFlush => 2
    case TotalSwing => 3
  }

  /** Categories appear in strictly increasing rank: Seesaw, Sync Pump, Sync
      Flush, Total Swing, each at most once. */
  predicate Ordered(r: seq<Alert>)
  {
    forall i, j :: 0 <= i < j < |r| ==> Rank(r[i]) < Rank(r[j])
  }

  /** Putting at most one alert of rank `k` in front of an ordered list whose
      ranks all exceed `k` keeps it ordered. */
  lemma PrependOrdered(x: seq<Alert>, rest: seq<Alert>, k: nat)
    requires |x| <= 1 && forall a :: a in x ==> Rank(a) == k
    requires Ordered(rest) && forall a :: a in rest ==> Rank(a) > k
    ensures Ordered(x + rest) && forall a :: a in x + rest ==> Rank(a) >= k
  {
    if x != [] {
      forall i, j | 0 <= i < j < |x + rest| ensures Rank((x + rest)[i]) < Rank((x + rest)[j]) {
        assert (x + rest)[j] == rest[j - 1];
        if i > 0 {
          assert (x + rest)[i] == rest[i - 1];
        } else {
          assert (x + rest)[i] == x[0];
        }
      }
    }
  }

  /** Binance rose by at least the up threshold while Bybit fell by at least the down threshold. */
  predicate SeesawUp(dB: real, dY: real, t: Thresholds)
  {
    dB >= t.upPct && dY <= -t.downPct
  }

  /** Bybit rose by at least the up threshold while Binance fell by at least the down threshold. */
  predicate SeesawDown(dB: real, dY: real, t: Thresholds)
  {
    dY >= t.upPct && dB <= -t.downPct
  }

  /** The one-element list holding `a` when its rule fired, else the empty list. */
  function When(fired: bool, a: Alert): (r: seq<Alert>)
    ensures |r| <= 1
    ensures forall x :: x in r <==> fired && x == a
  {
    if fired then [a] else []
  }

  /** The alerts of one steady tick, from the two percentage changes `dB`
      (Binance) and `dY` (Bybit) and the total swing: each rule is evaluated
      independently and the fired ones are listed in the order Seesaw,
      Sync Pump, Sync Flush, Total Swing. */
  function Classify(dB: real, dY: real, swing: real, t: Thresholds): (r: seq<Alert>)
    ensures SyncPump in r <==> dB >= t.syncPct && dY >= t.syncPct
    ensures SyncFlush in r <==> dB <= -t.syncPct && dY <= -t.syncPct
    ensures TotalSwing in r <==> swing >= t.totalSwing
    ensures t.syncPct > 0.0 ==> !(SyncPump in r && SyncFlush in r)
  {
    var up := SeesawUp(dB, dY, t);
    When(up || SeesawDown(dB, dY, t), Seesaw(if up then BinanceUp else BybitUp))
    + (When(dB >= t.syncPct && dY >= t.syncPct, SyncPump)
    + (When(dB <= -t.syncPct && dY <= -t.syncPct, SyncFlush)
    + When(swing >= t.totalSwing, TotalSwing)))
  }

  /** The alerts of a steady cycle, from the current pair
      (`b`, `y`) and the baseline pair (`lb`, `ly`). The total-swing rule looks
      only at the combined quantities, whatever the percentage rules say. */
  function Assess(b: real, y: real, lb: real, ly: real, t: Thresholds): (r: seq<Alert>)
    ensures TotalSwing in r <==> Swing(b, y, lb, ly) >= t.totalSwing
  {
    Classify(PctChange(b, lb), PctChange(y, ly), Swing(b, y, lb, ly), t)
  }

  /** The alert list always keeps the order Seesaw, Sync Pump, Sync Flush,
      Total Swing, with no category twice. */
  lemma ClassifyOrdered(dB: real, dY: real, swing: real, t: Thresholds)
    ensures Ordered(Classify(dB, dY, swing, t))
  {
    var up := SeesawUp(dB, dY, t);
    var seesaw := When(up || SeesawDown(dB, dY, t), Seesaw(if up then BinanceUp else BybitUp));
    var pump := When(dB >= t.syncPct && dY >= t.syncPct, SyncPump);
    var flush := When(dB <= -t.syncPct && dY <= -t.syncPct, SyncFlush);
    var total := When(swing >= t.totalSwing, TotalSwing);
    PrependOrdered(flush, total, 2);
    PrependOrdered(pump, flush + total, 1);
    PrependOrdered(seesaw, pump + (flush + total), 0);
  }

  /** A seesaw fires exactly when one exchange rises by the up threshold while
      the other falls by the down threshold, and its side names Binance as the
      rising exchange whenever the Binance-up direction holds (also when both
      directions hold at once, which needs thresholds with up <= -down). */
  lemma ClassifySeesaw(dB: real, dY: real, swing: real, t: Thresholds)
    ensures (exists s :: Seesaw(s) in Classify(dB, dY, swing, t)) <==>
              (dB >= t.upPct && dY <= -t.downPct) || (dY >= t.upPct && dB <= -t.downPct)
    ensures forall s :: Seesaw(s) in Classify(dB, dY, swing, t) ==>
              (s == BinanceUp <==> dB >= t.upPct && dY <= -t.downPct)
  {
  }

  /** Ranks that strictly increase along the list mean no category appears
      twice, so at most four alerts fire on one tick. */
  lemma ClassifyAtMostOnce(dB: real, dY: real, swing: real, t: Thresholds)
    ensures |Classify(dB, dY, swing, t)| <= 4
    ensures forall i, j :: 0 <= i < j < |Classify(dB, dY, swing, t)| ==>
              Classify(dB, dY, swing, t)[i] != Classify(dB, dY, swing, t)[j]
  {
    var r := Classify(dB, dY, swing, t);
    ClassifyOrdered(dB, dY, swing, t);
    RanksBound(r, 0);
  }

  /** A list whose ranks strictly increase from at least `lo` has at most 4 - lo elements. */
  lemma {:induction false} RanksBound(r: seq<Alert>, lo: nat)
    requires lo <= 4 && Ordered(r)
    requires forall i :: 0 <= i < |r| ==> lo <= Rank(r[i])
    ensures |r| + lo <= 4
  {
    if r != [] {
      assert Rank(r[0]) <= 3;
      var tail := r[1..];
      assert forall i :: 0 <= i < |tail| ==> tail[i] == r[i + 1];
      RanksBound(tail, Rank(r[0]) + 1);
    }
  }

  /** Exchanging the roles of the two exchanges fires the same categories:
      every rule treats Binance and Bybit alike, only the seesaw side differs. */
  lemma ClassifySymmetric(dB: real, dY: real, swing: real, t: Thresholds)
    ensures (exists s :: Seesaw(s) in Classify(dB, dY, swing, t)) <==>
            (exists s :: Seesaw(s) in Classify(dY, dB, swing, t))
    ensures SyncPump in Classify(dB, dY, swing, t) <==> SyncPump in Classify(dY, dB, swing, t)
    ensures SyncFlush in Classify(dB, dY, swing, t) <==> SyncFlush in Classify(dY, dB, swing, t)
  {
    ClassifySeesaw(dB, dY, swing, t);
    ClassifySeesaw(dY, dB, swing, t);
  }

  /** With positive thresholds a cycle whose pair equals the baseline raises
      no alert: both changes are 0 % and the swing is 0. */
  lemma QuietWhenUnchanged(b: real, y: real, t: Thresholds)
    requires t.upPct > 0.0 && t.syncPct > 0.0 && t.totalSwing > 0.0
    ensures Assess(b, y, b, y, t) == []
  {
  }

  /** A balanced seesaw: Binance +0.6 %, Bybit -0.6 % against 0.5 % thresholds
      fires only a seesaw with Binance as the rising side. */
  lemma SeesawScenario()
    ensures PctChange(1006000.0, 1000000.0) == 0.6
    ensures PctChange(994000.0, 1000000.0) == -0.6
    ensures Classify(0.6, -0.6, Swing(1006000.0, 994000.0, 1000000.0, 1000000.0),
                     Thresholds(0.5, 0.5, 0.5, 2000000.0)) == [Seesaw(BinanceUp)]
  {
  }

  /** Both exchanges +1 % against a 0.5 % sync threshold fires a sync pump only. */
  lemma SyncPumpScenario()
    ensures PctChange(1010000.0, 1000000.0) == 1.0
    ensures Classify(1.0, 1.0, Swing(1010000.0, 1010000.0, 1000000.0, 1000000.0),
                     Thresholds(0.5, 0.5, 0.5, 2000000.0)) == [SyncPump]
  {
  }

  /** A combined swing of 2,500,000 against a threshold of 2,000,000 fires a
      total-swing alert even when both changes are far below every percentage threshold. */
  lemma TotalSwingScenario()
    ensures Swing(1001250000.0, 1001250000.0, 1000000000.0, 1000000000.0) == 2500000.0
    ensures PctChange(1001250000.0, 1000000000.0) == 0.125
    ensures Classify(0.125, 0.125, 2500000.0, Thresholds(0.5, 0.5, 0.5, 2000000.0)) == [TotalSwing]
  {
  }
}
