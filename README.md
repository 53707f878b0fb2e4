# OI Sentry model

A Dafny model of the core of `oi_sentry.py`. That script polls the open interest (OI) of the BTCUSDT perpetual on Binance and Bybit once per cycle. It then does three things:

- it keeps a bounded history of the pairs it observed;
- it compares each new pair with the previous one, called the baseline;
- it raises up to four alerts: Seesaw, Sync Pump, Sync Flush and Total Swing.

The project has three modules.

- `History` (`history.dfy`) holds the history buffer. Its centrepiece is `KeepLast`, Python's slice `h[-k:]`, with its full slice semantics:
  - for k > 0, the last k records;
  - for k = 0, the whole list, because `-0` is `0`;
  - for k < 0, the list without its first -k records.

  `PushAll` is the buffer after a run of append-and-trim steps. The lemmas prove the kept-suffix (FIFO, first-in first-out) invariant, the length bound and idempotence.
- `Classifier` (`classifier.dfy`) holds the pure decision logic:
  - `PctChange`, which returns 0 for a zero baseline;
  - the total swing `|(B+Y) - (lastB+lastY)|`;
  - `Classify`, which turns the two percentage changes and the swing into the ordered alert list;
  - `Assess`, which is `Classify` applied to a current pair and a baseline pair.
- `Sentry` (`sentry.dfy`) holds the `run_loop` state machine. Class `Monitor` has these fields:
  - the history;
  - the two baseline values (`Option<real>`, restored at start-up from the newest stored record);
  - the cycle counter;
  - a ghost log of the state-file writes and webhook posts.

  `Monitor.Step` is one cycle. Its input is a `Tick`, the cycle's two fetch results, each `None` on failure. Each cycle takes one of three branches: skip, warmup or steady. After the cycle comes the `max_iter` stop test, which uses Python truthiness: a zero bound never stops the loop. `Monitor.Run` is the loop over a finite sequence of ticks. Its contract ties the final state to the ticks: the buffer is the append-and-trim of the successful cycles' records, each cycle's branch is the one its fetch results and the baseline of the earlier cycles dictate, and the log is those cycles' saves and posts in order.

OI values are Python floats. They are modelled as exact `real`s.

The length bound on the history holds only for `keep_points >= 1`. This follows the code, not the option's help text "History buffer length (points)" (oi_sentry.py:223), which reads as an unconditional bound:

- with `keep_points = 0` the slice keeps everything;
- with a negative value it drops records from the front;
- a history restored from the state file can be longer than the bound until the next successful cycle trims it.

## Model

| member | source | states |
|---|---|---|
| Classifier.PctChange | oi_sentry.py:55-58 | A zero baseline gives 0. Otherwise the result times the baseline equals 100 times the change. An unchanged value gives 0. |
| Classifier.PctChangeThreshold | oi_sentry.py:55-58 | With a positive baseline, a change of at least (at most) t percent is a rise of at least (at most) baseline·t/100, in both directions. |
| Classifier.Swing | oi_sentry.py:168-170 | The total swing is never negative. It is the change of the combined OI in one direction or the other. |
| Classifier.When | oi_sentry.py:181-192 | A rule contributes its alert exactly when it fired, at most once. |
| Classifier.Classify | oi_sentry.py:177-192 | Sync Pump fires iff both changes are >= sync. Sync Flush fires iff both are <= -sync. Total Swing fires iff swing >= its threshold. With sync > 0, Pump and Flush never fire together. |
| Classifier.Assess | oi_sentry.py:158-192 | A steady cycle's alerts from the current and baseline pairs. Total Swing depends only on the combined swing, whatever the percentage rules say. |
| Classifier.ClassifyOrdered | oi_sentry.py:177-192 | Ranks strictly increase along the alert list: Seesaw, Sync Pump, Sync Flush, Total Swing. |
| Classifier.SeesawUp | oi_sentry.py:179 | `seesaw_up`: Binance rose by at least the up threshold and Bybit fell by at least the down threshold. |
| Classifier.SeesawDown | oi_sentry.py:180 | `seesaw_dn`: the same with the exchanges swapped. |
| Classifier.ClassifySeesaw | oi_sentry.py:179-183 | A Seesaw is present iff (dB >= up and dY <= -down) or (dY >= up and dB <= -down). Its side is BinanceUp iff the first disjunct holds. |
| Classifier.ClassifyAtMostOnce | oi_sentry.py:177-192 | At most four alerts fire, with no category twice. |
| Classifier.RanksBound | oi_sentry.py:177-192 | A list with strictly increasing ranks starting at lo has at most 4 - lo entries. |
| Classifier.ClassifySymmetric | oi_sentry.py:179-192 | Swapping Binance and Bybit fires the same categories. |
| Classifier.QuietWhenUnchanged | oi_sentry.py:158-192 | With positive thresholds, a pair equal to the baseline raises no alert. |
| Classifier.SeesawScenario | oi_sentry.py:179-183 | +0.6 % / -0.6 % against 0.5 % thresholds gives exactly `[Seesaw(BinanceUp)]`. |
| Classifier.SyncPumpScenario | oi_sentry.py:185-186 | +1 % on both sides gives exactly `[SyncPump]`. |
| Classifier.TotalSwingScenario | oi_sentry.py:168-170 | A swing of 2,500,000 against 2,000,000 with 0.125 % changes gives exactly `[TotalSwing]`. |
| History.DropOldest | oi_sentry.py:144 | Evicting n oldest entries leaves max(0, len - n) entries. |
| History.DropOldestIsSlice | oi_sentry.py:144 | Evicting the n oldest entries one by one is the slice after them. |
| History.KeepLast | oi_sentry.py:143-144 | Length of `h[-k:]`: min(k, len) for k >= 1, len for k = 0, max(0, len + k) for k < 0. It is never longer than h. |
| History.KeepLastIsSuffix | oi_sentry.py:144 | For every k, what is kept is a suffix of the buffer: the oldest entries go first. |
| History.KeepLastNewest | oi_sentry.py:143-144 | For k >= 0, the record just appended survives the trim as the newest entry. |
| History.KeepLastIdempotent | oi_sentry.py:212-213 | For k >= 0, trimming an already trimmed buffer again changes nothing. So the exit save of a steady cycle writes exactly the in-memory history. At line 138 this holds only once a successful cycle has trimmed the buffer: a longer restored history is cut there. |
| History.KeepLastAppend | oi_sentry.py:143-144 | For k >= 0, trimming, appending and trimming again equals appending everything and trimming once. |
| History.PushAll | oi_sentry.py:143-144 | For k >= 1, after at least one append the buffer holds at most k records. |
| History.PushAllSnoc | oi_sentry.py:143-144 | Proof plumbing for `AbsorbNext`: one more successful cycle is one more append-and-trim. |
| History.PushAllKeepsLast | oi_sentry.py:143-144 | For k >= 0, after at least one append the buffer is exactly the last k records of the initial history followed by every appended record, in order. |
| Sentry.Written | oi_sentry.py:137-139 | A save on the way out writes at most keep_points records (k >= 1). What it writes is already trimmed. |
| Sentry.Tick.Ok | oi_sentry.py:132 | A cycle's fetch results are usable iff both exchanges returned a value. Otherwise the cycle is skipped. |
| Sentry.Stops | oi_sentry.py:137 | The `args.max_iter and _iters >= args.max_iter` test, also at lines 154 and 212: a zero bound is falsy and never stops. Any other bound stops once the counter reaches it. |
| Sentry.FirstStop | oi_sentry.py:136-140 | Zero max_iter never stops. A positive one first stops at cycle max_iter. A negative one stops after the first cycle. |
| Sentry.Observed | oi_sentry.py:132-143 | The records the successful cycles append, no more than the cycles run. |
| Sentry.ObservedNone | oi_sentry.py:132-141 | Nothing is appended iff every cycle had a failed fetch. |
| Sentry.ObservedSnoc | oi_sentry.py:132-143 | Proof plumbing for `AbsorbNext`: a cycle appends its record iff both fetches succeeded. |
| Sentry.CycleEvents | oi_sentry.py:137-215 | A cycle's saves and posts, in order. A skipped cycle writes only when it stops, and then the buffer cut to keep_points. A warmup cycle writes the buffer once. A steady cycle posts when it has alerts and a webhook, writes the buffer, and writes it cut again when it stops. At most three events. The cut save is only ever the last event of a stopping cycle. |
| Sentry.RunEvents | oi_sentry.py:127-215 | A run's saves and posts: each cycle's `CycleEvents` in turn, on the buffer the cycles so far have built and with the `max_iter` test at its count. At most three events per cycle. |
| Sentry.CycleNotifies | oi_sentry.py:194-208 | A cycle posts iff it was steady, raised an alert and a webhook is set. The post carries the cycle's alerts and comes right before the state-file write. |
| Sentry.CycleSavesBounded | oi_sentry.py:137-155 | With keep_points >= 1, no state-file write of a cycle exceeds the bound. |
| Sentry.RunSavesBounded | oi_sentry.py:137-213 | With keep_points >= 1, no state-file write of a whole run exceeds the bound, even from a longer restored history, as long as each cycle skipped exactly when a fetch failed. |
| Sentry.CycleOutcome | oi_sentry.py:132-170 | The branch a cycle takes. Skip iff a fetch failed. Warmup iff both fetches succeeded and there is no baseline. Otherwise steady, carrying `Assess` of the new pair against the baseline. |
| Sentry.DictatedNext | oi_sentry.py:127-215 | Proof plumbing for `Run`: a cycle judged on its own tick against the baseline of the earlier cycles extends a dictated run. |
| Sentry.DictatedEach | oi_sentry.py:127-170 | In a dictated run, every cycle, not only the last, took the branch `CycleOutcome` gives for its own tick and the baseline the earlier cycles left. |
| Sentry.RunEventsNext | oi_sentry.py:127-215 | Proof plumbing for `Run`: one more cycle appends exactly its own events, on the buffer it leaves, to the run's log. |
| Sentry.AbsorbNext | oi_sentry.py:143-149 | One more tick advances the absorbed buffer and the baseline exactly as a cycle does. |
| Sentry.Monitor.constructor | oi_sentry.py:112-125 | Start-up: the history is the stored one. The baseline is the newest stored pair, or absent for an empty history. The counter is 0. |
| Sentry.Monitor.Absorb | oi_sentry.py:143-144 | The history becomes `(h + [rec])[-k:]`, and for k >= 0 its newest entry is rec. |
| Sentry.Monitor.Step | oi_sentry.py:127-215 | The counter rises by exactly 1 and the stop flag is the `max_iter` test. The outcome is `CycleOutcome` of the tick and the old baseline, so a failed fetch is skipped, a missing baseline gives a warmup, and otherwise the cycle is steady and carries `Assess`. A failed fetch leaves history and baseline unchanged. A success appends and trims (length <= k for k >= 1) and makes the pair the baseline. The save/notify log grows by exactly `CycleEvents` of that cycle. Every state-file write respects the bound. |
| Sentry.Monitor.Advance | oi_sentry.py:127-215 | One more cycle of a run: `Step` on the next tick keeps the buffer, baseline, counter, branches and log those of the ticks consumed so far. |
| Sentry.Monitor.Run | oi_sentry.py:127-215 | The loop ends at the first cycle that reaches the bound. With max_iter > 0 and enough input it runs exactly max_iter cycles. With max_iter = 0 it consumes every tick. The history is the append-and-trim of exactly the successful cycles' records (the last k of old history plus them, for k >= 0). The baseline is the newest appended pair. Each cycle's branch is the one its tick and the earlier cycles dictate. The log grows by exactly the cycles' saves and posts, in order (`RunEvents`). |

## Left out

- `fetch_binance_oi` / `fetch_bybit_oi` (oi_sentry.py:28-52): these are HTTP requests. Their results are the `Option<real>` fields of each `Tick`.
- `load_state` / `save_state` (oi_sentry.py:61-75): these are JSON file I/O. The loaded history is the constructor's argument, and each save is a ghost `Saved`/`SavedTrimmed` event. The state dictionary's other keys are not modelled.
- `push_discord` and the message text (oi_sentry.py:78-90, 107-108, 194-204): these are webhook I/O and float formatting. A post is a ghost `Notified` event carrying the alert list. The post's success or failure does not affect the loop, so it is not modelled.
- `rolling_stats` / `zscore` (oi_sentry.py:93-104, 161-166): square roots on floats. The z-scores appear only in printed and posted text, never in an alert decision.
- The SIGINT handler (oi_sentry.py:116-122): signal-driven concurrency. Its only logic is the same `history[-keep_points:]` trim proved about `KeepLast`.
- `parse_args`, `utc_now_iso`, `time.sleep` and the verbose prints (oi_sentry.py:24-25, 133-135, 147-148, 172-175, 218-236): CLI plumbing, clocks and logging. Timestamps are opaque strings.
- Floating-point rounding: OI values and thresholds are exact reals.
- `run_loop`'s endless `while True`: `Monitor.Run` runs over a finite sequence of cycles. It stops when the sequence runs out or the `max_iter` test fires.
- The alert list: the source builds the alert list by successive `append`s inside the loop. The model builds it by a pure function that concatenates one optional entry per rule, in the same order.
