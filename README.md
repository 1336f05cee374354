# slint-evdev-input in Dafny

The model covers the core of slint-evdev-input. This crate turns the raw event stream of a Linux touch screen (evdev) into Slint window pointer events.

- The `Collector` keeps the last physical position `(i32, i32)` and a pending `ButtonChange` (`None | Up | Down`).
- An absolute-axis event sets one coordinate (ABS_X or ABS_Y).
- A `BTN_TOUCH` key event overwrites the pending change: the value 1 means `Down`, any other value means `Up`.
- Every synchronization event emits exactly one of `PointerPressed`, `PointerReleased` or `PointerMoved` at the current position, with the `Left` button, and then resets the pending change to `None`.
- The blocking iterator's `next` pushes raw events into the collector until one yields a window event. It returns `None` when the batch runs out.
- `SlintEventsWrapper::fetch_events` builds a new collector for each batch, starting from the wrapper's stored position.

Files:

- `options.dfy`: Rust's `Option`.
- `evdev.dfy`: the destructured `EventSummary`, the `i32`/`u16` integer types and the codes `ABS_X = 0x00`, `ABS_Y = 0x01`, `BTN_TOUCH = 0x14a`.
- `slint.dfy`: `PhysicalPosition`, `LogicalPosition`, `PointerEventButton` and the three pointer `WindowEvent`s.
- `lib.dfy`: the crate root.
  - `Collector` is a class whose `Push` is proved equal to the pure `Step`.
  - `Run` folds `Step` over a stream.
  - `EventsIterator.Next` is proved equal to the pure `Drain`, and `EventsIterator.CollectAll` (a `for` loop over the iterator) to `Collect`, repeated `Drain`.
  - `EventsWrapper` models the wrapper. `EventsWrapper.FetchAll` is the caller loop over `fetch_events`, proved equal to `FetchAllAsWritten`. `FetchAllCarried` is the same loop with one collector kept across batches, as the stream path does.
  - The remaining members are lemmas about these.

`LogicalPosition::from_physical(p, scale)` is kept as the pair of its arguments. `LogicalPosition.Coordinates` gives the exact quotient `p / scale` for a non-zero scale factor.

Two consequences of the code are worth stating plainly:

- **Press followed by release in one cycle.** `button_change` is a single field that every `BTN_TOUCH` event overwrites. Within one cycle the last `BTN_TOUCH` key therefore decides, and a press has no priority over a later release: press, release, synchronization yields `PointerReleased` (`LastTouchKeyWins`, `PressThenReleaseYieldsReleased`).
- **Position across batches.** The position does not survive a `fetch_events` call (see Findings).

## Model

| member | source | states |
|---|---|---|
| Slint.LogicalPosition.Coordinates | src/lib.rs:98-101 | With a non-zero scale factor, each logical coordinate times the scale factor is the physical coordinate. |
| SlintEvdevInput.CollectorState.LastLogicalPosition | src/lib.rs:98-101 | The logical position uses the collector's scale factor. Its coordinates are the stored physical ones divided by that scale factor. |
| SlintEvdevInput.Collector.constructor | src/lib.rs:50-56 | A new collector holds the given position and scale factor, with no pending button change. |
| SlintEvdevInput.Collector.Push | src/lib.rs:58-96 | The new fields and the returned value are exactly those of `Step` on the old fields. |
| SlintEvdevInput.Step | src/lib.rs:58-96 | The scale factor never changes. A result is returned iff the event is a synchronization. On a synchronization the pending change becomes `None` and the position is kept. The emitted event is at the current logical position. It is `PointerPressed` iff `Down` was pending and `PointerReleased` iff `Up` was pending, both with `Left`. Otherwise it is `PointerMoved`. |
| SlintEvdevInput.AbsoluteAxisSetsOneCoordinate | src/lib.rs:79-83 | An axis event returns `None` and keeps the button change. ABS_X sets only x, ABS_Y sets only y, and any other axis changes nothing. |
| SlintEvdevInput.KeyOverwritesButtonChange | src/lib.rs:84-92 | A key event returns `None`. A key other than BTN_TOUCH changes nothing. BTN_TOUCH with value 1 sets `Down`, and any other value sets `Up`. |
| SlintEvdevInput.OtherIsIgnored | src/lib.rs:93-95 | Any other kind of raw event changes nothing and returns `None`. |
| SlintEvdevInput.Run | src/lib.rs:58-96 | Over any stream, the number of emitted window events equals the number of synchronization events, and the scale factor is unchanged. |
| SlintEvdevInput.RunAppend | src/lib.rs:58-96 | Folding over `a + b` is folding over `a` and then over `b` from the state reached, with the events joined. |
| SlintEvdevInput.NoSyncEmitsNothing | src/lib.rs:79-95 | A stream without synchronization events emits nothing. |
| SlintEvdevInput.LastTouchKeyWins | src/lib.rs:84-91 | Within one cycle, the pending change is decided by the last BTN_TOUCH key alone: 1 gives `Down`, anything else gives `Up`. With no such key it stays as it was. |
| SlintEvdevInput.CycleYieldsOneEvent | src/lib.rs:60-91 | A cycle ending in a synchronization emits exactly one event, at the position the cycle reached. It is pressed or released exactly as the last BTN_TOUCH key of the cycle says, and afterwards nothing is pending. |
| SlintEvdevInput.PressThenReleaseYieldsReleased | src/lib.rs:84-91 | BTN_TOUCH 1, then BTN_TOUCH 0, then a synchronization emits just `PointerReleased`. |
| SlintEvdevInput.NoTouchKeyKeepsIdle | src/lib.rs:60-62 | From an idle collector, a stream without BTN_TOUCH keys leaves it idle, even across synchronizations. |
| SlintEvdevInput.MovedAfterSyncWithoutTouchKey | src/lib.rs:60-77 | After any synchronization, the next synchronization with no BTN_TOUCH key in between emits `PointerMoved`. |
| SlintEvdevInput.UntouchedCoordinatePersists | src/lib.rs:79-83 | A coordinate whose axis never occurs in the stream keeps its value, across any number of synchronizations. This holds in the final state and in every emitted event. |
| SlintEvdevInput.PositionIsLatestAxisValues | src/lib.rs:79-83 | After any stream, each stored coordinate is the value of the last event on its axis, or the initial value if there was none. |
| SlintEvdevInput.Drain | src/lib.rs:176-188 | `next` never reads more than its input. When it returns `None` it has read everything. When it returns an event it has read at least one raw event. |
| SlintEvdevInput.DrainStopsAtFirstSync | src/lib.rs:176-188 | `next` leaves a suffix of its input unread. It returns `None` iff the input has no synchronization. Otherwise it has read exactly up to and including the first synchronization. |
| SlintEvdevInput.DrainRunsConsumedPrefix | src/lib.rs:176-188 | The state and result of `next` are what the collector yields on the input `next` consumed. |
| SlintEvdevInput.CollectIsRun | src/lib.rs:176-188 | Calling `next` until `None` yields exactly the events and final state of pushing the whole batch. |
| SlintEvdevInput.EventsIterator.constructor | src/lib.rs:149-152 | The iterator holds the batch and the collector it is given. |
| SlintEvdevInput.EventsIterator.Next | src/lib.rs:176-188 | The collector, the result and the unread input after the loop are exactly those of `Drain`. |
| SlintEvdevInput.EventsIterator.CollectAll | src/lib.rs:118-122 | A `for` loop over one iterator collects exactly the events of `Collect`, calling `next` until `None`, and leaves the collector in `Collect`'s final state. |
| SlintEvdevInput.EventsWrapper.constructor | src/lib.rs:138-145 | A new wrapper stores position (0, 0) and the given scale factor. |
| SlintEvdevInput.EventsWrapper.FetchEvents | src/lib.rs:148-153 | The returned iterator owns a fresh collector at the wrapper's stored position, with nothing pending. The wrapper itself is not modified. |
| SlintEvdevInput.EventsWrapper.FetchAll | src/lib.rs:118-122 | The documented caller loop, one `fetch_events` iterator per batch, yields exactly `FetchAllAsWritten`: each batch drained from a fresh collector at the stored position. |
| SlintEvdevInput.AsWrittenCons | src/lib.rs:148-153 | As written, each batch is folded from a fresh collector at the wrapper's position. |
| SlintEvdevInput.AsWrittenForgetsPosition | src/lib.rs:148-153 | As written, a move that touches only y in a later batch is reported at x = 0. A single collector reports it at the x already seen. |
| SlintEvdevInput.AsWrittenForgetsPress | src/lib.rs:148-153 | As written, a press whose synchronization arrives in the next batch is reported as `PointerMoved`. |
| SlintEvdevInput.CarriedKeepsPress | src/lib.rs:159-164 | With one collector kept across the same two batches, the press is reported as `PointerPressed`. |
| SlintEvdevInput.CarriedCons | src/lib.rs:159-164 | With one collector kept across batches, each batch continues from the state the previous batch left. |
| SlintEvdevInput.CarriedIgnoresBatching | src/lib.rs:159-164 | `FetchAllCarried` keeps one collector across batches, as `into_event_stream` does. Its events are those of the whole stream pushed through one collector, however the stream is split into batches. |
| SlintEvdevInput.TouchTraceYieldsExpectedEvents | tests/sync_test.rs:66-116 | Pushed through one collector from (0, 0), the test trace (X 120, Y 12, touch 1, sync / X 122, Y 13, sync / Y 14, sync / touch 0, sync) yields, at any scale factor: Pressed(120, 12), Moved(122, 13), Moved(122, 14), Released(122, 14). |
| SlintEvdevInput.TouchTraceThroughIterator | tests/sync_test.rs:60-62 | When all four emits arrive in one batch, draining that one `fetch_events` iterator yields the four events the test expects (lines 94-116). |
| SlintEvdevInput.AsWrittenSplitsTouchTrace | tests/sync_test.rs:58-64 | As written, when each emit arrives in a batch of its own, the reader loop yields Pressed(120, 12), Moved(122, 13), Moved(0, 14), Released(0, 0), not the events the test expects. |
| SlintEvdevInput.TouchTraceAtUnitScale | tests/sync_test.rs:98-116 | At scale factor 1.0 the logical coordinates are (120.0, 12.0), (122.0, 13.0) and (122.0, 14.0), as the test asserts. |
| SlintEvdevInput.ScaledMoveYieldsHalvedCoordinates | src/lib.rs:98-101 | At scale factor 2.0, X 100, Y 50, sync yields one `PointerMoved` at logical (50.0, 25.0). |

## Left out

- Opening the device (`evdev::Device::open`) and its I/O error: this is OS I/O in a foreign crate. `EventsWrapper`'s constructor starts after a successful open.
- `fetch_events().unwrap()`: the blocking read and its panic on an I/O error are foreign I/O. Each read is a parameter of `FetchEvents`, a `seq` of raw events standing for one `FetchEventsSynced` batch.
- The evdev crate's resynchronization after `SYN_DROPPED`: this is foreign code. All synchronization sub-codes are one `Synchronization` event, because the collector matches them all.
- `into_event_stream` (src/lib.rs:159-164) and the asynchronous `EventStream::next_event` (src/lib.rs:191-211, behind the `tokio` feature) are not modelled as operations. They wrap the foreign `evdev::EventStream`, whose await and I/O error the model has no counterpart for. Their loop is the same as `next`'s, except that it returns an I/O error instead of `None`. The one collector they keep across all events is modelled by `FetchAllCarried`.
- Floating-point scaling: `LogicalPosition` keeps the physical position and the `f32` scale factor, modelled as `real`. `Coordinates` is exact real division, so no `f32` rounding is modelled. This covers the `i32` to `f32` conversion of coordinates above 2^24 and every quotient `f32` cannot represent exactly, such as 122 / 3.0 or 1 / 10.0. Division by a zero scale factor (infinity or NaN in Rust) is not modelled either, because `Coordinates` requires a non-zero scale factor.
- Timestamps and the payloads of ignored event kinds: the code never reads them.
- Slint's other `WindowEvent` variants: the collector never produces them.
- The uinput virtual devices, threads, channels and timeouts of the integration tests: these are test plumbing. Only their expected trace is modelled.

## Findings

| source | as written | input that shows it | evidently intended | confidence | as-written member | corrected member |
|---|---|---|---|---|---|---|
| src/lib.rs:148-153 | `fetch_events` builds a new `Collector` from `self.last_position`, and nothing ever writes it back, so every batch restarts at (0, 0). | Batch [ABS_X 5, ABS_Y 7, sync] and then batch [ABS_Y 9, sync]: the second move is reported at (0, 9) instead of (5, 9). The test trace read one emit per batch gives Moved(0, 14) and Released(0, 0) (`AsWrittenSplitsTouchTrace`). | The position persists across `fetch_events` calls, as it does for the stream path, which keeps one collector. | medium, not executed | SlintEvdevInput.AsWrittenForgetsPosition | SlintEvdevInput.CarriedIgnoresBatching |
| src/lib.rs:148-153 | The pending button change is dropped with the per-batch collector. | Batch [BTN_TOUCH 1] and then batch [sync]: `PointerMoved` is reported instead of `PointerPressed`. | A touch is reported as pressed however the reads split the stream. | low, not executed | SlintEvdevInput.AsWrittenForgetsPress | SlintEvdevInput.CarriedKeepsPress |
