# i2c-int-monitor, modelled in Dafny

`i2c-int-monitor` watches the interrupt rates of a laptop's I2C HID devices
(touchpads, touchscreens, keyboards) and of the DesignWare I2C controllers
they hang off. It reads the kernel's interrupt-counter table
(`/proc/interrupts`) and the sysfs tree. From these it builds the
controller/device topology, then either draws a live dashboard or prints one
status line per tick.

This project models the logic at the centre of the tool and proves what
that logic promises. Every file read, directory listing, link lookup and
clock reading is an input to the model.

- `wrappers.dfy` (`Wrappers`): `Option`, `Result` and `HashMap::get` as
  `Lookup`.
- `text.dfy` (`Text`): the Rust string operations the parsers rely on.
  - `trim` and `split_whitespace` use the full Unicode white-space set.
  - `lines` cuts at `\n` and drops a `\r` before it.
  - Also `split`, `split` on a set of characters, `trim_end_matches`,
    `strip_prefix`, `contains` and ASCII lower-casing.
  - `parse::<u64>`, `parse::<u8>` and `u16::from_str_radix(_, 16)` share
    one digit-accumulation loop that rejects any value that does not fit
    the width.
- `interrupts.dfy` (`Interrupts`): the counter-table parser.
  - The header line fixes the CPU count.
  - Every later non-blank line yields its IRQ and the sum of its leading
    counter columns.
- `discovery.dfy` (`Discovery`): the topology heuristics.
  - The scan of the counter table for GPIO and controller IRQs.
  - The ACPI-name, controller-name and bus-number extractors.
  - The VID/PID and `DRIVER=` parsing of a HID entry.
  - The device-type classifier.
  - The grouping of devices per controller and the sort by bus number.
  - The flattening of the hierarchy into display rows.
- `tui.dfy` (`Tui`): the dashboard state.
  - `SourceHistory` is a class whose `push` keeps a 300-point window and
    running statistics.
  - `App` is a class with the per-tick `sample`, the colour assignment in
    `init_from_topology`, the wrapping cursor, the visibility toggle, key
    dispatch, the x-axis bounds and the visible maximum behind `y_max`.
  - Each state-changing method is specified by a pure function on an
    `AppView` value of the dashboard, and the lemmas are about those
    functions.
- `monitor.dfy` (`Monitor`): the text-mode monitor of `cmd_monitor`.
  - The per-tick rate and HIGH logic.
  - The loop that stops after `count` ticks.
  - The truncation of column names.

Rates are `real` and counts are `nat`. The sampling interval is a positive
real.

## Model

| member | source | states |
|---|---|---|
| Interrupts.ParseInterrupts | src/interrupts.rs:29-44 | the table is an error exactly when the content has no line; otherwise the first line is the header and the result is the entries of the remaining lines, in order |
| Interrupts.ParseInterruptLine | src/interrupts.rs:47-75 | a line yields exactly what `LineEntry` says: nothing when blank after trimming, else the first token without trailing colons and the counter sum |
| Interrupts.SumCounters | src/interrupts.rs:62-72 | the counting loop sums the leading counter tokens after the IRQ, stopping at the first non-counter and after at most `cpu_count` of them |
| Interrupts.ColumnSumIgnoresRest | src/interrupts.rs:65-71 | tokens after the counted columns (annotation text such as `PCI-MSI`) never change the count |
| Interrupts.EntriesCount | src/interrupts.rs:37-41 | the parser yields exactly one entry per non-blank line after the header |
| Interrupts.EntriesAppend | src/interrupts.rs:37-41 | the entries of two blocks of lines are the entries of each block, in input order |
| Interrupts.EntriesOfOneLine | src/interrupts.rs:48-51 | a single line yields no entry iff it is blank, and otherwise exactly its `LineEntry` |
| Interrupts.LineEntryWithoutCounters | src/interrupts.rs:62-74 | a non-blank line with no counter right after the IRQ still yields an entry, with count 0 |
| Interrupts.ParseCount | src/interrupts.rs:66 | a counter token that parses is below 2^64 |
| Interrupts.CountMap | src/tui.rs:349-352 | collecting the table into a map keys exactly the IRQs that occur in it |
| Interrupts.CountMapLastRowWins | src/main.rs:160-161 | an IRQ maps to the count of its last row in the table (the `HashMap` collect keeps the later insert) |
| Interrupts.FixtureHeader | src/interrupts.rs:81 | the fixture's header announces four CPU columns |
| Interrupts.FixtureController | src/interrupts.rs:84-100 | the fixture line of IRQ 42 yields IRQ "42" with count 12345 + 6789 |
| Interrupts.FixtureGpio | src/interrupts.rs:102-106 | the fixture line of IRQ 44 yields IRQ "44" with count 5000 |
| Text.WordsTrim | src/interrupts.rs:48-53 | trimming a line before splitting it at white space does not change its tokens |
| Text.DecimalRoundTrip | src/interrupts.rs:66 | every number below the width's bound is read back from its decimal digits |
| Text.TrimEndMatches | src/interrupts.rs:59 | the result is a prefix of the token that does not end in the character and drops only copies of it |
| Text.SplitJoin | src/discovery.rs:243 | splitting at a separator undoes joining separator-free pieces with it |
| Text.Lines | src/interrupts.rs:31 | a text has no lines exactly when it is empty |
| Text.LinesJoin | src/interrupts.rs:31 | `lines` gives back the pieces joined with `\n`, when no piece holds a line feed, none but the last ends in a carriage return and the last is not empty |
| Discovery.ScanInterruptTable | src/discovery.rs:135-169 | the scan of the counter table builds exactly the GPIO and controller maps of `TableMaps` over its lines |
| Discovery.ScanOneLine | src/discovery.rs:136-168 | one line of the scan: a blank line changes nothing; a GPIO line maps its ACPI name to the IRQ before the first colon; a controller line maps each of its controller tokens to it |
| Discovery.InsertControllers | src/discovery.rs:160-167 | every space- or comma-separated piece containing `i2c_designware` is mapped, trimmed, to the line's IRQ |
| Discovery.InsertAllLookup | src/discovery.rs:160-166 | after a controller line, a name maps to its IRQ iff the line lists it; other names keep what they had |
| Discovery.GpioIrqIsLastLine | src/discovery.rs:148-154 | the GPIO IRQ of an ACPI device is the IRQ of the last GPIO line naming it, absent when no line does |
| Discovery.ControllerIrqIsLastLine | src/discovery.rs:157-168 | the IRQ of a controller is the IRQ of the last controller line listing it, absent when no line does |
| Discovery.ExtractAcpiName | src/discovery.rs:226-238 | the result is the last token with a colon, an upper-case first letter and neither `IR-` nor `PCI-`; none iff no token qualifies |
| Discovery.FixtureAcpiNames | src/discovery.rs:388-395 | the two GPIO lines of the tests yield `PIXA3854:00` and `FRMW0005:00` |
| Discovery.ExtractControllerName | src/discovery.rs:241-249 | a found result is a segment starting with `i2c_designware.` and no earlier segment does; the result is `unknown` when no segment does (and a controller segment otherwise) |
| Discovery.FixtureControllerName | src/discovery.rs:397-402 | the link target of the test yields `i2c_designware.5` |
| Discovery.ExtractBusNum | src/discovery.rs:252-262 | the result is the number of the first `/`-segment `i2c-N` whose `N` is a `u8` (segments such as `i2c-PIXA3854:00` are skipped), 0 when none is |
| Discovery.FixtureBusNum | src/discovery.rs:399-400 | the link target of the test is on bus 5 |
| Discovery.Hex16 | src/discovery.rs:305 | a hexadecimal field is its value when it is a `u16`, else 0 |
| Discovery.HidIdsRoundTrip | src/discovery.rs:302-309 | the vendor and product ids are read back exactly from a `0018:VVVV:PPPP.NNNN` device name |
| Discovery.DriverAmong | src/discovery.rs:312-316 | the driver is the value of the last `DRIVER=` line, empty when there is none |
| Discovery.ReadDriver | src/discovery.rs:312-316 | the loop over the `uevent` lines computes `DriverAmong` of its lines |
| Discovery.ReadInputNames | src/discovery.rs:319-327 | the input names are the trimmed readable `name` files, in listing order |
| Discovery.DiscoverHidDevice | src/discovery.rs:265-338 | the record filled field by field is `HidDeviceOf`: the first matching I2C HID entry supplies ids, driver and input names, then the type is classified |
| Discovery.HidDeviceOfKeeps | src/discovery.rs:271-281 | the record keeps its ACPI name, controller, bus and GPIO IRQ, and its type is one of the eight labels |
| Discovery.UnmatchedDevice | src/discovery.rs:283-335 | without a matching HID entry the device keeps ids 0, no driver, no inputs and type `HID Device` |
| Discovery.DetermineDeviceType | src/discovery.rs:341-357 | the first input name (in order) with a label decides it; with none, the driver rule decides |
| Discovery.NameLabel | src/discovery.rs:344-356 | touchpad, touchscreen, stylus or pen, keyboard are tried in that order on the lower-cased name: each label is given iff its word occurs and no earlier one does; none iff it contains none of them |
| Discovery.DriverLabel | src/discovery.rs:360-381 | `hid-multitouch` gives Touchpad for vendor 0x093A and Touchscreen otherwise; `hid-sensor-hub` gives Sensor Hub; `hid-generic` gives Keyboard/Controls iff some name contains `Radio` or `Consumer`, else Input Device; any other driver gives HID Device |
| Discovery.InputNamesDecide | src/discovery.rs:343-357 | once an input name has a label, the driver and vendor no longer matter |
| Discovery.GroupDriverEntries | src/discovery.rs:177-213 | the loop over the driver directory builds exactly `GroupDevices` of its devices |
| Discovery.EntryDeviceCases | src/discovery.rs:182-201 | an entry not starting with `i2c-` is skipped; any other gives the device named by the rest, on the controller and bus of its link target |
| Discovery.GroupEntries | src/discovery.rs:204-212 | the controllers are exactly those of the devices; each has its own name, its IRQ from the controller map and its devices in enumeration order |
| Discovery.GroupBusNum | src/discovery.rs:204-211 | a controller's bus number is that of its first device |
| Discovery.AddDeviceStep | src/discovery.rs:204-212 | grouping one more device is `entry(..).or_insert_with(..)` followed by the push |
| Discovery.GroupValues | src/discovery.rs:217 | the collected vector lists every controller of the map exactly once |
| Discovery.SortByBusCorrect | src/discovery.rs:218 | the sort yields a permutation ordered by ascending bus number |
| Discovery.ListsGroupsPermuted | src/discovery.rs:216-218 | sorting the collected controllers still lists every controller exactly once |
| Discovery.Discover | src/discovery.rs:124-223 | the topology holds the maps of the table scan and exactly the grouped controllers, sorted by bus number |
| Discovery.AllSources | src/discovery.rs:59-102 | the flattening loop yields `SourcesOf` the controllers, in order |
| Discovery.SourcesShape | src/discovery.rs:62-98 | controller rows have indent 0, no parent and type `I2C Controller`; device rows have indent 1 and their controller as parent |
| Discovery.SourcesCount | src/discovery.rs:62-98 | there is one row per controller with an IRQ plus one per device with a GPIO IRQ |
| Discovery.DeviceTypes | src/discovery.rs:68-72 | the summary lists each device's type, in order |
| Tui.SourceColor | src/tui.rs:118-124 | a source's colour comes from its role's palette and is never the TOTAL colour |
| Tui.SourceColorsDistinct | src/tui.rs:17-27 | two sources of the same role share a colour iff their indices agree mod 4, and the two roles never share one |
| Tui.Rate | src/tui.rs:103-104 | the rate is never negative, and is 0 iff the count did not grow |
| Tui.RateTimesInterval | src/tui.rs:103-104 | rate times interval is the counter growth (saturating subtraction) |
| Tui.Window | src/tui.rs:106-109 | the window grows by one until it holds 300 points, after which its length stays; the new point is last |
| Tui.WindowShift | src/tui.rs:106-109 | every older point moves down by one place when the window is full, and keeps its place otherwise |
| Tui.RecordKeepsWellFormed | src/tui.rs:102-116 | recording a non-negative rate keeps the window bounded by 300, the rates non-negative and min <= latest <= max |
| Tui.RecordAllWindow | src/tui.rs:106-109 | after any run of samples the window is exactly the last 300 points, oldest first |
| Tui.RecordAllStatistics | src/tui.rs:111-115 | the running sum, min, max and latest are those of every rate ever recorded |
| Tui.PushedRate | src/tui.rs:102-116 | a push keeps the history well formed, its latest rate is 0 iff the count did not grow, and the new previous count is the count |
| Tui.SourceHistory.constructor | src/tui.rs:85-100 | a new history copies the row's fields, starts visible with no data and the given previous count |
| Tui.SourceHistory.Push | src/tui.rs:102-116 | `push` changes the history's state exactly as `Pushed` says and keeps it valid |
| Tui.RoleRankIncreasing | src/tui.rs:181-194 | the colour indices of two rows of the same role increase with their position |
| Tui.RoleRankBelowCount | src/tui.rs:181-194 | the colour indices of a role are below the number of rows of that role |
| Tui.CountRoleMonotone | src/tui.rs:186-194 | the colour counter of a role never goes down |
| Tui.InitialStates | src/tui.rs:184-196 | row `i` starts from the snapshot count of its IRQ, 0 when absent, with no data and visible |
| Tui.NewHistories | src/tui.rs:184-197 | one fresh history per row, in order, each with its role's counter as colour index |
| Tui.BuiltStates | src/tui.rs:184-197 | the built histories are distinct, valid and in the `InitialStates` of the rows |
| Tui.App.constructor | src/tui.rs:154-170 | a new dashboard has no sources, empty TOTAL statistics, no samples, the cursor on row 0 and TOTAL visible |
| Tui.App.InitFromTopology | src/tui.rs:173-198 | the sources become fresh histories installed for the rows of `all_sources`; the TOTAL state, cursor and flags stay |
| Tui.App.SelectableCount | src/tui.rs:200-202 | there are more selectable rows than sources (the TOTAL row is one), so never none |
| Tui.NextSlot | src/tui.rs:216-222 | the cursor moves down one row and wraps from the TOTAL row to row 0 |
| Tui.PrevSlot | src/tui.rs:204-214 | the cursor moves up one row and wraps from row 0 to the TOTAL row |
| Tui.SlotsInverse | src/tui.rs:204-222 | moving down then up, or up then down, returns the cursor to its row |
| Tui.NextSlotsCycle | src/tui.rs:221 | k moves down from row i land on row (i + k) mod (n + 1) |
| Tui.App.SelectPrev | src/tui.rs:204-214 | `select_prev` changes the dashboard exactly as `PrevRow` says |
| Tui.App.SelectNext | src/tui.rs:216-222 | `select_next` changes the dashboard exactly as `NextRow` says |
| Tui.ToggledFlipsOne | src/tui.rs:224-230 | a toggle flips the selected source's flag, or TOTAL's past the sources, and changes nothing else |
| Tui.ToggledTwice | src/tui.rs:224-230 | toggling twice restores the dashboard |
| Tui.App.ToggleVisibility | src/tui.rs:224-230 | `toggle_visibility` changes the dashboard exactly as `Toggled` says |
| Tui.KeyStepEffects | src/tui.rs:397-405 | only `q` and Esc ask to quit; no key changes samples or statistics, only visibility flags of sources; the cursor stays on a row |
| Tui.KeyStepUnbound | src/tui.rs:403 | a key that is not bound leaves the dashboard unchanged |
| Tui.HandleKey | src/tui.rs:397-405 | `handle_key` changes the dashboard exactly as `KeyStep` says |
| Tui.SampledStates | src/tui.rs:286-292 | each source is pushed iff its IRQ is in the snapshot and is otherwise unchanged |
| Tui.TotalRate | src/tui.rs:286-291 | the TOTAL rate is never negative |
| Tui.TotalRateCovers | src/tui.rs:286-291 | the TOTAL is at least the new rate of every pushed source |
| Tui.TotalRateZero | src/tui.rs:286-291 | the TOTAL is 0 iff no pushed source's count grew |
| Tui.SampledEffects | src/tui.rs:281-303 | a sample counts one more sample; absent sources stay unchanged; present ones take the snapshot count; no flag or cursor moves |
| Tui.PushOne | src/tui.rs:287-291 | pushing one source changes only that source and returns its contribution to the TOTAL |
| Tui.PushAll | src/tui.rs:286-292 | the loop over the sources yields `SampledStates` and returns `TotalRate` |
| Tui.App.PushSources | src/tui.rs:286-292 | the sources' part of `sample` changes only the sources |
| Tui.App.RecordTotal | src/tui.rs:294-302 | the TOTAL's part of `sample` records the TOTAL point and counts one more sample |
| Tui.App.Sample | src/tui.rs:281-303 | `sample` changes the dashboard exactly as `Sampled` says |
| Tui.XBounds | src/tui.rs:271-278 | the x-axis spans 60 seconds, contains the elapsed time and ends at max(60, elapsed) |
| Tui.MaxOver | src/tui.rs:242-249 | the running maximum is at least its start and every rate, and equals one of them |
| Tui.MaxOverPoints | src/tui.rs:242-244 | the inner loop of `y_max` computes `MaxOver` |
| Tui.SourcesMaxCovers | src/tui.rs:238-245 | every rate of every visible source is at most the sources' maximum, and hidden ones do not count |
| Tui.SourcesMaxAttained | src/tui.rs:238-245 | the sources' maximum is the start value or a rate of a visible source |
| Tui.RawYMax | src/tui.rs:251 | the height before rounding is at least 10 |
| Tui.RawYMaxBounds | src/tui.rs:236-251 | the height before rounding is max(1.1 times the largest visible rate, 10), with TOTAL's history counted iff TOTAL is visible |
| Tui.App.YMax | src/tui.rs:236-251 | the loops of `y_max` compute `RawYMax` of the dashboard |
| Monitor.TruncateName | src/main.rs:166-170 | a name longer than 18 becomes its first 15 characters and `...`; shorter names are unchanged |
| Monitor.TruncateNameIdempotent | src/main.rs:166-170 | truncating a truncated name changes nothing |
| Monitor.TickFold | src/main.rs:190-196 | a tick gives one rate per source |
| Monitor.MonitorTick | src/main.rs:188-210 | the per-source loop computes `TickFold`'s rates and new previous counts, and the status is HIGH iff some rate is above the threshold |
| Monitor.AnyAboveSnoc | src/main.rs:201-203 | one more rate raises the flag iff it or an earlier one is above the threshold |
| Monitor.TickRatesNonNegative | src/main.rs:193-194 | no rate of a tick is negative |
| Monitor.TickPrevCounts | src/main.rs:191-196 | after a tick every source's IRQ holds its current count, 0 when absent from the snapshot; other IRQs keep their previous count |
| Monitor.TickRateAt | src/main.rs:190-196 | a source's rate is the saturating growth over the previous count (both 0 when absent); a later source with the same IRQ sees 0 |
| Monitor.RunStep | src/main.rs:179-214 | one more tick extends the statuses by the HIGH flag of that tick and carries its previous counts forward |
| Monitor.TickCount | src/main.rs:212-214 | with `count > 0` the loop runs exactly `count` ticks when that many snapshots exist; with `count = 0` it runs until the snapshots run out |
| Monitor.RunMonitor | src/main.rs:179-214 | the loop runs `TickCount` ticks and returns, per tick, the HIGH flag `Statuses` gives for the snapshots it took |

## Left out

- Reading `/proc/interrupts`, sysfs directories, links and files is not modelled. Their contents are parameters: the table text, the driver directory's entries with their link targets, the HID entries with their `uevent` text and input names.
- The terminal UI is not modelled: `TerminalGuard`, the event-poll loop of `run`, `ui`, the `render_*` functions and `print_summary`. Neither are CLI parsing, the listing and printing of `cmd_list` and `cmd_monitor`, and `display_name`, which only feed the display.
- The clock is not modelled: `Instant::now` and `elapsed_s` become an `elapsedS` parameter, and `thread::sleep` is dropped.
- `nice_step`, `ceil_to_step` and `y_labels` are not modelled because they rely on `log10`, `powf`, `ceil` and float formatting.
- Tui.App.YMax: returns the height before it is rounded up to a label step (`(max * 1.1).max(10.0)`), not the rounded value.
- Floating point becomes `real`: no rounding, no infinities and no NaN.
- Monitor.RunMonitor: requires a positive interval, as do all members of the monitor tick. The command line accepts `--interval 0`, and the source then divides by zero and gets an infinite or NaN rate, which the model does not represent.
- Tui.App.constructor: requires `interval_ms > 0`. With 0, the source divides by zero in IEEE arithmetic, which the model does not represent.
- Tui.SourceHistory.Push: the `f64::MAX` and `f64::MIN` sentinels of `rate_min` and `rate_max` (and of `total_min` and `total_max`) are modelled as `None` before the first sample.
- Interrupts.SumCounters: `count += n` on `u64` may overflow, but the model sums in `nat`. Each single counter is still bounded by 2^64.
- Tui.App.RecordTotal: `sample_count` is a `u32` in the source, and its wrap-around is not modelled.
- Monitor.RunMonitor: `sample_num` is a `u32` in the source, and its wrap-around is not modelled.
- Monitor.RunMonitor: with `count = 0` the source loops forever. The model takes a finite sequence of snapshots and stops when they run out.
- Monitor.RunMonitor: the rates and status are returned, not printed.
- Discovery.Discover: `controllers.into_values()` iterates in unspecified `HashMap` order, and bus-number ties keep that order. The model proves only that the result lists every grouped controller once and is sorted by bus number. The sort (`sort_by_key`) is modelled as an insertion-sort function.
- Discovery.NameLabel: `to_lowercase` is modelled as ASCII lower-casing.
- Monitor.TruncateName: counts and slices characters where the source counts and slices bytes. For non-ASCII names the source's `&name[..15]` can panic, and the model does not represent that.
- Tui.App.InitFromTopology: requires that the TOTAL statistics are well formed. Every `App` value meets this, since the constructor establishes it and every method keeps it.
- `SourceHistory` has a ghost `slot`, its position in the dashboard's list. It lets the proofs state that the list never holds the same object twice; it is not part of the program.
