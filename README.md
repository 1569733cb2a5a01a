# weather-clock, modelled in Dafny

A Raspberry Pi drives three analog dials through PWM. The dials show the
time, the current weather, or a fixed test pattern. A push button cycles
through these three modes. This project models the sequential logic of the
program and proves properties of that model:

- `scheduler.dfy` (module `Scheduler`) models the mode loop in `main`
  (main.go). Each value from the button channel sets
  `mode = (mode + pressed) % 3`. A change of mode cancels the running
  periodic task and starts the next one. Goroutines and channels become a
  list of actions (`make`, `go`, send). A small world model tracks which
  channels have a live task listening on them. The main result is that,
  with the value 1 that the button listener always sends, no cancel is ever
  sent on a nil channel or to a task that has already exited, and at most
  one periodic task runs. Whether a cancel is taken promptly is a matter of
  timing that the model does not cover (see "Left out").
- `dials.dfy` (module `Dials`) models `setTime`, `setWeather`, `testMode`,
  `getCurrentWeather`, and what `clockMode` and `weatherMode` do at start and
  on each tick. In those two tasks every error is a panic.
- `rpi.dfy` (module `Rpi`) models package rpi:
  - the clamp and the write of `AnalogWrite`;
  - the `1<<pin` arm mask of `Notifier.Begin`;
  - the accept and debounce decision that `Begin`'s loop makes for each
    24-byte report read from the notification pipe.
- `weather.dfy` (module `Weather`) models package weather: its types, the
  Weather Underground request URL (with the `%s` subset of `fmt.Sprintf`),
  the conversion of hourly entries into `Conditions`, and `Current`.
- `wrappers.dfy` holds `Option` and `Result`.

External effects become inputs:

- A PWM write is an attempt recorded by an `Rpi.Pigs` object. The object
  also holds the set of attempt numbers that fail.
- The notification pipe is a sequence of reads. Each read gives its bytes
  and two integer nanosecond clock readings.
- The HTTP fetch and the JSON decoding together are one function. It takes
  the request URL and returns the decoded hourly entries or an error.

Assumptions and places where the code is followed over its own comments:

- `int(float64(x)*2.4)` is modelled as exact arithmetic truncated toward
  zero: the integer part of 12x/5 (`Dials.Scale`). The code truncates. It
  does not round, so the model does not round either.
- `Begin` fires when the selected bit is 1. The comment at
  rpi/rpi.go:90 says an even value means HIGH. The code reads
  `(buffer[8+pin/8] >> (pin%8)) % 2 != 0`, because Go's `>>` and `%` have
  equal precedence and group from the left. The model follows the code.
- `time.Since(lastPress).Seconds() > 0.1` is read as "strictly more than
  100 000 000 ns have passed".
- Go's `%` truncates toward zero (`Scheduler.GoRem3`). A negative sum gives
  a negative mode, which no case of the switch handles.
- After a send, `lastPress` is a second clock reading (`resetAt`). It is
  taken once the scheduler has received the press.

## Model

| member | source | states |
|---|---|---|
| Rpi.Clamp | rpi/rpi.go:17-22 | the duty sent is in [0, 255] and is the value of that range nearest to the requested value |
| Rpi.ClampCases | rpi/rpi.go:17-22 | above 255 gives 255, below 0 gives 0, and a value in range is unchanged |
| Rpi.ClampIdempotent | rpi/rpi.go:17-22 | clamping an already clamped value leaves it unchanged |
| Rpi.Pigs.constructor | rpi/rpi.go:26-29 | the `pigs` utility starts with no write attempted; the attempt numbers on which `cmd.Run()` fails are fixed up front |
| Rpi.Pigs.NextFails | rpi/rpi.go:29 | the next `pigs p` command fails exactly when its attempt number (the count of earlier attempts) is a failing one (definition, no contract) |
| Rpi.AnalogWrite | rpi/rpi.go:15-30 | exactly one write is attempted, with the pin and the clamped value (not the raw one); the error is reported when that attempt fails |
| Rpi.ArmMask | rpi/rpi.go:59 | the `1<<pin` word sent with `pigs NB`, taking `int` as 64 bits: bit `pin` for pin < 64, 0 for larger shifts (definition; its property is ArmMaskSingleBit) |
| Rpi.ArmMaskSingleBit | rpi/rpi.go:59 | for pin < 64 the mask `1<<pin` is nonzero, a power of two, and has bit `pin` set |
| Rpi.FrameBuffer | rpi/rpi.go:78-79 | the per-read buffer has 24 bytes: the bytes read at the front, zeros after them |
| Rpi.LevelByte | rpi/rpi.go:91 | for pin < 32 the inspected byte is one of bytes 8..11; it lies inside the 24-byte buffer exactly when pin < 128 |
| Rpi.LevelBit | rpi/rpi.go:91 | the decoded value is 0 or 1 |
| Rpi.LevelBitIsPinBit | rpi/rpi.go:91 | the decoded value is 1 exactly when bit `pin % 8` of byte `8 + pin/8` is set |
| Rpi.Decide | rpi/rpi.go:91-94 | a read sends a value iff more than 100 ms have passed, n == 24, the byte is in range and the pin's bit is 1; the value sent is 1; the index panics iff the first two hold and pin >= 128 |
| Rpi.DecodeExamples | rpi/rpi.go:90-91 | byte 8 = 0b11111110 gives no event for pin 0, and 0b00000001 gives one |
| Rpi.Debouncer.constructor | rpi/rpi.go:75 | on entry to the loop `lastPress` is the clock reading `time.Now()` taken there (the `start` input), for the pin being watched |
| Rpi.Debouncer.Step | rpi/rpi.go:77-95 | one iteration gives Decide's outcome; `lastPress` moves to the post-send clock reading only when a value is sent |
| Rpi.LastPress | rpi/rpi.go:75-94 | `lastPress` after a run of reads: the loop-entry clock reading, replaced by a read's post-send reading each time that read sends (definition; its properties are LastPressBounds and LastPressGrows) |
| Rpi.Outcomes | rpi/rpi.go:76-96 | the loop produces one outcome per read |
| Rpi.Sent | rpi/rpi.go:93 | the values put on the trigger channel, in order: one per emitted outcome, so never more values than outcomes |
| Rpi.OutcomeAt | rpi/rpi.go:76-96 | read i is decided against the `lastPress` that the reads before it left |
| Rpi.ReadOutcomes | rpi/rpi.go:79-93 | a short read (n < 24) never sends, and every value sent on the channel is 1 |
| Rpi.NoPressBeyondBuffer | rpi/rpi.go:91 | a pin past the buffer (pin >= 128) never produces a press |
| Rpi.LastPressBounds | rpi/rpi.go:75-94 | with a monotone clock, `lastPress` never decreases, stays between the start and the current check, and changes only on a send |
| Rpi.LastPressGrows | rpi/rpi.go:94 | `lastPress` never decreases over a run of reads |
| Rpi.PressesSpaced | rpi/rpi.go:91-94 | two presses are sent only if the second check comes more than 100 ms after the reset that followed the first |
| Rpi.FirstPressAfterWindow | rpi/rpi.go:75-91 | nothing is sent within 100 ms of entering the loop |
| Rpi.DebounceExamples | rpi/rpi.go:91-94 | two pressed reports 50 ms apart give one press; 150 ms apart they give two |
| Rpi.Begin | rpi/rpi.go:58-97 | arms with mask `1<<pin`; a setup failure is returned and nothing is read; otherwise the values sent are those of the per-read outcomes, the loop stops only on an index panic, and a read error never ends it |
| Dials.FirstFailure | main.go:165-177 | the position found is a failing attempt with no failure before it; None means no attempt fails |
| Dials.Issued | main.go:165-177 | the writes that three early-returning `AnalogWrite` calls issue (`setTime`, and `setWeather` at main.go:197-208 alike): never more than the requests, at least one when there is a request (the exact prefix is IssuedUpToFirstFailure) |
| Dials.Failed | main.go:165-177 | the error `setTime` (and likewise `setWeather`) returns: none when no write fails, otherwise the first failing write's error wrapped with the quantity it was setting (definition via FirstFailure) |
| Dials.IssuedUpToFirstFailure | main.go:165-177 | a write sequence issues the clamped requests in order up to and including the first failure, and attempts nothing after it |
| Dials.ThreeWrites | main.go:165-177 | the three outcomes of a three-write sequence: it stops after the first, second or third write |
| Dials.TimeRequests | main.go:166-172 | `setTime`'s three requests: `hour*10` to pin 17, `min*4` to pin 27, `sec*4` to pin 22 (definition) |
| Dials.SetTime | main.go:165-177 | writes hour*10, min*4, sec*4 to pins 17, 27, 22 in that order; the first failing write is returned, wrapped with its field, and ends the call |
| Dials.TimeNeedsNoClamp | main.go:162-174 | for hour 0..23 and min, sec 0..59 every value lies in 0..236, so the clamp leaves it unchanged |
| Dials.TimeExamples | main.go:165-177 | setTime(23, 59, 0) writes 230, 236, 0 and setTime(0, 0, 0) writes 0, 0, 0 |
| Dials.Scale | main.go:198-204 | the scaled value is 12x/5 truncated toward zero |
| Dials.WeatherRequests | main.go:198-204 | `setWeather`'s three requests: the scaled temperature, humidity and precipitation to pins 17, 27 and 22 (definition) |
| Dials.SetWeather | main.go:197-208 | writes the scaled temperature, humidity and precipitation to pins 17, 27, 22 in order; stops at the first failure and returns it, wrapped |
| Dials.ScaleRange | main.go:192-204 | values 0..100 scale into 0..240 and are not clamped; a negative reading reaches the dial as 0 |
| Dials.WeatherExamples | main.go:197-208 | setWeather(40, 100, 100) writes 96, 240, 240 and setWeather(-20, 0, 0) writes 0, 0, 0 |
| Dials.Failures | main.go:155-158 | the errors `testMode` logs: one per failing write, in order, never more than the writes |
| Dials.TestMode | main.go:153-160 | writes 240 on all three pins even when earlier writes fail; the failures are only logged |
| Dials.GetCurrentWeather | main.go:179-190 | asks for NJ/Hoboken; on success returns tempF, tempC, humidity and precipitation of the first hourly entry; on an error returns it with all four values 0 |
| Dials.ClockRefresh | main.go:94-104 | shows the time; it is fatal exactly when one of the writes fails |
| Dials.WeatherRefresh | main.go:124-142 | a failed or empty fetch is fatal and writes nothing; otherwise the first entry is shown, and a failed write is fatal |
| Dials.StartWeather | main.go:118-130 | an empty API key is fatal before anything is written; otherwise the first refresh |
| Weather.StringVerbs | weather/wu.go:23 | the number of `%s` verbs `fmt.Sprintf` fills in a format, or none when another verb occurs (definition; UrlFormatVerbs gives 3 for the request format) |
| Weather.Sprintf | weather/wu.go:23 | `fmt.Sprintf` with one string argument per `%s`: literal text copied, each `%s` replaced by the next argument (definition; its properties are LiteralPrefix, VerbPrefix and ThreeVerbs) |
| Weather.LiteralVerbs | weather/wu.go:9 | text without `%` adds no formatting verb |
| Weather.LiteralPrefix | weather/wu.go:23 | Sprintf copies text without `%` unchanged |
| Weather.VerbPrefix | weather/wu.go:23 | a `%s` verb takes the next argument verbatim |
| Weather.ThreeVerbs | weather/wu.go:9-23 | a template of three `%s` between literal pieces yields the pieces with the three arguments in order |
| Weather.RequestUrl | weather/wu.go:9-23 | the request URL is "http://api.wunderground.com/api/" + key + "/hourly/q/" + State + "/" + City + ".json" |
| Weather.UrlFormatVerbs | weather/wu.go:9-23 | the `url` format has exactly three `%s` verbs, which take key, State and City |
| Weather.Converted | weather/wu.go:38-45 | an hourly entry becomes a Conditions by copying Temp.Metric to TempC, Temp.English to TempF, Humidity to Humidity and Pop to Precipitation (definition; Hourly ensures it for every entry) |
| Weather.WUClient.Hourly | weather/wu.go:22-47 | a fetch or decode error is returned with no forecast; otherwise one Conditions per entry, in order, with TempC = Temp.Metric, TempF = Temp.English, Humidity = Humidity, Precipitation = Pop |
| Weather.WUClient.Current | weather/wu.go:49-68 | an Hourly error is returned wrapped; an empty forecast is an error; otherwise the four fields of the first entry |
| Scheduler.GoRem3 | main.go:58 | Go's `% 3`: the remainder has the dividend's sign, is smaller than 3 in magnitude, and differs from the dividend by a multiple of 3 |
| Scheduler.NextMode | main.go:58 | the new mode `(mode + pressed) % 3` with Go's truncated remainder (definition; its properties are StepMode and ModeAfterPresses) |
| Scheduler.Step | main.go:58-75 | one loop iteration: the new variables and the `make`, `go` and cancel actions of the switch, in order (definition; its properties are StepMode, UnchangedModeIsSilent, EntryActions and StepSound) |
| Scheduler.Run | main.go:53-77 | the loop over a finite run of button values: Step applied value by value, actions concatenated (definition; its properties are RunSnoc, RunSound and LoopHeadAgreement) |
| Scheduler.StepMode | main.go:58-75 | after an iteration `mode` is `(mode + pressed) % 3` |
| Scheduler.ModeAfterPresses | main.go:53-58 | from a mode in {0, 1, 2}, non-negative values add up modulo 3 and the mode stays in {0, 1, 2} |
| Scheduler.ThreePressesReturn | main.go:53-58 | three presses of 1 return to the starting mode |
| Scheduler.UnchangedModeIsSilent | main.go:59 | a value that leaves the mode unchanged emits no action and changes no variable |
| Scheduler.EntryActions | main.go:62-74 | entering CLOCK: new clock channel, start clock, no cancel; WEATHER: cancel clock, new weather channel, start weather; TEST: cancel weather, start test |
| Scheduler.LoopHeadAgreement | main.go:59-75 | `prevMode == mode` at the head of every iteration |
| Scheduler.Deliver | main.go:43-74 | what the `go` and cancel actions do to the set of channels with a live mode task: `go clockMode(ch)` or `go weatherMode(ch)` adds `ch` (a task counts as live from its start), `go testMode` adds nothing, and `ch <- true` removes `ch` when a live task listens on it; a cancel on nil or on a channel with no live task gives None, the loop blocked for ever (definition; DeliverAppend and CancelsReachLiveTasks are stated with it) |
| Scheduler.Sound | main.go:59-74 | the loop-head invariant the comment at main.go:67 relies on: `prevMode == mode`, mode in 0..2, and the live tasks are exactly the current mode's: {clockChan} in CLOCK, {weatherChan} in WEATHER (a channel already made, never nil), none in TEST (definition; kept by StepSound and RunSound) |
| Scheduler.InitSound | main.go:43-52 | the setup (`Init`: CLOCK/CLOCK, clock channel 0, nil weather channel; `StartActions`: make channel 0, start the clock task on it) leaves exactly the first clock task live, and Sound holds |
| Scheduler.StepSound | main.go:62-74 | with pressed = 1, every cancel goes to a live task, the invariant is kept, and at most one periodic task is live |
| Scheduler.LeaveClock | main.go:66-70 | from CLOCK, the clock task is cancelled while it is live, and afterwards only the new weather task is live |
| Scheduler.LeaveWeather | main.go:71-73 | from WEATHER, the weather task is cancelled while it is live, and afterwards no periodic task is live |
| Scheduler.LeaveTest | main.go:63-65 | from TEST nothing is cancelled, and afterwards only the new clock task is live |
| Scheduler.RunSound | main.go:53-77 | any number of presses of 1 keeps the invariant, and every cancel goes to a live task rather than a nil channel or an exited task |
| Scheduler.CancelsReachLiveTasks | main.go:43-77 | from the program's start, however many presses arrive, no cancel is sent on a nil channel or to a task that has exited |
| Scheduler.TwoBlocks | main.go:67-72 | a value of 2 at start would send on the nil weather channel and block: the loop relies on the listener sending 1 |
| Scheduler.DeliverAppend | main.go:62-74 | running two action lists one after the other is running their concatenation |
| Scheduler.RunSnoc | main.go:53-77 | one more iteration extends the run by one step |
| Scheduler.ModeLoop.constructor | main.go:43-52 | starts in CLOCK with the first clock channel made and the weather channel nil |
| Scheduler.ModeLoop.Press | main.go:55-76 | one iteration updates the loop variables and emits the actions of the step function |
| Scheduler.ModeLoop.Serve | main.go:53-77 | the loop over a run of values matches the step function applied value by value, keeping `prevMode == mode` |

## Left out

- Goroutines, channels, tickers and `select` (main.go:43-49, 91-151) are
  concurrency and timing. They appear only as actions and as the set of
  channels with a live task. The periodic tasks appear as the work they
  do at start and on each tick.
- `exec.Command("pigs", ...)` in `AnalogWrite`, `NewNotifier` and `Begin`
  runs external processes. A write is an attempt that may fail. Arming the
  pin and opening the pipe are one input naming the first setup step that
  fails.
- `NewNotifier` (rpi/rpi.go:37-56) parses subprocess output and joins file
  paths, so it is left out. The `0x%x` formatting of the arm mask is left
  out too.
- Reading the pipe is I/O. The model takes the bytes of each read, and
  `n` is their number. A read error is only logged, so the error value
  itself does not appear.
- The HTTP GET and the JSON decoding with `,string` tags
  (weather/wu.go:25-35, 70-158) are the network and a library decoder. They
  are one input function.
- `time.Now` and `time.Since` become caller-supplied integer nanosecond
  readings. The floating point of `Seconds() > 0.1` is not modelled.
- Dials.Scale: the IEEE-754 product `float64(x)*2.4` is replaced by exact
  truncation of 12x/5, as an assumption.
- Logging, the log file (main.go:31-40) and the printing in `AnalogWrite`
  and `Begin` are left out. Panics are modelled as fatal results
  (`Dials.Fatal`, `Rpi.IndexPanic`).
- Reading `WU_API_KEY` from the environment is an input, the `apiKey`
  parameter.
- Go's `int` overflow is not modelled; the values involved are small. The
  arm mask `1<<pin` (Rpi.ArmMask) assumes a 64-bit `int`; on a 32-bit build
  `1<<31` is negative and larger shifts give 0. Pin 26, the one the program
  uses, is the same either way.
- `listenButtonPress` (main.go:80-89) only wires `Begin` to the channel and
  panics on a setup error, so it has no model of its own.
- Rpi.Begin: the model runs the loop over a finite run of reads. The Go loop
  never ends.
- Scheduler.ModeLoop.Serve: like `Begin`, it runs a finite run of values.
- Scheduler.CancelsReachLiveTasks: a started task is taken to be listening for its
  cancel at once. A cancel is an unbuffered send (main.go:68, 72) that
  completes only once the task reaches its `select`. A weather task first
  fetches over HTTP with no timeout (main.go:124, weather/wu.go:25), so a
  cancel can wait there indefinitely. The lemma promises only that no cancel
  goes to a nil channel or to a task that has exited.
- The "initial read error" branch of `Begin` (rpi/rpi.go:71-74) is not a
  setup failure in the model. `io.ReadFull` into a nil buffer returns at once
  with no error, so that branch cannot run.
