/**
 * Model of package rpi (rpi/rpi.go): the clamped PWM write `AnalogWrite`,
 * the arm mask of `Notifier.Begin` and the per-read accept/debounce decision
 * of `Begin`'s loop.
 *
 * The `pigs` utility is external: a write is an attempt recorded by a `Pigs`
 * object, and which attempts fail is an input. Time is an integer number of
 * nanoseconds supplied by the caller.
 */
module Rpi {
  import opened Wrappers

  /** Largest PWM duty `AnalogWrite` sends. */
  const MaxDuty := 255

  /** What `pigs p <pin> <duty>` receives. */
  datatype Write = Write(pin: int, duty: int)

  /** `cmd.Run()` reported a failure for this write. */
  datatype WriteError = CommandFailed(pin: int, duty: int)

  function Dist(a: int, b: int): nat {
    if a < b then b - a else a - b
  }

  /** The saturating switch at the head of `AnalogWrite`: the duty in
      [0, 255] nearest to the requested value. */
  function Clamp(value: int): (duty: int)
    ensures 0 <= duty <= MaxDuty
    ensures forall v :: 0 <= v <= MaxDuty ==> Dist(duty, value) <= Dist(v, value)
  {
    if value > MaxDuty then MaxDuty
    else if value < 0 then 0
    else value
  }

  /** The three cases of the switch, read back from the nearest-duty contract. */
  lemma ClampCases(value: int)
    ensures value > MaxDuty ==> Clamp(value) == MaxDuty
    ensures value < 0 ==> Clamp(value) == 0
    ensures 0 <= value <= MaxDuty ==> Clamp(value) == value
  {
  }

  lemma ClampIdempotent(value: int)
    ensures Clamp(Clamp(value)) == Clamp(value)
  {
  }

  /** The external `pigs` utility as this program sees it: every write
      attempted so far, in order, and the attempt numbers (positions in
      `attempts`) on which the command fails. */
  class Pigs {
    var attempts: seq<Write>
    const fails: set<nat>

    constructor (fails: set<nat>)
      ensures attempts == [] && this.fails == fails
    {
      attempts := [];
      this.fails := fails;
    }

    /** Whether the next attempt will fail. */
    function NextFails(): bool
      reads this
    {
      |attempts| in fails
    }
  }

  /** `AnalogWrite(pin, value)`: clamp, then hand pin and clamped duty to
      `pigs p`; the command's failure is returned as the error. */
  method AnalogWrite(pigs: Pigs, pin: int, value: int) returns (err: Option<WriteError>)
    modifies pigs
    ensures pigs.attempts == old(pigs.attempts) + [Write(pin, Clamp(value))]
    ensures err == if old(pigs.NextFails()) then Some(CommandFailed(pin, Clamp(value))) else None
  {
    var duty := value;
    if duty > MaxDuty {
      duty := MaxDuty;
    } else if duty < 0 {
      duty := 0;
    }
    err := if pigs.NextFails() then Some(CommandFailed(pin, duty)) else None;
    pigs.attempts := pigs.attempts + [Write(pin, duty)];
  }

  // ---------------------------------------------------------------------
  // Notifier.Begin: arming one pin

  /** The mask `1<<pin` that `pigs NB` receives, taking Go's `int` to be 64
      bits wide (a shift by 64 or more gives 0). On a 32-bit target the word
      is narrower; the program's pin 26 fits either way. */
  function ArmMask(pin: nat): bv64 {
    if pin < 64 then 1 << pin else 0
  }

  /** For a pin Go can shift to, the arm mask is a power of two whose only
      set bit is bit `pin`. */
  lemma ArmMaskSingleBit(pin: nat)
    requires pin < 64
    ensures ArmMask(pin) != 0
    ensures ArmMask(pin) & (ArmMask(pin) - 1) == 0
    ensures (ArmMask(pin) >> pin) & 1 == 1
  {
  }

  // ---------------------------------------------------------------------
  // Begin's loop: one read of the notification pipe

  /** Size of the buffer allocated for each read, and of one report. */
  const FrameSize := 24

  /** Debounce window: 100 ms, in nanoseconds. */
  const DebounceNs := 100_000_000

  /** The fresh `make([]byte, 24)` buffer after a read of `read`: the bytes
      read at the front, zeros behind them. */
  function FrameBuffer(read: seq<bv8>): (buf: seq<bv8>)
    requires |read| <= FrameSize
    ensures |buf| == FrameSize && buf[..|read|] == read
    ensures forall i :: |read| <= i < FrameSize ==> buf[i] == 0
  {
    read + seq(FrameSize - |read|, _ => 0)
  }

  /** Index of the buffer byte that carries `pin`'s level: bytes 8 to 11
      hold the 32-bit level word. */
  function LevelByte(pin: nat): (i: nat)
    ensures pin < 32 ==> 8 <= i <= 11
    ensures i < FrameSize <==> pin < 128
  {
    8 + pin / 8
  }

  /** `(buffer[8+pin/8] >> (pin%8)) % 2` with Go's left-to-right reading of
      the equal-precedence `>>` and `%`. */
  function LevelBit(buf: seq<bv8>, pin: nat): (b: bv8)
    requires LevelByte(pin) < |buf|
    ensures b == 0 || b == 1
  {
    (buf[LevelByte(pin)] >> (pin % 8)) % 2
  }

  /** The decoded bit is bit `pin % 8` of the level byte. */
  lemma LevelBitIsPinBit(buf: seq<bv8>, pin: nat)
    requires LevelByte(pin) < |buf|
    ensures LevelBit(buf, pin) == 1 <==> buf[LevelByte(pin)] & (1 << (pin % 8)) != 0
  {
  }

  /** What one pass of the loop does with a read. */
  datatype Outcome =
    | Discarded           // the frame is ignored
    | Emitted(value: int) // `trigger <- value`
    | IndexPanic          // `buffer[8+pin/8]` is out of range: Go panics

  /** The condition of Begin's loop body for a read of `read` (its length is
      `n`) at time `now`, after the last accepted press at `lastPress`. */
  function Decide(pin: nat, lastPress: int, now: int, read: seq<bv8>): (o: Outcome)
    requires |read| <= FrameSize
    ensures o.Emitted? <==>
      now - lastPress > DebounceNs && |read| == FrameSize && pin < 128 && LevelBit(read, pin) == 1
    ensures o.Emitted? ==> o.value == 1
    ensures o.IndexPanic? <==> now - lastPress > DebounceNs && |read| == FrameSize && pin >= 128
  {
    if now - lastPress > DebounceNs && |read| == FrameSize then
      if LevelByte(pin) < FrameSize then
        if LevelBit(FrameBuffer(read), pin) != 0 then Emitted(1) else Discarded
      else IndexPanic
    else Discarded
  }

  /** Byte 8 = 0b11111110 leaves pin 0 at level 0: no event, whatever the
      comment on the loop says about even values; byte 8 = 0b00000001 does
      fire. */
  lemma DecodeExamples()
    ensures Decide(0, 0, 2 * DebounceNs, seq(8, _ => 0) + [0xFE] + seq(15, _ => 0)) == Discarded
    ensures Decide(0, 0, 2 * DebounceNs, seq(8, _ => 0) + [0x01] + seq(15, _ => 0)) == Emitted(1)
  {
  }

  /** The debounce state of Begin's loop. */
  class Debouncer {
    const pin: nat
    var lastPress: int

    /** `lastPress := time.Now()` on entry to the loop. */
    constructor (pin: nat, start: int)
      ensures this.pin == pin && lastPress == start
    {
      this.pin := pin;
      lastPress := start;
    }

    /** One iteration: a read of `read` checked at `now`; if a press is sent,
        `lastPress` becomes `resetAt`, the clock reading taken after the send
        has been received. */
    method Step(now: int, read: seq<bv8>, resetAt: int) returns (o: Outcome)
      requires |read| <= FrameSize
      modifies this
      ensures o == Decide(pin, old(lastPress), now, read)
      ensures lastPress == if o.Emitted? then resetAt else old(lastPress)
    {
      var buffer := FrameBuffer(read);
      o := Discarded;
      if now - lastPress > DebounceNs && |read| == FrameSize {
        var i := 8 + pin / 8;
        if i >= |buffer| {
          o := IndexPanic;
        } else if (buffer[i] >> (pin % 8)) % 2 != 0 {
          o := Emitted(1);
          lastPress := resetAt;
        }
      }
    }
  }

  /** One read of the pipe: when it was checked, the bytes it delivered
      (`n` of them) and the clock reading taken after a send. */
  datatype Read = Read(now: int, bytes: seq<bv8>, resetAt: int)

  ghost predicate ShortEnough(stream: seq<Read>) {
    forall i :: 0 <= i < |stream| ==> |stream[i].bytes| <= FrameSize
  }

  /** `lastPress` after the loop has consumed `stream`. */
  function LastPress(pin: nat, start: int, stream: seq<Read>): int
    requires ShortEnough(stream)
  {
    if stream == [] then start
    else
      var before := stream[..|stream| - 1];
      var r := stream[|stream| - 1];
      var last := LastPress(pin, start, before);
      if Decide(pin, last, r.now, r.bytes).Emitted? then r.resetAt else last
  }

  /** The outcome of each read, in order. */
  function Outcomes(pin: nat, start: int, stream: seq<Read>): (os: seq<Outcome>)
    requires ShortEnough(stream)
    ensures |os| == |stream|
  {
    if stream == [] then []
    else
      var before := stream[..|stream| - 1];
      var r := stream[|stream| - 1];
      Outcomes(pin, start, before) + [Decide(pin, LastPress(pin, start, before), r.now, r.bytes)]
  }

  /** The values sent on the trigger channel for a run of outcomes. */
  function Sent(os: seq<Outcome>): (sent: seq<int>)
    ensures |sent| <= |os|
  {
    if os == [] then []
    else Sent(os[..|os| - 1]) + (if os[|os| - 1].Emitted? then [os[|os| - 1].value] else [])
  }

  /** Read `i`'s outcome is decided against `lastPress` as the stream before
      it left it. */
  lemma {:induction false} OutcomeAt(pin: nat, start: int, stream: seq<Read>, i: nat)
    requires ShortEnough(stream) && i < |stream|
    ensures |Outcomes(pin, start, stream)| == |stream|
    ensures ShortEnough(stream[..i])
    ensures Outcomes(pin, start, stream)[i] == Decide(pin, LastPress(pin, start, stream[..i]), stream[i].now, stream[i].bytes)
  {
    var before := stream[..|stream| - 1];
    assert ShortEnough(before);
    if i == |stream| - 1 {
      assert stream[..i] == before;
    } else {
      OutcomeAt(pin, start, before, i);
      assert before[..i] == stream[..i];
      assert before[i] == stream[i];
    }
  }

  /** Each accepted read sends exactly one value, and that value is 1; a
      short read never sends. */
  lemma ReadOutcomes(pin: nat, start: int, stream: seq<Read>)
    requires ShortEnough(stream)
    ensures |Outcomes(pin, start, stream)| == |stream|
    ensures forall i :: 0 <= i < |stream| && |stream[i].bytes| < FrameSize ==> Outcomes(pin, start, stream)[i] == Discarded
    ensures forall k :: 0 <= k < |Sent(Outcomes(pin, start, stream))| ==> Sent(Outcomes(pin, start, stream))[k] == 1
  {
  }

  /** A pin past the 24-byte buffer never produces a press: every read that
      gets as far as the index panics instead. */
  lemma NoPressBeyondBuffer(pin: nat, start: int, stream: seq<Read>)
    requires ShortEnough(stream) && pin >= 128
    ensures Sent(Outcomes(pin, start, stream)) == []
  {
  }

  /** Clock readings that never go backwards: each check is no earlier than
      the previous reset, and each reset no earlier than its check. */
  ghost predicate Monotone(start: int, stream: seq<Read>) {
    (|stream| > 0 ==> start <= stream[0].now)
    && (forall i :: 0 <= i < |stream| ==> stream[i].now <= stream[i].resetAt)
    && (forall i :: 0 < i < |stream| ==> stream[i - 1].resetAt <= stream[i].now)
  }

  /** `lastPress` only moves forward, never past the last reset, and moves
      only when a value is sent. */
  lemma {:induction false} LastPressBounds(pin: nat, start: int, stream: seq<Read>, i: nat)
    requires ShortEnough(stream) && Monotone(start, stream) && i < |stream|
    ensures ShortEnough(stream[..i]) && ShortEnough(stream[..i + 1])
    ensures start <= LastPress(pin, start, stream[..i]) <= stream[i].now
    ensures Outcomes(pin, start, stream)[i].Emitted? ==> LastPress(pin, start, stream[..i + 1]) == stream[i].resetAt
    ensures !Outcomes(pin, start, stream)[i].Emitted? ==> LastPress(pin, start, stream[..i + 1]) == LastPress(pin, start, stream[..i])
    ensures LastPress(pin, start, stream[..i]) <= LastPress(pin, start, stream[..i + 1])
  {
    OutcomeAt(pin, start, stream, i);
    ReadOneMore(pin, start, stream, i);
    assert stream[..i + 1][..i] == stream[..i];
    if i > 0 {
      LastPressBounds(pin, start, stream, i - 1);
      assert stream[..i][..i - 1] == stream[..i - 1];
    }
  }

  /** Debouncing: a press is sent only when strictly more than 100 ms have
      passed since the loop started or since the previous press was sent. */
  lemma {:induction false} PressesSpaced(pin: nat, start: int, stream: seq<Read>, i: nat, j: nat)
    requires ShortEnough(stream) && Monotone(start, stream)
    requires i < j < |stream|
    requires Outcomes(pin, start, stream)[i].Emitted? && Outcomes(pin, start, stream)[j].Emitted?
    ensures stream[j].now - stream[i].resetAt > DebounceNs
  {
    LastPressBounds(pin, start, stream, i);
    OutcomeAt(pin, start, stream, j);
    LastPressGrows(pin, start, stream, i + 1, j);
  }

  lemma {:induction false} LastPressGrows(pin: nat, start: int, stream: seq<Read>, i: nat, j: nat)
    requires ShortEnough(stream) && Monotone(start, stream)
    requires i <= j < |stream|
    ensures ShortEnough(stream[..i]) && ShortEnough(stream[..j])
    ensures LastPress(pin, start, stream[..i]) <= LastPress(pin, start, stream[..j])
  {
    if i < j {
      LastPressGrows(pin, start, stream, i, j - 1);
      LastPressBounds(pin, start, stream, j - 1);
      assert j - 1 + 1 == j;
    }
  }

  lemma FirstPressAfterWindow(pin: nat, start: int, stream: seq<Read>, j: nat)
    requires ShortEnough(stream) && Monotone(start, stream)
    requires j < |stream| && Outcomes(pin, start, stream)[j].Emitted?
    ensures stream[j].now - start > DebounceNs
  {
    OutcomeAt(pin, start, stream, j);
    LastPressBounds(pin, start, stream, j);
  }

  /** Two pressed reports 50 ms apart give one press; 150 ms apart, two. */
  lemma DebounceExamples(start: int)
    ensures var f := seq(8, _ => 0) + [0x01] + seq(15, _ => 0);
      var t := start + 2 * DebounceNs;
      Sent(Outcomes(0, start, [Read(t, f, t), Read(t + DebounceNs / 2, f, t + DebounceNs / 2)])) == [1]
      && Sent(Outcomes(0, start, [Read(t, f, t), Read(t + 3 * DebounceNs / 2, f, t + 3 * DebounceNs / 2)])) == [1, 1]
  {
    var f := seq(8, _ => 0) + [0x01] + seq(15, _ => 0);
    assert f[8] == 0x01;
    var t := start + 2 * DebounceNs;
    var near := [Read(t, f, t), Read(t + DebounceNs / 2, f, t + DebounceNs / 2)];
    var far := [Read(t, f, t), Read(t + 3 * DebounceNs / 2, f, t + 3 * DebounceNs / 2)];
    assert near[..1] == [near[0]] && far[..1] == [far[0]];
    assert [near[0]][..0] == [] && [far[0]][..0] == [];
    assert Sent([Emitted(1)]) == [1];
  }

  /** How `Begin` ends before its loop: the step that failed. */
  datatype SetupError = ArmFailed | OpenFailed

  /** The loop over a finite run of stream: the values sent, and whether the
      goroutine panicked (it then stops consuming stream). */
  datatype Trace = Trace(sent: seq<int>, panicked: bool)

  /** Consuming one more read extends the outcomes, the sent values and
      `lastPress` as one pass of the loop does. */
  lemma ReadOneMore(pin: nat, start: int, stream: seq<Read>, i: nat)
    requires ShortEnough(stream) && i < |stream|
    ensures ShortEnough(stream[..i]) && ShortEnough(stream[..i + 1])
    ensures var o := Decide(pin, LastPress(pin, start, stream[..i]), stream[i].now, stream[i].bytes);
      && Outcomes(pin, start, stream[..i + 1]) == Outcomes(pin, start, stream[..i]) + [o]
      && Sent(Outcomes(pin, start, stream[..i + 1]))
         == Sent(Outcomes(pin, start, stream[..i])) + (if o.Emitted? then [o.value] else [])
      && LastPress(pin, start, stream[..i + 1])
         == (if o.Emitted? then stream[i].resetAt else LastPress(pin, start, stream[..i]))
  {
    assert stream[..i + 1][..i] == stream[..i] && stream[..i + 1][i] == stream[i];
  }

  /** `Notifier.Begin(trigger, pin)`: arm the pin with `pigs NB`, open the
      pipe, then run the loop over `stream`. `setupFault` is the first setup
      step that fails, if any. */
  method Begin(pin: nat, setupFault: Option<SetupError>, start: int, stream: seq<Read>)
    returns (mask: bv64, result: Result<Trace, SetupError>)
    requires ShortEnough(stream)
    ensures mask == ArmMask(pin)
    ensures setupFault.Some? ==> result == Failure(setupFault.value)
    ensures setupFault.None? ==>
      && result.Success?
      && result.value.sent == Sent(Outcomes(pin, start, stream))
      && (result.value.panicked <==> IndexPanic in Outcomes(pin, start, stream))
  {
    mask := if pin < 64 then 1 << pin else 0;
    if setupFault.Some? {
      return mask, Failure(setupFault.value);
    }
    var d := new Debouncer(pin, start);
    var sent: seq<int> := [];
    var i := 0;
    var panicked := false;
    while i < |stream| && !panicked
      invariant 0 <= i <= |stream|
      invariant ShortEnough(stream[..i])
      invariant d.pin == pin && d.lastPress == LastPress(pin, start, stream[..i])
      invariant !panicked ==> sent == Sent(Outcomes(pin, start, stream[..i]))
      invariant !panicked ==> IndexPanic !in Outcomes(pin, start, stream[..i])
      invariant panicked ==> IndexPanic in Outcomes(pin, start, stream[..i])
    {
      var r := stream[i];
      var o := d.Step(r.now, r.bytes, r.resetAt);
      ReadOneMore(pin, start, stream, i);
      if o.IndexPanic? {
        panicked := true;
      } else if o.Emitted? {
        sent := sent + [o.value];
      }
      i := i + 1;
    }
    PanicPersists(pin, start, stream, i);
    if panicked {
      NoPressBeyondBuffer(pin, start, stream);
      sent := [];
    } else {
      assert stream[..i] == stream;
    }
    result := Success(Trace(sent, panicked));
  }

  /** A panic among the first `i` outcomes is a panic among all of them, and
      outcomes only panic for pins past the buffer. */
  lemma PanicPersists(pin: nat, start: int, stream: seq<Read>, i: nat)
    requires ShortEnough(stream) && i <= |stream|
    ensures ShortEnough(stream[..i])
    ensures Outcomes(pin, start, stream[..i]) == Outcomes(pin, start, stream)[..i]
    ensures IndexPanic in Outcomes(pin, start, stream[..i]) ==> pin >= 128 && IndexPanic in Outcomes(pin, start, stream)
  {
    OutcomesPrefix(pin, start, stream, i);
    var os := Outcomes(pin, start, stream);
    if IndexPanic in os[..i] {
      var k :| 0 <= k < i && os[k] == IndexPanic;
      OutcomeAt(pin, start, stream, k);
      assert os[k] in os;
    }
  }

  lemma {:induction false} OutcomesPrefix(pin: nat, start: int, stream: seq<Read>, i: nat)
    requires ShortEnough(stream) && i <= |stream|
    ensures ShortEnough(stream[..i])
    ensures Outcomes(pin, start, stream[..i]) == Outcomes(pin, start, stream)[..i]
  {
    if i < |stream| {
      var before := stream[..|stream| - 1];
      OutcomesPrefix(pin, start, before, i);
      assert before[..i] == stream[..i];
    } else {
      assert stream[..i] == stream;
    }
  }
}
