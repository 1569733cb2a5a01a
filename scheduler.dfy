/**
 * Model of the mode loop in `main` (main.go): each value read from the
 * button channel moves `mode` by `(mode + pressed) % 3`, and a change of mode
 * cancels the running task and starts the next one.
 *
 * Goroutines and channels are abstract: the loop's effects are a list of
 * actions (`make(chan bool)`, `go task(ch)`, `ch <- true`), and a separate
 * world model says which channels have a live mode task listening on them.
 * A send to any other channel, or to a nil one, blocks the loop for ever.
 * A started task counts as listening at once: the time a weather task spends
 * in its first fetch before reaching its `select`, during which an unbuffered
 * cancel waits for it, is not modelled.
 */
module Scheduler {
  import opened Wrappers

  const CLOCK := 0
  const WEATHER := 1
  const TEST := 2

  /** Go's `a % 3` on int: the remainder of division truncated toward
      zero, so it takes the sign of the dividend. */
  function GoRem3(a: int): (r: int)
    ensures a >= 0 ==> 0 <= r < 3
    ensures a < 0 ==> -3 < r <= 0
    ensures (a - r) % 3 == 0
  {
    if a >= 0 then a % 3 else -((-a) % 3)
  }

  /** `(mode + pressed) % 3`. */
  function NextMode(mode: int, pressed: int): int {
    GoRem3(mode + pressed)
  }

  /** A `chan bool` variable: nil, or the channel made as the `id`-th. */
  datatype Chan = Nil | Chan(id: nat)

  datatype Task = ClockMode(done: Chan) | WeatherMode(done: Chan) | TestMode

  datatype Action =
    | Make(ch: Chan)    // `ch = make(chan bool)`
    | Go(task: Task)    // `go task`
    | Send(ch: Chan)    // `ch <- true`: cancel the task listening on `ch`

  /** The loop's variables, and how many channels it has made. */
  datatype State = State(mode: int, prevMode: int, clockChan: Chan, weatherChan: Chan, made: nat)

  /** One iteration of the loop for the button value `pressed`: the new
      variables and what the iteration does, in order. */
  function Step(s: State, pressed: int): (State, seq<Action>) {
    var mode := NextMode(s.mode, pressed);
    if s.prevMode == mode then (s.(mode := mode), [])
    else if mode == CLOCK then
      var c := Chan(s.made);
      (State(mode, mode, c, s.weatherChan, s.made + 1), [Make(c), Go(ClockMode(c))])
    else if mode == WEATHER then
      var c := Chan(s.made);
      (State(mode, mode, s.clockChan, c, s.made + 1), [Send(s.clockChan), Make(c), Go(WeatherMode(c))])
    else if mode == TEST then
      (s.(mode := mode, prevMode := mode), [Send(s.weatherChan), Go(TestMode)])
    else
      (s.(mode := mode, prevMode := mode), [])
  }

  /** The variables after the setup before the loop. */
  const Init := State(CLOCK, CLOCK, Chan(0), Nil, 1)

  /** The setup before the loop: make the clock channel, start the clock. */
  const StartActions := [Make(Chan(0)), Go(ClockMode(Chan(0)))]

  /** The loop over a finite run of button values. */
  function Run(s: State, presses: seq<int>): (State, seq<Action>)
    decreases |presses|
  {
    if presses == [] then (s, [])
    else
      var (s1, a1) := Step(s, presses[0]);
      var (s2, a2) := Run(s1, presses[1..]);
      (s2, a1 + a2)
  }

  // ---------------------------------------------------------------------
  // Mode arithmetic

  function Sum(xs: seq<int>): int {
    if xs == [] then 0 else xs[0] + Sum(xs[1..])
  }

  lemma StepMode(s: State, pressed: int)
    ensures Step(s, pressed).0.mode == NextMode(s.mode, pressed)
    ensures Step(s, pressed).0.prevMode == NextMode(s.mode, pressed) || s.prevMode == NextMode(s.mode, pressed)
  {
  }

  /** From a mode in {0, 1, 2}, non-negative button values add up modulo 3,
      and the mode stays in {0, 1, 2}. */
  lemma {:induction false} ModeAfterPresses(s: State, presses: seq<int>)
    requires 0 <= s.mode < 3
    requires forall i :: 0 <= i < |presses| ==> presses[i] >= 0
    ensures Run(s, presses).0.mode == (s.mode + Sum(presses)) % 3
    ensures 0 <= Run(s, presses).0.mode < 3
    decreases |presses|
  {
    if presses != [] {
      var s1 := Step(s, presses[0]).0;
      StepMode(s, presses[0]);
      ModeAfterPresses(s1, presses[1..]);
      assert s1.mode == (s.mode + presses[0]) % 3;
    }
  }

  /** Three presses bring the dial back to the mode it started in. */
  lemma ThreePressesReturn(s: State)
    requires 0 <= s.mode < 3
    ensures Run(s, [1, 1, 1]).0.mode == s.mode
  {
  }

  /** A value that does not change the mode changes nothing and does
      nothing. */
  lemma UnchangedModeIsSilent(s: State, pressed: int)
    requires s.prevMode == s.mode && NextMode(s.mode, pressed) == s.mode
    ensures Step(s, pressed) == (s, [])
  {
  }

  /** What entering each mode does. */
  lemma EntryActions(s: State, pressed: int)
    requires NextMode(s.mode, pressed) != s.prevMode
    ensures NextMode(s.mode, pressed) == CLOCK ==>
      Step(s, pressed).1 == [Make(Chan(s.made)), Go(ClockMode(Chan(s.made)))]
    ensures NextMode(s.mode, pressed) == WEATHER ==>
      Step(s, pressed).1 == [Send(s.clockChan), Make(Chan(s.made)), Go(WeatherMode(Chan(s.made)))]
    ensures NextMode(s.mode, pressed) == TEST ==>
      Step(s, pressed).1 == [Send(s.weatherChan), Go(TestMode)]
    ensures forall a :: a in Step(s, pressed).1 && a.Send? ==> NextMode(s.mode, pressed) != CLOCK
  {
  }

  /** `prevMode == mode` holds at the head of every iteration. */
  lemma {:induction false} LoopHeadAgreement(s: State, presses: seq<int>)
    requires s.prevMode == s.mode
    ensures Run(s, presses).0.prevMode == Run(s, presses).0.mode
    decreases |presses|
  {
    if presses != [] {
      LoopHeadAgreement(Step(s, presses[0]).0, presses[1..]);
    }
  }

  // ---------------------------------------------------------------------
  // Cancellation safety

  /** The effect of the actions on the set of channels a live mode task
      listens on (a task counts from the moment it is started); None when a
      send has no task that will ever receive it, which blocks the loop for
      ever. */
  function Deliver(actions: seq<Action>, receiving: set<nat>): Option<set<nat>>
    decreases |actions|
  {
    if actions == [] then Some(receiving)
    else match actions[0]
      case Make(_) => Deliver(actions[1..], receiving)
      case Go(t) =>
        (match t
         case ClockMode(Chan(id)) => Deliver(actions[1..], receiving + {id})
         case WeatherMode(Chan(id)) => Deliver(actions[1..], receiving + {id})
         case _ => Deliver(actions[1..], receiving))
      case Send(ch) =>
        if ch.Chan? && ch.id in receiving then Deliver(actions[1..], receiving - {ch.id}) else None
  }

  lemma {:induction false} DeliverAppend(a: seq<Action>, b: seq<Action>, receiving: set<nat>)
    ensures Deliver(a + b, receiving)
         == match Deliver(a, receiving) case None => None case Some(r) => Deliver(b, r)
  {
    if a == [] {
      assert a + b == b;
    } else {
      assert (a + b)[0] == a[0] && (a + b)[1..] == a[1..] + b;
      match a[0] {
        case Make(_) => DeliverAppend(a[1..], b, receiving);
        case Go(t) =>
          match t {
            case ClockMode(Chan(id)) => DeliverAppend(a[1..], b, receiving + {id});
            case WeatherMode(Chan(id)) => DeliverAppend(a[1..], b, receiving + {id});
            case _ => DeliverAppend(a[1..], b, receiving);
          }
        case Send(ch) =>
          if ch.Chan? && ch.id in receiving {
            DeliverAppend(a[1..], b, receiving - {ch.id});
          }
      }
    }
  }

  /** The invariant the loop relies on (the comment "previous mode either
      CLOCK" at the WEATHER case): exactly the running periodic task of the
      current mode is waiting, on the channel the loop would cancel it
      through, and TEST leaves nothing waiting. */
  ghost predicate Sound(s: State, receiving: set<nat>) {
    && s.prevMode == s.mode
    && (s.mode == CLOCK ==> s.clockChan.Chan? && s.clockChan.id < s.made && receiving == {s.clockChan.id})
    && (s.mode == WEATHER ==> s.weatherChan.Chan? && s.weatherChan.id < s.made && receiving == {s.weatherChan.id})
    && (s.mode == TEST ==> receiving == {})
    && 0 <= s.mode < 3
  }

  lemma InitSound()
    ensures Deliver(StartActions, {}) == Some({0})
    ensures Sound(Init, {0})
  {
    var a := StartActions;
    assert a[1..] == [Go(ClockMode(Chan(0)))] && a[1..][1..] == [];
    assert Deliver(a[1..][1..], {0}) == Some({0});
    var none: set<nat> := {};
    assert none + {0} == {0};
    assert Deliver(a[1..], {}) == Some({0});
  }

  /** With the value the button listener sends, one iteration never sends a
      cancel on a nil channel or to a task that has exited: every cancel goes
      to a live task, and afterwards at most one periodic task is running. */
  lemma StepSound(s: State, receiving: set<nat>)
    requires Sound(s, receiving)
    ensures var (s1, actions) := Step(s, 1);
      && Deliver(actions, receiving).Some?
      && Sound(s1, Deliver(actions, receiving).value)
      && |Deliver(actions, receiving).value| <= 1
      && forall a :: a in actions && a.Send? ==> a.ch.Chan? && a.ch.id in receiving
  {
    if s.mode == CLOCK {
      LeaveClock(s, receiving);
    } else if s.mode == WEATHER {
      LeaveWeather(s, receiving);
    } else {
      LeaveTest(s, receiving);
    }
  }

  lemma LeaveClock(s: State, receiving: set<nat>)
    requires Sound(s, receiving) && s.mode == CLOCK
    ensures Step(s, 1).1 == [Send(s.clockChan), Make(Chan(s.made)), Go(WeatherMode(Chan(s.made)))]
    ensures Deliver(Step(s, 1).1, receiving) == Some({s.made})
    ensures Sound(Step(s, 1).0, {s.made})
  {
    var c := Chan(s.made);
    var actions := [Send(s.clockChan), Make(c), Go(WeatherMode(c))];
    var none: set<nat> := {};
    assert actions[1..] == [Make(c), Go(WeatherMode(c))] && actions[1..][1..] == [Go(WeatherMode(c))];
    assert actions[1..][1..][1..] == [];
    assert receiving - {s.clockChan.id} == none && none + {s.made} == {s.made};
    assert Deliver(actions[1..][1..], none) == Some({s.made});
  }

  lemma LeaveWeather(s: State, receiving: set<nat>)
    requires Sound(s, receiving) && s.mode == WEATHER
    ensures Step(s, 1).1 == [Send(s.weatherChan), Go(TestMode)]
    ensures Deliver(Step(s, 1).1, receiving) == Some({})
    ensures Sound(Step(s, 1).0, {})
  {
    var actions := [Send(s.weatherChan), Go(TestMode)];
    assert actions[1..] == [Go(TestMode)] && actions[1..][1..] == [];
    assert receiving - {s.weatherChan.id} == {};
    assert Deliver(actions[1..], {}) == Some({});
  }

  lemma LeaveTest(s: State, receiving: set<nat>)
    requires Sound(s, receiving) && s.mode == TEST
    ensures Step(s, 1).1 == [Make(Chan(s.made)), Go(ClockMode(Chan(s.made)))]
    ensures Deliver(Step(s, 1).1, receiving) == Some({s.made})
    ensures Sound(Step(s, 1).0, {s.made})
  {
    var c := Chan(s.made);
    var actions := [Make(c), Go(ClockMode(c))];
    assert actions[1..] == [Go(ClockMode(c))] && actions[1..][1..] == [];
    assert receiving + {s.made} == {s.made};
    assert Deliver(actions[1..], receiving) == Some({s.made});
  }

  function Ones(n: nat): seq<int> {
    seq(n, _ => 1)
  }

  /** Any number of presses from a sound state: every cancel goes to a live
      task listening on that channel (none is sent on a nil channel or to a
      task that has exited), and the invariant holds after every iteration. */
  lemma {:induction false} RunSound(s: State, receiving: set<nat>, n: nat)
    requires Sound(s, receiving)
    ensures var (sn, actions) := Run(s, Ones(n));
      Deliver(actions, receiving).Some? && Sound(sn, Deliver(actions, receiving).value)
    decreases n
  {
    if n > 0 {
      var (s1, a1) := Step(s, 1);
      StepSound(s, receiving);
      var r1 := Deliver(a1, receiving).value;
      assert Ones(n)[0] == 1 && Ones(n)[1..] == Ones(n - 1);
      RunSound(s1, r1, n - 1);
      DeliverAppend(a1, Run(s1, Ones(n - 1)).1, receiving);
    }
  }

  /** The program as started never sends a cancel on a nil channel or to a
      task that has exited, whatever number of presses arrive. Whether the
      cancel is taken promptly depends on the task reaching its `select`,
      which this model does not time. */
  lemma CancelsReachLiveTasks(n: nat)
    ensures Deliver(StartActions + Run(Init, Ones(n)).1, {}).Some?
  {
    InitSound();
    RunSound(Init, {0}, n);
    DeliverAppend(StartActions, Run(Init, Ones(n)).1, {});
  }

  /** The loop does rely on the listener sending 1: a value of 2 at start
      takes CLOCK straight to TEST and sends on the nil weather channel. */
  lemma TwoBlocks()
    ensures Step(Init, 2).1 == [Send(Nil), Go(TestMode)]
    ensures Deliver(Step(Init, 2).1, {0}) == None
  {
  }

  // ---------------------------------------------------------------------
  // The loop as the program runs it

  class ModeLoop {
    var mode: int
    var prevMode: int
    var clockChan: Chan
    var weatherChan: Chan
    var made: nat

    function Vars(): State
      reads this
    {
      State(mode, prevMode, clockChan, weatherChan, made)
    }

    /** The setup in `main`: clock mode, its channel made and task started. */
    constructor ()
      ensures Vars() == Init
    {
      mode, prevMode := CLOCK, CLOCK;
      clockChan, weatherChan := Chan(0), Nil;
      made := 1;
    }

    /** One iteration of the `for` loop, for the value `pressed`. */
    method Press(pressed: int) returns (actions: seq<Action>)
      modifies this
      ensures Vars() == Step(old(Vars()), pressed).0
      ensures actions == Step(old(Vars()), pressed).1
    {
      mode := GoRem3(mode + pressed);
      actions := [];
      if prevMode != mode {
        if mode == CLOCK {
          clockChan := Chan(made);
          made := made + 1;
          actions := [Make(clockChan), Go(ClockMode(clockChan))];
        } else if mode == WEATHER {
          actions := [Send(clockChan)];
          weatherChan := Chan(made);
          made := made + 1;
          actions := actions + [Make(weatherChan), Go(WeatherMode(weatherChan))];
        } else if mode == TEST {
          actions := [Send(weatherChan), Go(TestMode)];
        }
        prevMode := mode;
      }
    }

    /** The loop over a finite run of button values. */
    method Serve(presses: seq<int>) returns (actions: seq<Action>)
      requires prevMode == mode
      modifies this
      ensures (Vars(), actions) == Run(old(Vars()), presses)
    {
      actions := [];
      ghost var s0 := Vars();
      for i := 0 to |presses|
        invariant prevMode == mode
        invariant (Vars(), actions) == Run(s0, presses[..i])
      {
        RunSnoc(s0, presses[..i], presses[i]);
        assert presses[..i + 1] == presses[..i] + [presses[i]];
        var a := Press(presses[i]);
        actions := actions + a;
      }
      assert presses[..|presses|] == presses;
    }
  }

  lemma {:induction false} RunSnoc(s: State, presses: seq<int>, pressed: int)
    ensures var (sn, an) := Run(s, presses);
      Run(s, presses + [pressed]) == (Step(sn, pressed).0, an + Step(sn, pressed).1)
    decreases |presses|
  {
    if presses == [] {
      assert presses + [pressed] == [pressed];
      assert [pressed][1..] == [];
      var a := Step(s, pressed).1;
      assert a + [] == a && [] + a == a;
    } else {
      assert (presses + [pressed])[0] == presses[0];
      assert (presses + [pressed])[1..] == presses[1..] + [pressed];
      var (s1, a1) := Step(s, presses[0]);
      RunSnoc(s1, presses[1..], pressed);
      var (sn, an) := Run(s1, presses[1..]);
      assert a1 + (an + Step(sn, pressed).1) == (a1 + an) + Step(sn, pressed).1;
    }
  }
}
