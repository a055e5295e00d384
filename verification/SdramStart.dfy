/** The start-up of the memory: its commands, in their order, and the waits before and after them. */
module SdramStart {
  import opened SdramCtrl
  import opened SdramCorrect
  import opened SdramServe

  /** What the device must get before its first use. */
  const START_UP: seq<Command> :=
    [PrechargeAll, LoadMode(true), LoadMode(false), PrechargeAll, AutoRefresh, AutoRefresh]

  /** The commands of a run, without the empty ones. */
  function Issued(t: Timing, s: Regs, es: seq<Input>): seq<Command> {
    if es == [] then []
    else
      var c := CommandOf(Run(t, s, es[..|es| - 1]), es[|es| - 1]);
      Issued(t, s, es[..|es| - 1]) + if c.Nop? then [] else [c]
  }

  /** The commands of the start-up that lie behind a state. */
  function Stage(s: State): nat {
    match s
    case Init0 => 0
    case Init1 => 0
    case Init2 => 0
    case Init3 => 1
    case Init4 => 1
    case Init5 => 2
    case Init6 => 2
    case Init7 => 3
    case Init8 => 3
    case Init9 => 4
    case Init10 => 4
    case Init11 => 5
    case Init12 => 5
    case _ => 6
  }

  ghost predicate Underway(s: Regs, issued: seq<Command>) {
    if InService(s) then START_UP <= issued
    else (Early(s) || Later(s)) && issued == START_UP[..Stage(s.state)]
  }

  lemma EarlyIssues(t: Timing, s: Regs, i: Input, issued: seq<Command>)
    requires Early(s) && issued == START_UP[..Stage(s.state)]
    ensures var c := CommandOf(s, i);
      START_UP[..Stage(Step(t, s, i).state)] == issued + if c.Nop? then [] else [c]
  {
  }

  lemma LaterIssues(t: Timing, s: Regs, i: Input, issued: seq<Command>)
    requires Later(s) && issued == START_UP[..Stage(s.state)]
    ensures var c := CommandOf(s, i);
      START_UP[..Stage(Step(t, s, i).state)] == issued + if c.Nop? then [] else [c]
  {
  }

  lemma StepIssues(t: Timing, s: Regs, i: Input, issued: seq<Command>)
    requires Underway(s, issued)
    ensures var c := CommandOf(s, i); Underway(Step(t, s, i), issued + if c.Nop? then [] else [c])
  {
    if InService(s) {
      StaysInService(t, s, i);
    } else if Early(s) {
      EarlyGoesOn(t, s, i);
      EarlyIssues(t, s, i, issued);
    } else {
      LaterGoesOn(t, s, i);
      LaterIssues(t, s, i, issued);
    }
  }

  /** From reset, under any requests: until the start-up is over nothing but its commands is issued, in
      order, and all of them come before anything else. */
  lemma {:induction false} StartUpFirst(t: Timing, power: Regs, es: seq<Input>)
    ensures Underway(Run(t, Reset(t, power), es), Issued(t, Reset(t, power), es))
  {
    if es != [] {
      var init, i := es[..|es| - 1], es[|es| - 1];
      StartUpFirst(t, power, init);
      StepIssues(t, Run(t, Reset(t, power), init), i, Issued(t, Reset(t, power), init));
    }
  }

  /** The clock is not enabled before the power-up time is over, and from then on always. */
  lemma {:induction false} PowerUpTime(t: Timing, power: Regs, es: seq<Input>)
    ensures var s := Run(t, Reset(t, power), es);
      && (s.cke <==> |es| > t.powerUp) && (|es| <= t.powerUp ==> s.state.Init0? && s.counter == t.powerUp - |es|)
      && (|es| > t.powerUp ==> !s.state.Init0?)
  {
    if es != [] {
      PowerUpTime(t, power, es[..|es| - 1]);
    }
  }

  /** After the last refresh of the start-up, its time and 200 cycles more. */
  ghost predicate Settling(t: Timing, s: Regs, d: Dram) {
    s.state.Init13? ==> d.sinceRefresh + s.counter >= t.rfc + 200
  }

  lemma {:induction false} Settles(t: Timing, power: Regs, d: Dram, es: seq<Input>)
    ensures Settling(t, Run(t, Reset(t, power), es), Seen(t, Reset(t, power), d, es))
  {
    if es != [] {
      Settles(t, power, d, es[..|es| - 1]);
    }
  }

  /** The controller enters service no earlier than tRFC and 200 cycles after the last refresh. */
  lemma ServiceAfterSettling(t: Timing, power: Regs, d: Dram, es: seq<Input>, i: Input)
    requires !InService(Run(t, Reset(t, power), es)) && InService(Run(t, Reset(t, power), es + [i]))
    ensures Seen(t, Reset(t, power), d, es + [i]).sinceRefresh > t.rfc + 200
  {
    assert (es + [i])[..|es + [i]| - 1] == es;
    StartUpFirst(t, power, es);
    Settles(t, power, d, es);
    EntersFrom(t, Run(t, Reset(t, power), es), i);
  }

  lemma EntersFrom(t: Timing, s: Regs, i: Input)
    requires (Early(s) || Later(s)) && InService(Step(t, s, i))
    ensures s.state.Init13? && s.counter == 0
  {
  }
}
