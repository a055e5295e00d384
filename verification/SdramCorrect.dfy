/** The controller never gives the memory an illegal command, and never lets it wait for a refresh. */
module SdramCorrect {
  import opened SdramCtrl

  // --------------------------------------------------------- the memory

  /** One bank of the memory as the controller must respect it; nothing is known of it at power-on.
      The ages count the cycles since the last precharge and the last refresh. */
  datatype Bank = Unknown | Closed | Open(row: nat)

  datatype Dram = Dram(bank: Bank, sincePrecharge: nat, sinceRefresh: nat)

  /** When a command is allowed; `place` is the request the controller has captured. */
  predicate Allowed(t: Timing, d: Dram, c: Command, place: Place) {
    match c
    case Nop => true
    case Active(_) => d.bank.Closed? && d.sincePrecharge >= t.rp && d.sinceRefresh >= t.rfc
    case Read(col) => d.bank == Open(place.row) && col == place.col
    case Write(col) => d.bank == Open(place.row) && col == place.col
    case PrechargeAll => d.sinceRefresh >= t.rfc
    case AutoRefresh => d.bank.Closed? && d.sincePrecharge >= t.rp && d.sinceRefresh >= t.rfc
    case LoadMode(_) => d.bank.Closed? && d.sincePrecharge >= t.rp
  }

  function After(d: Dram, c: Command): Dram {
    Dram(match c
         case Active(row) => Open(row)
         case PrechargeAll => Closed
         case _ => d.bank,
         if c.PrechargeAll? then 1 else d.sincePrecharge + 1,
         if c.AutoRefresh? then 1 else d.sinceRefresh + 1)
  }

  // ---------------------------------------------------------- the invariant

  /** Precharged and refreshed long enough ago. */
  predicate Rested(t: Timing, d: Dram) {
    d.bank.Closed? && d.sincePrecharge >= t.rp && d.sinceRefresh >= t.rfc
  }

  predicate RowOpen(t: Timing, s: Regs, d: Dram) {
    d.bank == Open(s.activeRow) && d.sinceRefresh >= t.rfc
  }

  predicate Safe(t: Timing, s: Regs, d: Dram) {
    match s.state
    case Init0 => d.sinceRefresh >= t.rfc
    case Init1 => d.sinceRefresh >= t.rfc
    case Init2 => d.sinceRefresh >= t.rfc
    case Init3 => d.bank.Closed? && d.sincePrecharge + s.counter >= t.rp && d.sinceRefresh >= t.rfc
    case Init4 => Rested(t, d)
    case Init5 => Rested(t, d)
    case Init6 => Rested(t, d)
    case Init7 => Rested(t, d)
    case Init8 => Rested(t, d)
    case Init9 => d.bank.Closed? && d.sincePrecharge + s.counter >= t.rp && d.sinceRefresh >= t.rfc
    case Init10 => Rested(t, d)
    case Init11 => d.bank.Closed? && d.sincePrecharge >= t.rp && d.sinceRefresh + s.counter >= t.rfc
    case Init12 => Rested(t, d)
    case Init13 => d.bank.Closed? && d.sincePrecharge >= t.rp && d.sinceRefresh + s.counter >= t.rfc
    case Idle => d.bank.Closed? && d.sincePrecharge + 1 >= t.rp && d.sinceRefresh >= t.rfc
    case Refresh0 => Rested(t, d)
    case Refresh1 => d.bank.Closed? && d.sincePrecharge >= t.rp && d.sinceRefresh + s.counter >= t.rfc
    case PrechargeCmd => RowOpen(t, s, d)
    case PrechargeWait0 => d.bank.Closed? && d.sincePrecharge >= 1 && d.sinceRefresh >= t.rfc
    case PrechargeWait1 => d.bank.Closed? && d.sincePrecharge >= 2 && d.sinceRefresh >= t.rfc
    case ActCmd => Rested(t, d)
    case WriteCmd => RowOpen(t, s, d) && s.burst.row == s.activeRow
    case ReadCmd => RowOpen(t, s, d) && s.burst.row == s.activeRow
    case Wait0 => false
    case Wait1 => false
    case Wait2 => false
    case _ => RowOpen(t, s, d)
  }

  /** The three states between a precharge and the next command are enough for tRP. */
  predicate Sensible(t: Timing) {
    t.rp <= 4
  }

  /** Every command is allowed, for every request and address, and stays so. */
  lemma StepSafe(t: Timing, s: Regs, d: Dram, i: Input)
    requires Sensible(t) && Safe(t, s, d)
    ensures Allowed(t, d, CommandOf(s, i), s.burst)
    ensures Safe(t, Step(t, s, i), After(d, CommandOf(s, i)))
  {
  }

  // ------------------------------------------------------------ whole runs

  function Run(t: Timing, s: Regs, es: seq<Input>): Regs {
    if es == [] then s else Step(t, Run(t, s, es[..|es| - 1]), es[|es| - 1])
  }

  /** The memory after the commands of a run. */
  function Seen(t: Timing, s: Regs, d: Dram, es: seq<Input>): Dram {
    if es == [] then d
    else After(Seen(t, s, d, es[..|es| - 1]), CommandOf(Run(t, s, es[..|es| - 1]), es[|es| - 1]))
  }

  lemma {:induction false} RunSafe(t: Timing, s: Regs, d: Dram, es: seq<Input>)
    requires Sensible(t) && Safe(t, s, d)
    ensures Safe(t, Run(t, s, es), Seen(t, s, d, es))
  {
    if es != [] {
      RunSafe(t, s, d, es[..|es| - 1]);
      StepSafe(t, Run(t, s, es[..|es| - 1]), Seen(t, s, d, es[..|es| - 1]), es[|es| - 1]);
    }
  }

  /** From reset, under arbitrary requests and address changes, the next command is always legal:
      rows are opened only in a closed bank, reads and writes go to the open row with the captured
      request's row bits, refreshes and mode loads come only after a precharge of all banks, and
      tRP and tRFC are kept. */
  lemma CommandsAllowed(t: Timing, power: Regs, age: nat, es: seq<Input>, i: Input)
    requires Sensible(t) && age >= t.rfc
    ensures var s := Reset(t, power);
      Allowed(t, Seen(t, s, Dram(Unknown, age, age), es), CommandOf(Run(t, s, es), i), Run(t, s, es).burst)
  {
    var s := Reset(t, power);
    RunSafe(t, s, Dram(Unknown, age, age), es);
    StepSafe(t, Run(t, s, es), Seen(t, s, Dram(Unknown, age, age), es), i);
  }

  // ------------------------------------------------------ refresh deadline

  /** Cycles to the next refresh once the counter has run out. */
  function Tail(s: State): nat {
    match s
    case Refresh0 => 0
    case Idle => 1
    case PrechargeWait1 => 2
    case PrechargeWait0 => 3
    case PrechargeCmd => 4
    case RowActive => 5
    case ActWait => 6
    case WriteWait0 => 6
    case ReadWait0 => 6
    case ActCmd => 7
    case WriteData => 7
    case ReadData => 7
    case WriteCmd => 8
    case ReadCl2 => 8
    case ReadCl1 => 9
    case ReadCl0 => 10
    case ReadCmd => 11
    case _ => 0
  }

  /** After initialisation, between one refresh and the next. */
  predicate Between(s: State) {
    s.Refresh1? || s.Idle? || s.PrechargeCmd? || s.PrechargeWait0? || s.PrechargeWait1?
    || s.ActCmd? || s.ActWait? || s.RowActive? || s.WriteCmd? || s.WriteData? || s.WriteWait0?
    || s.ReadCmd? || s.ReadCl0? || s.ReadCl1? || s.ReadCl2? || s.ReadData? || s.ReadWait0?
  }

  /** An upper bound on the cycles to the next refresh. */
  function Rank(t: Timing, s: Regs): nat {
    if s.state.Refresh1? then s.counter + t.refi + 12
    else if s.counter > 0 then s.counter + 11
    else Tail(s.state)
  }

  lemma RankFalls(t: Timing, s: Regs, i: Input)
    requires Between(s.state)
    ensures var n := Step(t, s, i);
      n.state.Refresh0? || (Between(n.state) && Rank(t, n) < Rank(t, s))
  {
  }

  /** Whether a run comes to a refresh. */
  predicate Refreshes(t: Timing, s: Regs, es: seq<Input>) {
    es != [] && (Refreshes(t, s, es[..|es| - 1]) || Run(t, s, es).state.Refresh0?)
  }

  lemma {:induction false} RankOfRun(t: Timing, s: Regs, es: seq<Input>)
    requires s.state.Refresh0? && es != [] && !Refreshes(t, s, es)
    ensures Between(Run(t, s, es).state) && Rank(t, Run(t, s, es)) + |es| <= t.rfc + t.refi + 13
    decreases |es|
  {
    var init, i := es[..|es| - 1], es[|es| - 1];
    if init == [] {
      assert Run(t, s, es) == Step(t, s, i);
    } else {
      RankOfRun(t, s, init);
      RankFalls(t, Run(t, s, init), i);
    }
  }

  /** After a refresh the next one follows within tREFI + tRFC + 13 cycles, whatever the requests do:
      a run without one is shorter. */
  lemma RefreshDeadline(t: Timing, s: Regs, es: seq<Input>)
    requires s.state.Refresh0? && !Refreshes(t, s, es)
    ensures |es| < t.refi + t.rfc + 13
  {
    if es != [] {
      RankOfRun(t, s, es);
    }
  }

  // --------------------------------------------- the deadline is attained

  const QUIET := Input(false, false, false, Place(0, 0))
  const OPEN := Input(true, true, false, Place(0, 0))
  const READ := Input(false, true, false, Place(0, 0))

  /** A run from a refresh that has not come to the next one. */
  ghost predicate Reaches(t: Timing, s: Regs, es: seq<Input>, n: nat, state: State, counter: nat) {
    && |es| == n && !Refreshes(t, s, es)
    && Run(t, s, es).state == state && Run(t, s, es).counter == counter
  }

  lemma Extend(t: Timing, s: Regs, es: seq<Input>, i: Input)
    ensures Run(t, s, es + [i]) == Step(t, Run(t, s, es), i)
    ensures Refreshes(t, s, es + [i]) <==> Refreshes(t, s, es) || Step(t, Run(t, s, es), i).state.Refresh0?
  {
    assert (es + [i])[..|es + [i]| - 1] == es;
  }

  lemma ReachesMore(t: Timing, s: Regs, es: seq<Input>, n: nat, state: State, counter: nat, i: Input)
    requires Reaches(t, s, es, n, state, counter) && !Step(t, Run(t, s, es), i).state.Refresh0?
    ensures var r := Step(t, Run(t, s, es), i); Reaches(t, s, es + [i], n + 1, r.state, r.counter)
  {
    Extend(t, s, es, i);
  }

  lemma RefreshCycle(t: Timing, r: Regs)
    ensures r.state.Refresh0? ==> var q := Step(t, r, QUIET); q.state.Refresh1? && q.counter == t.rfc
    ensures r.state.Refresh1? && r.counter > 0 ==>
      var q := Step(t, r, QUIET); q.state.Refresh1? && q.counter == r.counter - 1
    ensures r.state.Refresh1? && r.counter == 0 ==> var q := Step(t, r, QUIET); q.state.Idle? && q.counter == t.refi
  {
  }

  lemma IdleCycle(t: Timing, r: Regs)
    requires r.state.Idle? && r.counter > 0
    ensures var q := Step(t, r, QUIET); q.state.Idle? && q.counter == r.counter - 1
  {
  }

  lemma {:induction false} Waits(t: Timing, s: Regs, n: nat) returns (es: seq<Input>)
    requires s.state.Refresh0? && n <= t.rfc
    ensures Reaches(t, s, es, n + 1, Refresh1, t.rfc - n)
    decreases n
  {
    var init := [];
    if n == 0 {
      assert Reaches(t, s, [], 0, Refresh0, s.counter);
      RefreshCycle(t, s);
      ReachesMore(t, s, [], 0, Refresh0, s.counter, QUIET);
    } else {
      init := Waits(t, s, n - 1);
      RefreshCycle(t, Run(t, s, init));
      ReachesMore(t, s, init, n, Refresh1, t.rfc - (n - 1), QUIET);
    }
    es := init + [QUIET];
  }

  lemma {:induction false} Idles(t: Timing, s: Regs, n: nat) returns (es: seq<Input>)
    requires s.state.Refresh0? && n < t.refi
    ensures Reaches(t, s, es, t.rfc + 2 + n, Idle, t.refi - n)
    decreases n
  {
    var init;
    if n == 0 {
      init := Waits(t, s, t.rfc);
      RefreshCycle(t, Run(t, s, init));
      ReachesMore(t, s, init, t.rfc + 1, Refresh1, 0, QUIET);
    } else {
      init := Idles(t, s, n - 1);
      IdleCycle(t, Run(t, s, init));
      ReachesMore(t, s, init, t.rfc + 1 + n, Idle, t.refi - (n - 1), QUIET);
    }
    es := init + [QUIET];
  }

  /** Four cycles from idle to the read command. */
  lemma FourSteps(t: Timing, r: Regs)
    requires r.state.Idle? && r.counter == 4
    ensures var a := Step(t, r, OPEN); var b := Step(t, a, READ); var c := Step(t, b, READ); var d := Step(t, c, READ);
      && a.state.ActCmd? && b.state.ActWait? && c.state.RowActive? && d.state.ReadCmd? && d.counter == 0
  {
  }

  /** A read whose command goes out in the very cycle in which the counter runs out. */
  lemma ReadsLate(t: Timing, s: Regs) returns (es: seq<Input>)
    requires s.state.Refresh0? && t.refi >= 5
    ensures Reaches(t, s, es, t.rfc + t.refi + 2, ReadCmd, 0)
  {
    var i := Idles(t, s, t.refi - 4);
    FourSteps(t, Run(t, s, i));
    Extend(t, s, i, OPEN);
    Extend(t, s, i + [OPEN], READ);
    Extend(t, s, i + [OPEN] + [READ], READ);
    Extend(t, s, i + [OPEN] + [READ] + [READ], READ);
    es := i + [OPEN] + [READ] + [READ] + [READ];
  }

  lemma {:induction false} RunsOut(t: Timing, s: Regs, es: seq<Input>, n: nat) returns (more: seq<Input>)
    requires Reaches(t, s, es, |es|, Run(t, s, es).state, 0) && Between(Run(t, s, es).state)
    requires !Run(t, s, es).state.Refresh1? && n < Tail(Run(t, s, es).state)
    ensures |more| == |es| + n && !Refreshes(t, s, more)
    decreases n
  {
    more := es;
    if n > 0 {
      Extend(t, s, es, QUIET);
      more := RunsOut(t, s, es + [QUIET], n - 1);
    }
  }

  /** The bound is exact: some requests hold the next refresh off for tREFI + tRFC + 12 cycles. */
  lemma DeadlineAttained(t: Timing, s: Regs) returns (es: seq<Input>)
    requires s.state.Refresh0? && t.refi >= 5
    ensures |es| == t.refi + t.rfc + 12 && !Refreshes(t, s, es)
  {
    var late := ReadsLate(t, s);
    es := RunsOut(t, s, late, 10);
  }
}
