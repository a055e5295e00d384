/** The controller answers: every request is served in bounded time, with the command it asks for. */
module SdramServe {
  import opened SdramCtrl
  import opened SdramCorrect

  // ------------------------------------------------ commands and captures

  /** A read or a write is on the pins exactly in the cycle after a request was captured: a write if one
      was asked for, also beside a read, and a read if only that was; of the column and in the open row
      of the address that stood there. */
  lemma CommandsAnswer(t: Timing, s: Regs, i: Input, j: Input)
    ensures var n := Step(t, s, i); var c := CommandOf(n, j);
      && (c.Write? <==> Captures(s, i) && i.writeReq)
      && (c.Read? <==> Captures(s, i) && i.readReq && !i.writeReq)
      && (c.Write? ==> c.col == i.addr.col && n.activeRow == i.addr.row)
      && (c.Read? ==> c.col == i.addr.col && n.activeRow == i.addr.row)
  {
  }

  /** A captured write is acknowledged in the cycle of its command and the next, whatever the inputs, and
      the row is open for the next request two cycles later. */
  lemma WriteAcknowledged(t: Timing, s: Regs, i: Input, a: Input, b: Input, c: Input)
    requires Captures(s, i) && i.writeReq
    ensures var n1 := Step(t, s, i); var n2 := Step(t, n1, a); var n3 := Step(t, n2, b); var n4 := Step(t, n3, c);
      && WriteAck(n1) && WriteAck(n2) && !WriteAck(n3) && n4.state.RowActive? && !WriteAck(n4)
      && !ReadAck(n1) && !ReadAck(n2) && !ReadAck(n3) && !ReadAck(n4)
  {
  }

  /** A read takes its course whatever the inputs. */
  lemma ReadMoves(t: Timing, s: Regs, i: Input)
    ensures var n := Step(t, s, i).state;
      && (s.state.ReadCmd? ==> n.ReadCl0?) && (s.state.ReadCl0? ==> n.ReadCl1?) && (s.state.ReadCl1? ==> n.ReadCl2?)
      && (s.state.ReadCl2? ==> n.ReadData?) && (s.state.ReadData? ==> n.ReadWait0?)
      && (s.state.ReadWait0? ==> n.RowActive?)
  {
  }

  lemma ReadStarts(t: Timing, s: Regs, i: Input)
    requires Captures(s, i) && !i.writeReq
    ensures Step(t, s, i).state.ReadCmd?
  {
  }

  /** A captured read is acknowledged in the fifth and sixth cycle from then on. */
  lemma ReadAcknowledged(
      t: Timing, s: Regs, i: Input, a: Input, b: Input, c: Input, d: Input, e: Input, f: Input)
    requires Captures(s, i) && !i.writeReq
    ensures var n1 := Step(t, s, i); var n2 := Step(t, n1, a); var n3 := Step(t, n2, b); var n4 := Step(t, n3, c);
      var n5 := Step(t, n4, d); var n6 := Step(t, n5, e); var n7 := Step(t, n6, f);
      && !ReadAck(n1) && !ReadAck(n2) && !ReadAck(n3) && !ReadAck(n4) && ReadAck(n5) && ReadAck(n6)
      && n7.state.RowActive? && !ReadAck(n7)
      && !WriteAck(n1) && !WriteAck(n2) && !WriteAck(n3) && !WriteAck(n4) && !WriteAck(n5) && !WriteAck(n6)
  {
    ReadStarts(t, s, i);
    var n1 := Step(t, s, i);
    ReadMoves(t, n1, a);
    var n2 := Step(t, n1, a);
    ReadMoves(t, n2, b);
    var n3 := Step(t, n2, b);
    ReadMoves(t, n3, c);
    var n4 := Step(t, n3, c);
    ReadMoves(t, n4, d);
    ReadMoves(t, Step(t, n4, d), e);
    ReadMoves(t, Step(t, Step(t, n4, d), e), f);
  }

  /** Nothing else is acknowledged. */
  lemma AcksAnswer(t: Timing, s: Regs, i: Input)
    ensures WriteAck(Step(t, s, i)) <==> (Captures(s, i) && i.writeReq) || s.state.WriteCmd?
    ensures ReadAck(Step(t, s, i)) <==> s.state.ReadCl2? || s.state.ReadData?
  {
  }

  // ----------------------------------------------------- the way to a capture

  /** After initialisation. */
  predicate InService(s: Regs) {
    Between(s.state) || s.state.Refresh0?
  }

  /** A request that is held, while even and odd cycles alternate. */
  predicate Held(i: Input, j: Input) {
    i.readReq == j.readReq && i.writeReq == j.writeReq && i.addr == j.addr && i.odd != j.odd
  }

  predicate Requests(i: Input) {
    i.readReq || i.writeReq
  }

  predicate AllHeld(es: seq<Input>) {
    && (forall k: nat :: k < |es| ==> Requests(es[k]))
    && (forall k: nat :: k + 1 < |es| ==> Held(es[k], es[k + 1]))
  }

  /** Cycles to the capture from the idle state, and from an open row of this or another address. */
  function IdleWait(odd: bool): nat {
    if odd then 3 else 4
  }

  function RowWait(conflict: bool, odd: bool): nat {
    if conflict then 4 + IdleWait(odd) else if odd then 1 else 0
  }

  /** The cycles to the capture, as long as the refresh counter does not run out. */
  function Direct(s: Regs, i: Input): nat {
    var other := s.activeRow != i.addr.row;
    match s.state
    case Idle => IdleWait(i.odd)
    case PrechargeCmd => 3 + IdleWait(!i.odd)
    case PrechargeWait0 => 2 + IdleWait(i.odd)
    case PrechargeWait1 => 1 + IdleWait(!i.odd)
    case ActCmd => 2 + RowWait(false, i.odd)
    case ActWait => 1 + RowWait(other, !i.odd)
    case RowActive => RowWait(other, i.odd)
    case WriteCmd => 3 + RowWait(other, !i.odd)
    case WriteData => 2 + RowWait(other, i.odd)
    case WriteWait0 => 1 + RowWait(other, !i.odd)
    case ReadCmd => 6 + RowWait(other, i.odd)
    case ReadCl0 => 5 + RowWait(other, !i.odd)
    case ReadCl1 => 4 + RowWait(other, i.odd)
    case ReadCl2 => 3 + RowWait(other, !i.odd)
    case ReadData => 2 + RowWait(other, i.odd)
    case ReadWait0 => 1 + RowWait(other, !i.odd)
    case _ => 0
  }

  /** A bound on the cycles to the capture: a refresh can come between once. */
  function Bound(t: Timing, s: Regs, i: Input): nat {
    if s.state.Refresh1? then s.counter + 5
    else if s.state.Refresh0? then t.rfc + 6
    else if s.counter > Direct(s, i) then Direct(s, i)
    else if s.counter == 0 then Tail(s.state) + t.rfc + 6
    else Direct(s, i) + t.rfc + 17
  }

  /** In service, between refreshes. */
  predicate Serving(s: Regs) {
    Between(s.state) && !s.state.Refresh1?
  }

  predicate Reading(s: Regs) {
    s.state.ReadCmd? || s.state.ReadCl0? || s.state.ReadCl1? || s.state.ReadCl2? || s.state.ReadData?
    || s.state.ReadWait0?
  }

  /** The cycles a read still takes. */
  function ReadLeft(s: State): nat {
    match s
    case ReadCmd => 6
    case ReadCl0 => 5
    case ReadCl1 => 4
    case ReadCl2 => 3
    case ReadData => 2
    case _ => 1
  }

  lemma DirectReading(s: Regs, i: Input)
    requires Reading(s)
    ensures Direct(s, i)
      == ReadLeft(s.state) + RowWait(s.activeRow != i.addr.row, if ReadLeft(s.state) % 2 == 0 then i.odd else !i.odd)
  {
  }

  lemma ReadLeftFalls(t: Timing, s: Regs, i: Input)
    requires Reading(s)
    ensures var n := Step(t, s, i);
      && n.activeRow == s.activeRow
      && (if ReadLeft(s.state) == 1 then n.state.RowActive?
          else Reading(n) && ReadLeft(n.state) == ReadLeft(s.state) - 1)
  {
    ReadMoves(t, s, i);
  }

  lemma ReadingFalls(t: Timing, s: Regs, i: Input, j: Input)
    requires Reading(s) && Held(i, j)
    ensures var n := Step(t, s, i); Serving(n) && Direct(n, j) < Direct(s, i)
  {
    DirectReading(s, i);
    ReadLeftFalls(t, s, i);
    if Reading(Step(t, s, i)) {
      DirectReading(Step(t, s, i), j);
    }
  }

  lemma DirectFalls(t: Timing, s: Regs, i: Input, j: Input)
    requires Serving(s) && !Reading(s) && s.counter > 0 && Requests(i) && Held(i, j) && !Captures(s, i)
    ensures var n := Step(t, s, i); Serving(n) && Direct(n, j) < Direct(s, i)
  {
  }

  lemma TailFalls(t: Timing, s: Regs, i: Input)
    requires Serving(s) && s.counter == 0
    ensures var n := Step(t, s, i);
      n.state.Refresh0? || (Serving(n) && n.counter == 0 && Tail(n.state) < Tail(s.state))
  {
  }

  lemma CounterFalls(t: Timing, s: Regs, i: Input)
    requires Serving(s)
    ensures Step(t, s, i).counter == if s.counter > 0 then s.counter - 1 else 0
    ensures 1 <= Tail(s.state) <= 11
  {
  }

  lemma RefreshPasses(t: Timing, s: Regs, i: Input, j: Input)
    requires t.refi >= 5 && (s.state.Refresh0? || s.state.Refresh1?)
    ensures InService(Step(t, s, i)) && Bound(t, Step(t, s, i), j) < Bound(t, s, i)
  {
  }

  lemma ServingFalls(t: Timing, s: Regs, n: Regs, i: Input, j: Input)
    requires Serving(s) && Serving(n) && s.counter > 0 && n.counter == s.counter - 1
    requires Direct(n, j) < Direct(s, i) && Tail(n.state) <= 11
    ensures Bound(t, n, j) < Bound(t, s, i)
  {
  }

  lemma BoundFalls(t: Timing, s: Regs, i: Input, j: Input)
    requires t.refi >= 5 && InService(s) && Requests(i) && Held(i, j) && !Captures(s, i)
    ensures InService(Step(t, s, i)) && Bound(t, Step(t, s, i), j) < Bound(t, s, i)
  {
    if !Serving(s) {
      RefreshPasses(t, s, i, j);
    } else {
      CounterFalls(t, s, i);
      if s.counter == 0 {
        TailFalls(t, s, i);
      } else {
        if Reading(s) {
          ReadingFalls(t, s, i, j);
        } else {
          DirectFalls(t, s, i, j);
        }
        CounterFalls(t, Step(t, s, i), i);
        ServingFalls(t, s, Step(t, s, i), i, j);
      }
    }
  }

  lemma BoundIsSmall(t: Timing, s: Regs, i: Input)
    requires InService(s) && (s.state.Refresh1? ==> s.counter <= t.rfc)
    ensures Bound(t, s, i) <= t.rfc + 31
  {
  }

  // ---------------------------------------------------------------- whole runs

  /** The request is captured in cycle `n` of a run. */
  predicate CapturedAt(t: Timing, s: Regs, es: seq<Input>, n: nat)
    requires n < |es|
  {
    Captures(Run(t, s, es[..n]), es[n])
  }

  lemma RunOneMore(t: Timing, s: Regs, es: seq<Input>, k: nat)
    requires k < |es|
    ensures Run(t, s, es[..k + 1]) == Step(t, Run(t, s, es[..k]), es[k])
  {
    assert es[..k + 1] == es[..k] + [es[k]];
    Extend(t, s, es[..k], es[k]);
  }

  lemma {:induction false} Countdown(t: Timing, s: Regs, es: seq<Input>, k: nat)
    requires t.refi >= 5 && InService(s) && AllHeld(es) && k < |es|
    requires forall n: nat :: n < k ==> !CapturedAt(t, s, es, n)
    ensures InService(Run(t, s, es[..k])) && Bound(t, Run(t, s, es[..k]), es[k]) + k <= Bound(t, s, es[0])
  {
    if k == 0 {
      assert es[..0] == [];
    } else {
      Countdown(t, s, es, k - 1);
      assert !CapturedAt(t, s, es, k - 1) && Held(es[k - 1], es[k - 1 + 1]);
      BoundFalls(t, Run(t, s, es[..k - 1]), es[k - 1], es[k]);
      RunOneMore(t, s, es, k - 1);
    }
  }

  lemma {:induction false} FindsCapture(t: Timing, s: Regs, es: seq<Input>, k: nat) returns (n: nat)
    requires t.refi >= 5 && InService(s) && AllHeld(es) && es != []
    requires |es| > Bound(t, s, es[0]) + 1 && k <= Bound(t, s, es[0])
    requires forall n: nat :: n < k ==> !CapturedAt(t, s, es, n)
    ensures n <= Bound(t, s, es[0]) && CapturedAt(t, s, es, n) && forall j: nat :: j < n ==> !CapturedAt(t, s, es, j)
    decreases Bound(t, s, es[0]) - k
  {
    if CapturedAt(t, s, es, k) {
      n := k;
    } else {
      Countdown(t, s, es, k);
      assert Held(es[k], es[k + 1]);
      BoundFalls(t, Run(t, s, es[..k]), es[k], es[k + 1]);
      n := FindsCapture(t, s, es, k + 1);
    }
  }

  /** The command on the pins in cycle `k`. */
  function CommandAt(t: Timing, s: Regs, es: seq<Input>, k: nat): Command
    requires k < |es|
  {
    CommandOf(Run(t, s, es[..k]), es[k])
  }

  predicate Transfers(c: Command) {
    c.Read? || c.Write?
  }

  /** The command a request asks for: a write goes before a read. */
  function Answer(i: Input): Command {
    if i.writeReq then Write(i.addr.col) else Read(i.addr.col)
  }

  /** In cycle `n + 1` the request is answered, with its row open, and no transfer came before. */
  ghost predicate AnsweredAt(t: Timing, s: Regs, es: seq<Input>, n: nat) {
    && n + 1 < |es|
    && CommandAt(t, s, es, n + 1) == Answer(es[0])
    && Run(t, s, es[..n + 1]).activeRow == es[0].addr.row
    && forall k: nat :: 1 <= k <= n ==> !Transfers(CommandAt(t, s, es, k))
  }

  lemma {:induction false} SameRequest(es: seq<Input>, k: nat)
    requires AllHeld(es) && k < |es|
    ensures Answer(es[k]) == Answer(es[0]) && es[k].addr == es[0].addr && es[k].writeReq == es[0].writeReq
  {
    if k > 0 {
      SameRequest(es, k - 1);
      assert Held(es[k - 1], es[k - 1 + 1]);
    }
  }

  lemma NoTransferBefore(t: Timing, s: Regs, es: seq<Input>, k: nat)
    requires 1 <= k < |es| && !CapturedAt(t, s, es, k - 1)
    ensures !Transfers(CommandAt(t, s, es, k))
  {
    RunOneMore(t, s, es, k - 1);
    CommandsAnswer(t, Run(t, s, es[..k - 1]), es[k - 1], es[k]);
  }

  /** A request that is held is answered: exactly one transfer, the one it asks for, of its column in its
      row, within the bound. */
  lemma RequestAnswered(t: Timing, s: Regs, es: seq<Input>) returns (n: nat)
    requires t.refi >= 5 && InService(s) && AllHeld(es) && es != [] && |es| > Bound(t, s, es[0]) + 1
    ensures n <= Bound(t, s, es[0]) && AnsweredAt(t, s, es, n)
  {
    n := FindsCapture(t, s, es, 0);
    RunOneMore(t, s, es, n);
    CommandsAnswer(t, Run(t, s, es[..n]), es[n], es[n + 1]);
    SameRequest(es, n);
    assert es[n].readReq || es[n].writeReq by { assert Requests(es[n]); }
    forall k: nat | 1 <= k <= n
      ensures !Transfers(CommandAt(t, s, es, k))
    {
      NoTransferBefore(t, s, es, k);
    }
  }

  /** The counter of a refresh starts from tRFC. */
  lemma {:induction false} RefreshCounts(t: Timing, power: Regs, es: seq<Input>)
    ensures var s := Run(t, Reset(t, power), es); s.state.Refresh1? ==> s.counter <= t.rfc
  {
    if es != [] {
      RefreshCounts(t, power, es[..|es| - 1]);
    }
  }

  /** From reset, after any requests: once the memory is initialised, every request that is held is
      answered within tRFC + 32 cycles, refreshes and rows of other addresses included. */
  lemma EveryRequestAnswered(t: Timing, power: Regs, before: seq<Input>, es: seq<Input>) returns (n: nat)
    requires t.refi >= 5 && InService(Run(t, Reset(t, power), before)) && AllHeld(es) && |es| == t.rfc + 33
    ensures n + 1 <= t.rfc + 32 && AnsweredAt(t, Run(t, Reset(t, power), before), es, n)
  {
    var s := Run(t, Reset(t, power), before);
    RefreshCounts(t, power, before);
    BoundIsSmall(t, s, es[0]);
    n := RequestAnswered(t, s, es);
  }

  // ------------------------------------------------------------ initialisation

  /** The cycles left of the initialisation. */
  function InitLeft(t: Timing, s: Regs): nat {
    match s.state
    case Init0 => s.counter + 2 * t.rp + 2 * t.rfc + 216
    case Init1 => 2 * t.rp + 2 * t.rfc + 215
    case Init2 => 2 * t.rp + 2 * t.rfc + 214
    case Init3 => s.counter + t.rp + 2 * t.rfc + 213
    case Init4 => t.rp + 2 * t.rfc + 212
    case Init5 => t.rp + 2 * t.rfc + 211
    case Init6 => t.rp + 2 * t.rfc + 210
    case Init7 => t.rp + 2 * t.rfc + 209
    case Init8 => t.rp + 2 * t.rfc + 208
    case Init9 => s.counter + 2 * t.rfc + 207
    case Init10 => 2 * t.rfc + 206
    case Init11 => s.counter + t.rfc + 205
    case Init12 => t.rfc + 204
    case Init13 => s.counter + 3
    case _ => 0
  }

  /** The first precharge and the mode registers; then the second precharge and the refreshes. */
  predicate Early(s: Regs) {
    s.state.Init0? || s.state.Init1? || s.state.Init2? || s.state.Init3? || s.state.Init4? || s.state.Init5?
    || s.state.Init6?
  }

  predicate Later(s: Regs) {
    s.state.Init7? || s.state.Init8? || s.state.Init9? || s.state.Init10? || s.state.Init11? || s.state.Init12?
    || s.state.Init13?
  }

  lemma EarlyGoesOn(t: Timing, s: Regs, i: Input)
    requires Early(s)
    ensures var n := Step(t, s, i); (Early(n) || Later(n)) && InitLeft(t, n) < InitLeft(t, s)
  {
  }

  lemma LaterGoesOn(t: Timing, s: Regs, i: Input)
    requires Later(s)
    ensures var n := Step(t, s, i); n.state.Idle? || (Later(n) && InitLeft(t, n) < InitLeft(t, s))
  {
  }

  lemma StaysInService(t: Timing, s: Regs, i: Input)
    requires InService(s)
    ensures InService(Step(t, s, i))
  {
  }

  lemma InitGoesOn(t: Timing, s: Regs, i: Input)
    requires InService(s) || Early(s) || Later(s)
    ensures var n := Step(t, s, i);
      InService(n) || (!InService(s) && (Early(n) || Later(n)) && InitLeft(t, n) < InitLeft(t, s))
  {
    if InService(s) {
      StaysInService(t, s, i);
    } else if Early(s) {
      EarlyGoesOn(t, s, i);
    } else {
      LaterGoesOn(t, s, i);
    }
  }

  lemma {:induction false} InitCountdown(t: Timing, power: Regs, es: seq<Input>)
    ensures var s := Run(t, Reset(t, power), es);
      InService(s) || ((Early(s) || Later(s)) && InitLeft(t, s) + |es| <= t.powerUp + 2 * t.rp + 2 * t.rfc + 216)
  {
    if es != [] {
      InitCountdown(t, power, es[..|es| - 1]);
      InitGoesOn(t, Run(t, Reset(t, power), es[..|es| - 1]), es[|es| - 1]);
    }
  }

  /** The initialisation comes to its end, and the controller stays in service from then on. */
  lemma InitialisationEnds(t: Timing, power: Regs, es: seq<Input>)
    requires |es| > t.powerUp + 2 * t.rp + 2 * t.rfc + 216
    ensures InService(Run(t, Reset(t, power), es))
  {
    InitCountdown(t, power, es);
  }
}
