/** Nothing gets stuck on the serial line: the transmitter is ready again after ten bit times, and every
    byte it took is acknowledged at the other end within a computed time. */
module UartLive {
  import opened Uart
  import opened UartLink

  /** The bit times before the transmitter is idle again, but for the one under way. */
  function BitsToCome(r: TxRegs): int {
    match r.state
    case TxIdle => 0
    case TxStart => 9
    case TxData => 8 - r.count
    case TxStop => 0
  }

  /** The cycles before it is idle again. */
  function Busy(t: Times, r: TxRegs): int {
    if r.state.TxIdle? then 0 else BitsToCome(r) * (t.full + 1) + (t.full + 1 - r.clk)
  }

  lemma OneBitLess(n: int, p: int)
    ensures (n - 1) * p + p == n * p
  {
  }

  lemma BusyFalls(t: Times, s: Sender, req: bool, data: Byte)
    requires Enough(t) && SenderOk(t, s) && !s.regs.state.TxIdle?
    ensures SenderOk(t, Send(t, s, req, data))
    ensures Busy(t, Send(t, s, req, data).regs) == Busy(t, s.regs) - 1
  {
    SendKeeps(t, s, req, data);
    if s.regs.clk == t.full && BitsToCome(s.regs) > 0 {
      OneBitLess(BitsToCome(s.regs), t.full + 1);
    }
  }

  /** The cycles before byte number `n` has certainly been heard: the rest of its frame, and then until the
      receiver has sampled the stop bit. */
  function Due(t: Times, s: Sender, n: nat): int {
    var quiet := s.regs.state.TxIdle? || s.regs.state.TxStart?;
    if |s.accepted| == n && !s.regs.state.TxIdle? then Busy(t, s.regs) + t.half + 2
    else if quiet && LineDone(s) == n && s.regs.clk < t.half + 2 then t.half + 2 - s.regs.clk
    else 0
  }

  lemma DueFalls(t: Times, s: Sender, n: nat, req: bool, data: Byte)
    requires Enough(t) && SenderOk(t, s) && n <= |s.accepted| && Due(t, s, n) > 0
    ensures SenderOk(t, Send(t, s, req, data)) && n <= |Send(t, s, req, data).accepted|
    ensures Due(t, Send(t, s, req, data), n) == Due(t, s, n) - 1
  {
    SendKeeps(t, s, req, data);
    if !s.regs.state.TxIdle? {
      BusyFalls(t, s, req, data);
    }
  }

  lemma DueIsHeard(t: Times, rx: RxRegs, s: Sender, n: nat, delivered: seq<Byte>)
    requires SenderOk(t, s) && Hears(t, rx, s, delivered) && n <= |s.accepted| && Due(t, s, n) == 0
    ensures |delivered| >= n
  {
  }

  lemma DueBound(t: Times, s: Sender, n: nat)
    requires Enough(t) && SenderOk(t, s)
    ensures 0 <= Due(t, s, n) <= 10 * (t.full + 1) + t.half + 2
  {
  }

  // ------------------------------------------------------------ whole runs

  /** The transmitter's part of a run. */
  function SendAll(t: Times, s: Sender, es: seq<Request>): Sender {
    if es == [] then s else Send(t, SendAll(t, s, es[..|es| - 1]), es[|es| - 1].req, es[|es| - 1].data)
  }

  lemma {:induction false} RunSends(t: Times, k: Link, es: seq<Request>)
    ensures Run(t, k, es).tx == SendAll(t, k.tx, es)
  {
    if es != [] {
      RunSends(t, k, es[..|es| - 1]);
    }
  }

  lemma {:induction false} BusyRuns(t: Times, s: Sender, es: seq<Request>)
    requires Enough(t) && SenderOk(t, s) && |es| <= Busy(t, s.regs)
    ensures SenderOk(t, SendAll(t, s, es)) && Busy(t, SendAll(t, s, es).regs) == Busy(t, s.regs) - |es|
  {
    if es != [] {
      var init, i := es[..|es| - 1], es[|es| - 1];
      BusyRuns(t, s, init);
      BusyFalls(t, SendAll(t, s, init), i.req, i.data);
    }
  }

  lemma {:induction false} DueRuns(t: Times, s: Sender, n: nat, es: seq<Request>)
    requires Enough(t) && SenderOk(t, s) && n <= |s.accepted| && |es| <= Due(t, s, n)
    ensures SenderOk(t, SendAll(t, s, es)) && n <= |SendAll(t, s, es).accepted|
    ensures Due(t, SendAll(t, s, es), n) == Due(t, s, n) - |es|
  {
    if es != [] {
      var init, i := es[..|es| - 1], es[|es| - 1];
      DueRuns(t, s, n, init);
      DueFalls(t, SendAll(t, s, init), n, i.req, i.data);
    }
  }

  lemma BusyBound(t: Times, s: Sender)
    requires SenderOk(t, s)
    ensures 0 <= Busy(t, s.regs) <= 10 * (t.full + 1) && (Busy(t, s.regs) == 0 <==> s.regs.state.TxIdle?)
  {
  }

  /** The link at some point of a run from reset. */
  ghost predicate Reached(t: Times, k: Link) {
    LinkOk(t, k) && k.delivered == [] && k.tx.accepted == []
  }

  /** At any point of a run the transmitter is idle after a time computed there, ten bit times at most,
      whatever it is asked for. */
  lemma ReadyAgain(t: Times, k: Link, es: seq<Request>, rest: seq<Request>)
    requires Enough(t) && Reached(t, k) && |rest| == Busy(t, Run(t, k, es).tx.regs)
    ensures |rest| <= 10 * (t.full + 1) && Run(t, k, es + rest).tx.regs.state.TxIdle?
  {
    RunKeeps(t, k, es);
    var s := Run(t, k, es).tx;
    BusyBound(t, s);
    BusyRuns(t, s, rest);
    BusyBound(t, SendAll(t, s, rest));
    RunSends(t, Run(t, k, es), rest);
    RunAppend(t, k, es, rest);
  }

  lemma {:induction false} RunAppend(t: Times, k: Link, a: seq<Request>, b: seq<Request>)
    ensures Run(t, k, a + b) == Run(t, Run(t, k, a), b)
    decreases |b|
  {
    if b == [] {
      assert a + b == a;
    } else {
      assert (a + b)[..|a + b| - 1] == a + b[..|b| - 1];
      RunAppend(t, k, a, b[..|b| - 1]);
    }
  }

  lemma {:induction false} HistoriesGrow(t: Times, k: Link, a: seq<Request>, b: seq<Request>)
    ensures Acknowledged(t, k, a) <= Acknowledged(t, k, a + b) && Accepted(t, k, a) <= Accepted(t, k, a + b)
    decreases |b|
  {
    if b == [] {
      assert a + b == a;
    } else {
      assert (a + b)[..|a + b| - 1] == a + b[..|b| - 1];
      HistoriesGrow(t, k, a, b[..|b| - 1]);
    }
  }

  lemma SenderReached(t: Times, k: Link, es: seq<Request>)
    requires Enough(t) && Reached(t, k)
    ensures SenderOk(t, Run(t, k, es).tx) && Run(t, k, es).tx.accepted == Accepted(t, k, es)
  {
    RunKeeps(t, k, es);
    Histories(t, k, es);
  }

  lemma ReceiverReached(t: Times, k: Link, es: seq<Request>)
    requires Enough(t) && Reached(t, k)
    ensures var at := Run(t, k, es); Hears(t, at.rx, at.d3, Acknowledged(t, k, es))
  {
    RunKeeps(t, k, es);
    Histories(t, k, es);
  }

  lemma HeardFrom(t: Times, k: Link, es: seq<Request>, last: seq<Request>)
    requires |last| == 3
    ensures Run(t, k, es + last).d3 == Run(t, k, es).tx
  {
    ThreeAgo(t, k, es + last);
    assert (es + last)[..|es + last| - 3] == es;
  }

  /** Three cycles after the time computed, the receiver has acknowledged `n` bytes. */
  lemma HeardInTime(t: Times, k: Link, es: seq<Request>, n: nat, early: seq<Request>, last: seq<Request>)
    requires Enough(t) && Reached(t, k) && n <= |Accepted(t, k, es)|
    requires |early| == Due(t, Run(t, k, es).tx, n) && |last| == 3
    ensures |Acknowledged(t, k, es + early + last)| >= n
  {
    SenderReached(t, k, es);
    DueRuns(t, Run(t, k, es).tx, n, early);
    RunSends(t, Run(t, k, es), early);
    RunAppend(t, k, es, early);
    HeardFrom(t, k, es + early, last);
    ReceiverReached(t, k, es + early + last);
    var at := Run(t, k, es + early + last);
    DueIsHeard(t, at.rx, at.d3, n, Acknowledged(t, k, es + early + last));
  }

  lemma ThreeParts(es: seq<Request>, rest: seq<Request>, due: nat)
      returns (a: seq<Request>, b: seq<Request>, c: seq<Request>)
    requires due + 3 <= |rest|
    ensures es + rest == es + a + b + c && |a| == due && |b| == 3
  {
    a, b, c := rest[..due], rest[due..due + 3], rest[due + 3..];
  }

  lemma EnoughTime(t: Times, k: Link, es: seq<Request>, n: nat) returns (due: nat)
    requires Enough(t) && Reached(t, k)
    ensures due == Due(t, Run(t, k, es).tx, n) && due <= 10 * (t.full + 1) + t.half + 2
  {
    SenderReached(t, k, es);
    DueBound(t, Run(t, k, es).tx, n);
    due := Due(t, Run(t, k, es).tx, n);
  }

  lemma TakenInTime(t: Times, k: Link, es: seq<Request>, n: nat, rest: seq<Request>)
    requires Enough(t) && Reached(t, k) && n <= |Accepted(t, k, es)| && |rest| >= 10 * (t.full + 1) + t.half + 5
    ensures |Acknowledged(t, k, es + rest)| >= n
  {
    var due := EnoughTime(t, k, es, n);
    var early, last, more := ThreeParts(es, rest, due);
    HeardInTime(t, k, es, n, early, last);
    HistoriesGrow(t, k, es + early + last, more);
  }

  lemma OfferTaken(t: Times, k: Link, es: seq<Request>, offer: Request)
    requires Run(t, k, es).tx.regs.state.TxIdle? && offer.req
    ensures Accepted(t, k, es + [offer]) == Accepted(t, k, es) + [offer.data]
  {
    assert (es + [offer])[..|es + [offer]| - 1] == es;
  }

  lemma PrefixAt(a: seq<Byte>, b: seq<Byte>, c: seq<Byte>, x: Byte)
    requires a + [x] <= b && c <= b && |c| > |a|
    ensures c[|a|] == x
  {
    assert b[|a|] == (a + [x])[|a|] && c[|a|] == b[|a|];
  }

  /** A byte offered to an idle transmitter is taken at once; ten bit times, half of one and five cycles later
      it has been acknowledged at the other end, in its place, whatever was asked for in the meantime. */
  lemma ByteAcknowledged(t: Times, s: TxRegs, r: RxRegs, reset: seq<Request>, es: seq<Request>, offer: Request,
                         rest: seq<Request>)
    requires Enough(t) && |reset| >= 4 && |rest| >= 10 * (t.full + 1) + t.half + 5
    requires Run(t, LinkAfterReset(t, s, r, reset), es).tx.regs.state.TxIdle? && offer.req
    ensures var k := LinkAfterReset(t, s, r, reset);
      var n, acknowledged := |Accepted(t, k, es)|, Acknowledged(t, k, es + [offer] + rest);
      |acknowledged| > n && acknowledged[n] == offer.data
  {
    var k, taken := LinkAfterReset(t, s, r, reset), es + [offer];
    ResetLinks(t, s, r, reset);
    OfferTaken(t, k, es, offer);
    TakenInTime(t, k, taken, |Accepted(t, k, taken)|, rest);
    BytesArrive(t, s, r, reset, taken + rest);
    HistoriesGrow(t, k, taken, rest);
    PrefixAt(Accepted(t, k, es), Accepted(t, k, taken + rest), Acknowledged(t, k, taken + rest), offer.data);
  }
}
