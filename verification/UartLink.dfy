/** Transmitter and receiver with the same bit times, wired together: what is accepted at one end
    arrives at the other. */
module UartLink {
  import opened Uart

  // ------------------------------------------------------ the sending side

  /** The transmitter and all the bytes it has accepted. */
  datatype Sender = Sender(regs: TxRegs, accepted: seq<Byte>)

  /** The bits of a byte from bit `k` on are at the front of the shift register. */
  predicate AtFront(shift: Byte, b: Byte, k: nat) {
    k <= 8 && shift[..8 - k] == b[k..]
  }

  ghost predicate SenderOk(t: Times, s: Sender) {
    var r, a := s.regs, s.accepted;
    && r.clk <= t.full
    && (!r.state.TxIdle? ==> a != [])
    && match r.state
       case TxIdle => r.line && r.count == 0
       case TxStart => r.line && r.count == 0 && r.shift == a[|a| - 1]
       case TxData => r.count < 8 && AtFront(r.shift, a[|a| - 1], r.count)
                      && (r.line <==> r.count > 0 && a[|a| - 1][r.count - 1])
       case TxStop => r.count == 0 && r.line == a[|a| - 1][7]
  }

  /** One cycle without reset, with `req` and `data` at the input. */
  function Send(t: Times, s: Sender, req: bool, data: Byte): Sender {
    Sender(TxStep(t, s.regs, TxInput(false, req, data)),
           if req && s.regs.state.TxIdle? then s.accepted + [data] else s.accepted)
  }

  lemma ShiftedFront(shift: Byte, b: Byte, k: nat)
    requires k < 8 && AtFront(shift, b, k)
    ensures shift[0] == b[k] && AtFront(Shift(shift, false), b, k + 1)
  {
    assert shift[0] == shift[..8 - k][0] == b[k..][0];
    assert shift[1..][..7 - k] == shift[..8 - k][1..] == b[k..][1..] == b[k + 1..];
    assert Shift(shift, false)[..7 - k] == shift[1..][..7 - k];
  }

  lemma SendData(t: Times, s: Sender, req: bool, data: Byte)
    requires t.Valid() && SenderOk(t, s) && s.regs.state.TxData? && s.regs.clk == t.full
    ensures SenderOk(t, Send(t, s, req, data))
  {
    ShiftedFront(s.regs.shift, s.accepted[|s.accepted| - 1], s.regs.count);
  }

  lemma SendKeeps(t: Times, s: Sender, req: bool, data: Byte)
    requires t.Valid() && SenderOk(t, s)
    ensures SenderOk(t, Send(t, s, req, data))
  {
    if s.regs.state.TxData? && s.regs.clk == t.full {
      SendData(t, s, req, data);
    } else if s.regs.state.TxStart? {
      assert s.regs.shift[..8] == s.regs.shift;
    }
  }

  // ---------------------------------------------------- the receiving side

  /** The last `n` bits shifted in are the first `n` of the byte. */
  predicate AtBack(shift: Byte, b: Byte, n: nat) {
    n <= 8 && shift[8 - n..] == b[..n]
  }

  /** Bytes whose eight data bits have been on the line. */
  function LineDone(s: Sender): int {
    if s.regs.state.TxIdle? then |s.accepted| else |s.accepted| - 1
  }

  /** How the receiver stands when the line, as it hears it, is where `s` was: it samples every bit
      `half` cycles into it. */
  ghost predicate Hears(t: Times, rx: RxRegs, s: Sender, delivered: seq<Byte>) {
    var c, k, n := s.regs.clk, s.regs.count, LineDone(s);
    match s.regs.state
    case TxData =>
      && n >= 0 && delivered == s.accepted[..n]
      && if k == 0 then
           && rx.count == 0
           && if c <= t.half then rx.state.RxStart? && rx.clk == t.half - c
              else rx.state.RxData? && rx.clk == t.half + t.full + 1 - c
         else
           && rx.state.RxData?
           && if c <= t.half then rx.count == k - 1 && rx.clk == t.half - c && AtBack(rx.shift, s.accepted[n], k - 1)
              else rx.count == k && rx.clk == t.half + t.full + 1 - c && AtBack(rx.shift, s.accepted[n], k)
    case TxStop =>
      && n >= 0 && delivered == s.accepted[..n]
      && if c <= t.half then
           rx.state.RxData? && rx.count == 7 && rx.clk == t.half - c && AtBack(rx.shift, s.accepted[n], 7)
         else
           rx.state.RxStop? && rx.count == 0 && rx.clk == t.half + t.full + 1 - c && rx.shift == s.accepted[n]
    case _ =>
      && n >= 0 && rx.count == 0
      && if rx.state.RxIdle? then delivered == s.accepted[..n]
         else
           && n >= 1 && delivered == s.accepted[..n - 1] && rx.shift == s.accepted[n - 1]
           && if rx.state.RxStop? then c <= t.half && rx.clk == t.half - c
              else rx.state.RxRecvd? && c == t.half + 1
  }

  function Delivered(rx: RxRegs, delivered: seq<Byte>): seq<Byte> {
    if Ack(rx) then delivered + [rx.shift] else delivered
  }

  lemma ShiftedBack(shift: Byte, b: Byte, n: nat)
    requires n < 8 && AtBack(shift, b, n)
    ensures AtBack(Shift(shift, b[n]), b, n + 1)
    ensures n == 7 ==> Shift(shift, b[n]) == b
  {
    var s := Shift(shift, b[n]);
    assert s[8 - (n + 1)..] == shift[8 - n..] + [b[n]];
    assert b[..n + 1] == b[..n] + [b[n]];
    if n == 7 {
      assert s[0..] == s && b[..8] == b;
    }
  }

  /** The bit times leave the receiver two cycles to get back to idle. */
  predicate Enough(t: Times) {
    t.half + 2 <= t.full < 0x1_0000
  }

  /** In the start bit. */
  lemma HearsStart(t: Times, rx: RxRegs, s: Sender, req: bool, data: Byte, delivered: seq<Byte>, line: bool)
    requires Enough(t) && SenderOk(t, s) && Hears(t, rx, s, delivered)
    requires s.regs.state.TxData? && s.regs.count == 0 && rx.flops.l3 == s.regs.line
    ensures Hears(t, RxStep(t, rx, false, line), Send(t, s, req, data), Delivered(rx, delivered))
  {
  }

  /** At the end of a data bit but the last. */
  lemma HearsEnd(t: Times, rx: RxRegs, s: Sender, req: bool, data: Byte, delivered: seq<Byte>, line: bool)
    requires Enough(t) && SenderOk(t, s) && Hears(t, rx, s, delivered)
    requires s.regs.state.TxData? && s.regs.count > 0 && s.regs.clk == t.full
    ensures Hears(t, RxStep(t, rx, false, line), Send(t, s, req, data), Delivered(rx, delivered))
  {
  }

  /** Inside a data bit but the last, and not where it is sampled. */
  lemma HearsRest(t: Times, rx: RxRegs, s: Sender, req: bool, data: Byte, delivered: seq<Byte>, line: bool)
    requires Enough(t) && SenderOk(t, s) && Hears(t, rx, s, delivered)
    requires s.regs.state.TxData? && s.regs.count > 0 && s.regs.clk != t.half && s.regs.clk != t.full
    ensures Hears(t, RxStep(t, rx, false, line), Send(t, s, req, data), Delivered(rx, delivered))
  {
  }

  lemma HearsSample(t: Times, rx: RxRegs, s: Sender, req: bool, data: Byte, delivered: seq<Byte>, line: bool)
    requires Enough(t) && SenderOk(t, s) && Hears(t, rx, s, delivered)
    requires s.regs.state.TxData? && s.regs.count > 0 && s.regs.clk == t.half && rx.flops.l3 == s.regs.line
    ensures Hears(t, RxStep(t, rx, false, line), Send(t, s, req, data), Delivered(rx, delivered))
  {
    ShiftedBack(rx.shift, s.accepted[|s.accepted| - 1], s.regs.count - 1);
  }

  /** In the last data bit. */
  lemma HearsLast(t: Times, rx: RxRegs, s: Sender, req: bool, data: Byte, delivered: seq<Byte>, line: bool)
    requires Enough(t) && SenderOk(t, s) && Hears(t, rx, s, delivered)
    requires s.regs.state.TxStop? && rx.flops.l3 == s.regs.line
    ensures Hears(t, RxStep(t, rx, false, line), Send(t, s, req, data), Delivered(rx, delivered))
  {
    if s.regs.clk == t.half {
      ShiftedBack(rx.shift, s.accepted[|s.accepted| - 1], 7);
    }
  }

  lemma HearsQuiet(t: Times, rx: RxRegs, s: Sender, req: bool, data: Byte, delivered: seq<Byte>, line: bool)
    requires Enough(t) && SenderOk(t, s) && Hears(t, rx, s, delivered)
    requires s.regs.state.TxIdle? || s.regs.state.TxStart?
    requires rx.flops.l3 == s.regs.line && rx.flops.l2 == Send(t, s, req, data).regs.line
    ensures Hears(t, RxStep(t, rx, false, line), Send(t, s, req, data), Delivered(rx, delivered))
  {
    var n, a := LineDone(s), s.accepted;
    if n >= 1 {
      assert a[..n] == a[..n - 1] + [a[n - 1]];
    }
    if req && s.regs.state.TxIdle? {
      assert (a + [data])[..n] == a[..n];
      assert n >= 1 ==> (a + [data])[..n - 1] == a[..n - 1];
    }
  }

  lemma HearsOn(t: Times, rx: RxRegs, s: Sender, req: bool, data: Byte, delivered: seq<Byte>, line: bool)
    requires Enough(t) && SenderOk(t, s) && Hears(t, rx, s, delivered)
    requires rx.flops.l3 == s.regs.line && rx.flops.l2 == Send(t, s, req, data).regs.line
    ensures Hears(t, RxStep(t, rx, false, line), Send(t, s, req, data), Delivered(rx, delivered))
  {
    if s.regs.state.TxIdle? || s.regs.state.TxStart? {
      HearsQuiet(t, rx, s, req, data, delivered, line);
    } else if s.regs.state.TxStop? {
      HearsLast(t, rx, s, req, data, delivered, line);
    } else if s.regs.count == 0 {
      HearsStart(t, rx, s, req, data, delivered, line);
    } else if s.regs.clk == t.half {
      HearsSample(t, rx, s, req, data, delivered, line);
    } else if s.regs.clk == t.full {
      HearsEnd(t, rx, s, req, data, delivered, line);
    } else {
      HearsRest(t, rx, s, req, data, delivered, line);
    }
  }

  // ---------------------------------------------------------- the two ends

  /** Both ends, the sender as it was one, two and three cycles ago, and what has arrived. */
  datatype Link = Link(tx: Sender, d1: Sender, d2: Sender, d3: Sender, rx: RxRegs, delivered: seq<Byte>)

  datatype Request = Request(req: bool, data: Byte)

  function LinkStep(t: Times, k: Link, i: Request): Link {
    Link(Send(t, k.tx, i.req, i.data), k.tx, k.d1, k.d2,
         RxStep(t, k.rx, false, k.tx.regs.line), Delivered(k.rx, k.delivered))
  }

  /** One cycle apart, or both as the reset left them. */
  ghost predicate Follows(t: Times, a: Sender, b: Sender) {
    || (exists i: Request :: b == Send(t, a, i.req, i.data))
    || (a.regs.state.TxIdle? && b.regs.state.TxIdle? && a.accepted == b.accepted == [])
  }

  ghost predicate LinkOk(t: Times, k: Link) {
    && SenderOk(t, k.tx) && SenderOk(t, k.d1) && SenderOk(t, k.d2) && SenderOk(t, k.d3)
    && Follows(t, k.d3, k.d2) && Follows(t, k.d2, k.d1) && Follows(t, k.d1, k.tx)
    && k.rx.flops == Flops(k.d1.regs.line, k.d2.regs.line, k.d3.regs.line)
    && Hears(t, k.rx, k.d3, k.delivered)
  }

  lemma LinkHears(t: Times, k: Link, i: Request)
    requires Enough(t) && LinkOk(t, k)
    ensures Hears(t, RxStep(t, k.rx, false, k.tx.regs.line), k.d2, Delivered(k.rx, k.delivered))
  {
    if j: Request :| k.d2 == Send(t, k.d3, j.req, j.data) {
      HearsOn(t, k.rx, k.d3, j.req, j.data, k.delivered, k.tx.regs.line);
    }
  }

  lemma LinkKeeps(t: Times, k: Link, i: Request)
    requires Enough(t) && LinkOk(t, k)
    ensures LinkOk(t, LinkStep(t, k, i))
  {
    SendKeeps(t, k.tx, i.req, i.data);
    LinkHears(t, k, i);
    assert Follows(t, k.tx, Send(t, k.tx, i.req, i.data));
  }

  /** What reset leaves, whatever the registers held at power-on. */
  function TxReset(t: Times, s: TxRegs, i: seq<Request>): TxRegs {
    if i == [] then s
    else TxStep(t, TxReset(t, s, i[..|i| - 1]), TxInput(true, i[|i| - 1].req, i[|i| - 1].data))
  }

  function RxReset(t: Times, s: TxRegs, r: RxRegs, i: seq<Request>): RxRegs {
    if i == [] then r
    else RxStep(t, RxReset(t, s, r, i[..|i| - 1]), true, TxReset(t, s, i[..|i| - 1]).line)
  }

  function LinkAfterReset(t: Times, s: TxRegs, r: RxRegs, i: seq<Request>): Link {
    var tx := Sender(TxReset(t, s, i), []);
    Link(tx, tx, tx, tx, RxReset(t, s, r, i), [])
  }

  lemma {:induction false} TxResets(t: Times, s: TxRegs, i: seq<Request>)
    requires i != []
    ensures var q := TxReset(t, s, i); q.clk == 0 && q.state.TxIdle? && q.line && q.count == 0
  {
  }

  lemma {:induction false} RxResets(t: Times, s: TxRegs, r: RxRegs, i: seq<Request>)
    requires |i| >= 4
    ensures var q := RxReset(t, s, r, i); q.state.RxIdle? && q.count == 0 && q.flops == Flops(true, true, true)
  {
    var n := |i|;
    assert i[..n - 1][..n - 2] == i[..n - 2] && i[..n - 2][..n - 3] == i[..n - 3];
    TxResets(t, s, i[..n - 1]);
    TxResets(t, s, i[..n - 2]);
    TxResets(t, s, i[..n - 3]);
    var a, b := RxReset(t, s, r, i[..n - 3]), RxReset(t, s, r, i[..n - 2]);
    assert b == RxStep(t, a, true, TxReset(t, s, i[..n - 3]).line);
    assert RxReset(t, s, r, i[..n - 1]) == RxStep(t, b, true, TxReset(t, s, i[..n - 2]).line);
  }

  /** Four cycles of reset bring any two ends together. */
  lemma ResetLinks(t: Times, s: TxRegs, r: RxRegs, i: seq<Request>)
    requires Enough(t) && |i| >= 4
    ensures LinkOk(t, LinkAfterReset(t, s, r, i))
  {
    TxResets(t, s, i);
    RxResets(t, s, r, i);
  }

  function Run(t: Times, k: Link, es: seq<Request>): Link {
    if es == [] then k else LinkStep(t, Run(t, k, es[..|es| - 1]), es[|es| - 1])
  }

  lemma {:induction false} RunKeeps(t: Times, k: Link, es: seq<Request>)
    requires Enough(t) && LinkOk(t, k)
    ensures LinkOk(t, Run(t, k, es))
  {
    if es != [] {
      RunKeeps(t, k, es[..|es| - 1]);
      LinkKeeps(t, Run(t, k, es[..|es| - 1]), es[|es| - 1]);
    }
  }

  /** The bytes the receiver acknowledges over a run, one for each cycle of `rx_ack`. */
  function Acknowledged(t: Times, k: Link, es: seq<Request>): seq<Byte> {
    if es == [] then []
    else Delivered(Run(t, k, es[..|es| - 1]).rx, Acknowledged(t, k, es[..|es| - 1]))
  }

  /** The bytes the transmitter takes: those requested while it is ready. */
  function Accepted(t: Times, k: Link, es: seq<Request>): seq<Byte> {
    if es == [] then []
    else
      var s, i := Run(t, k, es[..|es| - 1]).tx.regs, es[|es| - 1];
      Accepted(t, k, es[..|es| - 1]) + (if i.req && s.state.TxIdle? then [i.data] else [])
  }

  lemma {:induction false} Histories(t: Times, k: Link, es: seq<Request>)
    requires k.delivered == [] && k.tx.accepted == []
    ensures Run(t, k, es).delivered == Acknowledged(t, k, es)
    ensures Run(t, k, es).tx.accepted == Accepted(t, k, es)
  {
    if es != [] {
      Histories(t, k, es[..|es| - 1]);
    }
  }

  lemma FollowsGrows(t: Times, a: Sender, b: Sender)
    requires Follows(t, a, b)
    ensures a.accepted <= b.accepted && |b.accepted| <= |a.accepted| + 1
  {
  }

  /** What has arrived, at any time. */
  lemma HearsTells(t: Times, rx: RxRegs, s: Sender, delivered: seq<Byte>)
    requires Hears(t, rx, s, delivered)
    ensures delivered <= s.accepted
    ensures s.regs.state.TxIdle? && s.regs.clk >= t.half + 2 ==> delivered == s.accepted
  {
    assert s.accepted[..|s.accepted|] == s.accepted;
  }

  lemma GrowsOn(a: seq<Byte>, b: seq<Byte>, c: seq<Byte>, d: seq<Byte>)
    requires a <= b <= c <= d
    ensures a <= d
  {
  }

  lemma LinkTells(t: Times, k: Link)
    requires LinkOk(t, k)
    ensures k.delivered <= k.d3.accepted <= k.tx.accepted
    ensures k.d3.regs.state.TxIdle? && k.d3.regs.clk >= t.half + 2 ==> k.delivered == k.d3.accepted
  {
    HearsTells(t, k.rx, k.d3, k.delivered);
    FollowsGrows(t, k.d3, k.d2);
    FollowsGrows(t, k.d2, k.d1);
    FollowsGrows(t, k.d1, k.tx);
    GrowsOn(k.d3.accepted, k.d2.accepted, k.d1.accepted, k.tx.accepted);
  }

  /** The bytes acknowledged are the first of the bytes accepted, each once and in order, for every
      pattern of requests and every pair of bit times that leaves the receiver two cycles. */
  lemma BytesArrive(t: Times, s: TxRegs, r: RxRegs, reset: seq<Request>, es: seq<Request>)
    requires Enough(t) && |reset| >= 4
    ensures var k := LinkAfterReset(t, s, r, reset);
      Acknowledged(t, k, es) <= Accepted(t, k, es)
  {
    var k := LinkAfterReset(t, s, r, reset);
    ResetLinks(t, s, r, reset);
    RunKeeps(t, k, es);
    Histories(t, k, es);
    LinkTells(t, Run(t, k, es));
  }

  lemma ThreeAgo(t: Times, k: Link, es: seq<Request>)
    requires |es| >= 3
    ensures Run(t, k, es).d3 == Run(t, k, es[..|es| - 3]).tx
  {
    var n := |es|;
    assert es[..n - 1][..n - 2] == es[..n - 2] && es[..n - 2][..n - 3] == es[..n - 3];
    assert Run(t, k, es[..n - 1]).d2 == Run(t, k, es[..n - 2]).d1;
  }

  /** None is held back: once the transmitter is idle half a bit and two cycles into the stop bit,
      three cycles later everything it took has been acknowledged. */
  lemma AllBytesArrive(t: Times, s: TxRegs, r: RxRegs, reset: seq<Request>, es: seq<Request>)
    requires Enough(t) && |reset| >= 4 && |es| >= 3
    requires var early := Run(t, LinkAfterReset(t, s, r, reset), es[..|es| - 3]).tx.regs;
      early.state.TxIdle? && early.clk >= t.half + 2
    ensures var k := LinkAfterReset(t, s, r, reset);
      Acknowledged(t, k, es) == Accepted(t, k, es[..|es| - 3])
  {
    var k := LinkAfterReset(t, s, r, reset);
    ResetLinks(t, s, r, reset);
    RunKeeps(t, k, es);
    Histories(t, k, es);
    Histories(t, k, es[..|es| - 3]);
    ThreeAgo(t, k, es);
    LinkTells(t, Run(t, k, es));
  }
}
