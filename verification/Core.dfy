/** The control path of the core: fetcher, decoder, dispatch and control unit wired together as
    rtl/verilog/ajardsp_top.v does. */
module Core {
  import opened Words
  import opened Vliwdec
  import opened Vliwfetch
  import opened Pcu

  datatype State = State(fetch: FetchRegs, pcu: PcuRegs)

  function Reset(power: FetchRegs): State {
    State(Vliwfetch.Reset(power), Pcu.Reset())
  }

  function ControlNow(s: State, e: Env): Control {
    ControlOf(s.pcu, e, s.fetch.pc)
  }

  /** The packet of this cycle reaches the execution units. */
  predicate Executed(s: State, e: Env) {
    e.clkEn && Issues(s.fetch) && !Invalidates(s.pcu, ControlNow(s, e))
  }

  function Step(m: Image, s: State, e: Env): (t: State)
    requires WellTyped(s.fetch)
    ensures WellTyped(t.fetch)
  {
    var c := ControlNow(s, e);
    var packet := Decode(Inst64(s.fetch));
    var inst := Dispatch(packet, Issues(s.fetch) && !Invalidates(s.pcu, c));
    State(Vliwfetch.Step(m, s.fetch, Input(e.clkEn, c.jump)),
          Pcu.Step(s.pcu, e, inst, s.fetch.pc, NextPc(s.fetch)))
  }

  /** A run of the core, and the addresses of the packets it executes. */
  function Run(m: Image, s: State, es: seq<Env>): (t: State)
    requires WellTyped(s.fetch)
    ensures WellTyped(t.fetch)
    decreases |es|
  {
    if es == [] then s else Step(m, Run(m, s, es[..|es| - 1]), es[|es| - 1])
  }

  function Trace(m: Image, s: State, es: seq<Env>): seq<Addr>
    requires WellTyped(s.fetch)
    decreases |es|
  {
    if es == [] then []
    else
      var before := Run(m, s, es[..|es| - 1]);
      Trace(m, s, es[..|es| - 1])
      + (if Executed(before, es[|es| - 1]) then [before.fetch.pc] else [])
  }
}
