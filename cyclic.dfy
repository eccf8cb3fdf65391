/**
 * The plain cyclic example application (`mcb-master-cyclic.c`). Every call of
 * `AppLoop` runs one cyclic transfer and counts it in a 32-bit counter; once
 * the counter exceeds 0xFFFF, each call also disables cyclic mode, and the
 * loop reports an error as soon as the instance is no longer cyclic.
 */
module McbMasterCyclic {
  import opened Mcb
  import opened Registers
  import opened CyclicSetup

  /** Timeout handed to Mcb_Init, in milliseconds. */
  const MCB_TIMEOUT: u32 := 500
  /** AppLoop disables cyclic mode whenever the cycle counter exceeds this. */
  const CYCLE_LIMIT := 0xFFFF

  /** The application's module-level state together with the instance's. */
  datatype State = State(
    isCyclic: bool,        // ptMcbInst[MCB_INST0].isCyclic
    log: seq<Event>,       // library calls and slot accesses so far
    tx: seq<SlotPtr>,      // ppTxDatPoint
    rx: seq<SlotPtr>,      // ppRxDatPoint
    cocResult: Status,     // eCoCResult
    cycCnt: u32)           // u32CycCnt

  /** The pointer arrays have their fixed size. */
  predicate Sized(s: State) {
    |s.tx| == TX_MAP_NMB && |s.rx| == RX_MAP_NMB
  }

  function InitSpec(s: State, cyclicAfterInit: bool): (t: State)
    ensures t.cycCnt == 0 && t.cocResult == Standby
    ensures t.log == s.log + [Initialised(MCB_TIMEOUT)] && t.isCyclic == cyclicAfterInit
    ensures t.tx == s.tx && t.rx == s.rx
  {
    s.(isCyclic := cyclicAfterInit, log := s.log + [Initialised(MCB_TIMEOUT)], cocResult := Standby, cycCnt := 0)
  }

  /** SetMcb0CyclicMode on the application state: the result code and the new state. */
  function ModeSpec(s: State, r: SetupReplies): (res: (State, i16))
    ensures Sized(s) ==> Sized(res.0)
    ensures res.1 == SetupSpec(s.isCyclic, r).ret
    // refused while cyclic: nothing changes
    ensures s.isCyclic ==> res.0 == s
    ensures res.0.log == s.log + SetupSpec(s.isCyclic, r).calls
    // otherwise each slot holds the pointer returned by the map call for its register
    ensures !s.isCyclic ==>
      |res.0.tx| == TX_MAP_NMB && |res.0.rx| == RX_MAP_NMB &&
      res.0.log[|s.log| + 1] == TxMapped(REG_ADDR_STATUS_WORD, REG_SIZE_STATUS_WORD, res.0.tx[0]) &&
      res.0.log[|s.log| + 2] == TxMapped(REG_ADDR_BUS_VOLT_VALUE, REG_SIZE_BUS_VOLT_VALUE, res.0.tx[1]) &&
      res.0.log[|s.log| + 3] == RxMapped(REG_ADDR_CONTROL_WORD, REG_SIZE_CONTROL_WORD, res.0.rx[0]) &&
      res.0.log[|s.log| + 4] == RxMapped(REG_ADDR_CURR_Q_SETPOINT, REG_SIZE_CURR_Q_SETPOINT, res.0.rx[1])
    // isCyclic changes only through Mcb_EnableCyclic
    ensures res.0.isCyclic == if SetupSpec(s.isCyclic, r).enabled then r.cyclicAfterEnable else s.isCyclic
    // the application's own variables are untouched
    ensures res.0.cocResult == s.cocResult && res.0.cycCnt == s.cycCnt
  {
    var out := SetupSpec(s.isCyclic, r);
    var t := s.(isCyclic := if out.enabled then r.cyclicAfterEnable else s.isCyclic,
                log := s.log + out.calls,
                tx := PointersAfter(s.isCyclic, s.tx, r.tx0, r.tx1),
                rx := PointersAfter(s.isCyclic, s.rx, r.rx0, r.rx1));
    (t, out.ret)
  }
  function StartSpec(s: State, r: SetupReplies): (t: State)
    requires Sized(s)
    ensures Sized(t)
    // the Q set-point goes into Rx slot 1 exactly when the setup result is strictly positive
    ensures var out := SetupSpec(s.isCyclic, r);
      (out.ret > 0 ==> t.log == s.log + out.calls + [SlotWritten(t.rx[1])]) &&
      (out.ret <= 0 ==> t.log == s.log + out.calls)
    // the new mode and slot pointers are those the setup left
    ensures var out := SetupSpec(s.isCyclic, r);
      t.isCyclic == (if out.enabled then r.cyclicAfterEnable else s.isCyclic) &&
      t.tx == PointersAfter(s.isCyclic, s.tx, r.tx0, r.tx1) &&
      t.rx == PointersAfter(s.isCyclic, s.rx, r.rx0, r.rx1)
    ensures t.cycCnt == s.cycCnt && t.cocResult == s.cocResult
  {
    var (u, ret) := ModeSpec(s, r);
    if ret > NO_ERROR then u.(log := u.log + [SlotWritten(u.rx[1])]) else u
  }
  /**
   * A setup whose second Rx map returns NULL but whose counts read 2 reports
   * success when Mcb_EnableCyclic returns a cyclic size; AppStart then copies
   * the set-point through the NULL pointer.
   */
  lemma StartWritesThroughNullRxSlot(s: State, r: SetupReplies)
    requires Sized(s) && !s.isCyclic
    requires r.rx1 == Null && r.txMapped == TX_MAP_NMB && r.rxMapped == RX_MAP_NMB && r.enableRet > 0
    ensures var t := StartSpec(s, r); |t.log| > 0 && t.log[|t.log| - 1] == SlotWritten(Null)
  {
  }

  /** What the library answers during one AppLoop. */
  datatype LoopReply = LoopReply(cycle: CycleReply, cyclicAfterDisable: bool)

  function LoopSpec(s: State, r: LoopReply): (res: (State, int))
    requires Sized(s)
    ensures Sized(res.0) && res.0.tx == s.tx && res.0.rx == s.rx
    // exactly one transfer and one (wrapping) count per call, cyclic or not
    ensures res.0.cycCnt == Inc32(s.cycCnt) && res.0.cocResult == r.cycle.coc
    // the counter is never reset; disabling follows from the counter alone
    ensures res.0.cycCnt > CYCLE_LIMIT ==>
      res.0.log == s.log + [Exchanged, SlotRead(s.tx[1]), Disabled] && res.0.isCyclic == r.cyclicAfterDisable
    ensures res.0.cycCnt <= CYCLE_LIMIT ==>
      res.0.log == s.log + [Exchanged, SlotRead(s.tx[1])] && res.0.isCyclic == r.cycle.cyclicAfter
    ensures (res.1 == CURRENT_STATUS_ERROR as int <==> !res.0.isCyclic) && (res.1 == NO_ERROR as int <==> res.0.isCyclic)
  {
    var cnt := Inc32(s.cycCnt);
    var t := s.(log := s.log + [Exchanged, SlotRead(s.tx[1])],
                isCyclic := r.cycle.cyclicAfter, cocResult := r.cycle.coc, cycCnt := cnt);
    var u := if cnt > CYCLE_LIMIT then t.(log := t.log + [Disabled], isCyclic := r.cyclicAfterDisable) else t;
    (u, if !u.isCyclic then CURRENT_STATUS_ERROR as int else NO_ERROR as int)
  }

  function RunLoops(s: State, rs: seq<LoopReply>): (t: State)
    requires Sized(s)
    ensures Sized(t) && t.tx == s.tx
    decreases |rs|
  {
    if rs == [] then s else RunLoops(LoopSpec(s, rs[0]).0, rs[1..])
  }

  /** After n calls of AppLoop the counter has advanced by n, modulo 2^32. */
  lemma {:induction false} RunCounter(s: State, rs: seq<LoopReply>)
    requires Sized(s)
    ensures RunLoops(s, rs).cycCnt == (s.cycCnt + |rs|) % U32_MODULUS
    decreases |rs|
  {
    if rs != [] {
      var t := LoopSpec(s, rs[0]).0;
      RunCounter(t, rs[1..]);
      if s.cycCnt == U32_MODULUS - 1 {
        assert (s.cycCnt + |rs|) % U32_MODULUS == (|rs| - 1) % U32_MODULUS;
      }
    }
  }

  /** The log entries one AppLoop adds hold exactly one transfer. */
  lemma OneTransferPerLoop(s: State, r: LoopReply)
    requires Sized(s)
    ensures Count(LoopSpec(s, r).0.log, Exchanged) == Count(s.log, Exchanged) + 1
  {
    var t := LoopSpec(s, r).0;
    var rest := if t.cycCnt > CYCLE_LIMIT then [SlotRead(s.tx[1]), Disabled] else [SlotRead(s.tx[1])];
    assert t.log == s.log + ([Exchanged] + rest);
    assert Exchanged !in rest;
    CountAppend(s.log, [Exchanged] + rest, Exchanged);
    CountAppend([Exchanged], rest, Exchanged);
    assert [Exchanged][..0] == [];
  }

  /** After n calls of AppLoop there were exactly n cyclic transfers, cyclic or not. */
  lemma {:induction false} RunTransfers(s: State, rs: seq<LoopReply>)
    requires Sized(s)
    ensures Count(RunLoops(s, rs).log, Exchanged) == Count(s.log, Exchanged) + |rs|
    decreases |rs|
  {
    if rs != [] {
      OneTransferPerLoop(s, rs[0]);
      RunTransfers(LoopSpec(s, rs[0]).0, rs[1..]);
    }
  }

  /**
   * Once the counter has passed 0xFFFF, every later AppLoop calls
   * Mcb_DisableCyclic, for as long as the 32-bit counter does not wrap.
   */
  lemma {:induction false} DisablesEveryLoopPastLimit(s: State, rs: seq<LoopReply>)
    requires Sized(s) && CYCLE_LIMIT <= s.cycCnt && s.cycCnt + |rs| < U32_MODULUS
    ensures Count(RunLoops(s, rs).log, Disabled) == Count(s.log, Disabled) + |rs|
    decreases |rs|
  {
    if rs != [] {
      var t := LoopSpec(s, rs[0]).0;
      assert t.cycCnt == s.cycCnt + 1;
      DisablesEveryLoopPastLimit(t, rs[1..]);
      var added := [Exchanged, SlotRead(s.tx[1]), Disabled];
      CountAppend(s.log, added, Disabled);
      assert added[..2] == [Exchanged, SlotRead(s.tx[1])];
      assert added[..2][..1] == [Exchanged];
      assert [Exchanged][..0] == [];
    }
  }

  /**
   * The counter is a plain uint32_t: the call after it reaches 0xFFFFFFFF
   * wraps it to 0, and that call no longer disables cyclic mode.
   */
  lemma WrapStopsDisabling(s: State, r: LoopReply)
    requires Sized(s) && s.cycCnt == U32_MODULUS - 1
    ensures LoopSpec(s, r).0.cycCnt == 0
    ensures Disabled !in LoopSpec(s, r).0.log[|s.log|..]
  {
  }
  /** Running a + b is running a, then b from where a left off. */
  lemma {:induction false} RunLoopsAppend(s: State, a: seq<LoopReply>, b: seq<LoopReply>)
    requires Sized(s)
    ensures RunLoops(s, a + b) == RunLoops(RunLoops(s, a), b)
    decreases |a|
  {
    if a != [] {
      assert (a + b)[0] == a[0] && (a + b)[1..] == a[1..] + b;
      RunLoopsAppend(LoopSpec(s, a[0]).0, a[1..], b);
    } else {
      assert a + b == b;
    }
  }

  /** While the counter stays at or below 0xFFFF no call disables cyclic mode. */
  lemma {:induction false} QuietBelowLimit(s: State, rs: seq<LoopReply>)
    requires Sized(s) && s.cycCnt + |rs| <= CYCLE_LIMIT
    ensures Count(RunLoops(s, rs).log, Disabled) == Count(s.log, Disabled)
    decreases |rs|
  {
    if rs != [] {
      var t := LoopSpec(s, rs[0]).0;
      QuietBelowLimit(t, rs[1..]);
      var added := [Exchanged, SlotRead(s.tx[1])];
      CountAppend(s.log, added, Disabled);
      assert added[..1] == [Exchanged];
      assert [Exchanged][..0] == [];
    }
  }

  /**
   * The wrap pauses disabling: from a counter of 0xFFFFFFFF the next 0x10000
   * calls (the one that wraps to 0 and those that count up to 0xFFFF) never
   * disable, and the call after them disables again.
   */
  lemma WrapPausesDisabling(s: State, rs: seq<LoopReply>)
    requires Sized(s) && s.cycCnt == U32_MODULUS - 1 && |rs| == CYCLE_LIMIT + 2
    ensures Count(RunLoops(s, rs[..CYCLE_LIMIT + 1]).log, Disabled) == Count(s.log, Disabled)
    ensures Count(RunLoops(s, rs).log, Disabled) == Count(s.log, Disabled) + 1
  {
    var pause := rs[..CYCLE_LIMIT + 1];
    var t := LoopSpec(s, rs[0]).0;
    assert t.cycCnt == 0 && t.log == s.log + [Exchanged, SlotRead(s.tx[1])];
    var added := [Exchanged, SlotRead(s.tx[1])];
    CountAppend(s.log, added, Disabled);
    assert added[..1] == [Exchanged];
    assert [Exchanged][..0] == [];
    QuietBelowLimit(t, pause[1..]);
    assert RunLoops(s, pause) == RunLoops(t, pause[1..]);
    var u := RunLoops(s, pause);
    RunCounter(s, pause);
    assert u.cycCnt == CYCLE_LIMIT;
    DisablesEveryLoopPastLimit(u, rs[CYCLE_LIMIT + 1..]);
    RunLoopsAppend(s, pause, rs[CYCLE_LIMIT + 1..]);
    assert pause + rs[CYCLE_LIMIT + 1..] == rs;
  }

  /** The application: its module-level variables and the MCB instance it drives. */
  class App {
    const inst: Instance
    const txPtrs: array<SlotPtr>    // ppTxDatPoint
    const rxPtrs: array<SlotPtr>    // ppRxDatPoint
    var cocResult: Status           // eCoCResult
    var cycCnt: u32                 // u32CycCnt

    ghost predicate Valid() {
      txPtrs.Length == TX_MAP_NMB && rxPtrs.Length == RX_MAP_NMB && txPtrs != rxPtrs
    }

    function Snapshot(): (s: State)
      reads this, inst, txPtrs, rxPtrs
      ensures Valid() ==> Sized(s)
    {
      State(inst.isCyclic, inst.log, txPtrs[..], rxPtrs[..], cocResult, cycCnt)
    }

    /**
     * The program's static storage before AppInit: everything zero;
     * `zeroStatus` is the library's status value numbered 0, not visible to this model.
     */
    constructor (zeroStatus: Status)
      ensures Valid() && fresh(inst) && fresh(txPtrs) && fresh(rxPtrs)
      ensures Snapshot() == State(false, [], [Null, Null], [Null, Null], zeroStatus, 0)
    {
      inst := new Instance();
      txPtrs := new SlotPtr[TX_MAP_NMB](_ => Null);
      rxPtrs := new SlotPtr[RX_MAP_NMB](_ => Null);
      cocResult := zeroStatus;
      cycCnt := 0;
    }

    method AppInit(cyclicAfterInit: bool)
      requires Valid()
      modifies this, inst
      ensures Valid() && Snapshot() == InitSpec(old(Snapshot()), cyclicAfterInit)
    {
      inst.Init(MCB_TIMEOUT, cyclicAfterInit);
      cycCnt := 0;
      cocResult := Standby;
    }

    method AppStart(r: SetupReplies)
      requires Valid()
      modifies inst, txPtrs, rxPtrs
      ensures Valid() && Snapshot() == StartSpec(old(Snapshot()), r)
    {
      var cycSt := SetMcb0CyclicMode(r);
      if cycSt > NO_ERROR {
        inst.WriteSlot(rxPtrs[1]);
      }
    }

    method AppLoop(r: LoopReply) returns (ret: int)
      requires Valid()
      modifies this, inst
      ensures Valid() && (Snapshot(), ret) == LoopSpec(old(Snapshot()), r)
    {
      ret := NO_ERROR as int;
      ghost var log0 := inst.log;
      cocResult := inst.CyclicProcess(r.cycle);
      cycCnt := Inc32(cycCnt);
      inst.ReadSlot(txPtrs[1]);
      assert inst.log == log0 + [Exchanged, SlotRead(txPtrs[1])];
      if cycCnt > CYCLE_LIMIT {
        inst.DisableCyclic(r.cyclicAfterDisable);
        assert inst.log == log0 + [Exchanged, SlotRead(txPtrs[1]), Disabled];
      }
      if !inst.isCyclic {
        ret := CURRENT_STATUS_ERROR as int;
      }
    }

    /** The unmap and map calls of SetMcb0CyclicMode, each pointer stored in its slot. */
    method MapRegisters(r: SetupReplies)
      requires Valid()
      modifies inst, txPtrs, rxPtrs
      ensures inst.log == old(inst.log) + MappingCalls(r) && inst.isCyclic == old(inst.isCyclic)
      ensures txPtrs[..] == [r.tx0, r.tx1] && rxPtrs[..] == [r.rx0, r.rx1]
    {
      inst.UnmapAll();
      var p := inst.TxMap(0x0011, 2, r.tx0);
      txPtrs[0] := p;
      p := inst.TxMap(0x0060, 4, r.tx1);
      txPtrs[1] := p;
      p := inst.RxMap(0x0010, 2, r.rx0);
      rxPtrs[0] := p;
      p := inst.RxMap(0x001A, 4, r.rx1);
      rxPtrs[1] := p;
    }

    method SetMcb0CyclicMode(r: SetupReplies) returns (ret: i16)
      requires Valid()
      modifies inst, txPtrs, rxPtrs
      ensures Valid() && (Snapshot(), ret) == ModeSpec(old(Snapshot()), r)
    {
      ret := NO_ERROR;
      if inst.isCyclic {
        ret := CURRENT_STATUS_ERROR;
        assert inst.log + [] == inst.log;
        return;
      }
      ghost var s0 := Snapshot();
      MapRegisters(r);
      ret := CheckPairsMapped(txPtrs, rxPtrs, ret);
      if r.txMapped != TX_MAP_NMB || r.rxMapped != RX_MAP_NMB {
        ret := MAPPING_ERROR;
        assert inst.log == s0.log + SetupSpec(false, r).calls;
        return;
      }
      ret := inst.EnableCyclic(r.enableRet, r.cyclicAfterEnable);
      assert inst.log == s0.log + SetupSpec(false, r).calls;
    }
  }

  /**
   * The scan loop of SetMcb0CyclicMode: for each index below the Tx count it
   * checks the Tx and the Rx pointer together and, without stopping, sets
   * MAPPING_ERROR when either is NULL.
   */
  method CheckPairsMapped(tx: array<SlotPtr>, rx: array<SlotPtr>, ret: i16) returns (r: i16)
    requires tx.Length == TX_MAP_NMB && rx.Length == RX_MAP_NMB
    ensures r == if Null in tx[..] || Null in rx[..] then MAPPING_ERROR else ret
  {
    r := ret;
    var i := 0;
    while i < TX_MAP_NMB
      invariant 0 <= i <= TX_MAP_NMB
      invariant r == if Null in tx[..i] || Null in rx[..i] then MAPPING_ERROR else ret
    {
      if tx[i] == Null || rx[i] == Null {
        r := MAPPING_ERROR;
      }
      assert tx[..i + 1] == tx[..i] + [tx[i]] && rx[..i + 1] == rx[..i] + [rx[i]];
      i := i + 1;
    }
    assert tx[..i] == tx[..] && rx[..i] == rx[..];
  }
}
