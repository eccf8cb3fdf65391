/**
 * The config-over-cyclic example application (`mcb-master-coc.c`). The
 * periodic `AppCyclicProcess` runs one cyclic transfer, which also carries the
 * pending configuration read and writes its status back into `eCoCResult`;
 * the main loop `AppLoop` inspects that status, re-issues the read when the
 * previous one finished or nothing is in flight, and after 10000 transfers
 * disables cyclic mode.
 */
module McbMasterCoc {
  import opened Mcb
  import opened Registers
  import opened CyclicSetup

  const EXIT_APP := -100
  /** Timeout handed to Mcb_Init: all ones, so that it never expires. */
  const MCB_TIMEOUT: u32 := 0xFFFF_FFFF
  /** AppLoop disables cyclic mode once the cycle counter exceeds this. */
  const CYCLE_LIMIT := 10000

  /** The application's module-level state together with the instance's. */
  datatype State = State(
    isCyclic: bool,        // ptMcbInst[MCB_INST0].isCyclic
    log: seq<Event>,       // library calls and slot accesses so far
    tx: seq<SlotPtr>,      // ppTxDatPoint
    rx: seq<SlotPtr>,      // ppRxDatPoint
    msg: Msg,              // tMcbMsg
    cocResult: Status,     // eCoCResult
    cycCnt: u32)           // u32CycCnt

  /** The pointer arrays have their fixed size. */
  predicate Sized(s: State) {
    |s.tx| == TX_MAP_NMB && |s.rx| == RX_MAP_NMB
  }

  /** The vendor-id read request AppStart builds, with `n` zeroed data words. */
  function VendorIdRequest(n: nat): Msg {
    Msg(REG_ADDR_VENDOR_ID, Standby, Zeroed(n))
  }

  function InitSpec(s: State, cyclicAfterInit: bool): (t: State)
    ensures t.cycCnt == 0 && t.cocResult == Standby
    ensures t.log == s.log + [Initialised(MCB_TIMEOUT)] && t.isCyclic == cyclicAfterInit
    ensures t.tx == s.tx && t.rx == s.rx && t.msg == s.msg
  {
    s.(isCyclic := cyclicAfterInit, log := s.log + [Initialised(MCB_TIMEOUT)], cocResult := Standby, cycCnt := 0)
  }

  /** SetMcb0CyclicMode on the application state: the result code and the new state. */
  function ModeSpec(s: State, r: SetupReplies): (res: (State, i16))
    ensures Sized(s) ==> Sized(res.0)
    ensures res.1 == SetupSpec(s.isCyclic, r).ret
    // refused while cyclic: nothing changes
    ensures s.isCyclic ==> res.0 == s
    ensures res.0.log == s.log + SetupSpec(s.isCyclic, r).calls
    // otherwise each slot holds the pointer returned by the map call for its register
    ensures !s.isCyclic ==>
      |res.0.tx| == TX_MAP_NMB && |res.0.rx| == RX_MAP_NMB &&
      res.0.log[|s.log| + 1] == TxMapped(REG_ADDR_STATUS_WORD, REG_SIZE_STATUS_WORD, res.0.tx[0]) &&
      res.0.log[|s.log| + 2] == TxMapped(REG_ADDR_BUS_VOLT_VALUE, REG_SIZE_BUS_VOLT_VALUE, res.0.tx[1]) &&
      res.0.log[|s.log| + 3] == RxMapped(REG_ADDR_CONTROL_WORD, REG_SIZE_CONTROL_WORD, res.0.rx[0]) &&
      res.0.log[|s.log| + 4] == RxMapped(REG_ADDR_CURR_Q_SETPOINT, REG_SIZE_CURR_Q_SETPOINT, res.0.rx[1])
    // isCyclic changes only through Mcb_EnableCyclic
    ensures res.0.isCyclic == if SetupSpec(s.isCyclic, r).enabled then r.cyclicAfterEnable else s.isCyclic
    // the application's own variables are untouched
    ensures res.0.msg == s.msg && res.0.cocResult == s.cocResult && res.0.cycCnt == s.cycCnt
  {
    var out := SetupSpec(s.isCyclic, r);
    var t := s.(isCyclic := if out.enabled then r.cyclicAfterEnable else s.isCyclic,
                log := s.log + out.calls,
                tx := PointersAfter(s.isCyclic, s.tx, r.tx0, r.tx1),
                rx := PointersAfter(s.isCyclic, s.rx, r.rx0, r.rx1));
    (t, out.ret)
  }
  function StartSpec(s: State, r: SetupReplies): (t: State)
    requires Sized(s)
    ensures Sized(t)
    ensures var out := SetupSpec(s.isCyclic, r);
      // two vendor-id reads, then the setup's calls, then possibly the set-point write
      t.msg == VendorIdRequest(|s.msg.data|) &&
      // the Q set-point goes into Rx slot 1 exactly when the setup result is strictly positive
      (out.ret > 0 ==> t.log == s.log + [ReadIssued(t.msg), ReadIssued(t.msg)] + out.calls + [SlotWritten(t.rx[1])]) &&
      (out.ret <= 0 ==> t.log == s.log + [ReadIssued(t.msg), ReadIssued(t.msg)] + out.calls)
    // the new mode and slot pointers are those the setup left
    ensures var out := SetupSpec(s.isCyclic, r);
      t.isCyclic == (if out.enabled then r.cyclicAfterEnable else s.isCyclic) &&
      t.tx == PointersAfter(s.isCyclic, s.tx, r.tx0, r.tx1) &&
      t.rx == PointersAfter(s.isCyclic, s.rx, r.rx0, r.rx1)
    ensures t.cycCnt == s.cycCnt && t.cocResult == s.cocResult
  {
    var m := VendorIdRequest(|s.msg.data|);
    var (u, ret) := ModeSpec(s.(msg := m, log := s.log + [ReadIssued(m), ReadIssued(m)]), r);
    if ret > NO_ERROR then u.(log := u.log + [SlotWritten(u.rx[1])]) else u
  }
  /**
   * A setup whose second Rx map returns NULL but whose counts read 2 reports
   * success when Mcb_EnableCyclic returns a cyclic size; AppStart then copies
   * the set-point through the NULL pointer.
   */
  lemma StartWritesThroughNullRxSlot(s: State, r: SetupReplies)
    requires Sized(s) && !s.isCyclic
    requires r.rx1 == Null && r.txMapped == TX_MAP_NMB && r.rxMapped == RX_MAP_NMB && r.enableRet > 0
    ensures var t := StartSpec(s, r); |t.log| > 0 && t.log[|t.log| - 1] == SlotWritten(Null)
  {
  }

  /** The CoC status dispatch at the top of AppLoop. */
  function DispatchSpec(s: State): (t: State)
    ensures t.isCyclic == s.isCyclic && t.tx == s.tx && t.rx == s.rx && t.cycCnt == s.cycCnt
    // finished or idle: clear the message and issue exactly one new read of the same register
    ensures s.cocResult == ReadSuccess || s.cocResult == Standby ==>
      t.msg == Msg(s.msg.addr, Standby, Zeroed(|s.msg.data|)) &&
      t.log == s.log + [ReadIssued(t.msg)] && t.cocResult == s.cocResult
    // failed: back to standby, no read
    ensures s.cocResult == ReadError ==> t.cocResult == Standby && t.msg == s.msg && t.log == s.log
    // anything else (in progress): nothing changes
    ensures s.cocResult !in {ReadSuccess, Standby, ReadError} ==> t == s
    ensures t.cocResult != ReadError
  {
    if s.cocResult == ReadSuccess || s.cocResult == Standby then
      var m := s.msg.(status := Standby, data := Zeroed(|s.msg.data|));
      s.(msg := m, log := s.log + [ReadIssued(m)])
    else if s.cocResult == ReadError then
      s.(cocResult := Standby)
    else
      s
  }

  /** The counter policy and the return value at the end of AppLoop. */
  function PolicySpec(s: State, cyclicAfterDisable: bool): (res: (State, int))
    ensures s.cycCnt > CYCLE_LIMIT ==>
      res.0 == s.(isCyclic := cyclicAfterDisable, log := s.log + [Disabled], cycCnt := 0)
    ensures s.cycCnt <= CYCLE_LIMIT ==> res.0 == s
    ensures res.0.cycCnt <= CYCLE_LIMIT
    ensures res.1 == (if res.0.isCyclic then NO_ERROR as int else EXIT_APP)
  {
    var t := if s.cycCnt > CYCLE_LIMIT
      then s.(isCyclic := cyclicAfterDisable, log := s.log + [Disabled], cycCnt := 0)
      else s;
    (t, if !t.isCyclic then EXIT_APP else NO_ERROR as int)
  }

  function LoopSpec(s: State, cyclicAfterDisable: bool): (res: (State, int))
    ensures res.0.tx == s.tx && res.0.rx == s.rx
    ensures res.0.cocResult != ReadError
    ensures res.0.cycCnt <= CYCLE_LIMIT
    ensures (res.1 == EXIT_APP <==> !res.0.isCyclic) && (res.1 == NO_ERROR as int <==> res.0.isCyclic)
    // the library is disabled exactly when the counter had passed the limit
    ensures s.log <= res.0.log
    ensures (Disabled in res.0.log[|s.log|..]) <==> s.cycCnt > CYCLE_LIMIT
  {
    var d := DispatchSpec(s);
    var issued := d.log[|s.log|..];
    assert d.log == s.log + issued && (issued == [] || issued == [ReadIssued(d.msg)]);
    var res := PolicySpec(d, cyclicAfterDisable);
    if s.cycCnt > CYCLE_LIMIT then
      assert res.0.log == s.log + (issued + [Disabled]);
      assert res.0.log[|s.log|..] == issued + [Disabled];
      res
    else
      assert res.0.log[|s.log|..] == issued;
      res
  }

  function CyclicProcessSpec(s: State, reply: CycleReply): (t: State)
    requires Sized(s)
    ensures Sized(t) && t.tx == s.tx && t.rx == s.rx && t.msg == s.msg
    // not cyclic: no transfer, no count
    ensures !s.isCyclic ==> t == s
    // cyclic: one transfer, the CoC status it reports, one count, then the bus voltage is read from Tx slot 1
    ensures s.isCyclic ==>
      t.log == s.log + [Exchanged, SlotRead(s.tx[1])] &&
      t.cocResult == reply.coc && t.isCyclic == reply.cyclicAfter && t.cycCnt == Inc32(s.cycCnt)
  {
    if s.isCyclic then
      s.(log := s.log + [Exchanged, SlotRead(s.tx[1])],
         isCyclic := reply.cyclicAfter, cocResult := reply.coc, cycCnt := Inc32(s.cycCnt))
    else
      s
  }

  /** One scheduler period: the cyclic transfer followed by one pass of the main loop. */
  datatype Tick = Tick(cycle: CycleReply, cyclicAfterDisable: bool)

  function RunTicks(s: State, ticks: seq<Tick>): (t: State)
    requires Sized(s)
    ensures Sized(t) && s.log <= t.log
    decreases |ticks|
  {
    if ticks == [] then s
    else RunTicks(LoopSpec(CyclicProcessSpec(s, ticks[0].cycle), ticks[0].cyclicAfterDisable).0, ticks[1..])
  }

  /**
   * While the library keeps cyclic mode on, AppLoop disables it within
   * CYCLE_LIMIT + 1 periods of a counter at or below the limit (as after AppInit
   * or a previous reset).
   */
  lemma {:induction false} DisableReached(s: State, ticks: seq<Tick>)
    requires Sized(s) && s.isCyclic && s.cycCnt <= CYCLE_LIMIT
    requires |ticks| == CYCLE_LIMIT + 1 - s.cycCnt
    requires forall i :: 0 <= i < |ticks| ==> ticks[i].cycle.cyclicAfter
    ensures Disabled in RunTicks(s, ticks).log[|s.log|..]
    decreases |ticks|
  {
    var p := CyclicProcessSpec(s, ticks[0].cycle);
    var l := LoopSpec(p, ticks[0].cyclicAfterDisable).0;
    var t := RunTicks(l, ticks[1..]);
    assert t == RunTicks(s, ticks);
    assert p.cycCnt == s.cycCnt + 1;
    if s.cycCnt == CYCLE_LIMIT {
      assert Disabled in l.log[|p.log|..];
      var k :| |p.log| <= k < |l.log| && l.log[k] == Disabled;
      assert t.log[k] == Disabled;
    } else {
      assert l == DispatchSpec(p);
      assert l.isCyclic && l.cycCnt == s.cycCnt + 1;
      DisableReached(l, ticks[1..]);
      var k :| |l.log| <= k < |t.log| && t.log[k] == Disabled;
      assert t.log[k] == Disabled;
    }
  }

  /** Once AppLoop has run, a failed read never stays visible: the dispatch always resets it. */
  lemma {:induction false} NoReadErrorAfterTicks(s: State, ticks: seq<Tick>)
    requires Sized(s) && ticks != []
    ensures RunTicks(s, ticks).cocResult != ReadError
    decreases |ticks|
  {
    var l := LoopSpec(CyclicProcessSpec(s, ticks[0].cycle), ticks[0].cyclicAfterDisable).0;
    if |ticks| > 1 {
      NoReadErrorAfterTicks(l, ticks[1..]);
    }
  }

  /** The application: its module-level variables and the MCB instance it drives. */
  class App {
    const inst: Instance
    const txPtrs: array<SlotPtr>    // ppTxDatPoint
    const rxPtrs: array<SlotPtr>    // ppRxDatPoint
    var msg: Msg                    // tMcbMsg
    var cocResult: Status           // eCoCResult
    var cycCnt: u32                 // u32CycCnt

    ghost predicate Valid() {
      txPtrs.Length == TX_MAP_NMB && rxPtrs.Length == RX_MAP_NMB && txPtrs != rxPtrs
    }

    function Snapshot(): (s: State)
      reads this, inst, txPtrs, rxPtrs
      ensures Valid() ==> Sized(s)
    {
      State(inst.isCyclic, inst.log, txPtrs[..], rxPtrs[..], msg, cocResult, cycCnt)
    }

    /**
     * The program's static storage before AppInit: everything zero. `dataSize`
     * is the library's MCB_MAX_DATA_SZ and `zeroStatus` the library's status
     * value numbered 0; neither is visible to this model.
     */
    constructor (dataSize: nat, zeroStatus: Status)
      ensures Valid() && fresh(inst) && fresh(txPtrs) && fresh(rxPtrs)
      ensures Snapshot() == State(false, [], [Null, Null], [Null, Null], Msg(0, zeroStatus, Zeroed(dataSize)), zeroStatus, 0)
    {
      inst := new Instance();
      txPtrs := new SlotPtr[TX_MAP_NMB](_ => Null);
      rxPtrs := new SlotPtr[RX_MAP_NMB](_ => Null);
      msg := Msg(0, zeroStatus, Zeroed(dataSize));
      cocResult := zeroStatus;
      cycCnt := 0;
    }

    method AppInit(cyclicAfterInit: bool)
      requires Valid()
      modifies this, inst
      ensures Valid() && Snapshot() == InitSpec(old(Snapshot()), cyclicAfterInit)
    {
      inst.Init(MCB_TIMEOUT, cyclicAfterInit);
      cycCnt := 0;
      cocResult := Standby;
    }

    method AppStart(r: SetupReplies)
      requires Valid()
      modifies this, inst, txPtrs, rxPtrs
      ensures Valid() && Snapshot() == StartSpec(old(Snapshot()), r)
    {
      ghost var s0 := Snapshot();
      msg := Msg(REG_ADDR_VENDOR_ID, Standby, Zeroed(|msg.data|));
      inst.Read(msg);
      // the second read of the do { } while (0) block
      msg := msg.(status := Standby, data := Zeroed(|msg.data|));
      inst.Read(msg);
      ghost var m := VendorIdRequest(|s0.msg.data|);
      assert Snapshot() == s0.(msg := m, log := s0.log + [ReadIssued(m), ReadIssued(m)]);
      var cycSt := SetMcb0CyclicMode(r);
      ghost var u := Snapshot();
      if cycSt > NO_ERROR {
        inst.WriteSlot(rxPtrs[1]);
        assert Snapshot() == u.(log := u.log + [SlotWritten(u.rx[1])]);
      }
    }

    method AppLoop(cyclicAfterDisable: bool) returns (ret: int)
      requires Valid()
      modifies this, inst
      ensures Valid() && (Snapshot(), ret) == LoopSpec(old(Snapshot()), cyclicAfterDisable)
    {
      ret := NO_ERROR as int;
      if cocResult == ReadSuccess || cocResult == Standby {
        msg := msg.(status := Standby, data := Zeroed(|msg.data|));
        inst.Read(msg);
      } else if cocResult == ReadError {
        cocResult := Standby;
      }
      if cycCnt > CYCLE_LIMIT {
        inst.DisableCyclic(cyclicAfterDisable);
        cycCnt := 0;
      }
      if !inst.isCyclic {
        ret := EXIT_APP;
      }
    }

    method AppCyclicProcess(reply: CycleReply)
      requires Valid()
      modifies this, inst
      ensures Valid() && Snapshot() == CyclicProcessSpec(old(Snapshot()), reply)
    {
      if inst.isCyclic {
        cocResult := inst.CyclicProcess(reply);
        cycCnt := Inc32(cycCnt);
        inst.ReadSlot(txPtrs[1]);
      }
    }

    /** The unmap and map calls of SetMcb0CyclicMode, each pointer stored in its slot. */
    method MapRegisters(r: SetupReplies)
      requires Valid()
      modifies inst, txPtrs, rxPtrs
      ensures inst.log == old(inst.log) + MappingCalls(r) && inst.isCyclic == old(inst.isCyclic)
      ensures txPtrs[..] == [r.tx0, r.tx1] && rxPtrs[..] == [r.rx0, r.rx1]
    {
      inst.UnmapAll();
      var p := inst.TxMap(REG_ADDR_STATUS_WORD, REG_SIZE_STATUS_WORD, r.tx0);
      txPtrs[0] := p;
      p := inst.TxMap(REG_ADDR_BUS_VOLT_VALUE, REG_SIZE_BUS_VOLT_VALUE, r.tx1);
      txPtrs[1] := p;
      p := inst.RxMap(REG_ADDR_CONTROL_WORD, REG_SIZE_CONTROL_WORD, r.rx0);
      rxPtrs[0] := p;
      p := inst.RxMap(REG_ADDR_CURR_Q_SETPOINT, REG_SIZE_CURR_Q_SETPOINT, r.rx1);
      rxPtrs[1] := p;
    }

    method SetMcb0CyclicMode(r: SetupReplies) returns (ret: i16)
      requires Valid()
      modifies inst, txPtrs, rxPtrs
      ensures Valid() && (Snapshot(), ret) == ModeSpec(old(Snapshot()), r)
    {
      ret := NO_ERROR;
      if inst.isCyclic {
        ret := CURRENT_STATUS_ERROR;
        assert inst.log + [] == inst.log;
        return;
      }
      ghost var s0 := Snapshot();
      MapRegisters(r);
      ret := CheckAllMapped(txPtrs, ret);
      ret := CheckAllMapped(rxPtrs, ret);
      if r.txMapped != TX_MAP_NMB || r.rxMapped != RX_MAP_NMB {
        ret := MAPPING_ERROR;
        assert inst.log == s0.log + SetupSpec(false, r).calls;
        return;
      }
      ret := inst.EnableCyclic(r.enableRet, r.cyclicAfterEnable);
      assert inst.log == s0.log + SetupSpec(false, r).calls;
    }
  }

  /** One of the scan loops of SetMcb0CyclicMode: stops at the first NULL pointer and reports MAPPING_ERROR. */
  method CheckAllMapped(ptrs: array<SlotPtr>, ret: i16) returns (r: i16)
    ensures r == if Null in ptrs[..] then MAPPING_ERROR else ret
  {
    r := ret;
    var i := 0;
    while i < ptrs.Length
      invariant 0 <= i <= ptrs.Length
      invariant Null !in ptrs[..i] && r == ret
    {
      if ptrs[i] == Null {
        assert ptrs[..][i] == Null;
        r := MAPPING_ERROR;
        break;
      }
      assert ptrs[..i + 1] == ptrs[..i] + [ptrs[i]];
      i := i + 1;
    }
    assert i == ptrs.Length ==> ptrs[..i] == ptrs[..];
  }
}
