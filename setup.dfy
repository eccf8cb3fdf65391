/**
 * What `SetMcb0CyclicMode` does, as seen from outside: both application
 * variants unmap, map the same two Tx and two Rx registers in the same order,
 * check the mapped counts and only then enable cyclic mode. The result follows
 * the legacy sign convention: a negative error code, or whatever
 * `Mcb_EnableCyclic` returns (a positive cyclic size on success).
 *
 * The NULL-pointer scan that both variants run before the count check sets
 * MAPPING_ERROR, but the count check then either overwrites that value
 * (with Mcb_EnableCyclic's return) or sets MAPPING_ERROR itself, so the
 * pointers never influence the result (SetupIgnoresNullPointers). The
 * pointers only matter through where they are stored: each map call is
 * logged with the pointer it returned, and the application keeps that
 * pointer in the slot of the same position.
 */
module CyclicSetup {
  import opened Mcb
  import opened Registers

  /** Legacy error codes of the application layer. */
  const NO_ERROR: i16 := 0
  const CURRENT_STATUS_ERROR: i16 := -1
  const MAPPING_ERROR: i16 := -2

  /** Number of mapped registers per direction. */
  const TX_MAP_NMB := 2
  const RX_MAP_NMB := 2

  /** The library's answers during one setup attempt. */
  datatype SetupReplies = SetupReplies(
    tx0: SlotPtr, tx1: SlotPtr,    // returned by the two Mcb_TxMap calls
    rx0: SlotPtr, rx1: SlotPtr,    // returned by the two Mcb_RxMap calls
    txMapped: u8, rxMapped: u8,    // the Tx and Rx mapped counts read after mapping
    enableRet: i16,                // returned by Mcb_EnableCyclic
    cyclicAfterEnable: bool)       // isCyclic after Mcb_EnableCyclic

  /** Result of a setup attempt: the returned code, the library calls made, whether EnableCyclic was called. */
  datatype SetupOutcome = SetupOutcome(ret: i16, calls: seq<Event>, enabled: bool)

  /** The unmap and map calls of a setup that was not refused, each with the pointer it returned. */
  function MappingCalls(r: SetupReplies): (calls: seq<Event>)
    ensures |calls| == 5
  {
    [Unmapped,
     TxMapped(REG_ADDR_STATUS_WORD, REG_SIZE_STATUS_WORD, r.tx0),
     TxMapped(REG_ADDR_BUS_VOLT_VALUE, REG_SIZE_BUS_VOLT_VALUE, r.tx1),
     RxMapped(REG_ADDR_CONTROL_WORD, REG_SIZE_CONTROL_WORD, r.rx0),
     RxMapped(REG_ADDR_CURR_Q_SETPOINT, REG_SIZE_CURR_Q_SETPOINT, r.rx1)]
  }

  function SetupSpec(wasCyclic: bool, r: SetupReplies): (out: SetupOutcome)
    // refused while cyclic, before any library call
    ensures wasCyclic ==> out.ret == CURRENT_STATUS_ERROR && out.calls == []
    // otherwise unmap first, then the fixed layout, in this order, each call
    // logged with the pointer the library returned for it
    ensures !wasCyclic ==>
      |out.calls| >= 5 &&
      out.calls[0] == Unmapped &&
      out.calls[1] == TxMapped(REG_ADDR_STATUS_WORD, REG_SIZE_STATUS_WORD, r.tx0) &&
      out.calls[2] == TxMapped(REG_ADDR_BUS_VOLT_VALUE, REG_SIZE_BUS_VOLT_VALUE, r.tx1) &&
      out.calls[3] == RxMapped(REG_ADDR_CONTROL_WORD, REG_SIZE_CONTROL_WORD, r.rx0) &&
      out.calls[4] == RxMapped(REG_ADDR_CURR_Q_SETPOINT, REG_SIZE_CURR_Q_SETPOINT, r.rx1)
    // EnableCyclic is called, as the last call, exactly when both counts are right
    ensures out.enabled <==> !wasCyclic && r.txMapped == TX_MAP_NMB && r.rxMapped == RX_MAP_NMB
    ensures (Enabled in out.calls) <==> out.enabled
    ensures out.enabled ==> |out.calls| == 6 && out.calls[5] == Enabled
    ensures !wasCyclic && !out.enabled ==> |out.calls| == 5 && out.ret == MAPPING_ERROR
    ensures out.enabled ==> out.ret == r.enableRet
    // a strictly positive result can only come from Mcb_EnableCyclic
    ensures out.ret > 0 ==> out.enabled && out.ret == r.enableRet
  {
    if wasCyclic then
      SetupOutcome(CURRENT_STATUS_ERROR, [], false)
    else
      var mapping := MappingCalls(r);
      if r.txMapped != TX_MAP_NMB || r.rxMapped != RX_MAP_NMB then
        SetupOutcome(MAPPING_ERROR, mapping, false)
      else
        SetupOutcome(r.enableRet, mapping + [Enabled], true)
  }

  /** The slot pointers after a setup attempt: reassigned unless the attempt was refused. */
  function PointersAfter(wasCyclic: bool, before: seq<SlotPtr>, p0: SlotPtr, p1: SlotPtr): (after: seq<SlotPtr>)
    ensures wasCyclic ==> after == before
    ensures !wasCyclic ==> |after| == 2 && after[0] == p0 && after[1] == p1
  {
    if wasCyclic then before else [p0, p1]
  }

  /**
   * The NULL checks cannot change the outcome: two library replies that
   * differ only in the returned slot pointers give the same result and the
   * same decision to enable. This holds by construction, since SetupSpec never
   * looks at a pointer except to log it. The evidence that the code behaves so
   * is that both App.SetMcb0CyclicMode methods, which run the NULL scans, are
   * proved to meet SetupSpec through their ModeSpec.
   */
  lemma SetupIgnoresNullPointers(wasCyclic: bool, r: SetupReplies, tx0: SlotPtr, tx1: SlotPtr, rx0: SlotPtr, rx1: SlotPtr)
    ensures var other := SetupSpec(wasCyclic, r.(tx0 := tx0, tx1 := tx1, rx0 := rx0, rx1 := rx1));
      SetupSpec(wasCyclic, r).ret == other.ret && SetupSpec(wasCyclic, r).enabled == other.enabled
  {
  }

  /**
   * A concrete case: the second Rx map returns NULL, yet the counts read 2
   * and Mcb_EnableCyclic returns a cyclic size, so the setup reports success.
   */
  lemma NullRxSlotReportedAsSuccess()
    ensures SetupSpec(false, SetupReplies(Ptr(0), Ptr(1), Ptr(2), Null, 2, 2, 12, true)).ret == 12
  {
  }
}
