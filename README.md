# MCB master examples: cyclic setup and config-over-cyclic loop

This project models the application layer of two example programs for the
master side of the Motion Control Bus (MCB). Each program drives one MCB instance towards a
motor-control slave:

- `mcb-master-coc.c` (module `McbMasterCoc`) runs cyclic process-data transfers and
  carries configuration reads over them ("config-over-cyclic", CoC). The periodic
  `AppCyclicProcess` runs one transfer. That transfer also writes the status of the
  pending configuration read into `eCoCResult`. The main `AppLoop` looks at that status:
  - after a successful read, or when idle, it clears the message and issues a new read;
  - after a failed read, it returns the status to standby;
  - while a read is in progress, it does nothing.

  Once more than 10000 transfers have been counted, `AppLoop` disables cyclic mode and
  resets the counter.
- `mcb-master-cyclic.c` (module `McbMasterCyclic`) runs one transfer per `AppLoop`
  call and counts it in a 32-bit counter. Past 0xFFFF cycles it disables cyclic mode on
  every call.

Both programs enter cyclic mode through `SetMcb0CyclicMode`. It does these steps in order:

1. It refuses if the instance is already cyclic.
2. It unmaps everything.
3. It maps the status word and the bus voltage as Tx registers, then the control word and
   the quadrature-current set-point as Rx registers.
4. It checks the returned slot pointers and the mapped counts.
5. Only if both counts are right does it call `Mcb_EnableCyclic`.

The result uses the legacy sign convention: a negative error code, or a positive cyclic
size on success. The two programs scan the pointers differently, but their observable
behaviour is the same. It is specified once, in `CyclicSetup.SetupSpec`.

The MCB library (`mcb.h`) is not part of this model. Module `Mcb` is its boundary. The
class `Mcb.Instance` holds the instance's `isCyclic` flag and a log of every library call
and slot access the application makes. Every value the library hands back is a parameter
of the corresponding call:

- the slot pointer (NULL or not) returned by each map call;
- the mapped counts read after mapping;
- the return value of `Mcb_EnableCyclic`;
- the CoC status written by `Mcb_CyclicProcess`;
- `isCyclic` after `Mcb_Init`, `Mcb_EnableCyclic`, `Mcb_DisableCyclic` and `Mcb_CyclicProcess`.

The properties below hold for every such answer. The model does not assume that
disabling clears `isCyclic` or that enabling sets it. It does assume that unmapping,
mapping, reading and slot accesses leave `isCyclic` as it was (see "Left out").

Each program is a class (`App`) with the program's module-level variables as fields:

- the pointer arrays `ppTxDatPoint`/`ppRxDatPoint` are `array`s of length 2;
- `tMcbMsg`, `eCoCResult` and `u32CycCnt` are plain fields;
- the instance is a `const` reference.

Each method is proved against a pure step function on a snapshot of that state
(`Snapshot() == XSpec(old(Snapshot()), replies)`). The step functions carry the
properties, and lemmas over sequences of steps state what holds across many periods.
The 32-bit counter wraps explicitly (`Mcb.Inc32`).

A quirk of the setup, modelled as written: the NULL-pointer scan sets MAPPING_ERROR, but
that value is always overwritten. If the counts are wrong, it is replaced by MAPPING_ERROR
again. If the counts are right, it is replaced by `Mcb_EnableCyclic`'s return. So a NULL
slot pointer never changes the result (`CyclicSetup.SetupIgnoresNullPointers`). A setup
with a NULL second Rx pointer can therefore report success
(`CyclicSetup.NullRxSlotReportedAsSuccess`). `AppStart` then writes the set-point through
that pointer: its step function logs `SlotWritten(Null)` as the last event
(`StartWritesThroughNullRxSlot` in both program modules). Each map call is logged with the
pointer it returned. `ModeSpec` ties every slot to the register it was mapped for: Tx slot 0
holds the status word's pointer, Tx slot 1 the bus voltage's, Rx slot 0 the control word's
and Rx slot 1 the Q set-point's.

## Model

| member | source | states |
|---|---|---|
| `Mcb.Inc32` | application/mcb-master-coc.c:148 | `u32CycCnt++` on a `uint32_t`: one more, except that 0xFFFFFFFF wraps to 0 |
| `CyclicSetup.SetupSpec` | application/mcb-master-coc.c:155-216 | Already cyclic: returns -1 with no library call at all. Otherwise: unmap, then map Tx 0x011/2, Tx 0x060/4, Rx 0x010/2, Rx 0x01A/4 in that order, each call logged with the pointer it returned. Mcb_EnableCyclic is called, as the last call, exactly when both mapped counts are 2; otherwise the result is -2. When enabled, the result is Mcb_EnableCyclic's return. A positive result only comes from Mcb_EnableCyclic |
| `CyclicSetup.SetupIgnoresNullPointers` | application/mcb-master-coc.c:185-211 | The NULL-pointer error is always overwritten: replies that differ only in the returned slot pointers give the same result and the same decision to call Mcb_EnableCyclic |
| `CyclicSetup.NullRxSlotReportedAsSuccess` | application/mcb-master-cyclic.c:138-155 | With a NULL second Rx pointer, both counts 2 and Mcb_EnableCyclic returning 12, the setup returns 12 |
| `CyclicSetup.PointersAfter` | application/mcb-master-coc.c:172-183 | The pointer arrays keep their old contents when the setup is refused, and otherwise hold the two pointers the map calls returned, in call order |
| `McbMasterCoc.InitSpec` | application/mcb-master-coc.c:59-71 | After AppInit the cycle counter is 0 and the CoC result is STANDBY; Mcb_Init is called with timeout 0xFFFFFFFF; pointers and message are untouched |
| `McbMasterCoc.ModeSpec` | application/mcb-master-coc.c:155-216 | SetMcb0CyclicMode on the whole state. Result and appended calls are those of SetupSpec. A refused setup leaves the whole state unchanged. Otherwise Tx slot 0 holds the pointer returned by the status-word map call, Tx slot 1 the bus voltage's, Rx slot 0 the control word's, Rx slot 1 the Q set-point's. isCyclic changes only through Mcb_EnableCyclic. The message, CoC result and counter are untouched |
| `McbMasterCoc.StartSpec` | application/mcb-master-coc.c:73-107 | AppStart: two reads of the vendor-id register (0x6E0), each handed over with STANDBY status and zeroed data. Then the setup's calls. The Q set-point is written into Rx slot 1 exactly when the setup result is strictly positive. The new isCyclic and pointer arrays are those the setup leaves. Counter and CoC result unchanged |
| `McbMasterCoc.StartWritesThroughNullRxSlot` | application/mcb-master-coc.c:98-106 | With a NULL second Rx pointer, both counts 2 and a positive Mcb_EnableCyclic return, AppStart's last action is a write through the NULL slot |
| `McbMasterCoc.DispatchSpec` | application/mcb-master-coc.c:116-126 | READ_SUCCESS or STANDBY: the message is reset to STANDBY with zeroed data and exactly one read of the same register is issued. READ_ERROR: the CoC result becomes STANDBY and nothing is issued. Any other status: nothing changes. Afterwards the CoC result is never READ_ERROR |
| `McbMasterCoc.PolicySpec` | application/mcb-master-coc.c:128-139 | Counter above 10000: Mcb_DisableCyclic is called and the counter reset to 0; otherwise nothing changes. Returns EXIT_APP (-100) exactly when isCyclic reads false afterwards, else NO_ERROR. The counter ends at most 10000 |
| `McbMasterCoc.LoopSpec` | application/mcb-master-coc.c:109-140 | One AppLoop: the CoC result is never READ_ERROR afterwards. The counter is at most 10000. Mcb_DisableCyclic is called exactly when the counter was above 10000. EXIT_APP exactly when not cyclic. The pointers are untouched |
| `McbMasterCoc.CyclicProcessSpec` | application/mcb-master-coc.c:142-153 | Not cyclic: nothing happens. Cyclic: exactly one transfer, the CoC status it reports is stored, the counter is incremented (wrapping), and Tx slot 1 (bus voltage) is read |
| `McbMasterCoc.DisableReached` | application/mcb-master-coc.c:128-153 | While the library keeps cyclic mode on, take a counter at or below 10000 (as after AppInit). Within 10001 - counter periods of transfer-then-loop, AppLoop calls Mcb_DisableCyclic |
| `McbMasterCoc.NoReadErrorAfterTicks` | application/mcb-master-coc.c:116-126 | After any non-empty run of periods, the CoC result is not READ_ERROR |
| `McbMasterCoc.App.MapRegisters` | application/mcb-master-coc.c:167-182 | The unmap and the four map calls are logged in order, each with the pointer it returned. Tx slots 0 and 1 hold the status word's and bus voltage's pointers, Rx slots 0 and 1 the control word's and Q set-point's. isCyclic is unchanged |
| `McbMasterCoc.CheckAllMapped` | application/mcb-master-coc.c:185-202 | The scan loop that breaks at the first NULL: the result is MAPPING_ERROR if some pointer is NULL, else the value it was given |
| `McbMasterCoc.App.constructor` | application/mcb-master-coc.c:40-57 | Static zero initialisation: NULL pointers, counter 0, not cyclic, empty log |
| `McbMasterCoc.App.AppInit` | application/mcb-master-coc.c:59-71 | The new state is InitSpec of the old |
| `McbMasterCoc.App.AppStart` | application/mcb-master-coc.c:73-107 | The new state is StartSpec of the old |
| `McbMasterCoc.App.AppLoop` | application/mcb-master-coc.c:109-140 | New state and return value are LoopSpec of the old state |
| `McbMasterCoc.App.AppCyclicProcess` | application/mcb-master-coc.c:142-153 | The new state is CyclicProcessSpec of the old |
| `McbMasterCoc.App.SetMcb0CyclicMode` | application/mcb-master-coc.c:155-216 | New state and result are ModeSpec of the old state |
| `McbMasterCyclic.InitSpec` | application/mcb-master-cyclic.c:53-65 | After AppInit the counter is 0 and the CoC result STANDBY; Mcb_Init is called with timeout 500 |
| `McbMasterCyclic.ModeSpec` | application/mcb-master-cyclic.c:108-160 | SetMcb0CyclicMode on the whole state. Result and appended calls are those of SetupSpec. A refused setup leaves the whole state unchanged. Otherwise Tx slot 0 holds the pointer returned by the status-word map call, Tx slot 1 the bus voltage's, Rx slot 0 the control word's, Rx slot 1 the Q set-point's. isCyclic changes only through Mcb_EnableCyclic. The CoC result and counter are untouched |
| `McbMasterCyclic.StartSpec` | application/mcb-master-cyclic.c:67-82 | AppStart: the setup's calls, then the set-point written into Rx slot 1 exactly when the setup result is strictly positive. The new isCyclic and pointer arrays are those the setup leaves. Counter and CoC result unchanged |
| `McbMasterCyclic.StartWritesThroughNullRxSlot` | application/mcb-master-cyclic.c:73-81 | With a NULL second Rx pointer, both counts 2 and a positive Mcb_EnableCyclic return, AppStart's last action is a write through the NULL slot |
| `McbMasterCyclic.LoopSpec` | application/mcb-master-cyclic.c:84-106 | Every AppLoop, cyclic or not: exactly one transfer, Tx slot 1 read, the counter incremented by one (wrapping), never reset. Mcb_DisableCyclic is called exactly when the new counter exceeds 0xFFFF. Returns -1 exactly when isCyclic reads false afterwards, else 0 |
| `McbMasterCyclic.RunCounter` | application/mcb-master-cyclic.c:88-90 | After n AppLoop calls the counter has advanced by n modulo 2^32 |
| `McbMasterCyclic.OneTransferPerLoop` | application/mcb-master-cyclic.c:88-99 | One AppLoop logs exactly one cyclic transfer |
| `McbMasterCyclic.RunTransfers` | application/mcb-master-cyclic.c:88-90 | After n AppLoop calls exactly n transfers have been made |
| `McbMasterCyclic.DisablesEveryLoopPastLimit` | application/mcb-master-cyclic.c:95-99 | Once the counter is at least 0xFFFF, every one of the next n AppLoop calls disables cyclic mode, as long as the counter does not wrap |
| `McbMasterCyclic.WrapStopsDisabling` | application/mcb-master-cyclic.c:90-99 | From a counter of 0xFFFFFFFF the next call wraps the counter to 0 and does not disable |
| `McbMasterCyclic.RunLoopsAppend` | application/mcb-master-cyclic.c:84-106 | Consecutive AppLoop calls compose: running a then b is running a + b |
| `McbMasterCyclic.QuietBelowLimit` | application/mcb-master-cyclic.c:90-99 | No AppLoop call disables cyclic mode while the counter stays at or below 0xFFFF |
| `McbMasterCyclic.WrapPausesDisabling` | application/mcb-master-cyclic.c:90-99 | From a counter of 0xFFFFFFFF, the next 0x10000 calls never disable, and the call after them disables again |
| `McbMasterCyclic.App.MapRegisters` | application/mcb-master-cyclic.c:120-135 | The unmap and the four map calls are logged in order, each with the pointer it returned. Tx slots 0 and 1 hold the 0x011 and 0x060 pointers, Rx slots 0 and 1 the 0x010 and 0x01A pointers. isCyclic is unchanged |
| `McbMasterCyclic.CheckPairsMapped` | application/mcb-master-cyclic.c:138-146 | The combined scan loop without break: MAPPING_ERROR if any Tx or Rx pointer is NULL, else the value it was given |
| `McbMasterCyclic.App.constructor` | application/mcb-master-cyclic.c:37-51 | Static zero initialisation: NULL pointers, counter 0, not cyclic, empty log |
| `McbMasterCyclic.App.AppInit` | application/mcb-master-cyclic.c:53-65 | The new state is InitSpec of the old |
| `McbMasterCyclic.App.AppStart` | application/mcb-master-cyclic.c:67-82 | The new state is StartSpec of the old |
| `McbMasterCyclic.App.AppLoop` | application/mcb-master-cyclic.c:84-106 | New state and return value are LoopSpec of the old state |
| `McbMasterCyclic.App.SetMcb0CyclicMode` | application/mcb-master-cyclic.c:108-160 | New state and result are ModeSpec of the old state |

## Left out

- The MCB library (`Mcb_Init`, `Mcb_TxMap`, `Mcb_RxMap`, `Mcb_UnmapAll`, `Mcb_EnableCyclic`, `Mcb_DisableCyclic`, `Mcb_CyclicProcess`, `Mcb_Read`, `Mcb_GetInfo`) is not part of this model. Its calls are logged and their results are parameters. Slot offsets, capacities, frame contents and how a configuration request travels inside a transfer are not modelled.
- The library's own writes into `tMcbMsg` (the reply data of a read) are not modelled. The message field holds what the application last wrote, and each logged read records the message as handed over.
- `McbAL_Init`, `HAL_Delay` and the STM32 glue in `common/mcb_al.c` (reset pulses, SPI transfer, the IRQ busy-wait, the CRC stub) are hardware access, not application logic.
- Floating-point values are not modelled: the set-point 1.1 copied into Rx slot 1 and the bus voltage copied out of Tx slot 1 (`fVBusRead`, `u32VBusRead`). Only the slot access itself is logged.
- `application/mcb-master-config.c` is not modelled: three straight-line library calls, and its `AppLoop` always returns NO_ERROR.
- `volatile`, interrupts and timing are not modelled. In the CoC program, `McbMasterCoc.RunTicks` assumes each period runs one `AppCyclicProcess` and then one `AppLoop`. Other interleavings are covered only by the single-step functions.
- The library's status value numbered 0 and `MCB_MAX_DATA_SZ` are not visible. They are constructor parameters: static zero initialisation gives `eCoCResult` and the message status that value.
- A general register map with capacity limits, offset packing and typed slot accessors is not in these sources. Neither is a Busy rejection of a second configuration request, nor a selectable re-poll policy. The model follows the code instead. The code re-issues the same read whenever the status is READ_SUCCESS or STANDBY. It has no notion of Busy. `AppLoop` never changes `eCoCResult` on success, so two loops without a transfer in between issue two reads.
- The counter of the plain cyclic program is modelled as written: a `uint32_t` that neither saturates nor is wide enough never to wrap. `WrapPausesDisabling` shows the consequence: after the wrap, disabling pauses for 0x10000 calls and resumes once the counter passes 0xFFFF again.
- The library calls `Mcb_UnmapAll`, `Mcb_TxMap`, `Mcb_RxMap`, `Mcb_Read` and the slot accesses are assumed to leave `isCyclic` unchanged. Only `Mcb_Init`, `Mcb_EnableCyclic`, `Mcb_DisableCyclic` and `Mcb_CyclicProcess` take it as a reply. `McbMasterCoc.DisableReached` relies on this, because AppLoop's dispatch issues a read before the counter check.
