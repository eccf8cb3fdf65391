/**
 * The boundary to the MCB master library (`mcb.h`), whose code is not part of
 * this model. Every value the library hands back to the application (a slot
 * pointer, a mapped count, the return of `Mcb_EnableCyclic`, the config-over-
 * cyclic status, the `isCyclic` flag after a call that may change it) is a
 * parameter of the corresponding stub below, so the application's behaviour is
 * verified for every answer the library could give.
 */
module Mcb {

  /** C integer types used by the application layer. */
  type u8 = x: int | 0 <= x < 0x100
  type u16 = x: int | 0 <= x < 0x1_0000
  type i16 = x: int | -0x8000 <= x < 0x8000
  type u32 = x: int | 0 <= x < 0x1_0000_0000

  const U32_MODULUS := 0x1_0000_0000

  /** Wrap-around increment of a `uint32_t`, as `u32CycCnt++` does. */
  function Inc32(x: u32): (r: u32)
    ensures x < U32_MODULUS - 1 ==> r == x + 1
    ensures x == U32_MODULUS - 1 ==> r == 0
  {
    (x + 1) % U32_MODULUS
  }

  /**
   * Status of a configuration message (`Mcb_EStatus`). The application tells
   * apart standby, a successful read and a failed read; every other value of
   * the library's enumeration (a request still in progress, write replies)
   * is `Other`, identified by its code.
   */
  datatype Status = Standby | ReadSuccess | ReadError | Other(code: nat)

  /** A configuration message (`Mcb_TMsg`): register address, status, data words. */
  datatype Msg = Msg(addr: u16, status: Status, data: seq<u16>)

  /** `MCB_MAX_DATA_SZ` words, all zero: what the application's `memset` leaves. */
  function Zeroed(n: nat): (d: seq<u16>)
    ensures |d| == n && forall i :: 0 <= i < n ==> d[i] == 0
  {
    seq(n, _ => 0)
  }

  /** A pointer into the library's cyclic buffer, as returned by a map call. */
  datatype SlotPtr = Null | Ptr(id: nat)

  /** One interaction of the application with the library or its slot memory. */
  datatype Event =
    | Initialised(timeout: u32)          // Mcb_Init
    | Unmapped                           // Mcb_UnmapAll
    | TxMapped(addr: u16, size: nat, ptr: SlotPtr)   // Mcb_TxMap, with the pointer it returned
    | RxMapped(addr: u16, size: nat, ptr: SlotPtr)   // Mcb_RxMap, with the pointer it returned
    | Enabled                            // Mcb_EnableCyclic
    | Disabled                           // Mcb_DisableCyclic
    | Exchanged                          // Mcb_CyclicProcess
    | ReadIssued(msg: Msg)               // Mcb_Read, with the message as handed over
    | SlotWritten(slot: SlotPtr)         // memcpy into a mapped slot
    | SlotRead(slot: SlotPtr)            // memcpy out of a mapped slot

  /** Number of occurrences of `e` in `log`. */
  function Count(log: seq<Event>, e: Event): (n: nat)
    ensures n <= |log|
    ensures n == 0 <==> e !in log
  {
    if log == [] then 0
    else (if log[|log| - 1] == e then 1 else 0) + Count(log[..|log| - 1], e)
  }

  lemma {:induction false} CountAppend(a: seq<Event>, b: seq<Event>, e: Event)
    ensures Count(a + b, e) == Count(a, e) + Count(b, e)
    decreases |b|
  {
    if b == [] {
      assert a + b == a;
    } else {
      assert (a + b)[..|a + b| - 1] == a + b[..|b| - 1];
      CountAppend(a, b[..|b| - 1], e);
    }
  }

  /** What `Mcb_CyclicProcess` hands back: the CoC status it writes and the mode afterwards. */
  datatype CycleReply = CycleReply(coc: Status, cyclicAfter: bool)

  /**
   * The MCB instance (`Mcb_TInst`) as far as the application sees it: the
   * `isCyclic` flag it reads, and the log of calls made on it.
   */
  class Instance {
    var isCyclic: bool
    var log: seq<Event>

    /** Static zero initialisation of the instance. */
    constructor ()
      ensures !isCyclic && log == []
    {
      isCyclic := false;
      log := [];
    }

    method Init(timeout: u32, cyclicAfter: bool)
      modifies this
      ensures log == old(log) + [Initialised(timeout)]
      ensures isCyclic == cyclicAfter
    {
      log := log + [Initialised(timeout)];
      isCyclic := cyclicAfter;
    }

    method UnmapAll()
      modifies this
      ensures log == old(log) + [Unmapped]
      ensures isCyclic == old(isCyclic)
    {
      log := log + [Unmapped];
    }

    /** `reply` is the pointer the library returns (NULL on failure). */
    method TxMap(addr: u16, size: nat, reply: SlotPtr) returns (p: SlotPtr)
      modifies this
      ensures log == old(log) + [TxMapped(addr, size, reply)]
      ensures isCyclic == old(isCyclic) && p == reply
    {
      log := log + [TxMapped(addr, size, reply)];
      p := reply;
    }

    method RxMap(addr: u16, size: nat, reply: SlotPtr) returns (p: SlotPtr)
      modifies this
      ensures log == old(log) + [RxMapped(addr, size, reply)]
      ensures isCyclic == old(isCyclic) && p == reply
    {
      log := log + [RxMapped(addr, size, reply)];
      p := reply;
    }

    /** `reply` is the legacy return value: a cyclic size, or a negative error code. */
    method EnableCyclic(reply: i16, cyclicAfter: bool) returns (r: i16)
      modifies this
      ensures log == old(log) + [Enabled]
      ensures isCyclic == cyclicAfter && r == reply
    {
      log := log + [Enabled];
      isCyclic := cyclicAfter;
      r := reply;
    }

    method DisableCyclic(cyclicAfter: bool)
      modifies this
      ensures log == old(log) + [Disabled]
      ensures isCyclic == cyclicAfter
    {
      log := log + [Disabled];
      isCyclic := cyclicAfter;
    }

    method CyclicProcess(reply: CycleReply) returns (coc: Status)
      modifies this
      ensures log == old(log) + [Exchanged]
      ensures isCyclic == reply.cyclicAfter && coc == reply.coc
    {
      log := log + [Exchanged];
      isCyclic := reply.cyclicAfter;
      coc := reply.coc;
    }

    method Read(msg: Msg)
      modifies this
      ensures log == old(log) + [ReadIssued(msg)]
      ensures isCyclic == old(isCyclic)
    {
      log := log + [ReadIssued(msg)];
    }

    method WriteSlot(slot: SlotPtr)
      modifies this
      ensures log == old(log) + [SlotWritten(slot)]
      ensures isCyclic == old(isCyclic)
    {
      log := log + [SlotWritten(slot)];
    }

    method ReadSlot(slot: SlotPtr)
      modifies this
      ensures log == old(log) + [SlotRead(slot)]
      ensures isCyclic == old(isCyclic)
    {
      log := log + [SlotRead(slot)];
    }
  }
}
