/** What two rsockets exchange: the 32-bit message words, the work requests an
    endpoint posts on its send queue, and the machine-integer views the code
    applies to its counters. */
module Wire {
  import opened Common

  type byte = b: int | 0 <= b < 256

  const OLAP_START_SIZE := 2048
  const MAX_TRANSFER := 65536
  const SNDLOWAT := 2048
  const QP_MAX_SIZE := 0xFFFE
  const QP_CTRL_SIZE := 4
  const SGL_SIZE := 2
  /** sizeof(struct rs_iomap) and sizeof(struct rs_sge) */
  const IOMAP_BYTES := 24
  const SGE_BYTES := 16

  const OP_DATA := 0
  const OP_WRITE := 2
  const OP_SGL := 4
  const OP_IOMAP_SGL := 6
  const OP_CTRL := 7
  const OP_UNIT := 0x2000_0000

  const CTRL_DISCONNECT := 0
  const CTRL_KEEPALIVE := 1
  const CTRL_SHUTDOWN := 2

  /** rs_msg_set: the operation in the top three bits, the data below. */
  function MsgSet(op: nat, data: nat): nat
    requires op < 8 && data < OP_UNIT
  {
    op * OP_UNIT + data
  }

  function MsgOp(msg: nat): nat {
    msg / OP_UNIT
  }

  function MsgData(msg: nat): nat {
    msg % OP_UNIT
  }

  lemma MsgRoundTrip(op: nat, data: nat)
    requires op < 8 && data < OP_UNIT
    ensures MsgOp(MsgSet(op, data)) == op && MsgData(MsgSet(op, data)) == data
    ensures MsgSet(op, data) < 0x1_0000_0000
  {
  }

  type u16 = x: int | 0 <= x < 0x1_0000

  type u32 = x: int | 0 <= x < 0x1_0000_0000

  function U16(x: int): u16 {
    x % 0x1_0000
  }

  /** Wrapping to `unsigned int`, for the sums and differences the code forms. */
  function U32(x: int): u32
    requires -0x1_0000_0000 <= x < 0x2_0000_0000
  {
    if x < 0 then x + 0x1_0000_0000 else if x < 0x1_0000_0000 then x else x - 0x1_0000_0000
  }

  /** The value of a C `short` / `int` holding these bits (two's complement). */
  function S16(x: u16): int {
    if x >= 0x8000 then x - 0x1_0000 else x
  }

  function S32(x: u32): int {
    if x >= 0x8000_0000 then x - 0x1_0000_0000 else x
  }

  /** A buffer the peer may write: an offset into its receive buffer and a length. */
  datatype Sge = Sge(addr: int, length: int)

  /** What a work request moves. */
  datatype Datum = Bytes(bytes: seq<byte>) | SgeVal(sge: Sge)

  /** Where the adapter fetches it from. Inline data is copied when the request
      is posted; everything else is read from the endpoint's memory later. A
      `Gather` is the one- or two-entry list ssgl: `first` bytes at `addr`, then
      `second` bytes at the start of sbuf. */
  datatype Source =
    | NoSource
    | InlineBytes(bytes: seq<byte>)
    | InlineSge(sge: Sge)
    | Gather(addr: nat, first: nat, second: nat)
    | CtrlBuf(slot: nat)

  /** Where it lands: the peer's receive buffer, a slot of its target_sgl, a slot of
      its target_iomap, or memory the peer mapped for direct access. */
  datatype Target = NoTarget | PeerRbuf(addr: int) | PeerSgl(slot: nat) | PeerIomap(slot: nat) | PeerMapped

  /** History attached to a request; no step reads it. `intended` is what the
      request is meant to carry and `ringUse` is how far posting it moved the
      cursor of the copy ring. */
  datatype Intent = Intent(intended: Option<Datum>, ringUse: nat)

  /** A posted work request. `id` is the low word of wr_id, `msgSend` is
      RS_WR_ID_FLAG_MSG_SEND and `msg` is the word the peer is notified with. */
  datatype Wr = Wr(id: nat, msgSend: bool, src: Source, dst: Target, msg: Option<nat>, intent: Intent)

  /** rs_post_msg */
  function PostMsg(msg: nat): Wr {
    Wr(msg, false, NoSource, NoTarget, Some(msg), Intent(None, 0))
  }

  /** rs_post_write */
  function PostWrite(src: Source, dst: Target, id: nat, intent: Intent): Wr {
    Wr(id, false, src, dst, None, intent)
  }

  /** rs_post_write_msg: one request with immediate data, or a write followed by
      a send when the transport has no immediate data. */
  function PostWriteMsg(msgSend: bool, src: Source, dst: Target, msg: nat, intent: Intent): (wrs: seq<Wr>)
    requires msg < 8 * OP_UNIT
  {
    if !msgSend then
      [Wr(msg, false, src, dst, Some(msg), intent)]
    else
      [PostWrite(src, dst, msg, intent),
       Wr(MsgSet(MsgOp(msg), 0), true, NoSource, NoTarget, Some(msg), Intent(None, 0))]
  }
}
