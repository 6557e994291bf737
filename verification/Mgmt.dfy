// What the server puts on the management link of a client (src/hnode-srvobj.h).

module Mgmt {
  import opened Basics

  // Packet types on the management link (src/hnode-srvobj.h).
  const MGMT_REQ_PINFO: u32 := 2
  const MGMT_DEBUG_CTRL: u32 := 5
  const MGMT_EVENT_CTRL: u32 := 6
  const MGMT_ACK: u32 := 7
  const MGMT_DEBUG_PKT: u32 := 8
  const MGMT_NODE_PKT: u32 := 10

  /** The server's handle of a provider: its position in the server's provider list. */
  type ProviderRef = nat

  datatype DebugFrame = DebugFrame(kind: u32, seqCnt: u32, serverObjID: u32, epIndex: u32, data: Bytes)

  /** What the server puts on a client's link. */
  datatype MgmtPkt =
    | Ack(ioTag: u32)
    | NodePkt(tag: nat, nodeID: nat, node: ProviderRef)
    | DebugPkt(frame: DebugFrame)
}
