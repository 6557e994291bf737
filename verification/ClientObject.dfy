// The client object of src/hnode-srvobj-client.c: node records are objects updated in place, and
// `updatingNode` aliases one of them. Every method is proved to have the effect that ClientReport gives it.

module ClientObject {
  import opened Basics
  import opened Mgmt
  import opened ClientReport

  class NodeRecord {
    var nodeID: nat
    var state: NodeState
    const node: ProviderRef

    constructor (nodeID: nat, node: ProviderRef)
      ensures this.nodeID == nodeID && state == New && this.node == node
    {
      this.nodeID, this.state, this.node := nodeID, New, node;
    }
  }

  class Client {
    var state: LinkState
    var reportNodes: bool
    var debug: bool
    var event: bool
    var updateNodeCount: int
    var nextNodeID: nat
    var nodeList: seq<NodeRecord>
    var updatingNode: NodeRecord?
    var nextIOTag: nat
    var txPackets: seq<MgmtPkt>
    ghost var sent: seq<MgmtPkt>

    /** The objects this client is made of. */
    ghost function Repr(): (r: set<object>)
      reads this
      ensures this in r && forall i :: 0 <= i < |nodeList| ==> nodeList[i] in r
    {
      {this as object} + set i | 0 <= i < |nodeList| :: nodeList[i] as object
    }

    ghost predicate Valid()
      reads this, Repr()
    {
      && (forall i :: 0 <= i < |nodeList| ==> nodeList[i].nodeID == i)
      && nextNodeID == |nodeList|
      && (updatingNode != null ==> updatingNode in nodeList)
      && (state == Updating ==> updatingNode != null)
    }

    ghost function Entries(list: seq<NodeRecord>): (es: seq<NodeEntry>)
      reads list
      ensures |es| == |list|
      ensures forall i :: 0 <= i < |list| ==> es[i] == NodeEntry(list[i].nodeID, list[i].state, list[i].node)
    {
      seq(|list|, i requires 0 <= i < |list| reads list => NodeEntry(list[i].nodeID, list[i].state, list[i].node))
    }

    ghost function Value(): Report
      requires Valid()
      reads this, Repr()
    {
      Report(state, reportNodes, debug, event, updateNodeCount, nextNodeID, Entries(nodeList),
             if updatingNode == null then None else Some(updatingNode.nodeID), nextIOTag, txPackets, sent)
    }

    constructor ()
      ensures Valid() && Value() == FRESH && fresh(Repr())
    {
      state, reportNodes, debug, event := Stopped, false, false, false;
      updateNodeCount, nextNodeID, nodeList, updatingNode, nextIOTag := 0, 0, [], null, 0;
      txPackets, sent := [], [];
    }

    method SendPacket(p: MgmtPkt)
      modifies this`txPackets, this`sent
      ensures txPackets == old(txPackets) + [p] && sent == old(sent) + [p]
    {
      txPackets := txPackets + [p];
      sent := sent + [p];
    }

    /** The scan of the node list for a record that still needs an update. */
    method FindNew() returns (i: nat)
      requires Valid()
      ensures i == FirstNew(Value().nodeList)
    {
      i := 0;
      while i < |nodeList| && nodeList[i].state != New
        invariant i <= |nodeList|
        invariant forall k :: 0 <= k < i ==> Value().nodeList[k].state != New
      {
        i := i + 1;
      }
      FirstNewIs(Value().nodeList, i);
    }

    method ExposeNode(record: NodeRecord)
      requires Valid() && record in nodeList
      modifies this, record
      ensures Valid() && nodeList == old(nodeList)
      ensures Value() == Expose(old(Value()), old(record.nodeID))
    {
      ghost var entries := Entries(nodeList);
      ghost var i := record.nodeID;
      var p := NodePkt(nextIOTag, record.nodeID, record.node);
      nextIOTag := nextIOTag + 1;
      record.state := Exposing;
      SendPacket(p);
      updatingNode := record;
      state := Updating;
      assert Entries(nodeList) == entries[i := entries[i].(state := Exposing)];
    }

    method BuildUpdatePacket()
      requires Valid()
      modifies Repr()
      ensures Valid() && nodeList == old(nodeList) && Value() == BuildUpdate(old(Value()))
    {
      if updateNodeCount != 0 {
        var i := FindNew();
        if i < |nodeList| {
          ExposeNode(nodeList[i]);
        }
      }
    }

    method AddNode(node: ProviderRef)
      requires Valid()
      modifies Repr()
      ensures Valid() && Value() == ClientReport.AddNode(old(Value()), node)
      ensures fresh(Repr() - old(Repr()))
    {
      var record := new NodeRecord(nextNodeID, node);
      nextNodeID := nextNodeID + 1;
      nodeList := nodeList + [record];
      updateNodeCount := updateNodeCount + 1;
      assert Entries(nodeList) == AppendNode(old(Value()), node).nodeList;
      assert Value() == AppendNode(old(Value()), node);
      if state == Idle && reportNodes {
        BuildUpdatePacket();
      }
    }

    method ClientRx(reqType: u32, ioTag: u32)
      requires Valid()
      modifies this
      ensures Repr() == old(Repr())
      ensures Valid() && nodeList == old(nodeList) && Value() == ClientReport.ClientRx(old(Value()), reqType, ioTag)
    {
      if reqType == MGMT_REQ_PINFO {
        reportNodes := true;
        SendPacket(Ack(ioTag));
      } else if reqType == MGMT_DEBUG_CTRL {
        debug := true;
      } else if reqType == MGMT_EVENT_CTRL {
        event := true;
      }
    }

    /** An update in flight ends, whichever packet has been completed. */
    method FinishUpdate()
      requires Valid()
      modifies this`updateNodeCount, this`state, nodeList
      ensures Valid() && Value() == EndUpdate(old(Value()))
    {
      ghost var v := Value();
      if state == Updating {
        updatingNode.state := Established;
        updateNodeCount := updateNodeCount - 1;
        state := Idle;
      }
      assert Entries(nodeList) == EndUpdate(v).nodeList;
    }

    /** The completion of the packet at the head of the link's queue. */
    method TxDone()
      requires Valid() && Enabled(Value(), ClientReport.TxDone)
      modifies Repr()
      ensures Repr() == old(Repr())
      ensures Valid() && nodeList == old(nodeList)
      ensures Value() == Step(old(Value()), ClientReport.TxDone)
    {
      txPackets := txPackets[1..];
      FinishUpdate();
      if updateNodeCount != 0 && reportNodes && state == Idle {
        BuildUpdatePacket();
      }
    }

    method Start()
      requires Valid()
      modifies this
      ensures Repr() == old(Repr())
      ensures Valid() && nodeList == old(nodeList) && Value() == old(Value()).(state := Idle)
    {
      state := Idle;
    }

    method ForwardDebugPacket(frame: DebugFrame)
      requires Valid()
      modifies this
      ensures Repr() == old(Repr())
      ensures Valid() && nodeList == old(nodeList) && Value() == ForwardDebug(old(Value()), frame)
    {
      if !debug || state == Idle { return; }
      SendPacket(DebugPkt(frame));
    }
  }
}
