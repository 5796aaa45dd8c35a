/*
 * TransferManager: a stateless relay for gifts, trades and drop pods
 * between players. Each step is answered by looking up the owner of one
 * tile's settlement and whether that owner is connected; the manager keeps
 * no record of a negotiation between steps.
 */
module TransferManager {
  import opened Packets
  import opened ServerState
  import opened ResponseShortcutManager

  /** Who a reply goes to: the session that sent the step, or the tile's owner. */
  datatype Party = Sender | Owner

  datatype Reply =
    | Relay(to: Party, step: TransferStep)   // the manifest, with this step
    | Unavailable                            // UserUnavailablePacket to the sender
    | Illegal                                // illegal action: the sender is disconnected

  /** The steps the server relays; the others are ignored. */
  predicate Relayed(step: TransferStep)
  {
    step in {TradeRequest, TradeReject, TradeReRequest, TradeReAccept, TradeReReject}
  }

  /** The tile whose owner a step is about: the destination for the two
    * requests, the origin for the three answers. */
  function ResolvedTile(step: TransferStep, m: TransferManifest): (t: string)
    ensures step in {TradeRequest, TradeReRequest} ==> t == m.toTile
    ensures step !in {TradeRequest, TradeReRequest} ==> t == m.fromTile
  {
    if step == TradeRequest || step == TradeReRequest then m.toTile else m.fromTile
  }

  /** The routing table: the replies, in sending order, to a step handled
    * for a tile that has (`settled`) a settlement whose owner is (`online`)
    * connected. */
  function Routing(step: TransferStep, mode: TransferMode, settled: bool, online: bool): seq<Reply>
  {
    if !Relayed(step) then []
    else if !settled then [Illegal]
    else if !online then
      match step
      case TradeRequest => if mode == Pod then [Unavailable] else [Relay(Sender, Recover)]
      case TradeReRequest => [Relay(Sender, TradeReReject)]
      case _ => [Relay(Sender, Recover)]
    else if step == TradeRequest && (mode == Gift || mode == Pod) then
      [Relay(Sender, TradeAccept), Relay(Owner, TradeRequest)]
    else [Relay(Owner, step)]
  }

  /** The routing table's promises: unrelayed steps get no reply, a tile
    * without a settlement faults, the owner is sent only the step itself,
    * last, and only when connected, and an offline owner leaves exactly one
    * reply to the sender. */
  lemma RoutingTable(step: TransferStep, mode: TransferMode, settled: bool, online: bool)
    ensures var r := Routing(step, mode, settled, online);
      !Relayed(step) ==> r == []
    ensures var r := Routing(step, mode, settled, online);
      Relayed(step) && !settled ==> r == [Illegal]
    // the owner is sent something only when connected, and then it is the step itself, last
    ensures var r := Routing(step, mode, settled, online);
      forall k :: 0 <= k < |r| && r[k].Relay? && r[k].to == Owner ==> settled && online && r[k].step == step && k == |r| - 1
    ensures var r := Routing(step, mode, settled, online);
      Relayed(step) && settled && online ==> |r| > 0 && r[|r| - 1] == Relay(Owner, step)
    // an offline owner: exactly one reply, to the sender
    ensures var r := Routing(step, mode, settled, online);
      Relayed(step) && settled && !online ==>
      r == [if step == TradeRequest && mode == Pod then Unavailable
            else Relay(Sender, if step == TradeReRequest then TradeReReject else Recover)]
    // only a gift or a pod to a connected owner is confirmed to its sender
    ensures var r := Routing(step, mode, settled, online);
      Relay(Sender, TradeAccept) in r <==> step == TradeRequest && settled && online && mode in {Gift, Pod}
  {
  }

  /** The envelope one reply becomes. */
  function ReplyEnvelope(reply: Reply, sender: Client, owner: Client?, m: TransferManifest): Envelope
    requires reply.Relay? && reply.to == Owner ==> owner != null
  {
    match reply
    case Relay(Sender, s) => Envelope(sender, TransferPacket(m.(step := s)))
    case Relay(Owner, s) => Envelope(owner, TransferPacket(m.(step := s)))
    case Unavailable => Envelope(sender, UserUnavailablePacket)
    case Illegal => Envelope(sender, IllegalActionPacket)
  }

  /** The envelopes the replies become, one each, in order. */
  function Deliver(r: seq<Reply>, sender: Client, owner: Client?, m: TransferManifest): (e: seq<Envelope>)
    requires forall k :: 0 <= k < |r| && r[k].Relay? && r[k].to == Owner ==> owner != null
    ensures |e| == |r|
    ensures forall k :: 0 <= k < |r| ==> e[k] == ReplyEnvelope(r[k], sender, owner, m)
  {
    if |r| == 0 then [] else [ReplyEnvelope(r[0], sender, owner, m)] + Deliver(r[1..], sender, owner, m)
  }

  /** The connected owner of a tile's settlement, or null. */
  function OwnerOf(srv: Server, tile: string): (c: Client?)
    reads srv`settlements, srv`clients, srv.clients`username
    ensures c != null ==> tile in srv.settlements && c in srv.clients && c.username == srv.settlements[tile]
    ensures tile in srv.settlements && c == null ==> forall x :: x in srv.clients ==> x.username != srv.settlements[tile]
  {
    if tile in srv.settlements then FindClient(srv.clients, srv.settlements[tile]) else null
  }

  /** What handling `step` for manifest `m` sends, per the routing table. */
  function Outcome(srv: Server, client: Client, step: TransferStep, m: TransferManifest): seq<Envelope>
    reads srv`settlements, srv`clients, srv.clients`username
  {
    var tile := ResolvedTile(step, m);
    var owner := OwnerOf(srv, tile);
    RoutingTable(step, m.mode, tile in srv.settlements, owner != null);
    Deliver(Routing(step, m.mode, tile in srv.settlements, owner != null), client, owner, m)
  }

  /** TransferThings: a gift, trade or pod for the owner of toTile. */
  method TransferThings(srv: Server, client: Client, m: TransferManifest)
    modifies srv`outbox, client`disconnectFlag
    ensures srv.outbox == old(srv.outbox) + old(Outcome(srv, client, TradeRequest, m))
    ensures client.disconnectFlag == (old(client.disconnectFlag) || m.toTile !in srv.settlements)
  {
    if m.toTile !in srv.settlements {
      SendIllegalPacket(srv, client, true);
      return;
    }
    var owner := FindClient(srv.clients, srv.settlements[m.toTile]);
    var manifest := m;
    if owner == null {
      if manifest.mode == Pod {
        SendUnavailablePacket(srv, client);
      } else {
        manifest := manifest.(step := Recover);
        SendData(srv, client, TransferPacket(manifest));
      }
      return;
    }
    if manifest.mode == Gift {
      manifest := manifest.(step := TradeAccept);
      SendData(srv, client, TransferPacket(manifest));
    } else if manifest.mode == Pod {
      manifest := manifest.(step := TradeAccept);
      SendData(srv, client, TransferPacket(manifest));
    }
    manifest := manifest.(step := TradeRequest);
    SendData(srv, owner, TransferPacket(manifest));
  }

  /** The shape shared by the three answers and the rebound request: the
    * owner of `tile` gets the manifest with `forward`, or, offline, the
    * sender gets it back with `fallback`. A tile with no settlement faults. */
  method Answer(srv: Server, client: Client, m: TransferManifest, tile: string, forward: TransferStep, fallback: TransferStep)
    modifies srv`outbox, client`disconnectFlag
    ensures tile !in srv.settlements ==>
      client.disconnectFlag && srv.outbox == old(srv.outbox) + [Envelope(client, IllegalActionPacket)]
    ensures tile in srv.settlements ==>
      var owner := FindClient(srv.clients, srv.settlements[tile]);
      client.disconnectFlag == old(client.disconnectFlag) &&
      srv.outbox == old(srv.outbox) +
        [if owner == null then Envelope(client, TransferPacket(m.(step := fallback)))
         else Envelope(owner, TransferPacket(m.(step := forward)))]
  {
    if tile !in srv.settlements {
      // the missing settlement record is dereferenced: the fault reaches Network's catch
      SendIllegalPacket(srv, client, true);
      return;
    }
    var owner := FindClient(srv.clients, srv.settlements[tile]);
    if owner == null {
      SendData(srv, client, TransferPacket(m.(step := fallback)));
    } else {
      SendData(srv, owner, TransferPacket(m.(step := forward)));
    }
  }

  /** RejectTransfer: the refusal goes back to the owner of fromTile. */
  method RejectTransfer(srv: Server, client: Client, m: TransferManifest)
    modifies srv`outbox, client`disconnectFlag
    ensures srv.outbox == old(srv.outbox) + old(Outcome(srv, client, TradeReject, m))
    ensures client.disconnectFlag == (old(client.disconnectFlag) || m.fromTile !in srv.settlements)
  {
    Answer(srv, client, m, m.fromTile, TradeReject, Recover);
  }

  /** TransferThingsRebound: the counter-offer goes to the owner of toTile;
    * an offline owner answers TradeReReject, not Recover. */
  method TransferThingsRebound(srv: Server, client: Client, m: TransferManifest)
    modifies srv`outbox, client`disconnectFlag
    ensures srv.outbox == old(srv.outbox) + old(Outcome(srv, client, TradeReRequest, m))
    ensures client.disconnectFlag == (old(client.disconnectFlag) || m.toTile !in srv.settlements)
  {
    Answer(srv, client, m, m.toTile, TradeReRequest, TradeReReject);
  }

  /** AcceptReboundTransfer: the acceptance goes to the owner of fromTile. */
  method AcceptReboundTransfer(srv: Server, client: Client, m: TransferManifest)
    modifies srv`outbox, client`disconnectFlag
    ensures srv.outbox == old(srv.outbox) + old(Outcome(srv, client, TradeReAccept, m))
    ensures client.disconnectFlag == (old(client.disconnectFlag) || m.fromTile !in srv.settlements)
  {
    Answer(srv, client, m, m.fromTile, TradeReAccept, Recover);
  }

  /** RejectReboundTransfer: the refusal goes to the owner of fromTile. */
  method RejectReboundTransfer(srv: Server, client: Client, m: TransferManifest)
    modifies srv`outbox, client`disconnectFlag
    ensures srv.outbox == old(srv.outbox) + old(Outcome(srv, client, TradeReReject, m))
    ensures client.disconnectFlag == (old(client.disconnectFlag) || m.fromTile !in srv.settlements)
  {
    Answer(srv, client, m, m.fromTile, TradeReReject, Recover);
  }

  /** ParseTransferPacket: each relayed step has its handler; TradeAccept,
    * Recover and Pod from a client are ignored. Whatever the step, the
    * replies are those of the routing table. */
  method ParseTransferPacket(srv: Server, client: Client, m: TransferManifest)
    modifies srv`outbox, client`disconnectFlag
    ensures srv.outbox == old(srv.outbox) + old(Outcome(srv, client, m.step, m))
    ensures client.disconnectFlag == (old(client.disconnectFlag) || (Relayed(m.step) && ResolvedTile(m.step, m) !in srv.settlements))
  {
    match m.step
    case TradeRequest => TransferThings(srv, client, m);
    case TradeReject => RejectTransfer(srv, client, m);
    case TradeReRequest => TransferThingsRebound(srv, client, m);
    case TradeReAccept => AcceptReboundTransfer(srv, client, m);
    case TradeReReject => RejectReboundTransfer(srv, client, m);
    case TradeAccept =>
    case Recover =>
    case PodStep =>
  }
}
