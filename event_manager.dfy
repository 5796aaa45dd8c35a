/*
 * EventManager: one player sends a game event to another player's
 * settlement. A delivered event puts the target in the safe zone, and while
 * it is there every further event aimed at it is sent back to the sender.
 */
module EventManager {
  import opened Packets
  import opened ServerState
  import opened ResponseShortcutManager

  /** SendEvent. A tile with no settlement is an illegal action. An offline
    * owner, or one already in the safe zone, sends the event back to the
    * sender as Recover. Otherwise the target enters the safe zone, the sender
    * gets the event back unchanged and the target gets it as Receive.
    * No session ever leaves the safe zone here. */
  method SendEvent(srv: Server, client: Client, details: EventDetails)
    modifies srv`outbox, client`disconnectFlag, srv.clients`inSafeZone
    ensures forall c :: c in srv.clients && old(c.inSafeZone) ==> c.inSafeZone
    ensures details.toTile !in srv.settlements ==>
      client.disconnectFlag && srv.outbox == old(srv.outbox) + [Envelope(client, IllegalActionPacket)] &&
      forall c :: c in srv.clients ==> c.inSafeZone == old(c.inSafeZone)
    ensures details.toTile in srv.settlements ==>
      var target := FindClient(srv.clients, srv.settlements[details.toTile]);
      client.disconnectFlag == old(client.disconnectFlag) &&
      (target == null || old(target.inSafeZone) ==>
        srv.outbox == old(srv.outbox) + [Envelope(client, EventPacket(details.(step := EventRecover)))] &&
        forall c :: c in srv.clients ==> c.inSafeZone == old(c.inSafeZone)) &&
      (target != null && !old(target.inSafeZone) ==>
        target.inSafeZone &&
        (forall c :: c in srv.clients && c != target ==> c.inSafeZone == old(c.inSafeZone)) &&
        srv.outbox == old(srv.outbox) + [Envelope(client, EventPacket(details)), Envelope(target, EventPacket(details.(step := EventReceive)))])
  {
    if details.toTile !in srv.settlements {
      SendIllegalPacket(srv, client, true);
      return;
    }
    var target := FindClient(srv.clients, srv.settlements[details.toTile]);
    if target == null || target.inSafeZone {
      SendData(srv, client, EventPacket(details.(step := EventRecover)));
      return;
    }
    target.inSafeZone := true;
    SendData(srv, client, EventPacket(details));
    SendData(srv, target, EventPacket(details.(step := EventReceive)));
  }

  /** ParseEventPacket: only Send does anything; Receive and Recover are ignored. */
  method ParseEventPacket(srv: Server, client: Client, details: EventDetails)
    modifies srv`outbox, client`disconnectFlag, srv.clients`inSafeZone
    ensures forall c :: c in srv.clients && old(c.inSafeZone) ==> c.inSafeZone
    ensures details.step != EventSend ==>
      srv.outbox == old(srv.outbox) && client.disconnectFlag == old(client.disconnectFlag) &&
      forall c :: c in srv.clients ==> c.inSafeZone == old(c.inSafeZone)
  {
    match details.step
    case EventSend => SendEvent(srv, client, details);
    case EventReceive =>
    case EventRecover =>
  }
}
