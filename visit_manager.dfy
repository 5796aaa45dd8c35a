/*
 * VisitManager: live visits between two connected players. A visit pairs
 * two sessions through their inVisitWith fields; the pairing is meant to be
 * mutual (Symmetric).
 */
module VisitManager {
  import opened Packets
  import opened ServerState
  import opened ResponseShortcutManager

  /** Every session that is in a visit is paired with a registered session
    * that is paired back with it. */
  predicate Symmetric(cs: seq<Client>)
    reads cs`inVisitWith
  {
    forall c :: c in cs && c.inVisitWith != null ==> c.inVisitWith in cs && c.inVisitWith.inVisitWith == c
  }

  /** SendVisitRequest: the request goes to the owner of the target tile,
    * stamped with the requester's name, unless that owner is offline or
    * already in a visit (the requester is then told Unavailable). A tile
    * with no settlement is an illegal action. */
  method SendVisitRequest(srv: Server, client: Client, details: VisitDetails)
    modifies srv`outbox, client`disconnectFlag
    ensures details.targetTile !in srv.settlements ==>
      client.disconnectFlag && srv.outbox == old(srv.outbox) + [Envelope(client, IllegalActionPacket)]
    ensures details.targetTile in srv.settlements ==>
      var toGet := FindClient(srv.clients, srv.settlements[details.targetTile]);
      client.disconnectFlag == old(client.disconnectFlag) &&
      srv.outbox == old(srv.outbox) +
        (if toGet == null || toGet.inVisitWith != null
         then [Envelope(client, VisitPacket(details.(step := VisitUnavailable)))]
         else [Envelope(toGet, VisitPacket(details.(visitorName := client.username)))])
  {
    if details.targetTile !in srv.settlements {
      SendIllegalPacket(srv, client, true);
      return;
    }
    var toGet := FindClient(srv.clients, srv.settlements[details.targetTile]);
    if toGet == null || toGet.inVisitWith != null {
      SendData(srv, client, VisitPacket(details.(step := VisitUnavailable)));
    } else {
      SendData(srv, toGet, VisitPacket(details.(visitorName := client.username)));
    }
  }

  /** AcceptVisitRequest: the acceptor and the owner of fromTile (the
    * requester) are paired with each other and the requester is told. No
    * existing pairing is checked or cleared: symmetry survives when both
    * were unpaired, and an acceptor that was paired with a third session
    * leaves that session pointing at it. A tile with no settlement or an
    * offline requester changes nothing. */
  method AcceptVisitRequest(srv: Server, client: Client, details: VisitDetails)
    modifies srv`outbox, client`inVisitWith, srv.clients`inVisitWith
    ensures var toGet := if details.fromTile in srv.settlements then FindClient(srv.clients, srv.settlements[details.fromTile]) else null;
      toGet == null ==>
        srv.outbox == old(srv.outbox) && client.inVisitWith == old(client.inVisitWith) &&
        forall c :: c in srv.clients ==> c.inVisitWith == old(c.inVisitWith)
    ensures var toGet := if details.fromTile in srv.settlements then FindClient(srv.clients, srv.settlements[details.fromTile]) else null;
      toGet != null ==>
        client.inVisitWith == toGet && toGet.inVisitWith == client &&
        (forall c :: c in srv.clients && c != client && c != toGet ==> c.inVisitWith == old(c.inVisitWith)) &&
        srv.outbox == old(srv.outbox) + [Envelope(toGet, VisitPacket(details))]
    ensures var toGet := if details.fromTile in srv.settlements then FindClient(srv.clients, srv.settlements[details.fromTile]) else null;
      old(Symmetric(srv.clients)) && client in srv.clients && old(client.inVisitWith) == null &&
      (toGet != null ==> old(toGet.inVisitWith) == null) ==>
        Symmetric(srv.clients)
    ensures var toGet := if details.fromTile in srv.settlements then FindClient(srv.clients, srv.settlements[details.fromTile]) else null;
      var former := old(client.inVisitWith);
      old(Symmetric(srv.clients)) && client in srv.clients && toGet != null &&
      former != null && former != toGet && former != client ==>
        former.inVisitWith == client && !Symmetric(srv.clients)
  {
    if details.fromTile !in srv.settlements {
      return;
    }
    var toGet := FindClient(srv.clients, srv.settlements[details.fromTile]);
    if toGet == null {
      return;
    }
    client.inVisitWith := toGet;
    toGet.inVisitWith := client;
    SendData(srv, toGet, VisitPacket(details));
  }

  /** RejectVisitRequest: the refusal goes to the owner of fromTile, if
    * online; no pairing changes. */
  method RejectVisitRequest(srv: Server, client: Client, details: VisitDetails)
    modifies srv`outbox
    ensures var toGet := if details.fromTile in srv.settlements then FindClient(srv.clients, srv.settlements[details.fromTile]) else null;
      srv.outbox == old(srv.outbox) + (if toGet == null then [] else [Envelope(toGet, VisitPacket(details))])
  {
    if details.fromTile !in srv.settlements {
      return;
    }
    var toGet := FindClient(srv.clients, srv.settlements[details.fromTile]);
    if toGet != null {
      SendData(srv, toGet, VisitPacket(details));
    }
  }

  /** SendVisitActions: relayed only to the peer; an unpaired sender is told to stop. */
  method SendVisitActions(srv: Server, client: Client, details: VisitDetails)
    modifies srv`outbox
    ensures client.inVisitWith == null ==>
      srv.outbox == old(srv.outbox) + [Envelope(client, VisitPacket(details.(step := VisitStop)))]
    ensures client.inVisitWith != null ==>
      srv.outbox == old(srv.outbox) + [Envelope(client.inVisitWith, VisitPacket(details))]
  {
    if client.inVisitWith == null {
      SendData(srv, client, VisitPacket(details.(step := VisitStop)));
    } else {
      SendData(srv, client.inVisitWith, VisitPacket(details));
    }
  }

  /** SendVisitStop: the stop is echoed to the caller and, when paired, sent
    * to the peer, and both sides of the pairing are cleared. It keeps the
    * pairing symmetric. */
  method SendVisitStop(srv: Server, client: Client, details: VisitDetails)
    modifies srv`outbox, client`inVisitWith
    modifies (if client.inVisitWith == null then {} else {client.inVisitWith})`inVisitWith
    ensures client.inVisitWith == null
    ensures old(client.inVisitWith) == null ==>
      srv.outbox == old(srv.outbox) + [Envelope(client, VisitPacket(details))]
    ensures old(client.inVisitWith) != null ==>
      old(client.inVisitWith).inVisitWith == null &&
      srv.outbox == old(srv.outbox) + [Envelope(client, VisitPacket(details)), Envelope(old(client.inVisitWith), VisitPacket(details))]
    ensures old(Symmetric(srv.clients)) && client in srv.clients ==> Symmetric(srv.clients)
  {
    var peer := client.inVisitWith;
    if peer == null {
      SendData(srv, client, VisitPacket(details));
    } else {
      SendData(srv, client, VisitPacket(details));
      SendData(srv, peer, VisitPacket(details));
      peer.inVisitWith := null;
      client.inVisitWith := null;
    }
  }

  /** ParseVisitPacket: dispatch on the step; each handled step has the
    * effect of its handler, and Unavailable from a client is ignored. Only
    * Accept and Stop touch a pairing, and every step but Accept keeps the
    * pairing symmetric. */
  method ParseVisitPacket(srv: Server, client: Client, details: VisitDetails)
    modifies srv`outbox, client`disconnectFlag, client`inVisitWith, srv.clients`inVisitWith
    modifies (if client.inVisitWith == null then {} else {client.inVisitWith})`inVisitWith
    ensures details.step == VisitUnavailable ==>
      srv.outbox == old(srv.outbox) && client.disconnectFlag == old(client.disconnectFlag)
    ensures details.step != VisitAccept && details.step != VisitStop ==>
      client.inVisitWith == old(client.inVisitWith) &&
      forall c :: c in srv.clients ==> c.inVisitWith == old(c.inVisitWith)
    ensures details.step != VisitAccept && old(Symmetric(srv.clients)) && client in srv.clients ==>
      Symmetric(srv.clients)
    ensures details.step != VisitRequest ==> client.disconnectFlag == old(client.disconnectFlag)
    // Request
    ensures details.step == VisitRequest && details.targetTile !in srv.settlements ==>
      client.disconnectFlag && srv.outbox == old(srv.outbox) + [Envelope(client, IllegalActionPacket)]
    ensures details.step == VisitRequest && details.targetTile in srv.settlements ==>
      var toGet := FindClient(srv.clients, srv.settlements[details.targetTile]);
      client.disconnectFlag == old(client.disconnectFlag) &&
      srv.outbox == old(srv.outbox) +
        (if toGet == null || toGet.inVisitWith != null
         then [Envelope(client, VisitPacket(details.(step := VisitUnavailable)))]
         else [Envelope(toGet, VisitPacket(details.(visitorName := client.username)))])
    // Accept
    ensures details.step == VisitAccept ==>
      var toGet := if details.fromTile in srv.settlements then FindClient(srv.clients, srv.settlements[details.fromTile]) else null;
      (toGet == null ==>
        srv.outbox == old(srv.outbox) && client.inVisitWith == old(client.inVisitWith) &&
        forall c :: c in srv.clients ==> c.inVisitWith == old(c.inVisitWith)) &&
      (toGet != null ==>
        client.inVisitWith == toGet && toGet.inVisitWith == client &&
        (forall c :: c in srv.clients && c != client && c != toGet ==> c.inVisitWith == old(c.inVisitWith)) &&
        srv.outbox == old(srv.outbox) + [Envelope(toGet, VisitPacket(details))])
    // Reject
    ensures details.step == VisitReject ==>
      var toGet := if details.fromTile in srv.settlements then FindClient(srv.clients, srv.settlements[details.fromTile]) else null;
      srv.outbox == old(srv.outbox) + (if toGet == null then [] else [Envelope(toGet, VisitPacket(details))])
    // Action
    ensures details.step == VisitAction && client.inVisitWith == null ==>
      srv.outbox == old(srv.outbox) + [Envelope(client, VisitPacket(details.(step := VisitStop)))]
    ensures details.step == VisitAction && client.inVisitWith != null ==>
      srv.outbox == old(srv.outbox) + [Envelope(client.inVisitWith, VisitPacket(details))]
    // Stop
    ensures details.step == VisitStop ==> client.inVisitWith == null
    ensures details.step == VisitStop && old(client.inVisitWith) == null ==>
      srv.outbox == old(srv.outbox) + [Envelope(client, VisitPacket(details))]
    ensures details.step == VisitStop && old(client.inVisitWith) != null ==>
      old(client.inVisitWith).inVisitWith == null &&
      srv.outbox == old(srv.outbox) + [Envelope(client, VisitPacket(details)), Envelope(old(client.inVisitWith), VisitPacket(details))]
  {
    match details.step
    case VisitRequest => SendVisitRequest(srv, client, details);
    case VisitAccept => AcceptVisitRequest(srv, client, details);
    case VisitReject => RejectVisitRequest(srv, client, details);
    case VisitAction => SendVisitActions(srv, client, details);
    case VisitStop => SendVisitStop(srv, client, details);
    case VisitUnavailable =>
  }
}
