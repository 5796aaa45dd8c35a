/*
 * SettlementManager: claiming and abandoning settlements. The store maps a
 * tile to its owner; the directory scans of the source (CheckIfTileIsInUse,
 * GetSettlementFileFromTile) are lookups in that map.
 */
module SettlementManager {
  import opened Packets
  import opened ServerState
  import opened ResponseShortcutManager

  /** The tiles, in directory-listing order, whose settlement belongs to
    * `username`. */
  function OwnedSettlements(listing: seq<string>, settlements: map<string, string>, username: string): (r: seq<string>)
    ensures forall t :: t in r <==> t in listing && t in settlements && settlements[t] == username
    ensures |r| <= |listing|
    decreases |listing|
  {
    if |listing| == 0 then []
    else
      var t := listing[|listing| - 1];
      OwnedSettlements(listing[..|listing| - 1], settlements, username)
      + (if t in settlements && settlements[t] == username then [t] else [])
  }

  /** GetAllSettlementsFromUsername: a scan of the settlement directory,
    * given as `listing`. */
  method GetAllSettlementsFromUsername(srv: Server, listing: seq<string>, username: string) returns (tiles: seq<string>)
    ensures tiles == OwnedSettlements(listing, srv.settlements, username)
  {
    tiles := [];
    var i := 0;
    while i < |listing|
      invariant 0 <= i <= |listing|
      invariant tiles == OwnedSettlements(listing[..i], srv.settlements, username)
    {
      assert listing[..i + 1][..i] == listing[..i];
      var t := listing[i];
      if t in srv.settlements && srv.settlements[t] == username {
        tiles := tiles + [t];
      }
      i := i + 1;
    }
    assert listing[..i] == listing;
  }

  /** The tile is claimed by the caller unless a settlement already holds it
    * (sites are not consulted); every other session hears of the claim. */
  method AddSettlement(srv: Server, client: Client, details: SettlementDetails)
    modifies srv`settlements, srv`outbox, client`disconnectFlag
    ensures details.tile in old(srv.settlements) ==>
      srv.settlements == old(srv.settlements) && client.disconnectFlag &&
      srv.outbox == old(srv.outbox) + [Envelope(client, IllegalActionPacket)]
    ensures details.tile !in old(srv.settlements) ==>
      srv.settlements == old(srv.settlements)[details.tile := client.username] &&
      client.disconnectFlag == old(client.disconnectFlag) &&
      srv.outbox == old(srv.outbox) +
        Notify(Others(srv.clients, client), SettlementPacket(SettlementDetails(SettlementAdd, details.tile, client.username)))
  {
    if details.tile in srv.settlements {
      SendIllegalPacket(srv, client, true);
    } else {
      srv.settlements := srv.settlements[details.tile := client.username];
      var notice := SettlementDetails(SettlementAdd, details.tile, client.username);
      SendToEach(srv, Others(srv.clients, client), SettlementPacket(notice));
    }
  }

  /** Every session except the remover is told the settlement is gone. */
  method SendSettlementRemoval(srv: Server, client: Client, details: SettlementDetails)
    modifies srv`outbox
    ensures srv.outbox == old(srv.outbox) +
      Notify(Others(srv.clients, client), SettlementPacket(details.(step := SettlementRemove)))
  {
    SendToEach(srv, Others(srv.clients, client), SettlementPacket(details.(step := SettlementRemove)));
  }

  /** With `sendRemoval` only the owner may remove, and the others are told;
    * without it the record is deleted with no check and no notice (the
    * player-deletion cascade, which has no session to act for). A tile with
    * no settlement gets an illegal-action reply and then faults on the
    * missing record, which earns a second one. */
  method RemoveSettlement(srv: Server, client: Client?, details: SettlementDetails, sendRemoval: bool)
    requires client == null ==> !sendRemoval && details.tile in srv.settlements
    modifies srv`settlements, srv`outbox, (if client == null then {} else {client})`disconnectFlag
    ensures details.tile !in old(srv.settlements) ==>
      client != null && client.disconnectFlag && srv.settlements == old(srv.settlements) &&
      srv.outbox == old(srv.outbox) + [Envelope(client, IllegalActionPacket), Envelope(client, IllegalActionPacket)]
    ensures (details.tile in old(srv.settlements) && sendRemoval && client != null &&
             old(srv.settlements)[details.tile] != client.username) ==>
      client.disconnectFlag && srv.settlements == old(srv.settlements) &&
      srv.outbox == old(srv.outbox) + [Envelope(client, IllegalActionPacket)]
    ensures (details.tile in old(srv.settlements) && sendRemoval && client != null &&
             old(srv.settlements)[details.tile] == client.username) ==>
      client.disconnectFlag == old(client.disconnectFlag) &&
      srv.settlements == old(srv.settlements) - {details.tile} &&
      srv.outbox == old(srv.outbox) +
        Notify(Others(srv.clients, client), SettlementPacket(details.(step := SettlementRemove)))
    ensures details.tile in old(srv.settlements) && !sendRemoval ==>
      (client != null ==> client.disconnectFlag == old(client.disconnectFlag)) &&
      srv.settlements == old(srv.settlements) - {details.tile} &&
      srv.outbox == old(srv.outbox)
  {
    if details.tile !in srv.settlements {
      SendIllegalPacket(srv, client, true);
      // the missing record is dereferenced: the fault reaches Network's catch
      SendIllegalPacket(srv, client, true);
      return;
    }
    var owner := srv.settlements[details.tile];
    if sendRemoval {
      if owner != client.username {
        SendIllegalPacket(srv, client, true);
      } else {
        srv.settlements := srv.settlements - {details.tile};
        SendSettlementRemoval(srv, client, details);
      }
    } else {
      srv.settlements := srv.settlements - {details.tile};
    }
  }

  /** ParseSettlementPacket: dispatch on the step. Add claims the tile as
    * AddSettlement does; Remove is RemoveSettlement with the owner check and
    * the notice. */
  method ParseSettlementPacket(srv: Server, client: Client, details: SettlementDetails)
    modifies srv`settlements, srv`outbox, client`disconnectFlag
    ensures details.step == SettlementAdd && details.tile in old(srv.settlements) ==>
      srv.settlements == old(srv.settlements) && client.disconnectFlag &&
      srv.outbox == old(srv.outbox) + [Envelope(client, IllegalActionPacket)]
    ensures details.step == SettlementAdd && details.tile !in old(srv.settlements) ==>
      srv.settlements == old(srv.settlements)[details.tile := client.username] &&
      client.disconnectFlag == old(client.disconnectFlag) &&
      srv.outbox == old(srv.outbox) +
        Notify(Others(srv.clients, client), SettlementPacket(SettlementDetails(SettlementAdd, details.tile, client.username)))
    ensures details.step == SettlementRemove && details.tile !in old(srv.settlements) ==>
      client.disconnectFlag && srv.settlements == old(srv.settlements) &&
      srv.outbox == old(srv.outbox) + [Envelope(client, IllegalActionPacket), Envelope(client, IllegalActionPacket)]
    ensures details.step == SettlementRemove && details.tile in old(srv.settlements) &&
            old(srv.settlements)[details.tile] != client.username ==>
      client.disconnectFlag && srv.settlements == old(srv.settlements) &&
      srv.outbox == old(srv.outbox) + [Envelope(client, IllegalActionPacket)]
    ensures details.step == SettlementRemove && details.tile in old(srv.settlements) &&
            old(srv.settlements)[details.tile] == client.username ==>
      client.disconnectFlag == old(client.disconnectFlag) &&
      srv.settlements == old(srv.settlements) - {details.tile} &&
      srv.outbox == old(srv.outbox) +
        Notify(Others(srv.clients, client), SettlementPacket(details.(step := SettlementRemove)))
  {
    match details.step
    case SettlementAdd => AddSettlement(srv, client, details);
    case SettlementRemove => RemoveSettlement(srv, client, details, true);
  }
}
