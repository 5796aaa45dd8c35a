/*
 * The map request shared by offline visits, raids and spying: the three
 * managers run the same two-guard decision on the requested tile and differ
 * only in the packet header of the reply.
 */
module MapRequests {
  import opened Records
  import opened Packets
  import opened ServerState
  import opened ResponseShortcutManager
  import opened SaveManager

  /** Which of the three managers handles the request. */
  datatype MapRequestKind = OfflineVisit | Raid | Spy

  /** The packet of the given kind carrying the details. */
  function Wrap(kind: MapRequestKind, details: MapRequestDetails): (p: Packet)
    ensures p.OfflineVisitPacket? <==> kind == OfflineVisit
    ensures p.RaidPacket? <==> kind == Raid
    ensures p.SpyPacket? <==> kind == Spy
    ensures (p.OfflineVisitPacket? || p.RaidPacket? || p.SpyPacket?) && p.request == details
  {
    match kind
    case OfflineVisit => OfflineVisitPacket(details)
    case Raid => RaidPacket(details)
    case Spy => SpyPacket(details)
  }

  /** What the server does with a request for a tile's map. */
  datatype MapAnswer = Deny | Serve(mapFile: MapFile) | Fault

  /** SendRequestedMap's decision. No map means Deny; a map whose settlement
    * owner is connected means Deny; a map with no settlement record is
    * dereferenced as null (a fault); otherwise the map is served. */
  function Decide(tile: string, maps: map<string, MapFile>, settlements: map<string, string>, connected: seq<string>): (r: MapAnswer)
    ensures r.Deny? <==> !CheckIfMapExists(maps, tile) || (tile in settlements && settlements[tile] in connected)
    ensures r.Fault? <==> CheckIfMapExists(maps, tile) && tile !in settlements
    ensures r.Serve? <==> CheckIfMapExists(maps, tile) && tile in settlements && settlements[tile] !in connected
    ensures r.Serve? ==> Some(r.mapFile) == GetUserMapFromTile(maps, tile)
    ensures r.Serve? && MapsKeyed(maps) ==> r.mapFile.tile == tile
  {
    if !CheckIfMapExists(maps, tile) then Deny
    else if tile !in settlements then Fault
    else if settlements[tile] in connected then Deny
    else Serve(GetUserMapFromTile(maps, tile).value)
  }

  /** The single packet sent back to the requester. */
  function Reply(kind: MapRequestKind, tile: string, answer: MapAnswer): Packet
  {
    match answer
    case Deny => Wrap(kind, MapRequestDetails(MapDeny, TileRef(tile)))
    case Serve(m) => Wrap(kind, MapRequestDetails(MapRequest, SerializedMap(m)))
    case Fault => IllegalActionPacket
  }

  /** SendRequestedMap: exactly one reply goes to the requester, nothing is
    * stored, and only the fault disconnects it. The owner counts as
    * connected when a session is logged in under its name. */
  method SendRequestedMap(srv: Server, client: Client, kind: MapRequestKind, tile: string)
    modifies srv`outbox, client`disconnectFlag
    ensures var answer := Decide(tile, srv.maps, srv.settlements, Usernames(srv.clients));
      srv.outbox == old(srv.outbox) + [Envelope(client, Reply(kind, tile, answer))] &&
      client.disconnectFlag == (old(client.disconnectFlag) || answer.Fault?)
  {
    ghost var answer := Decide(tile, srv.maps, srv.settlements, Usernames(srv.clients));
    if !CheckIfMapExists(srv.maps, tile) {
      SendData(srv, client, Wrap(kind, MapRequestDetails(MapDeny, TileRef(tile))));
      return;
    }
    if tile !in srv.settlements {
      // the missing settlement record is dereferenced: the fault reaches Network's catch
      SendIllegalPacket(srv, client, true);
      return;
    }
    var owner := srv.settlements[tile];
    ConnectedIffFound(srv.clients, owner);
    if FindClient(srv.clients, owner) != null {
      SendData(srv, client, Wrap(kind, MapRequestDetails(MapDeny, TileRef(tile))));
    } else {
      var mapFile := GetUserMapFromTile(srv.maps, tile);
      SendData(srv, client, Wrap(kind, MapRequestDetails(MapRequest, SerializedMap(mapFile.value))));
    }
  }

  /** Parse(Offline visit|Raid|Spy)Packet: a Request is answered; a Deny sent
    * by a client is ignored. */
  method ParseMapRequest(srv: Server, client: Client, kind: MapRequestKind, step: MapRequestStep, tile: string)
    modifies srv`outbox, client`disconnectFlag
    ensures step == MapDeny ==>
      srv.outbox == old(srv.outbox) && client.disconnectFlag == old(client.disconnectFlag)
    ensures step == MapRequest ==>
      var answer := Decide(tile, srv.maps, srv.settlements, Usernames(srv.clients));
      srv.outbox == old(srv.outbox) + [Envelope(client, Reply(kind, tile, answer))] &&
      client.disconnectFlag == (old(client.disconnectFlag) || answer.Fault?)
  {
    match step
    case MapRequest => SendRequestedMap(srv, client, kind, tile);
    case MapDeny =>
  }
}
