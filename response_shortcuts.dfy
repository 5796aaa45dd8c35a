/*
 * ResponseShortcutManager: the canned replies every handler uses.
 */
module ResponseShortcutManager {
  import opened Packets
  import opened ServerState

  /** The client is told it broke a rule and its session is marked for
    * disconnection. `broadcast` only decides whether the event is logged. */
  method SendIllegalPacket(srv: Server, client: Client, broadcast: bool)
    modifies srv`outbox, client`disconnectFlag
    ensures srv.outbox == old(srv.outbox) + [Envelope(client, IllegalActionPacket)]
    ensures client.disconnectFlag
  {
    SendData(srv, client, IllegalActionPacket);
    client.disconnectFlag := true;
  }

  /** The player the client tried to reach is not available. */
  method SendUnavailablePacket(srv: Server, client: Client)
    modifies srv`outbox
    ensures srv.outbox == old(srv.outbox) + [Envelope(client, UserUnavailablePacket)]
  {
    SendData(srv, client, UserUnavailablePacket);
  }

  method SendBreakPacket(srv: Server, client: Client)
    modifies srv`outbox
    ensures srv.outbox == old(srv.outbox) + [Envelope(client, BreakPacket)]
  {
    SendData(srv, client, BreakPacket);
  }

  /** The manifest is echoed back with its mode replaced by NoPower. */
  method SendNoPowerPacket(srv: Server, client: Client, manifest: FactionManifest)
    modifies srv`outbox
    ensures srv.outbox == old(srv.outbox) + [Envelope(client, FactionPacket(manifest.(mode := NoPower)))]
  {
    SendData(srv, client, FactionPacket(manifest.(mode := NoPower)));
  }
}
