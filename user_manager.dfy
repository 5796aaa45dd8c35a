/*
 * UserManager: the user records and the questions login asks about them,
 * connected-session lookups, the player recount broadcast and the tiles a
 * player's structures occupy.
 */
module UserManager {
  import opened Records
  import opened Packets
  import opened ServerState
  import opened ResponseShortcutManager
  import opened SettlementManager
  import opened UserManager_Joinings

  /** LoadDataFromFile: the session takes the identity, faction, flags and
    * relations stored in its user record (not the saved IP); a missing
    * record is dereferenced as null and faults. */
  method LoadDataFromFile(srv: Server, client: Client)
    modifies client`uid, client`password, client`factionName, client`hasFaction, client`isAdmin,
      client`isBanned, client`enemyPlayers, client`allyPlayers, client`disconnectFlag, srv`outbox
    ensures client.username !in srv.users ==>
      client.disconnectFlag && srv.outbox == old(srv.outbox) + [Envelope(client, IllegalActionPacket)] &&
      client.uid == old(client.uid) && client.password == old(client.password) &&
      client.factionName == old(client.factionName) && client.hasFaction == old(client.hasFaction) &&
      client.isAdmin == old(client.isAdmin) && client.isBanned == old(client.isBanned) &&
      client.enemyPlayers == old(client.enemyPlayers) && client.allyPlayers == old(client.allyPlayers)
    ensures client.username in srv.users ==>
      var file := srv.users[client.username];
      client.disconnectFlag == old(client.disconnectFlag) && srv.outbox == old(srv.outbox) &&
      client.uid == file.uid && client.password == file.password &&
      client.factionName == file.factionName && client.hasFaction == file.hasFaction &&
      client.isAdmin == file.isAdmin && client.isBanned == file.isBanned &&
      client.enemyPlayers == file.enemyPlayers && client.allyPlayers == file.allyPlayers
  {
    if client.username !in srv.users {
      SendIllegalPacket(srv, client, true);
      return;
    }
    var file := srv.users[client.username];
    client.uid := file.uid;
    client.password := file.password;
    client.factionName := file.factionName;
    client.hasFaction := file.hasFaction;
    client.isAdmin := file.isAdmin;
    client.isBanned := file.isBanned;
    client.enemyPlayers := file.enemyPlayers;
    client.allyPlayers := file.allyPlayers;
  }

  /** SendPlayerRecount: the number of sessions and their names, in registry
    * order, go to every session. */
  method SendPlayerRecount(srv: Server)
    modifies srv`outbox
    ensures var p := PlayerRecountPacket(|srv.clients|, Usernames(srv.clients));
      srv.outbox == old(srv.outbox) + Notify(srv.clients, p)
  {
    var names := [];
    var i := 0;
    while i < |srv.clients|
      invariant 0 <= i <= |srv.clients|
      invariant names == Usernames(srv.clients[..i])
      invariant srv.outbox == old(srv.outbox)
    {
      assert srv.clients[..i + 1] == srv.clients[..i] + [srv.clients[i]];
      UsernamesAppend(srv.clients[..i], srv.clients[i]);
      names := names + [srv.clients[i].username];
      i := i + 1;
    }
    assert srv.clients[..i] == srv.clients;
    SendToEach(srv, srv.clients, PlayerRecountPacket(|srv.clients|, names));
  }

  /** The names of a registry grown by one session end with its name. */
  lemma {:induction false} UsernamesAppend(cs: seq<Client>, c: Client)
    ensures Usernames(cs + [c]) == Usernames(cs) + [c.username]
  {
    var l := Usernames(cs + [c]);
    var r := Usernames(cs) + [c.username];
    assert |l| == |r|;
    forall i | 0 <= i < |l|
      ensures l[i] == r[i]
    {
      assert (cs + [c])[i] == if i < |cs| then cs[i] else c;
    }
  }

  /** CheckIfUserIsConnected: some session is logged in under the name. */
  function CheckIfUserIsConnected(cs: seq<Client>, username: string): (b: bool)
    reads cs`username
    ensures b <==> username in Usernames(cs)
  {
    ConnectedIffFound(cs, username);
    FindClient(cs, username) != null
  }

  /** CheckIfUserExists: true when a record under the session's name holds
    * its password; otherwise the session gets InvalidLogin and ends. */
  method CheckIfUserExists(srv: Server, client: Client) returns (b: bool)
    modifies srv`outbox, client`disconnectFlag
    ensures b <==> client.username in srv.users && srv.users[client.username].password == client.password
    ensures b ==> srv.outbox == old(srv.outbox) && client.disconnectFlag == old(client.disconnectFlag)
    ensures !b ==> client.disconnectFlag
    ensures !b ==> srv.outbox == old(srv.outbox) + [Envelope(client, LoginResponsePacket(InvalidLogin, []))]
  {
    if client.username in srv.users && srv.users[client.username].password == client.password {
      return true;
    }
    SendLoginResponse(srv, client, InvalidLogin, []);
    return false;
  }

  /** CheckIfUserBanned: the session's own ban flag decides; a banned
    * session gets BannedLogin and ends. */
  method CheckIfUserBanned(srv: Server, client: Client) returns (b: bool)
    modifies srv`outbox, client`disconnectFlag
    ensures b == client.isBanned
    ensures !b ==> srv.outbox == old(srv.outbox) && client.disconnectFlag == old(client.disconnectFlag)
    ensures b ==> client.disconnectFlag
    ensures b ==> srv.outbox == old(srv.outbox) + [Envelope(client, LoginResponsePacket(BannedLogin, []))]
  {
    if !client.isBanned {
      return false;
    }
    SendLoginResponse(srv, client, BannedLogin, []);
    return true;
  }

  /** SaveUserIP: the session's address is written into its record, which
    * is otherwise unchanged; a missing record faults. */
  method SaveUserIP(srv: Server, client: Client)
    modifies srv`users, srv`outbox, client`disconnectFlag
    ensures client.username in old(srv.users) ==>
      srv.users == old(srv.users)[client.username := old(srv.users)[client.username].(savedIP := client.savedIP)] &&
      srv.outbox == old(srv.outbox) && client.disconnectFlag == old(client.disconnectFlag)
    ensures client.username !in old(srv.users) ==>
      srv.users == old(srv.users) && client.disconnectFlag &&
      srv.outbox == old(srv.outbox) + [Envelope(client, IllegalActionPacket)]
  {
    if client.username !in srv.users {
      SendIllegalPacket(srv, client, true);
      return;
    }
    srv.users := srv.users[client.username := srv.users[client.username].(savedIP := client.savedIP)];
  }

  /** The listed sites owned by the user, personal and faction ones alike. */
  function OwnedSites(listing: seq<string>, sites: map<string, SiteFile>, username: string): (r: seq<string>)
    ensures forall t :: t in r <==> t in listing && t in sites && sites[t].owner == username
    decreases |listing|
  {
    if |listing| == 0 then []
    else
      var t := listing[|listing| - 1];
      OwnedSites(listing[..|listing| - 1], sites, username)
      + (if t in sites && sites[t].owner == username then [t] else [])
  }

  /** GetUserStructuresTilesFromUsername: the user's settlement tiles, then
    * the user's site tiles, over the two directory listings. */
  method GetUserStructuresTilesFromUsername(srv: Server, settlementListing: seq<string>, siteListing: seq<string>, username: string)
    returns (tiles: seq<string>)
    ensures tiles == OwnedSettlements(settlementListing, srv.settlements, username)
      + OwnedSites(siteListing, srv.sites, username)
  {
    tiles := GetAllSettlementsFromUsername(srv, settlementListing, username);
    ghost var settled := tiles;
    var i := 0;
    while i < |siteListing|
      invariant 0 <= i <= |siteListing|
      invariant tiles == settled + OwnedSites(siteListing[..i], srv.sites, username)
    {
      assert siteListing[..i + 1][..i] == siteListing[..i];
      var t := siteListing[i];
      if t in srv.sites && srv.sites[t].owner == username {
        tiles := tiles + [t];
      }
      i := i + 1;
    }
    assert siteListing[..i] == siteListing;
  }

  /** A tile is excluded for the user exactly when a listed settlement or a
    * listed site on it belongs to the user. */
  lemma StructureTilesMembers(settlements: map<string, string>, sites: map<string, SiteFile>,
                              settlementListing: seq<string>, siteListing: seq<string>, username: string, t: string)
    ensures t in OwnedSettlements(settlementListing, settlements, username) + OwnedSites(siteListing, sites, username) <==>
      (t in settlementListing && t in settlements && settlements[t] == username) ||
      (t in siteListing && t in sites && sites[t].owner == username)
  {
  }
}
