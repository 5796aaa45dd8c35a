/*
 * SaveManager: player saves (one per username), settlement maps (one per
 * tile) and the cascades that wipe a player's world presence: its save, the
 * maps of its settlements, its personal sites and its settlements.
 */
module SaveManager {
  import opened Lists
  import opened Records
  import opened Packets
  import opened ServerState
  import opened ResponseShortcutManager
  import opened SettlementManager
  import opened SiteManager

  /** Why a client uploads its save. */
  datatype SaveMode = Disconnect | Quit | Autosave | Transfer | Event

  /** SaveUserGame: the save is stored under the uploader's name. Leaving to
    * the menu or quitting is acknowledged with the matching command and
    * disconnects the uploader; the other modes only store. */
  method SaveUserGame(srv: Server, client: Client, saveData: string, mode: SaveMode)
    modifies srv`saves, srv`outbox, client`disconnectFlag
    ensures srv.saves == old(srv.saves)[client.username := saveData]
    ensures client.disconnectFlag == (old(client.disconnectFlag) || mode == Disconnect || mode == Quit)
    ensures mode == Disconnect ==> srv.outbox == old(srv.outbox) + [Envelope(client, CommandPacket(DisconnectCommand, ""))]
    ensures mode == Quit ==> srv.outbox == old(srv.outbox) + [Envelope(client, CommandPacket(QuitCommand, ""))]
    ensures mode != Disconnect && mode != Quit ==> srv.outbox == old(srv.outbox)
  {
    srv.saves := srv.saves[client.username := saveData];
    if mode == Disconnect {
      SendData(srv, client, CommandPacket(DisconnectCommand, ""));
      client.disconnectFlag := true;
    } else if mode == Quit {
      SendData(srv, client, CommandPacket(QuitCommand, ""));
      client.disconnectFlag := true;
    }
  }

  /** LoadUserGame: the stored save goes back to its owner; reading a save
    * that does not exist faults. */
  method LoadUserGame(srv: Server, client: Client)
    modifies srv`outbox, client`disconnectFlag
    ensures client.username in srv.saves ==>
      client.disconnectFlag == old(client.disconnectFlag) &&
      srv.outbox == old(srv.outbox) + [Envelope(client, LoadFilePacket(srv.saves[client.username]))]
    ensures client.username !in srv.saves ==>
      client.disconnectFlag && srv.outbox == old(srv.outbox) + [Envelope(client, IllegalActionPacket)]
  {
    if client.username !in srv.saves {
      // the missing save file cannot be read: the fault reaches Network's catch
      SendIllegalPacket(srv, client, true);
      return;
    }
    SendData(srv, client, LoadFilePacket(srv.saves[client.username]));
  }

  /** CheckIfMapExists */
  predicate CheckIfMapExists(maps: map<string, MapFile>, tile: string)
  {
    tile in maps
  }

  /** GetUserMapFromTile: the map stored for the tile, if any. */
  function GetUserMapFromTile(maps: map<string, MapFile>, tile: string): (r: Option<MapFile>)
    ensures r.Some? <==> CheckIfMapExists(maps, tile)
    ensures r.Some? ==> r.value == maps[tile]
  {
    if tile in maps then Some(maps[tile]) else None
  }

  /** SaveUserMap: the uploaded map is stored under its tile, owned by the uploader. */
  method SaveUserMap(srv: Server, client: Client, tile: string, deflatedMapData: string)
    modifies srv`maps
    ensures srv.maps == old(srv.maps)[tile := MapFile(tile, client.username, deflatedMapData)]
    ensures GetUserMapFromTile(srv.maps, tile) == Some(MapFile(tile, client.username, deflatedMapData))
    ensures MapsKeyed(old(srv.maps)) ==> MapsKeyed(srv.maps)
  {
    srv.maps := srv.maps[tile := MapFile(tile, client.username, deflatedMapData)];
  }

  /** DeleteMap: nothing for a null map, otherwise its tile's record goes. */
  method DeleteMap(srv: Server, entry: Option<MapFile>)
    modifies srv`maps
    ensures entry.None? ==> srv.maps == old(srv.maps)
    ensures entry.Some? ==> srv.maps == old(srv.maps) - {entry.value.tile}
  {
    if entry.None? {
      return;
    }
    srv.maps := srv.maps - {entry.value.tile};
  }

  /** The map lookup of each tile, in order. */
  function MapsOf(tiles: seq<string>, maps: map<string, MapFile>): (r: seq<Option<MapFile>>)
    ensures |r| == |tiles|
    ensures forall k :: 0 <= k < |tiles| ==> r[k] == GetUserMapFromTile(maps, tiles[k])
    decreases |tiles|
  {
    if |tiles| == 0 then []
    else MapsOf(tiles[..|tiles| - 1], maps) + [GetUserMapFromTile(maps, tiles[|tiles| - 1])]
  }

  /** GetAllMapsFromUsername: one entry per settlement of the user, in
    * settlement order, null where the settlement has no map. */
  method GetAllMapsFromUsername(srv: Server, listing: seq<string>, username: string) returns (r: seq<Option<MapFile>>)
    ensures r == MapsOf(OwnedSettlements(listing, srv.settlements, username), srv.maps)
  {
    var tiles := GetAllSettlementsFromUsername(srv, listing, username);
    r := [];
    var i := 0;
    while i < |tiles|
      invariant 0 <= i <= |tiles|
      invariant r == MapsOf(tiles[..i], srv.maps)
    {
      assert tiles[..i + 1][..i] == tiles[..i];
      r := r + [GetUserMapFromTile(srv.maps, tiles[i])];
      i := i + 1;
    }
    assert tiles[..i] == tiles;
  }

  /** The tiles of the maps actually found, in order. */
  function MapTiles(entries: seq<Option<MapFile>>): seq<string>
    decreases |entries|
  {
    if |entries| == 0 then []
    else
      var e := entries[|entries| - 1];
      MapTiles(entries[..|entries| - 1]) + (if e.Some? then [e.value.tile] else [])
  }

  /** Deleting the maps found for some tiles deletes exactly the maps stored
    * under those tiles. */
  lemma {:induction false} MapTilesOfLookups(tiles: seq<string>, maps: map<string, MapFile>, t: string)
    requires MapsKeyed(maps)
    ensures t in MapTiles(MapsOf(tiles, maps)) <==> t in tiles && t in maps
    decreases |tiles|
  {
    if |tiles| > 0 {
      var front := tiles[..|tiles| - 1];
      MapTilesOfLookups(front, maps, t);
      assert MapsOf(tiles, maps)[..|tiles| - 1] == MapsOf(front, maps);
      assert tiles == front + [tiles[|tiles| - 1]];
    }
  }

  /** `foreach (MapFile map in userMaps) DeleteMap(map)` */
  method DeleteMaps(srv: Server, entries: seq<Option<MapFile>>)
    modifies srv`maps
    ensures srv.maps == WithoutKeys(old(srv.maps), MapTiles(entries))
  {
    var i := 0;
    while i < |entries|
      invariant 0 <= i <= |entries|
      invariant srv.maps == WithoutKeys(old(srv.maps), MapTiles(entries[..i]))
    {
      assert entries[..i + 1][..i] == entries[..i];
      ghost var done := MapTiles(entries[..i]);
      if entries[i].Some? {
        assert (done + [entries[i].value.tile])[..|done|] == done;
      }
      DeleteMap(srv, entries[i]);
      i := i + 1;
    }
    assert entries[..i] == entries;
  }

  /** The removal notice of each tile, each to every one of `cs`. */
  function RemovalNotices(tiles: seq<string>, owner: string, cs: seq<Client>): seq<Envelope>
    decreases |tiles|
  {
    if |tiles| == 0 then []
    else
      RemovalNotices(tiles[..|tiles| - 1], owner, cs)
      + Notify(cs, SettlementPacket(SettlementDetails(SettlementRemove, tiles[|tiles| - 1], owner)))
  }

  /** The settlements of a distinct listing are listed once each. */
  lemma {:induction false} OwnedSettlementsDistinct(listing: seq<string>, settlements: map<string, string>, username: string)
    requires Distinct(listing)
    ensures Distinct(OwnedSettlements(listing, settlements, username))
    decreases |listing|
  {
    if |listing| > 0 {
      var front := listing[..|listing| - 1];
      var t := listing[|listing| - 1];
      OwnedSettlementsDistinct(front, settlements, username);
      assert t !in front;
      assert t !in OwnedSettlements(front, settlements, username);
    }
  }

  /** While a distinct list of owned settlements is deleted in order, the
    * next one is still stored, under the same owner. */
  lemma NextStillOwned(m: map<string, string>, tiles: seq<string>, i: nat, owner: string)
    requires Distinct(tiles) && i < |tiles|
    requires forall t :: t in tiles ==> t in m && m[t] == owner
    ensures tiles[i] in WithoutKeys(m, tiles[..i])
    ensures WithoutKeys(m, tiles[..i])[tiles[i]] == owner
  {
    assert tiles[i] in tiles;
    assert tiles[i] !in tiles[..i];
  }

  /** RemoveSettlement by the owner of a stored settlement: it goes, and the
    * other sessions are told. */
  method RemoveOwnSettlement(srv: Server, client: Client, others: seq<Client>, tile: string)
    requires others == Others(srv.clients, client)
    requires tile in srv.settlements && srv.settlements[tile] == client.username
    modifies srv`settlements, srv`outbox, client`disconnectFlag
    ensures srv.settlements == old(srv.settlements) - {tile}
    ensures client.disconnectFlag == old(client.disconnectFlag)
    ensures srv.outbox == old(srv.outbox) + Notify(others, SettlementPacket(SettlementDetails(SettlementRemove, tile, client.username)))
  {
    RemoveSettlement(srv, client, SettlementDetails(SettlementRemove, tile, client.username), true);
  }

  /** One turn of RemoveOwnSettlements: tile `i` of the list goes and its
    * removal notice is sent. */
  method RemoveNextOwn(srv: Server, client: Client, others: seq<Client>, tiles: seq<string>, i: nat,
                       ghost settlements0: map<string, string>, ghost base: seq<Envelope>)
    requires i < |tiles| && Distinct(tiles)
    requires others == Others(srv.clients, client)
    requires forall t :: t in tiles ==> t in settlements0 && settlements0[t] == client.username
    requires srv.settlements == WithoutKeys(settlements0, tiles[..i])
    requires srv.outbox == base + RemovalNotices(tiles[..i], client.username, others)
    modifies srv`settlements, srv`outbox, client`disconnectFlag
    ensures srv.settlements == WithoutKeys(settlements0, tiles[..i + 1])
    ensures client.disconnectFlag == old(client.disconnectFlag)
    ensures srv.outbox == base + RemovalNotices(tiles[..i + 1], client.username, others)
  {
    assert tiles[..i + 1][..i] == tiles[..i];
    NextStillOwned(settlements0, tiles, i, client.username);
    ghost var notice := Notify(others, SettlementPacket(SettlementDetails(SettlementRemove, tiles[i], client.username)));
    RemoveOwnSettlement(srv, client, others, tiles[i]);
    AppendAssociates(base, RemovalNotices(tiles[..i], client.username, others), notice);
  }

  /** `foreach (SettlementFile s in playerSettlements) RemoveSettlement(...)`
    * by the owner's own session: every settlement of the list goes, and each
    * removal is announced to the other sessions. */
  method RemoveOwnSettlements(srv: Server, client: Client, tiles: seq<string>)
    requires Distinct(tiles)
    requires forall t :: t in tiles ==> t in srv.settlements && srv.settlements[t] == client.username
    modifies srv`settlements, srv`outbox, client`disconnectFlag
    ensures srv.settlements == WithoutKeys(old(srv.settlements), tiles)
    ensures client.disconnectFlag == old(client.disconnectFlag)
    ensures srv.outbox == old(srv.outbox) + RemovalNotices(tiles, client.username, Others(srv.clients, client))
  {
    var others := Others(srv.clients, client);
    var i := 0;
    while i < |tiles|
      invariant 0 <= i <= |tiles|
      invariant srv.settlements == WithoutKeys(old(srv.settlements), tiles[..i])
      invariant client.disconnectFlag == old(client.disconnectFlag)
      invariant srv.outbox == old(srv.outbox) + RemovalNotices(tiles[..i], client.username, others)
    {
      RemoveNextOwn(srv, client, others, tiles, i, old(srv.settlements), old(srv.outbox));
      i := i + 1;
    }
    assert tiles[..i] == tiles;
  }

  /** The same loop with no session: every settlement of the list goes,
    * silently. */
  method RemoveSettlementsSilently(srv: Server, owner: string, tiles: seq<string>)
    requires Distinct(tiles)
    requires forall t :: t in tiles ==> t in srv.settlements && srv.settlements[t] == owner
    modifies srv`settlements, srv`outbox
    ensures srv.settlements == WithoutKeys(old(srv.settlements), tiles)
    ensures srv.outbox == old(srv.outbox)
  {
    var i := 0;
    while i < |tiles|
      invariant 0 <= i <= |tiles|
      invariant srv.settlements == WithoutKeys(old(srv.settlements), tiles[..i])
      invariant srv.outbox == old(srv.outbox)
    {
      assert tiles[..i + 1][..i] == tiles[..i];
      NextStillOwned(old(srv.settlements), tiles, i, owner);
      RemoveSettlement(srv, null, SettlementDetails(SettlementRemove, tiles[i], owner), false);
      i := i + 1;
    }
    assert tiles[..i] == tiles;
  }

  /** `foreach (MapFile map in GetAllMapsFromUsername(username)) DeleteMap(map)`:
    * the maps stored under the user's settlements go, and only those. */
  method DeleteSettlementMaps(srv: Server, username: string, settlementListing: seq<string>)
    requires MapsKeyed(srv.maps)
    modifies srv`maps
    ensures srv.maps == WithoutKeys(old(srv.maps), OwnedSettlements(settlementListing, srv.settlements, username))
  {
    var entries := GetAllMapsFromUsername(srv, settlementListing, username);
    ghost var owned := OwnedSettlements(settlementListing, srv.settlements, username);
    DeleteMaps(srv, entries);
    forall t | true
      ensures t in srv.maps <==> t in WithoutKeys(old(srv.maps), owned)
    {
      MapTilesOfLookups(owned, old(srv.maps), t);
    }
  }

  /** The cascade shared by ResetClientSave (by the player's own session) and
    * DeletePlayerDetails (with no session): the save, the maps of the
    * player's settlements, the player's personal sites and its settlements
    * are deleted, in that order. */
  method DeleteWorldPresence(srv: Server, client: Client?, username: string, settlementListing: seq<string>, siteListing: seq<string>)
    requires client != null ==> client.username == username
    requires Distinct(settlementListing) && MapsKeyed(srv.maps)
    modifies srv`saves, srv`maps, srv`sites, srv`settlements, srv`outbox, (if client == null then {} else {client})`disconnectFlag
    ensures srv.saves == old(srv.saves) - {username}
    ensures srv.maps == WithoutKeys(old(srv.maps), OwnedSettlements(settlementListing, old(srv.settlements), username))
    ensures srv.settlements == WithoutKeys(old(srv.settlements), OwnedSettlements(settlementListing, old(srv.settlements), username))
    ensures srv.sites == WithoutKeys(old(srv.sites), PersonalSites(siteListing, old(srv.sites), username))
    ensures client != null ==>
      client.disconnectFlag == old(client.disconnectFlag) &&
      srv.outbox == old(srv.outbox)
        + DestroyNotices(PersonalSites(siteListing, old(srv.sites), username), srv.clients)
        + RemovalNotices(OwnedSettlements(settlementListing, old(srv.settlements), username), username, Others(srv.clients, client))
    ensures client == null ==>
      srv.outbox == old(srv.outbox) + DestroyNotices(PersonalSites(siteListing, old(srv.sites), username), srv.clients)
  {
    srv.saves := srv.saves - {username};
    DeleteSettlementMaps(srv, username, settlementListing);
    var sites := GetAllSitesFromUsername(srv, siteListing, username);
    DestroySites(srv, sites);
    var tiles := GetAllSettlementsFromUsername(srv, settlementListing, username);
    OwnedSettlementsDistinct(settlementListing, srv.settlements, username);
    if client != null {
      RemoveOwnSettlements(srv, client, tiles);
    } else {
      RemoveSettlementsSilently(srv, username, tiles);
    }
  }

  /** ResetClientSave: a player with no save commits an illegal action;
    * otherwise the player is disconnected and its world presence deleted. */
  method ResetClientSave(srv: Server, client: Client, settlementListing: seq<string>, siteListing: seq<string>)
    requires Distinct(settlementListing) && MapsKeyed(srv.maps)
    modifies srv`saves, srv`maps, srv`sites, srv`settlements, srv`outbox, client`disconnectFlag
    ensures client.disconnectFlag
    ensures client.username !in old(srv.saves) ==>
      srv.saves == old(srv.saves) && srv.maps == old(srv.maps) && srv.sites == old(srv.sites) &&
      srv.settlements == old(srv.settlements) &&
      srv.outbox == old(srv.outbox) + [Envelope(client, IllegalActionPacket)]
    ensures client.username in old(srv.saves) ==>
      var owned := OwnedSettlements(settlementListing, old(srv.settlements), client.username);
      var personal := PersonalSites(siteListing, old(srv.sites), client.username);
      srv.saves == old(srv.saves) - {client.username} &&
      srv.maps == WithoutKeys(old(srv.maps), owned) &&
      srv.sites == WithoutKeys(old(srv.sites), personal) &&
      srv.settlements == WithoutKeys(old(srv.settlements), owned) &&
      srv.outbox == old(srv.outbox)
        + DestroyNotices(personal, srv.clients)
        + RemovalNotices(owned, client.username, Others(srv.clients, client))
  {
    if client.username !in srv.saves {
      SendIllegalPacket(srv, client, true);
      return;
    }
    client.disconnectFlag := true;
    DeleteWorldPresence(srv, client, client.username, settlementListing, siteListing);
  }

  /** DeletePlayerDetails: the player's connected session, if any, is
    * disconnected, and its world presence deleted without announcing the
    * settlements' removal. */
  method DeletePlayerDetails(srv: Server, username: string, settlementListing: seq<string>, siteListing: seq<string>)
    requires Distinct(settlementListing) && MapsKeyed(srv.maps)
    modifies srv`saves, srv`maps, srv`sites, srv`settlements, srv`outbox, srv.clients`disconnectFlag
    ensures var target := old(FindClient(srv.clients, username));
      forall c :: c in srv.clients ==> c.disconnectFlag == (old(c.disconnectFlag) || c == target)
    ensures var owned := OwnedSettlements(settlementListing, old(srv.settlements), username);
      var personal := PersonalSites(siteListing, old(srv.sites), username);
      srv.saves == old(srv.saves) - {username} &&
      srv.maps == WithoutKeys(old(srv.maps), owned) &&
      srv.sites == WithoutKeys(old(srv.sites), personal) &&
      srv.settlements == WithoutKeys(old(srv.settlements), owned) &&
      srv.outbox == old(srv.outbox) + DestroyNotices(personal, srv.clients)
  {
    var connected := FindClient(srv.clients, username);
    if connected != null {
      connected.disconnectFlag := true;
    }
    DeleteWorldPresence(srv, null, username, settlementListing, siteListing);
  }
}
