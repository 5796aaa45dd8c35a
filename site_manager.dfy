/*
 * SiteManager: sites built on world tiles, personal or for a faction, the
 * worker deposited in them and the periodic reward tick. The store maps a
 * tile to its site record; CheckIfTileIsInUse and GetSiteFileFromTile are
 * lookups in that map.
 */
module SiteManager {
  import opened Lists
  import opened Text
  import opened Records
  import opened Packets
  import opened ServerState
  import opened ResponseShortcutManager

  /** The personal (non-faction) sites of `username`, in listing order. */
  function PersonalSites(listing: seq<string>, sites: map<string, SiteFile>, username: string): (r: seq<string>)
    ensures forall t :: t in r <==>
      t in listing && t in sites && !sites[t].isFromFaction && sites[t].owner == username
    decreases |listing|
  {
    if |listing| == 0 then []
    else
      var t := listing[|listing| - 1];
      PersonalSites(listing[..|listing| - 1], sites, username)
      + (if t in sites && !sites[t].isFromFaction && sites[t].owner == username then [t] else [])
  }

  /** GetAllSitesFromUsername: a scan of the site directory, given as `listing`;
    * faction sites the user built are not included. */
  method GetAllSitesFromUsername(srv: Server, listing: seq<string>, username: string) returns (tiles: seq<string>)
    ensures tiles == PersonalSites(listing, srv.sites, username)
  {
    tiles := [];
    var i := 0;
    while i < |listing|
      invariant 0 <= i <= |listing|
      invariant tiles == PersonalSites(listing[..i], srv.sites, username)
    {
      assert listing[..i + 1][..i] == listing[..i];
      var t := listing[i];
      if t in srv.sites && !srv.sites[t].isFromFaction && srv.sites[t].owner == username {
        tiles := tiles + [t];
      }
      i := i + 1;
    }
    assert listing[..i] == listing;
  }

  /** The Build notice every session receives and, with step Accept, the builder. */
  function BuildNotice(tile: string, owner: string, site: SiteFile): SiteDetails
  {
    SiteDetails(SiteBuild, tile, owner, site.siteType, site.isFromFaction, "", [])
  }

  /** What a build sends: the Build notice to every session, then Accept to the builder. */
  function BuildEnvelopes(cs: seq<Client>, builder: Client, owner: string, tile: string, site: SiteFile): seq<Envelope>
  {
    Notify(cs, SitePacket(BuildNotice(tile, owner, site)))
    + [Envelope(builder, SitePacket(BuildNotice(tile, owner, site).(step := SiteAccept)))]
  }

  /** The site is stored under its tile, every session (the builder
    * included) hears of it, and the builder also gets Accept. */
  method ConfirmNewSite(srv: Server, client: Client, tile: string, site: SiteFile)
    modifies srv`sites, srv`outbox
    ensures srv.sites == old(srv.sites)[tile := site]
    ensures srv.outbox == old(srv.outbox) + BuildEnvelopes(srv.clients, client, client.username, tile, site)
  {
    srv.sites := srv.sites[tile := site];
    var notice := BuildNotice(tile, client.username, site);
    SendToEach(srv, srv.clients, SitePacket(notice));
    SendData(srv, client, SitePacket(notice.(step := SiteAccept)));
  }

  /** The record a build request produces: owned by the builder, and tied to
    * the builder's faction only for a faction site. */
  function NewSiteFile(client_username: string, client_factionName: string, details: SiteDetails): (s: SiteFile)
    ensures s.owner == client_username && s.isFromFaction == details.isFromFaction
    ensures s.factionName == (if details.isFromFaction then client_factionName else "")
    ensures s.siteType == details.siteType && s.workerData == ""
  {
    if details.isFromFaction then SiteFile(client_username, true, client_factionName, details.siteType, "")
    else SiteFile(client_username, false, "", details.siteType, "")
  }

  /** A tile held by a settlement or a site cannot be built on; a faction site
    * needs a rank above Member (a caller whose faction record is missing
    * faults); otherwise the new site is confirmed. */
  method AddNewSite(srv: Server, client: Client, details: SiteDetails)
    requires FactionsAligned(srv.factions)
    modifies srv`sites, srv`outbox, client`disconnectFlag
    ensures details.tile in srv.settlements || details.tile in old(srv.sites) ==>
      srv.sites == old(srv.sites) && client.disconnectFlag &&
      srv.outbox == old(srv.outbox) + [Envelope(client, IllegalActionPacket)]
    ensures details.tile !in srv.settlements && details.tile !in old(srv.sites) && details.isFromFaction ==>
      if client.factionName !in srv.factions then
        srv.sites == old(srv.sites) && client.disconnectFlag &&
        srv.outbox == old(srv.outbox) + [Envelope(client, IllegalActionPacket)]
      else if RankOf(srv.factions[client.factionName], client.username) == Member then
        srv.sites == old(srv.sites) && client.disconnectFlag == old(client.disconnectFlag) &&
        srv.outbox == old(srv.outbox) + [Envelope(client, FactionPacket(NewManifest.(mode := NoPower)))]
      else
        srv.sites == old(srv.sites)[details.tile := NewSiteFile(client.username, client.factionName, details)] &&
        client.disconnectFlag == old(client.disconnectFlag) &&
        srv.outbox == old(srv.outbox) +
          BuildEnvelopes(srv.clients, client, client.username, details.tile, NewSiteFile(client.username, client.factionName, details))
    ensures details.tile !in srv.settlements && details.tile !in old(srv.sites) && !details.isFromFaction ==>
      srv.sites == old(srv.sites)[details.tile := NewSiteFile(client.username, client.factionName, details)] &&
      client.disconnectFlag == old(client.disconnectFlag) &&
      srv.outbox == old(srv.outbox) +
        BuildEnvelopes(srv.clients, client, client.username, details.tile, NewSiteFile(client.username, client.factionName, details))
  {
    if details.tile in srv.settlements {
      SendIllegalPacket(srv, client, true);
    } else if details.tile in srv.sites {
      SendIllegalPacket(srv, client, true);
    } else {
      if details.isFromFaction {
        if client.factionName !in srv.factions {
          // GetMemberRank on a missing faction record: the fault reaches Network's catch
          SendIllegalPacket(srv, client, true);
          return;
        }
        if RankOf(srv.factions[client.factionName], client.username) == Member {
          SendNoPowerPacket(srv, client, NewManifest);
          return;
        }
      }
      ConfirmNewSite(srv, client, details.tile, NewSiteFile(client.username, client.factionName, details));
    }
  }

  /** Every session is told the site is destroyed, then its record is deleted. */
  method DestroySiteFromFile(srv: Server, tile: string)
    modifies srv`sites, srv`outbox
    ensures srv.sites == old(srv.sites) - {tile}
    ensures srv.outbox == old(srv.outbox) + Notify(srv.clients, SitePacket(NewSiteDetails(SiteDestroy).(tile := tile)))
  {
    SendToEach(srv, srv.clients, SitePacket(NewSiteDetails(SiteDestroy).(tile := tile)));
    srv.sites := srv.sites - {tile};
  }

  /** The Destroy notices of a series of sites, each to every session. */
  function DestroyNotices(tiles: seq<string>, cs: seq<Client>): seq<Envelope>
    decreases |tiles|
  {
    if |tiles| == 0 then []
    else
      DestroyNotices(tiles[..|tiles| - 1], cs)
      + Notify(cs, SitePacket(NewSiteDetails(SiteDestroy).(tile := tiles[|tiles| - 1])))
  }

  /** `foreach (SiteFile site in sites) DestroySiteFromFile(site)`, as DeleteFaction,
    * ResetClientSave and DeletePlayerDetails run it. */
  method DestroySites(srv: Server, tiles: seq<string>)
    modifies srv`sites, srv`outbox
    ensures srv.sites == WithoutKeys(old(srv.sites), tiles)
    ensures srv.outbox == old(srv.outbox) + DestroyNotices(tiles, srv.clients)
  {
    var j := 0;
    while j < |tiles|
      invariant 0 <= j <= |tiles|
      invariant srv.sites == WithoutKeys(old(srv.sites), tiles[..j])
      invariant srv.outbox == old(srv.outbox) + DestroyNotices(tiles[..j], srv.clients)
    {
      assert tiles[..j + 1][..j] == tiles[..j];
      DestroySiteFromFile(srv, tiles[j]);
      j := j + 1;
    }
    assert tiles[..j] == tiles;
  }

  datatype DestroyVerdict = Destroy | Illegal | NoPowerVerdict | Fault

  /** Who may destroy a site: for a faction site, a member of that faction
    * above rank Member; for a personal site, its owner. */
  function DestroyDecision(site: SiteFile, username: string, factionName: string, factions: map<string, FactionFile>): (v: DestroyVerdict)
    requires FactionsAligned(factions)
    ensures v == Destroy <==>
      (site.isFromFaction && site.factionName == factionName && factionName in factions &&
       RankOf(factions[factionName], username) != Member)
      || (!site.isFromFaction && site.owner == username)
    ensures v == Illegal <==>
      (site.isFromFaction && site.factionName != factionName) || (!site.isFromFaction && site.owner != username)
    ensures v == NoPowerVerdict ==> site.isFromFaction && factionName in factions && RankOf(factions[factionName], username) == Member
  {
    if site.isFromFaction then
      if site.factionName != factionName then Illegal
      else if factionName !in factions then Fault
      else if RankOf(factions[factionName], username) != Member then Destroy
      else NoPowerVerdict
    else if site.owner != username then Illegal
    else Destroy
  }

  /** DestroySite: a missing site faults; otherwise the verdict above decides. */
  method DestroySite(srv: Server, client: Client, details: SiteDetails)
    requires FactionsAligned(srv.factions)
    modifies srv`sites, srv`outbox, client`disconnectFlag
    ensures details.tile !in old(srv.sites) ==>
      srv.sites == old(srv.sites) && client.disconnectFlag &&
      srv.outbox == old(srv.outbox) + [Envelope(client, IllegalActionPacket)]
    ensures details.tile in old(srv.sites) ==>
      var v := DestroyDecision(old(srv.sites)[details.tile], client.username, client.factionName, srv.factions);
      (v == Destroy ==>
        srv.sites == old(srv.sites) - {details.tile} && client.disconnectFlag == old(client.disconnectFlag) &&
        srv.outbox == old(srv.outbox) + Notify(srv.clients, SitePacket(NewSiteDetails(SiteDestroy).(tile := details.tile))))
      && (v == Illegal || v == Fault ==>
        srv.sites == old(srv.sites) && client.disconnectFlag &&
        srv.outbox == old(srv.outbox) + [Envelope(client, IllegalActionPacket)])
      && (v == NoPowerVerdict ==>
        srv.sites == old(srv.sites) && client.disconnectFlag == old(client.disconnectFlag) &&
        srv.outbox == old(srv.outbox) + [Envelope(client, FactionPacket(NewManifest.(mode := NoPower)))])
  {
    if details.tile !in srv.sites {
      SendIllegalPacket(srv, client, true);
      return;
    }
    var v := DestroyDecision(srv.sites[details.tile], client.username, client.factionName, srv.factions);
    match v
    case Destroy => DestroySiteFromFile(srv, details.tile);
    case Illegal => SendIllegalPacket(srv, client, true);
    case Fault => SendIllegalPacket(srv, client, true);
    case NoPowerVerdict => SendNoPowerPacket(srv, client, NewManifest);
  }

  /** GetSiteInfo: the request comes back filled in from the stored record. */
  method GetSiteInfo(srv: Server, client: Client, details: SiteDetails)
    modifies srv`outbox, client`disconnectFlag
    ensures details.tile !in srv.sites ==>
      client.disconnectFlag && srv.outbox == old(srv.outbox) + [Envelope(client, IllegalActionPacket)]
    ensures details.tile in srv.sites ==>
      var s := srv.sites[details.tile];
      client.disconnectFlag == old(client.disconnectFlag) &&
      srv.outbox == old(srv.outbox) +
        [Envelope(client, SitePacket(details.(siteType := s.siteType, workerData := s.workerData, isFromFaction := s.isFromFaction)))]
  {
    if details.tile !in srv.sites {
      SendIllegalPacket(srv, client, true);
      return;
    }
    var s := srv.sites[details.tile];
    SendData(srv, client, SitePacket(details.(siteType := s.siteType, workerData := s.workerData, isFromFaction := s.isFromFaction)));
  }

  /** The worker guard of Deposit and Retrieve: a non-owner is refused when
    * the owner is in the caller's faction, and a non-owner whose faction
    * record is missing faults. A non-owner from another faction passes. */
  predicate WorkerAccessRefused(site: SiteFile, username: string, factionName: string, factions: map<string, FactionFile>)
  {
    site.owner != username && (factionName !in factions || site.owner in factions[factionName].members)
  }

  method DepositWorkerToSite(srv: Server, client: Client, details: SiteDetails)
    modifies srv`sites, srv`outbox, client`disconnectFlag
    ensures details.tile !in old(srv.sites) ||
            WorkerAccessRefused(old(srv.sites)[details.tile], client.username, client.factionName, srv.factions) ==>
      srv.sites == old(srv.sites) && client.disconnectFlag &&
      srv.outbox == old(srv.outbox) + [Envelope(client, IllegalActionPacket)]
    ensures details.tile in old(srv.sites) &&
            !WorkerAccessRefused(old(srv.sites)[details.tile], client.username, client.factionName, srv.factions) ==>
      srv.sites == old(srv.sites)[details.tile := old(srv.sites)[details.tile].(workerData := details.workerData)] &&
      client.disconnectFlag == old(client.disconnectFlag) && srv.outbox == old(srv.outbox)
  {
    if details.tile !in srv.sites {
      SendIllegalPacket(srv, client, true);
      return;
    }
    var s := srv.sites[details.tile];
    if WorkerAccessRefused(s, client.username, client.factionName, srv.factions) {
      SendIllegalPacket(srv, client, true);
    } else {
      srv.sites := srv.sites[details.tile := s.(workerData := details.workerData)];
    }
  }

  /** The stored worker goes back to the caller and the site is left empty. */
  method RetrieveWorkerFromSite(srv: Server, client: Client, details: SiteDetails)
    modifies srv`sites, srv`outbox, client`disconnectFlag
    ensures details.tile !in old(srv.sites) ||
            WorkerAccessRefused(old(srv.sites)[details.tile], client.username, client.factionName, srv.factions) ==>
      srv.sites == old(srv.sites) && client.disconnectFlag &&
      srv.outbox == old(srv.outbox) + [Envelope(client, IllegalActionPacket)]
    ensures details.tile in old(srv.sites) &&
            !WorkerAccessRefused(old(srv.sites)[details.tile], client.username, client.factionName, srv.factions) ==>
      var s := old(srv.sites)[details.tile];
      srv.sites == old(srv.sites)[details.tile := s.(workerData := "")] &&
      client.disconnectFlag == old(client.disconnectFlag) &&
      srv.outbox == old(srv.outbox) + [Envelope(client, SitePacket(details.(workerData := s.workerData)))]
  {
    if details.tile !in srv.sites {
      SendIllegalPacket(srv, client, true);
      return;
    }
    var s := srv.sites[details.tile];
    if WorkerAccessRefused(s, client.username, client.factionName, srv.factions) {
      SendIllegalPacket(srv, client, true);
    } else {
      srv.sites := srv.sites[details.tile := s.(workerData := "")];
      SendData(srv, client, SitePacket(details.(workerData := s.workerData)));
    }
  }

  /** Personal sites of `username` holding a worker, in listing order. */
  function WorkedPersonalSites(listing: seq<string>, sites: map<string, SiteFile>, username: string): (r: seq<string>)
    decreases |listing|
  {
    if |listing| == 0 then []
    else
      var t := listing[|listing| - 1];
      WorkedPersonalSites(listing[..|listing| - 1], sites, username)
      + (if t in sites && sites[t].owner == username && !IsBlank(sites[t].workerData) && !sites[t].isFromFaction then [t] else [])
  }

  /** The faction sites of `factionName`, worked or not, in listing order. */
  function FactionSitesOf(listing: seq<string>, sites: map<string, SiteFile>, factionName: string): (r: seq<string>)
    decreases |listing|
  {
    if |listing| == 0 then []
    else
      var t := listing[|listing| - 1];
      FactionSitesOf(listing[..|listing| - 1], sites, factionName)
      + (if t in sites && sites[t].factionName == factionName && sites[t].isFromFaction then [t] else [])
  }

  lemma {:induction false} WorkedPersonalSitesMembers(listing: seq<string>, sites: map<string, SiteFile>, username: string, t: string)
    ensures t in WorkedPersonalSites(listing, sites, username) <==>
      t in listing && t in sites && sites[t].owner == username && !IsBlank(sites[t].workerData) && !sites[t].isFromFaction
    decreases |listing|
  {
    if |listing| > 0 {
      var init := listing[..|listing| - 1];
      WorkedPersonalSitesMembers(init, sites, username, t);
      assert listing == init + [listing[|listing| - 1]];
    }
  }

  lemma {:induction false} FactionSitesOfMembers(listing: seq<string>, sites: map<string, SiteFile>, factionName: string, t: string)
    ensures t in FactionSitesOf(listing, sites, factionName) <==>
      t in listing && t in sites && sites[t].factionName == factionName && sites[t].isFromFaction
    decreases |listing|
  {
    if |listing| > 0 {
      var init := listing[..|listing| - 1];
      FactionSitesOfMembers(init, sites, factionName, t);
      assert listing == init + [listing[|listing| - 1]];
    }
  }

  /** The sites a session is rewarded for in one tick. */
  function RewardList(listing: seq<string>, sites: map<string, SiteFile>, username: string, hasFaction: bool, factionName: string): seq<string>
  {
    WorkedPersonalSites(listing, sites, username)
    + (if hasFaction then FactionSitesOf(listing, sites, factionName) else [])
  }

  /** A tile is in a session's reward list exactly when it is one of the
    * session's personal sites with a worker in it, or a site of the
    * session's faction. */
  lemma RewardListMembers(listing: seq<string>, sites: map<string, SiteFile>, username: string, hasFaction: bool, factionName: string, t: string)
    requires t in listing && t in sites
    ensures t in RewardList(listing, sites, username, hasFaction, factionName) <==>
      (!sites[t].isFromFaction && sites[t].owner == username && !IsBlank(sites[t].workerData))
      || (hasFaction && sites[t].isFromFaction && sites[t].factionName == factionName)
  {
    WorkedPersonalSitesMembers(listing, sites, username, t);
    FactionSitesOfMembers(listing, sites, factionName, t);
  }

  /** What the tick reads from one session. */
  datatype RewardSubject = RewardSubject(client: Client, username: string, hasFaction: bool, factionName: string)

  function Subjects(cs: seq<Client>): (r: seq<RewardSubject>)
    reads cs`username, cs`hasFaction, cs`factionName
    ensures |r| == |cs|
    ensures forall k :: 0 <= k < |cs| ==> r[k] == RewardSubject(cs[k], cs[k].username, cs[k].hasFaction, cs[k].factionName)
  {
    if |cs| == 0 then []
    else [RewardSubject(cs[0], cs[0].username, cs[0].hasFaction, cs[0].factionName)] + Subjects(cs[1..])
  }

  /** The reward packets of one tick, one per session with a non-empty list,
    * in registry order. */
  function RewardEnvelopes(ss: seq<RewardSubject>, listing: seq<string>, sites: map<string, SiteFile>): (r: seq<Envelope>)
    ensures |r| <= |ss|
    ensures forall i :: 0 <= i < |r| ==>
      r[i].packet.SitePacket? && r[i].packet.site.step == SiteReward && |r[i].packet.site.sitesWithRewards| > 0
    decreases |ss|
  {
    if |ss| == 0 then []
    else
      var c := ss[|ss| - 1];
      var l := RewardList(listing, sites, c.username, c.hasFaction, c.factionName);
      RewardEnvelopes(ss[..|ss| - 1], listing, sites)
      + (if |l| > 0 then [Envelope(c.client, SitePacket(NewSiteDetails(SiteReward).(sitesWithRewards := l)))] else [])
  }

  /** The first half of a session's reward list, as the tick collects it. */
  method CollectWorkedPersonalSites(srv: Server, listing: seq<string>, username: string) returns (tiles: seq<string>)
    ensures tiles == WorkedPersonalSites(listing, srv.sites, username)
  {
    tiles := [];
    var i := 0;
    while i < |listing|
      invariant 0 <= i <= |listing|
      invariant tiles == WorkedPersonalSites(listing[..i], srv.sites, username)
    {
      assert listing[..i + 1][..i] == listing[..i];
      var t := listing[i];
      if t in srv.sites && srv.sites[t].owner == username && !IsBlank(srv.sites[t].workerData) && !srv.sites[t].isFromFaction {
        tiles := tiles + [t];
      }
      i := i + 1;
    }
    assert listing[..i] == listing;
  }

  /** FactionManager.GetFactionSites: a scan of the site directory for the
    * sites of a faction; the reward tick runs the same filter. */
  method GetFactionSites(srv: Server, listing: seq<string>, factionName: string) returns (tiles: seq<string>)
    ensures tiles == FactionSitesOf(listing, srv.sites, factionName)
  {
    tiles := [];
    var i := 0;
    while i < |listing|
      invariant 0 <= i <= |listing|
      invariant tiles == FactionSitesOf(listing[..i], srv.sites, factionName)
    {
      assert listing[..i + 1][..i] == listing[..i];
      var t := listing[i];
      if t in srv.sites && srv.sites[t].factionName == factionName && srv.sites[t].isFromFaction {
        tiles := tiles + [t];
      }
      i := i + 1;
    }
    assert listing[..i] == listing;
  }

  /** One turn of SiteRewardTick's loop: the session behind `ss[i]` gets
    * its reward list when the list is not empty. */
  method RewardOne(srv: Server, c: Client, listing: seq<string>, ghost ss: seq<RewardSubject>, i: nat, ghost base: seq<Envelope>)
    requires i < |ss| && ss[i] == RewardSubject(c, c.username, c.hasFaction, c.factionName)
    requires srv.outbox == base + RewardEnvelopes(ss[..i], listing, srv.sites)
    modifies srv`outbox
    ensures srv.outbox == base + RewardEnvelopes(ss[..i + 1], listing, srv.sites)
  {
    var tiles := CollectWorkedPersonalSites(srv, listing, c.username);
    if c.hasFaction {
      var factionTiles := GetFactionSites(srv, listing, c.factionName);
      tiles := tiles + factionTiles;
    }
    assert tiles == RewardList(listing, srv.sites, ss[i].username, ss[i].hasFaction, ss[i].factionName);
    assert ss[..i + 1][..i] == ss[..i];
    ghost var done := RewardEnvelopes(ss[..i], listing, srv.sites);
    var p := SitePacket(NewSiteDetails(SiteReward).(sitesWithRewards := tiles));
    ghost var step := if |tiles| > 0 then [Envelope(c, p)] else [];
    assert RewardEnvelopes(ss[..i + 1], listing, srv.sites) == done + step;
    if |tiles| > 0 {
      SendData(srv, c, p);
      AppendAssociates(base, done, step);
    }
  }

  /** SiteRewardTick: every connected session with a non-empty reward list
    * gets it; sessions with nothing to reward get no packet. */
  method SiteRewardTick(srv: Server, listing: seq<string>)
    modifies srv`outbox
    ensures srv.outbox == old(srv.outbox) + RewardEnvelopes(old(Subjects(srv.clients)), listing, srv.sites)
  {
    var cs := srv.clients;
    ghost var ss := Subjects(cs);
    var i := 0;
    while i < |cs|
      invariant 0 <= i <= |cs|
      invariant srv.outbox == old(srv.outbox) + RewardEnvelopes(ss[..i], listing, srv.sites)
    {
      RewardOne(srv, cs[i], listing, ss, i, old(srv.outbox));
      i := i + 1;
    }
    assert ss[..i] == ss;
  }

  /** ParseSitePacket: dispatch on the step; each handled step has the
    * effect of its handler, and Accept and Reward are ignored. */
  method ParseSitePacket(srv: Server, client: Client, details: SiteDetails)
    requires FactionsAligned(srv.factions)
    modifies srv`sites, srv`outbox, client`disconnectFlag
    ensures details.step == SiteAccept || details.step == SiteReward ==>
      srv.sites == old(srv.sites) && srv.outbox == old(srv.outbox) && client.disconnectFlag == old(client.disconnectFlag)
    // Build
    ensures details.step == SiteBuild && (details.tile in srv.settlements || details.tile in old(srv.sites)) ==>
      srv.sites == old(srv.sites) && client.disconnectFlag &&
      srv.outbox == old(srv.outbox) + [Envelope(client, IllegalActionPacket)]
    ensures details.step == SiteBuild && details.tile !in srv.settlements && details.tile !in old(srv.sites) ==>
      var site := NewSiteFile(client.username, client.factionName, details);
      if details.isFromFaction && client.factionName !in srv.factions then
        srv.sites == old(srv.sites) && client.disconnectFlag &&
        srv.outbox == old(srv.outbox) + [Envelope(client, IllegalActionPacket)]
      else if details.isFromFaction && RankOf(srv.factions[client.factionName], client.username) == Member then
        srv.sites == old(srv.sites) && client.disconnectFlag == old(client.disconnectFlag) &&
        srv.outbox == old(srv.outbox) + [Envelope(client, FactionPacket(NewManifest.(mode := NoPower)))]
      else
        srv.sites == old(srv.sites)[details.tile := site] && client.disconnectFlag == old(client.disconnectFlag) &&
        srv.outbox == old(srv.outbox) + BuildEnvelopes(srv.clients, client, client.username, details.tile, site)
    // Destroy
    ensures details.step == SiteDestroy && details.tile !in old(srv.sites) ==>
      srv.sites == old(srv.sites) && client.disconnectFlag &&
      srv.outbox == old(srv.outbox) + [Envelope(client, IllegalActionPacket)]
    ensures details.step == SiteDestroy && details.tile in old(srv.sites) ==>
      var v := DestroyDecision(old(srv.sites)[details.tile], client.username, client.factionName, srv.factions);
      (v == Destroy ==>
        srv.sites == old(srv.sites) - {details.tile} && client.disconnectFlag == old(client.disconnectFlag) &&
        srv.outbox == old(srv.outbox) + Notify(srv.clients, SitePacket(NewSiteDetails(SiteDestroy).(tile := details.tile))))
      && (v == Illegal || v == Fault ==>
        srv.sites == old(srv.sites) && client.disconnectFlag &&
        srv.outbox == old(srv.outbox) + [Envelope(client, IllegalActionPacket)])
      && (v == NoPowerVerdict ==>
        srv.sites == old(srv.sites) && client.disconnectFlag == old(client.disconnectFlag) &&
        srv.outbox == old(srv.outbox) + [Envelope(client, FactionPacket(NewManifest.(mode := NoPower)))])
    // Info
    ensures details.step == SiteInfo ==> srv.sites == old(srv.sites)
    ensures details.step == SiteInfo && details.tile !in srv.sites ==>
      client.disconnectFlag && srv.outbox == old(srv.outbox) + [Envelope(client, IllegalActionPacket)]
    ensures details.step == SiteInfo && details.tile in srv.sites ==>
      var s := srv.sites[details.tile];
      client.disconnectFlag == old(client.disconnectFlag) &&
      srv.outbox == old(srv.outbox) +
        [Envelope(client, SitePacket(details.(siteType := s.siteType, workerData := s.workerData, isFromFaction := s.isFromFaction)))]
    // Deposit and Retrieve
    ensures (details.step == SiteDeposit || details.step == SiteRetrieve) &&
            (details.tile !in old(srv.sites) ||
             WorkerAccessRefused(old(srv.sites)[details.tile], client.username, client.factionName, srv.factions)) ==>
      srv.sites == old(srv.sites) && client.disconnectFlag &&
      srv.outbox == old(srv.outbox) + [Envelope(client, IllegalActionPacket)]
    ensures details.step == SiteDeposit && details.tile in old(srv.sites) &&
            !WorkerAccessRefused(old(srv.sites)[details.tile], client.username, client.factionName, srv.factions) ==>
      srv.sites == old(srv.sites)[details.tile := old(srv.sites)[details.tile].(workerData := details.workerData)] &&
      client.disconnectFlag == old(client.disconnectFlag) && srv.outbox == old(srv.outbox)
    ensures details.step == SiteRetrieve && details.tile in old(srv.sites) &&
            !WorkerAccessRefused(old(srv.sites)[details.tile], client.username, client.factionName, srv.factions) ==>
      var s := old(srv.sites)[details.tile];
      srv.sites == old(srv.sites)[details.tile := s.(workerData := "")] &&
      client.disconnectFlag == old(client.disconnectFlag) &&
      srv.outbox == old(srv.outbox) + [Envelope(client, SitePacket(details.(workerData := s.workerData)))]
  {
    match details.step
    case SiteBuild => AddNewSite(srv, client, details);
    case SiteDestroy => DestroySite(srv, client, details);
    case SiteInfo => GetSiteInfo(srv, client, details);
    case SiteDeposit => DepositWorkerToSite(srv, client, details);
    case SiteRetrieve => RetrieveWorkerFromSite(srv, client, details);
    case SiteAccept =>
    case SiteReward =>
  }
}
