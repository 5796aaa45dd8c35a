/*
 * The records the server keeps on disk, one file per record. Each store is
 * modelled as a map keyed by the record's file name (a tile, a faction name
 * or a username); only a map record repeats its key.
 */
module Records {
  import opened Lists

  /** FactionRanks; the files store them as "0", "1" and "2". */
  datatype Rank = Member | Moderator | Admin

  /** A site on a world tile: a personal one, or one built for a faction. */
  datatype SiteFile = SiteFile(
    owner: string,
    isFromFaction: bool,
    factionName: string,
    siteType: string,
    workerData: string)

  /** A faction: members and their ranks are two parallel, index-aligned lists. */
  datatype FactionFile = FactionFile(members: seq<string>, ranks: seq<Rank>)

  predicate Aligned(f: FactionFile)
  {
    |f.members| == |f.ranks|
  }

  /** Every faction record keeps its two lists the same length. */
  predicate FactionsAligned(factions: map<string, FactionFile>)
  {
    forall n :: n in factions ==> Aligned(factions[n])
  }

  /** The rank stored beside the first occurrence of the username, and
    * Member for a username that is not in the faction. */
  function RankOf(f: FactionFile, username: string): Rank
    requires Aligned(f)
  {
    if username in f.members then f.ranks[IndexOf(f.members, username)] else Member
  }

  /** A registered player. */
  datatype UserFile = UserFile(
    uid: string,
    password: string,
    hasFaction: bool,
    factionName: string,
    isAdmin: bool,
    isBanned: bool,
    enemyPlayers: seq<string>,
    allyPlayers: seq<string>,
    savedIP: string)

  /** The map of a settlement, uploaded by its owner. It keeps its tile, as
    * the map sent in reply to a map request carries it. */
  datatype MapFile = MapFile(tile: string, owner: string, deflatedMapData: string)

  /** Every map record is stored under its own tile. */
  predicate MapsKeyed(maps: map<string, MapFile>)
  {
    forall t :: t in maps ==> maps[t].tile == t
  }

  /** A lookup that may find nothing (a null result in the source). */
  datatype Option<T> = None | Some(value: T)
}
