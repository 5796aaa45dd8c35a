/*
 * The packets exchanged with game clients. A packet is a header plus one
 * serialized DTO; here each header is a constructor of `Packet` and each DTO
 * a datatype whose step/mode field is an enumeration rather than the
 * integer-in-a-string the wire format uses.
 */
module Packets {
  import opened Records

  datatype SettlementStep = SettlementAdd | SettlementRemove

  datatype SettlementDetails = SettlementDetails(step: SettlementStep, tile: string, owner: string)

  datatype SiteStep = SiteAccept | SiteBuild | SiteDestroy | SiteInfo | SiteDeposit | SiteRetrieve | SiteReward

  datatype SiteDetails = SiteDetails(
    step: SiteStep,
    tile: string,
    owner: string,
    siteType: string,
    isFromFaction: bool,
    workerData: string,
    sitesWithRewards: seq<string>)

  /** A fresh SiteDetailsJSON with only its step set. */
  function NewSiteDetails(step: SiteStep): (d: SiteDetails)
    ensures d.step == step && d.sitesWithRewards == []
  {
    SiteDetails(step, "", "", "", false, "", [])
  }

  datatype ManifestMode =
    | Create | Delete | NameInUse | NoPower | AddMember | RemoveMember
    | AcceptInvite | Promote | Demote | AdminProtection | MemberList

  /** FactionManifestJSON: `details` carries a faction name or a settlement tile. */
  datatype FactionManifest = FactionManifest(
    mode: ManifestMode,
    details: string,
    complexDetails: seq<string>,
    secondaryComplexDetails: seq<Rank>)

  /** A fresh FactionManifestJSON; its mode is always overwritten before sending. */
  const NewManifest := FactionManifest(Create, "", [], [])

  datatype VisitStep = VisitRequest | VisitAccept | VisitReject | VisitUnavailable | VisitAction | VisitStop

  /** VisitDetailsJSON; `details` stands for the map and pawn payload relayed untouched. */
  datatype VisitDetails = VisitDetails(
    step: VisitStep,
    targetTile: string,
    fromTile: string,
    visitorName: string,
    details: string)

  datatype EventStep = EventSend | EventReceive | EventRecover

  datatype EventDetails = EventDetails(step: EventStep, fromTile: string, toTile: string, eventId: string)

  datatype TransferMode = Gift | Trade | Rebound | Pod

  datatype TransferStep =
    | TradeRequest | TradeAccept | TradeReject | TradeReRequest
    | TradeReAccept | TradeReReject | Recover | PodStep

  /** TransferManifestJSON; `details` stands for the transferred things. */
  datatype TransferManifest = TransferManifest(
    step: TransferStep,
    mode: TransferMode,
    fromTile: string,
    toTile: string,
    details: string)

  /** The two steps shared by offline visits, raids and spying. */
  datatype MapRequestStep = MapRequest | MapDeny

  /** The data field holds the requested tile, and in a served reply the serialized map. */
  datatype MapData = TileRef(tile: string) | SerializedMap(mapFile: MapFile)

  datatype MapRequestDetails = MapRequestDetails(step: MapRequestStep, data: MapData)

  datatype LoginResponse =
    | InvalidLogin | BannedLogin | RegisterSuccess | RegisterInUse | RegisterError
    | ExtraLogin | WrongMods | ServerFull | Whitelist

  datatype CommandType = OpCommand | DeopCommand | BanCommand | DisconnectCommand | QuitCommand | BroadcastCommand | ForceSaveCommand

  datatype WorldStep = WorldRequired | WorldExisting | WorldSaved

  /** ChatMessagesJSON: four parallel lists; colours are the codes "0", "1", "2". */
  datatype ChatMessages = ChatMessages(
    usernames: seq<string>,
    messages: seq<string>,
    userColors: seq<string>,
    messageColors: seq<string>)

  const ColorNormal := "0"
  const ColorAdmin := "1"
  const ColorConsole := "2"

  /** Every packet the server sends, by header. */
  datatype Packet =
    | IllegalActionPacket
    | UserUnavailablePacket
    | BreakPacket
    | FactionPacket(manifest: FactionManifest)
    | SettlementPacket(settlement: SettlementDetails)
    | SitePacket(site: SiteDetails)
    | VisitPacket(visit: VisitDetails)
    | EventPacket(event: EventDetails)
    | TransferPacket(transfer: TransferManifest)
    | OfflineVisitPacket(request: MapRequestDetails)
    | RaidPacket(request: MapRequestDetails)
    | SpyPacket(request: MapRequestDetails)
    | LoginResponsePacket(response: LoginResponse, conflictingMods: seq<string>)
    | PlayerRecountPacket(currentPlayers: nat, currentPlayerNames: seq<string>)
    | ChatPacket(chat: ChatMessages)
    | CommandPacket(commandType: CommandType, commandDetails: string)
    | LoadFilePacket(saveData: string)
    | WorldPacket(worldStep: WorldStep)
    | ServerOverallsPacket
}
