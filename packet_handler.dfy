/*
 * PacketHandler: the routing of an incoming packet, by its header, to the
 * handler that processes it. The routing itself changes nothing; each
 * handler is modelled in its own module (UserLogin.TryLoginUser,
 * UserRegister.TryRegisterUser, SaveManager.SaveUserGame, ...).
 */
module PacketHandler {
  import opened Records

  /** The handlers a packet can be routed to. */
  datatype Handler =
    | Login | Register | SaveGame | Likelihoods | Transfer | Site | Visit
    | OfflineVisit | Chat | Faction | SaveMap | Raid | Spy | Settlement
    | Event | World | Difficulty | ResetSave

  /** The switch on packet.header: the handler for a known header, None for
    * any other header (the switch has no default case). */
  function Route(header: string): (r: Option<Handler>)
    ensures r.Some? <==> header in KnownHeaders
    ensures r.Some? ==> HeaderOf(r.value) == header
  {
    match header
    case "LoginClientPacket" => Some(Login)
    case "RegisterClientPacket" => Some(Register)
    case "SaveFilePacket" => Some(SaveGame)
    case "LikelihoodPacket" => Some(Likelihoods)
    case "TransferPacket" => Some(Transfer)
    case "SitePacket" => Some(Site)
    case "VisitPacket" => Some(Visit)
    case "OfflineVisitPacket" => Some(OfflineVisit)
    case "ChatPacket" => Some(Chat)
    case "FactionPacket" => Some(Faction)
    case "MapPacket" => Some(SaveMap)
    case "RaidPacket" => Some(Raid)
    case "SpyPacket" => Some(Spy)
    case "SettlementPacket" => Some(Settlement)
    case "EventPacket" => Some(Event)
    case "WorldPacket" => Some(World)
    case "CustomDifficultyPacket" => Some(Difficulty)
    case "ResetSavePacket" => Some(ResetSave)
    case _ => None
  }

  /** The header each handler is reached by. */
  function HeaderOf(h: Handler): string
  {
    match h
    case Login => "LoginClientPacket"
    case Register => "RegisterClientPacket"
    case SaveGame => "SaveFilePacket"
    case Likelihoods => "LikelihoodPacket"
    case Transfer => "TransferPacket"
    case Site => "SitePacket"
    case Visit => "VisitPacket"
    case OfflineVisit => "OfflineVisitPacket"
    case Chat => "ChatPacket"
    case Faction => "FactionPacket"
    case SaveMap => "MapPacket"
    case Raid => "RaidPacket"
    case Spy => "SpyPacket"
    case Settlement => "SettlementPacket"
    case Event => "EventPacket"
    case World => "WorldPacket"
    case Difficulty => "CustomDifficultyPacket"
    case ResetSave => "ResetSavePacket"
  }

  /** The headers the switch knows. */
  const KnownHeaders: set<string> := {
    "LoginClientPacket", "RegisterClientPacket", "SaveFilePacket", "LikelihoodPacket",
    "TransferPacket", "SitePacket", "VisitPacket", "OfflineVisitPacket", "ChatPacket",
    "FactionPacket", "MapPacket", "RaidPacket", "SpyPacket", "SettlementPacket",
    "EventPacket", "WorldPacket", "CustomDifficultyPacket", "ResetSavePacket"}

  /** Every handler is reached by its own header; with the ensures of
    * Route, the table routes each known header to exactly one handler and
    * no two headers to the same one. */
  lemma RouteRoundTrip(h: Handler)
    ensures Route(HeaderOf(h)) == Some(h)
  {
  }

  /** Two headers that reach the same handler are the same header. */
  lemma RouteInjective(h1: string, h2: string)
    requires Route(h1).Some? && Route(h1) == Route(h2)
    ensures h1 == h2
  {
  }

  /** Login and registration packets reach the login and registration
    * handlers; save, map and reset packets reach the save handlers. */
  lemma AccountAndSaveRoutes()
    ensures Route("LoginClientPacket") == Some(Login)
    ensures Route("RegisterClientPacket") == Some(Register)
    ensures Route("SaveFilePacket") == Some(SaveGame)
    ensures Route("MapPacket") == Some(SaveMap)
    ensures Route("ResetSavePacket") == Some(ResetSave)
  {
  }
}
