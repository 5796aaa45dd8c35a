# RimWorld Together server: the world-state rules, in Dafny

This project models the rule layer of the RimWorld Together game server.
Each packet handler of the server reads and writes a few keyed stores,
sets flags on client sessions and decides which reply goes to whom. The
model keeps those decisions and proves what they guarantee.

The state is one `Server` object (module `ServerState`). It holds:

- the stores kept on disk, each a map keyed by its file name:
  - settlements: tile to owner
  - sites: tile to site record
  - factions: faction name to a record with parallel member and rank lists
  - users: username to user record
  - maps: tile to map record
  - saves: username to save data
- the registry of connected sessions, a sequence of `Client` objects in connection order
- the outbox, the sequence of every packet written to a client, in order
- the world, closing and custom-difficulty flags, and the player limit

A `Client` holds the session fields the handlers touch:

- name, password and uid
- the admin, ban and faction fields
- the visit partner
- the safe-zone flag and the disconnect flag
- the running mods

A packet sent to a client (`Network.SendData`) is one envelope appended to
the outbox. A read or write failure sets the disconnect flag instead.
Directory scans ("every settlement file") are listing parameters, and each
handler that loops over them is a method with a loop and its invariants.

There is one module per source file:

- the faction, site, settlement, visit, event, transfer and map-request
  managers (the last one covers the offline visit, raid and spy managers,
  which share one decision)
- the save manager, the user manager and its joinings checks
- login and registration
- the mod, whitelist, client, chat and server-command managers
- the response shortcuts
- the packet router and the network layer

Every handler that changes state is a method whose postcondition states its
whole new state and its replies. The rules they follow are stated as
functions and lemmas: authorisation tables, round trips and the invariants
each method keeps.

The model keeps the behaviour of the code as written, including these quirks:

- A console line "OP bob" still runs op, because the prefix is lower-cased
  for the lookup. Its parameters stay ["OP", "bob"], though, because the
  removal of the prefix from the line looks for the lower-case "op ".
- Banning an online player skips the already-banned check.
- Op on a session without a user record sets the session's flag but sends nothing.
- An event command that lost its second parameter to the prefix removal sends nothing.
- A settlement claim consults only the settlement store, not the sites.
- Removing a settlement from an unknown tile answers illegal action twice.
  The first time is the guard. The second is the fault that follows it,
  caught by the read loop.
- Depositing or retrieving a worker is refused to a non-owner whose faction
  includes the owner. A non-owner whose faction record is missing (no
  faction at all, for instance) faults on the lookup and gets the same
  illegal-action reply. A non-owner from another faction is allowed.
- Every login response flags the session for disconnection, including a
  successful registration.
- Accepting a visit does not check existing pairings, so pairing stays
  mutual only when both parties were unpaired.
- Demotion lets an admin demote any member, admins included, and
  themselves too.
- Accepting a faction invitation checks no invitation.
- Creating a faction does not check the creator's current faction.
- The site list of a user leaves out faction sites.
- A rebound transfer to an offline owner answers with a re-reject, not a recover.

A handler that faults on a missing record (a null dereference in the
source) is modelled by the read loop's catch: the sender gets an
illegal-action reply and is flagged. Effects that came before the fault
stay in place; the model adds no rollback.

## Model

| member | source | states |
|---|---|---|
| ServerState.Client.constructor | Source/Server/Network/Network.cs:68 | a newly accepted session has no username, password, uid, faction, admin or ban flag, visit partner, safe-zone or disconnect flag, and carries the connection's IP |
| ServerState.FindClient | Source/Server/Managers/UserManager.cs:106-110 | the lookup yields null exactly when no connected session has the username, and otherwise a registered session with that username |
| ServerState.IndexOfName | Source/Server/Managers/UserManager.cs:106-110 | the session found is the first in registry order with the username: every earlier session has another name |
| ServerState.ConnectedIffFound | Source/Server/Managers/UserManager.cs:97-110 | CheckIfUserIsConnected(u) holds exactly when GetConnectedClientFromUsername(u) is not null, that is when u is among the connected usernames |
| ServerState.SendData | Source/Server/Network/Network.cs:109-116 | a successful write appends exactly one envelope for that client and packet to the outbox |
| ServerState.SendToEach | Source/Server/Managers/UserManager.cs:94 | sending to a list of sessions appends one envelope per recipient, in list order, and nothing else |
| ServerState.Others | Source/Server/Managers/SettlementManager.cs:126-130 | the recipients that skip one session are exactly the registered sessions other than it, and a session outside the registry skips nobody |
| ServerState.OthersAppend | Source/Server/Managers/SettlementManager.cs:126-130 | skipping a session distributes over concatenation, so the recipients keep registry order |
| ClientManager.AddClient | Source/Server/Managers/ClientManager.cs:18-21 | the session is appended at the end of the registry and ClientCount grows by one |
| ClientManager.RemoveClient | Source/Server/Managers/ClientManager.cs:23-26 | the first registry entry for the session is removed and the rest keep their order; an unregistered session leaves the registry unchanged; otherwise ClientCount drops by one and exactly one copy leaves the multiset |
| ResponseShortcutManager.SendIllegalPacket | Source/Server/Managers/ResponseShortcutManager.cs:20-27 | the client receives IllegalActionPacket and is always flagged for disconnection; the broadcast argument changes no state |
| ResponseShortcutManager.SendUnavailablePacket | Source/Server/Managers/ResponseShortcutManager.cs:29-33 | the client receives UserUnavailablePacket and its disconnect flag is not in the frame |
| ResponseShortcutManager.SendBreakPacket | Source/Server/Managers/ResponseShortcutManager.cs:35-39 | the client receives BreakPacket and its disconnect flag is not in the frame |
| ResponseShortcutManager.SendNoPowerPacket | Source/Server/Managers/ResponseShortcutManager.cs:41-48 | the client receives its own faction manifest back with the mode replaced by NoPower, and stays connected |
| Text.Utf16Length | Source/Server/Managers/UserManager_Joinings.cs:37 | the length the server bounds is in UTF-16 code units: between the number of characters and twice it, equal to it exactly when no character lies outside the Basic Multilingual Plane, and twice it when every character does |
| UserManager_Joinings.ValidDetailsShape | Source/Server/Managers/UserManager_Joinings.cs:31-39 | details that pass have a username of 1 to 32 UTF-16 code units (so at most 32 characters) with no white space and a password with a non-white-space character |
| UserManager_Joinings.AstralNameTooLong | Source/Server/Managers/UserManager_Joinings.cs:37 | a username of 17 characters outside the Basic Multilingual Plane is refused, because it is 34 code units long |
| UserManager_Joinings.InvalidDetailsResponse | Source/Server/Managers/UserManager_Joinings.cs:42-43 | failed details answer InvalidLogin in login mode and RegisterError in register mode |
| UserManager_Joinings.SendLoginResponse | Source/Server/Managers/UserManager_Joinings.cs:48-60 | one LoginResponsePacket with the response goes to the client, which is flagged for disconnection whatever the response (RegisterSuccess included); the conflicting mods are attached only to WrongMods |
| UserManager_Joinings.CheckLoginDetails | Source/Server/Managers/UserManager_Joinings.cs:31-46 | the check passes exactly for valid details and then sends nothing; a failure sends the mode's response and flags the session |
| UserManager_Joinings.CheckWhitelist | Source/Server/Managers/UserManager_Joinings.cs:62-76 | with the whitelist off everybody passes; with it on exactly the listed usernames pass, and anybody else gets the Whitelist response and is flagged |
| WhitelistManager.WhitelistFile.constructor | Source/Server/Managers/WhitelistManager.cs:56-60 | a whitelist created because none was stored is off and empty |
| WhitelistManager.AddUserToWhitelist | Source/Server/Managers/WhitelistManager.cs:17-24 | the username is appended to the list with no duplicate check, and the flag is outside the frame |
| WhitelistManager.RemoveUserFromWhitelist | Source/Server/Managers/WhitelistManager.cs:26-33 | only the first occurrence of the username leaves the list, the other entries keep their order, and the flag is outside the frame |
| Lists.RemoveFirstAfterAppend | Source/Server/Managers/WhitelistManager.cs:17-28 | adding a name that was not listed and then removing it restores the list |
| WhitelistManager.ToggleWhitelist | Source/Server/Managers/WhitelistManager.cs:35-43 | the flag is negated, so two toggles restore it, and the list is outside the frame |
| UserManager.LoadDataFromFile | Source/Server/Managers/UserManager.cs:23-37 | the session takes uid, password, faction fields, admin and ban flags and ally and enemy lists from its record; with no record the null dereference is caught and the session gets the illegal-action reply with those fields unchanged |
| UserManager.SendPlayerRecount | Source/Server/Managers/UserManager.cs:86-95 | every connected session, in registry order, receives one recount whose count is the number of sessions and whose names are their usernames in registry order |
| UserManager.UsernamesAppend | Source/Server/Managers/UserManager.cs:90 | the name list of a registry grown by one session is the old list followed by that session's name |
| UserManager.CheckIfUserIsConnected | Source/Server/Managers/UserManager.cs:97-104 | the answer is true exactly when some connected session has the username |
| UserManager.CheckIfUserExists | Source/Server/Managers/UserManager.cs:112-135 | true exactly when a record under the session's username holds its password, and then nothing is sent; otherwise the session gets InvalidLogin and is flagged |
| UserManager.CheckIfUserBanned | Source/Server/Managers/UserManager.cs:137-145 | the answer is the session's own ban flag; exactly a banned session gets BannedLogin and is flagged |
| UserManager.SaveUserIP | Source/Server/Managers/UserManager.cs:147-152 | the record under the session's name gets the session's IP and no other field changes; with no record the fault leaves the store unchanged and sends the illegal-action reply |
| UserManager.OwnedSites | Source/Server/Managers/UserManager.cs:157 | the sites taken are exactly the listed tiles whose site belongs to the user, personal and faction sites alike |
| UserManager.GetUserStructuresTilesFromUsername | Source/Server/Managers/UserManager.cs:154-164 | the result is the user's settlement tiles in listing order followed by the user's site tiles in listing order |
| UserManager.StructureTilesMembers | Source/Server/Managers/UserManager.cs:154-164 | a tile is in the result exactly when a listed settlement or a listed site on it belongs to the user |
| SettlementManager.OwnedSettlements | Source/Server/Managers/SettlementManager.cs:95-107 | a tile is taken exactly when it is listed and its settlement belongs to the user, and the result is no longer than the listing |
| SettlementManager.GetAllSettlementsFromUsername | Source/Server/Managers/SettlementManager.cs:95-107 | the scan of the settlement directory returns exactly the user's settlement tiles, in listing order |
| SettlementManager.AddSettlement | Source/Server/Managers/SettlementManager.cs:109-137 | a tile that already holds a settlement gets the illegal-action reply and the store is unchanged (sites are not consulted); otherwise the tile is stored with the caller as owner and every other session, not the claimer, is told |
| SettlementManager.SendSettlementRemoval | Source/Server/Managers/SettlementManager.cs:164-176 | every session except the remover gets the details with the Remove step |
| SettlementManager.RemoveSettlement | Source/Server/Managers/SettlementManager.cs:139-162 | an unknown tile gets the illegal-action reply and then faults on the missing record (a second reply); with the removal notice a non-owner gets the illegal-action reply and the record stays, the owner deletes it and the others are told; without the notice the record is deleted with no owner check and nothing is sent |
| SettlementManager.ParseSettlementPacket | Source/Server/Managers/SettlementManager.cs:30-44 | Add has exactly the effect of AddSettlement and Remove that of RemoveSettlement with the owner check: a double illegal reply for an unknown tile, an illegal reply for a non-owner, and for the owner the record removed and every other session told |
| SiteManager.PersonalSites | Source/Server/Managers/Actions/SiteManager.cs:119-134 | a tile is listed exactly when it is in the directory listing and its site is a personal (non-faction) site of the user |
| SiteManager.GetAllSitesFromUsername | Source/Server/Managers/Actions/SiteManager.cs:119-134 | the directory scan returns the user's personal sites, in listing order; faction sites the user built are not included |
| SiteManager.ConfirmNewSite | Source/Server/Managers/Actions/SiteManager.cs:73-99 | the site is stored under its tile, every session (the builder included) gets the Build notice naming the builder as owner, and the builder then also gets the same notice with step Accept |
| SiteManager.NewSiteFile | Source/Server/Managers/Actions/SiteManager.cs:154-184 | the new record is owned by the builder, carries the requested type and no worker, and names the builder's faction only for a faction site |
| SiteManager.AddNewSite | Source/Server/Managers/Actions/SiteManager.cs:148-188 | a tile held by a settlement or a site gets the illegal-action reply and nothing is stored; a faction site requested by a plain Member gets the no-power reply and nothing is stored; otherwise the new record is stored under the tile |
| SiteManager.DestroySiteFromFile | Source/Server/Managers/Actions/SiteManager.cs:215-227 | every session is sent the Destroy notice for the tile and the tile's record is removed from the store |
| SiteManager.DestroySites | Source/Server/Managers/Actions/FactionManager.cs:250-251 | destroying a series of sites removes exactly those tiles from the store and sends each tile's Destroy notice to every session, in order |
| SiteManager.DestroyDecision | Source/Server/Managers/Actions/SiteManager.cs:190-213 | a site is destroyed exactly when it is a faction site of the caller's faction and the caller ranks above Member, or a personal site the caller owns; the request is illegal exactly when the site belongs to another faction or another owner |
| SiteManager.DestroySite | Source/Server/Managers/Actions/SiteManager.cs:190-213 | a missing site gets the illegal-action reply; otherwise the verdict decides between deleting the site with notices to all, the illegal-action reply and the no-power reply, and only deletion changes the store |
| SiteManager.GetSiteInfo | Source/Server/Managers/Actions/SiteManager.cs:229-240 | the caller gets its own request back with the stored type, worker and faction flag filled in; a missing site gets the illegal-action reply |
| SiteManager.DepositWorkerToSite | Source/Server/Managers/Actions/SiteManager.cs:242-257 | a missing site, or a non-owner whose faction includes the owner or whose faction record is missing, gets an illegal-action reply and is flagged; otherwise the site's worker is replaced by the deposited one and nothing is sent |
| SiteManager.RetrieveWorkerFromSite | Source/Server/Managers/Actions/SiteManager.cs:259-280 | under the same guard as deposit, the stored worker goes back to the caller and the site is left with no worker |
| SiteManager.WorkedPersonalSitesMembers | Source/Server/Managers/Actions/SiteManager.cs:302-310 | a tile is collected exactly when it is a personal site of the user with a non-blank worker |
| SiteManager.FactionSitesOfMembers | Source/Server/Managers/Actions/FactionManager.cs:469-480 | a tile is collected exactly when it is a faction site of the named faction |
| SiteManager.RewardListMembers | Source/Server/Managers/Actions/SiteManager.cs:300-319 | a tile is in a session's reward list exactly when it is a worked personal site of the session's user or, for a session in a faction, a site of that faction (worked or not) |
| SiteManager.Subjects | Source/Server/Managers/Actions/SiteManager.cs:298 | the tick reads each registered session's name and faction, one entry per session in registry order |
| SiteManager.RewardEnvelopes | Source/Server/Managers/Actions/SiteManager.cs:321-326 | at most one reward packet per session, and every packet is a Reward step with a non-empty reward list |
| SiteManager.CollectWorkedPersonalSites | Source/Server/Managers/Actions/SiteManager.cs:302-310 | the collection loop returns the worked personal sites of the user in listing order |
| SiteManager.GetFactionSites | Source/Server/Managers/Actions/FactionManager.cs:469-480 | the directory scan returns the faction's sites in listing order |
| SiteManager.RewardOne | Source/Server/Managers/Actions/SiteManager.cs:298-326 | one session's turn of the tick appends its reward packet exactly when its reward list is not empty |
| SiteManager.SiteRewardTick | Source/Server/Managers/Actions/SiteManager.cs:291-330 | the tick appends, in registry order, one reward packet to each session whose reward list is not empty and changes nothing else |
| SiteManager.ParseSitePacket | Source/Server/Managers/Actions/SiteManager.cs:33-60 | Build, Destroy, Info, Deposit and Retrieve each have exactly the effect of their handler (store, replies and flag), and the Accept and Reward steps change nothing |
| VisitManager.SendVisitRequest | Source/Server/Managers/Actions/VisitManager.cs:50-84 | a tile with no settlement gets the illegal-action reply; an offline owner, or one already in a visit, makes the requester hear Unavailable; otherwise only the owner gets the request, stamped with the requester's name |
| VisitManager.AcceptVisitRequest | Source/Server/Managers/Actions/VisitManager.cs:86-104 | an unknown tile or an offline requester changes nothing; otherwise acceptor and requester are paired with each other, the requester is told and no other session's pairing changes; the pairing stays mutual when both were unpaired, and an acceptor already paired with a third session leaves that session pointing at it, so mutuality breaks |
| VisitManager.RejectVisitRequest | Source/Server/Managers/Actions/VisitManager.cs:106-121 | the refusal goes to the requester when it is online, and to no one otherwise |
| VisitManager.SendVisitActions | Source/Server/Managers/Actions/VisitManager.cs:123-139 | an action is relayed only to the sender's peer; an unpaired sender is told to stop |
| VisitManager.SendVisitStop | Source/Server/Managers/Actions/VisitManager.cs:141-156 | the stop is echoed to the caller and sent to the peer, both sides of the pairing are cleared, and a mutual pairing stays mutual |
| VisitManager.ParseVisitPacket | Source/Server/Managers/Actions/VisitManager.cs:22-48 | each handled step has exactly the effect of its handler; an Unavailable step sends nothing; only Accept and Stop touch a pairing, and every step but Accept keeps the pairing mutual |
| EventManager.SendEvent | Source/Server/Managers/Actions/EventManager.cs:44-82 | a tile with no settlement gets the illegal-action reply; an offline owner, or one already in the safe zone, sends the event back as Recover; otherwise the target enters the safe zone, the sender gets the event and the target gets it as Receive; no session ever leaves the safe zone |
| EventManager.ParseEventPacket | Source/Server/Managers/Actions/EventManager.cs:24-42 | only the Send step acts; Receive and Recover from a client change nothing, and the safe zone only grows |
| TransferManager.ResolvedTile | Source/Server/Managers/Actions/TransferManager.cs:56-187 | the two requests are about the owner of the destination tile, the three answers about the owner of the origin tile |
| TransferManager.RoutingTable | Source/Server/Managers/Actions/TransferManager.cs:24-187 | unrelayed steps get no reply; a tile without a settlement gets the illegal-action reply; the owner is sent only the step itself, last, and only when connected; an offline owner leaves exactly one reply to the sender (Unavailable for a pod, TradeReReject for a counter-offer, Recover otherwise); only a gift or a pod to a connected owner is confirmed to its sender |
| TransferManager.Deliver | Source/Server/Managers/Actions/TransferManager.cs:56-187 | each reply of the routing table becomes exactly one packet, in order |
| TransferManager.OwnerOf | Source/Server/Managers/Actions/TransferManager.cs:61-63 | a found owner is a registered session logged in under the settlement owner's name; none is found only when no session carries that name |
| TransferManager.TransferThings | Source/Server/Managers/Actions/TransferManager.cs:56-99 | the packets sent are those of the routing table for a request, and the sender is disconnected exactly when the destination has no settlement |
| TransferManager.Answer | Source/Server/Managers/Actions/TransferManager.cs:101-187 | the owner of the tile gets the manifest with the forwarded step, or, when offline, the sender gets it back with the fallback step; a tile with no settlement gets the illegal-action reply |
| TransferManager.RejectTransfer | Source/Server/Managers/Actions/TransferManager.cs:101-121 | the packets sent are those of the routing table for a rejection |
| TransferManager.TransferThingsRebound | Source/Server/Managers/Actions/TransferManager.cs:123-143 | the packets sent are those of the routing table for a counter-offer |
| TransferManager.AcceptReboundTransfer | Source/Server/Managers/Actions/TransferManager.cs:145-165 | the packets sent are those of the routing table for accepting a counter-offer |
| TransferManager.RejectReboundTransfer | Source/Server/Managers/Actions/TransferManager.cs:167-187 | the packets sent are those of the routing table for refusing a counter-offer |
| TransferManager.ParseTransferPacket | Source/Server/Managers/Actions/TransferManager.cs:24-54 | whatever the step, the packets sent are those of the routing table, and the sender is disconnected exactly when a relayed step names a tile with no settlement |
| MapRequests.Wrap | Source/Server/Managers/Actions/OfflineVisitManager.cs:63-65 | the reply carries the header of the manager that handles the request, and the details unchanged |
| MapRequests.Decide | Source/Server/Managers/Actions/RaidManager.cs:36-67 | a missing map, or a map whose settlement owner is connected, is denied; a map with no settlement record faults; any other map is served, and it is the map stored for that tile |
| MapRequests.SendRequestedMap | Source/Server/Managers/Actions/SpyManager.cs:36-67 | exactly one reply goes to the requester, nothing is stored, and only the fault disconnects it |
| MapRequests.ParseMapRequest | Source/Server/Managers/Actions/OfflineVisitManager.cs:20-34 | a Request is answered per the decision; a Deny sent by a client changes nothing |
| ModManager.LoadedIds | Source/Server/Managers/ModManager.cs:36-47 | every ID read from a list's folders appears in the loaded list with its ASCII capitals lowered, every entry comes from some ID, entries have no ASCII capital and no entry appears twice |
| ModManager.LoadList | Source/Server/Managers/ModManager.cs:34-47 | the loop that adds each lower-cased ID not yet present builds exactly the loaded list |
| ModManager.Tagged | Source/Server/Managers/ModManager.cs:96 | one conflict entry per mod, each the tag followed by the mod's ID |
| ModManager.Missing | Source/Server/Managers/ModManager.cs:92-99 | a mod is reported missing exactly when it is required and not running |
| ModManager.Unlisted | Source/Server/Managers/ModManager.cs:101-108 | a running mod is reported exactly when it is neither required nor optional |
| ModManager.Present | Source/Server/Managers/ModManager.cs:113-119 | a forbidden mod is reported exactly when it is running |
| ModManager.NoConflictsIff | Source/Server/Managers/ModManager.cs:88-122 | there is no conflict exactly when no forbidden mod runs and, when some mod is required, every required mod runs and every running mod is required or optional; with no required mod, unlisted mods pass |
| ModManager.TaggedAppend | Source/Server/Managers/ModManager.cs:96 | tagging a list grown by one mod grows the tagged list by that mod's entry |
| ModManager.CollectMissing | Source/Server/Managers/ModManager.cs:92-99 | the loop reports the missing required mods, tagged, in required-list order |
| ModManager.CollectUnlisted | Source/Server/Managers/ModManager.cs:101-108 | the loop reports the unlisted running mods, tagged, in running order |
| ModManager.CollectPresent | Source/Server/Managers/ModManager.cs:111-120 | the loop reports the running forbidden mods, tagged, in forbidden-list order |
| ModManager.CollectConflicts | Source/Server/Managers/ModManager.cs:88-120 | the conflict list is the missing and unlisted entries (only when some mod is required) followed by the forbidden entries |
| ModManager.ModManager.constructor | Source/Server/Managers/ModManager.cs:11-13 | all three lists start empty |
| ModManager.ModManager.LoadMods | Source/Server/Managers/ModManager.cs:32-84 | each list is replaced by the loaded IDs of its folders, and the lists stay free of ASCII capitals and of duplicates |
| ModManager.ModManager.CheckIfModConflict | Source/Server/Managers/ModManager.cs:86-143 | a conflict is reported exactly when the conflict list is non-empty and the session is not an admin; then the session gets WrongMods with the list and is disconnected; otherwise the running mods are stored on the session and nothing is sent |
| ChatManager.Repeat | Source/Server/Managers/ChatManager.cs:108-114 | n entries, each the given colour or name |
| ChatManager.ConsoleMessages | Source/Server/Managers/ChatManager.cs:105-120 | a console message carries the lines unchanged and, in the three parallel lists, one CONSOLE name and one Console colour per line |
| ChatManager.SendMessagesToClient | Source/Server/Managers/ChatManager.cs:105-120 | the loop that fills the four lists line by line sends the one session exactly the console message of those lines |
| ChatManager.BroadcastServerMessages | Source/Server/Managers/ChatManager.cs:86-103 | every session gets the one-line console message |
| ChatManager.Colored | Source/Server/Managers/ChatManager.cs:61-78 | names and lines are kept, the existing colours are kept as a prefix, and one user colour and one message colour are appended per line: Admin for an admin sender, Normal otherwise |
| ChatManager.BroadcastClientMessages | Source/Server/Managers/ChatManager.cs:61-84 | the colouring loop builds exactly the coloured packet, and every session, the sender included, gets it |
| ChatManager.FindChatCommandSound | Source/Server/Managers/ChatManager.cs:51 | the command search finds nothing exactly when no prefix equals the text, and what it finds is a table entry with that prefix |
| ChatManager.ChatCommandsFound | Source/Server/Managers/ChatManager.cs:155-177 | each of /help, /ping, /dc and /sv finds its own table entry |
| ChatManager.HelpLines | Source/Server/Managers/ChatManager.cs:122-128 | the help text is the heading followed by one "prefix - description" line per command, in table order |
| ChatManager.RunMessageCommand | Source/Server/Managers/ChatManager.cs:47-58 | an unknown command tells the invoker so, /help and /ping answer the invoker, /dc only flags the invoker for disconnection |
| ChatManager.ExecuteCommand | Source/Server/Managers/ChatManager.cs:47-58 | the command named exactly by the packet's first line runs for the invoker; only /dc flags the invoker, only /sv ends its visit (on both sides), and pairings stay mutual |
| ChatManager.HandleLine | Source/Server/Managers/ChatManager.cs:42-43 | a line starting with "/" runs the first line's command, any other line broadcasts the whole packet |
| ChatManager.HandleNextLine | Source/Server/Managers/ChatManager.cs:40-44 | handling one more line extends the trace of sent packets, the disconnect flag and the pairing by that line's effect |
| ChatManager.PlainLinesBroadcast | Source/Server/Managers/ChatManager.cs:40-44 | a packet with no line starting with "/" runs no command, and what it sends is the broadcast repeated once per line, nothing else |
| ChatManager.ProgressStart | Source/Server/Managers/ChatManager.cs:40 | before the first line nothing has been sent and nothing has changed |
| ChatManager.HandleLines | Source/Server/Managers/ChatManager.cs:40-44 | after the loop the packets sent are the line-by-line trace, the invoker is flagged exactly when /dc ran, and the visit is ended exactly when /sv ran |
| ChatManager.ParseClientMessages | Source/Server/Managers/ChatManager.cs:36-45 | each line is handled in turn with the first line as the command text; the sent packets, the disconnect flag and the pairing are those of the trace, and pairings stay mutual |
| SaveManager.SaveUserGame | Source/Server/Managers/SaveManager.cs:82-110 | the save is stored under the uploader's name whatever the mode; leaving to the menu or quitting sends the matching command and disconnects the uploader, the other modes send nothing |
| SaveManager.LoadUserGame | Source/Server/Managers/SaveManager.cs:112-121 | the stored save goes back to its owner; a missing save faults, which ends in the illegal-action reply |
| SaveManager.GetUserMapFromTile | Source/Server/Managers/SaveManager.cs:159-169 | a map is found exactly when one is stored for the tile, and it is that map |
| SaveManager.SaveUserMap | Source/Server/Managers/SaveManager.cs:123-134 | the uploaded map is stored under its tile, owned by the uploader, and a later lookup of that tile finds it; maps stay keyed by their own tile |
| SaveManager.DeleteMap | Source/Server/Managers/SaveManager.cs:136-143 | a null map changes nothing; otherwise exactly its tile's map is removed |
| SaveManager.MapsOf | Source/Server/Managers/SaveManager.cs:150-154 | one lookup result per tile, in order |
| SaveManager.GetAllMapsFromUsername | Source/Server/Managers/SaveManager.cs:145-157 | one entry per settlement of the user, in settlement order, empty where the settlement has no map |
| SaveManager.MapTilesOfLookups | Source/Server/Managers/SaveManager.cs:145-157 | the maps found for a list of tiles are exactly the stored maps under those tiles |
| SaveManager.DeleteMaps | Source/Server/Managers/SaveManager.cs:186 | deleting the found maps removes exactly their tiles from the map store |
| SaveManager.OwnedSettlementsDistinct | Source/Server/Managers/SaveManager.cs:191 | the user's settlements are listed once each |
| SaveManager.NextStillOwned | Source/Server/Managers/SaveManager.cs:192-199 | while the user's settlements are removed in order, the next one is still stored under the same owner, so each removal passes the owner check |
| SaveManager.RemoveOwnSettlement | Source/Server/Managers/SaveManager.cs:194-198 | removing one of the caller's own settlements deletes it and tells the other sessions |
| SaveManager.RemoveNextOwn | Source/Server/Managers/SaveManager.cs:192-199 | one turn of the loop deletes the next settlement and appends its removal notice |
| SaveManager.RemoveOwnSettlements | Source/Server/Managers/SaveManager.cs:191-199 | every settlement of the list is deleted and each removal is announced to the other sessions, in order |
| SaveManager.RemoveSettlementsSilently | Source/Server/Managers/SaveManager.cs:218-226 | with no session, every settlement of the list is deleted and nothing is sent |
| SaveManager.DeleteSettlementMaps | Source/Server/Managers/SaveManager.cs:212-213 | the maps stored under the user's settlements are removed, and only those |
| SaveManager.DeleteWorldPresence | Source/Server/Managers/SaveManager.cs:176-226 | the save, the maps of the user's settlements, the user's personal sites and the user's settlements are deleted, in that order; sites are announced to every session, settlements to the other sessions only when a session runs the removal |
| SaveManager.ResetClientSave | Source/Server/Managers/SaveManager.cs:171-201 | a player with no save gets the illegal-action reply and nothing is deleted; otherwise the player is disconnected and the whole cascade runs |
| SaveManager.DeletePlayerDetails | Source/Server/Managers/SaveManager.cs:203-229 | the player's connected session, if any, and no other, is disconnected, and the whole cascade runs without announcing the settlements' removal |
| FactionManager.GetMemberRank | Source/Server/Managers/Actions/FactionManager.cs:140-151 | the scan returns the rank stored beside the name's first entry, and Member for a name not listed |
| FactionManager.CheckIfUserIsInFaction | Source/Server/Managers/Actions/FactionManager.cs:130-138 | the scan answers true exactly when the name is listed |
| FactionManager.WithMember | Source/Server/Managers/Actions/FactionManager.cs:301-303 | a joining member is appended to both lists with rank Member, and the lists stay aligned |
| FactionManager.JoinKeepsRanks | Source/Server/Managers/Actions/FactionManager.cs:295-321 | a newcomer has rank Member and every other name keeps the rank it had |
| FactionManager.WithoutMember | Source/Server/Managers/Actions/FactionManager.cs:383-392 | the first entry of the removed member goes from both lists at the same index, and the lists stay aligned |
| FactionManager.LeaveKeepsRanks | Source/Server/Managers/Actions/FactionManager.cs:383-392 | removing one member keeps every other member, with the rank it had |
| FactionManager.WithRank | Source/Server/Managers/Actions/FactionManager.cs:403-467 | promotion and demotion change only the rank list, and it stays aligned with the members |
| FactionManager.RerankSetsOnlyTarget | Source/Server/Managers/Actions/FactionManager.cs:403-467 | the target gets the new rank and every other name keeps its rank |
| FactionManager.CreateFaction | Source/Server/Managers/Actions/FactionManager.cs:170-205 | a taken name is answered with NameInUse and nothing changes; a free name creates a faction whose only member is the creator at rank Admin, and the creator's session and user record join it; a creator without a user record faults after the faction and session were updated |
| FactionManager.CreatorIsAdmin | Source/Server/Managers/Actions/FactionManager.cs:180-187 | the creator of a new faction is its Admin and nobody else ranks above Member |
| FactionManager.Disaffiliated | Source/Server/Managers/Actions/FactionManager.cs:223-233 | every user record naming the faction loses its affiliation, every other record is unchanged, and no record is added or removed |
| FactionManager.TargetsAt | Source/Server/Managers/Actions/FactionManager.cs:237-239 | the session looked up for each member is the first session logged in under that name |
| FactionManager.TargetsRegistered | Source/Server/Managers/Actions/FactionManager.cs:237-239 | every session found for a member is a registered session |
| FactionManager.TargetsAreFirstSessions | Source/Server/Managers/Actions/FactionManager.cs:237-247 | a session is reached by the member loop exactly when its name is a member and it is the first session under that name |
| FactionManager.NoticesTo | Source/Server/Managers/Actions/FactionManager.cs:240-247 | at most one notice per member; every notice carries the packet to one of the members, and every connected member gets one |
| FactionManager.ClearOne | Source/Server/Managers/Actions/FactionManager.cs:240-247 | one found member's session leaves the faction and is told |
| FactionManager.SkipNull | Source/Server/Managers/Actions/FactionManager.cs:240 | a member with no session is skipped and nothing is sent |
| FactionManager.ClearNext | Source/Server/Managers/Actions/FactionManager.cs:237-247 | one turn of the member loop clears and tells a found session and skips a missing one |
| FactionManager.ClearSessions | Source/Server/Managers/Actions/FactionManager.cs:237-247 | after the member loop exactly the sessions found for members have left the faction, each was told once in member order, and every other session is unchanged |
| FactionManager.AllCleared | Source/Server/Managers/Actions/FactionManager.cs:237-247 | once the loop is over, the cleared sessions are exactly those found for members |
| FactionManager.ClearedGrows | Source/Server/Managers/Actions/FactionManager.cs:237-247 | clearing one more found session keeps every earlier found session cleared |
| FactionManager.Disband | Source/Server/Managers/Actions/FactionManager.cs:219-255 | the user records naming the faction are cleared, the first session of each member leaves and is told, the faction's sites are destroyed with notices to all, and the faction record is deleted |
| FactionManager.DeleteFaction | Source/Server/Managers/Actions/FactionManager.cs:207-257 | a session whose faction does not exist changes nothing; a non-Admin gets the no-power reply and nothing changes; an Admin disbands the faction |
| FactionManager.AddMemberToFaction | Source/Server/Managers/Actions/FactionManager.cs:259-293 | a tile with no settlement faults; an inviter ranked Member gets the no-power reply; otherwise the settlement's owner is invited only when connected, without a faction and not already listed |
| FactionManager.ConfirmAddMemberToFaction | Source/Server/Managers/Actions/FactionManager.cs:295-322 | the accepting user joins the named faction with rank Member unless it is already listed or the faction does not exist; no invitation is checked; the session and user record join too, and a user without a record faults after the faction and session were updated |
| FactionManager.RemovalDecision | Source/Server/Managers/Actions/FactionManager.cs:330-359 | an Admin is protected only from removing itself; a removal happens exactly when a non-Admin leaves, an Admin removes somebody else, or a Moderator removes a Member; otherwise it is refused for lack of power |
| FactionManager.RemovalMatrix | Source/Server/Managers/Actions/FactionManager.cs:330-359 | a Member may only leave, a Moderator may leave or remove a Member, and an Admin may remove anybody but cannot leave |
| FactionManager.RemoveFromFaction | Source/Server/Managers/Actions/FactionManager.cs:361-399 | the member's first session, if any, leaves and is told; a member with a user record has it cleared and loses its first entry in both lists; a member without one stays listed |
| FactionManager.RemoveMemberFromFaction | Source/Server/Managers/Actions/FactionManager.cs:324-401 | a missing settlement or faction record faults; the verdict decides between the no-power reply, the admin-protection reply and the removal; a permitted removal of somebody not listed changes nothing |
| FactionManager.PromoteMember | Source/Server/Managers/Actions/FactionManager.cs:403-438 | an actor ranked Member gets the no-power reply; a target without a user record faults; an unlisted target changes nothing; an Admin target gets the no-power reply; any other target becomes a Moderator |
| FactionManager.DemoteMember | Source/Server/Managers/Actions/FactionManager.cs:440-467 | only an Admin may demote, and a listed target of any rank, another Admin or the actor itself included, becomes a Member |
| FactionManager.ListedRanksOfDistinct | Source/Server/Managers/Actions/FactionManager.cs:498-511 | when no name is listed twice, the reported ranks are exactly the stored ones |
| FactionManager.SendFactionMemberList | Source/Server/Managers/Actions/FactionManager.cs:498-511 | the manifest comes back with every member and the rank reported for it appended; a session whose faction record is missing faults |
| FactionManager.ListMembers | Source/Server/Managers/Actions/FactionManager.cs:502-506 | the loop appends each member and its reported rank, in list order |
| FactionManager.ParseFactionPacket | Source/Server/Managers/Actions/FactionManager.cs:53-91 | every faction record keeps its two lists aligned; each mode has exactly its handler's effect on the stores, the sessions and the outbox (Create, Delete, AddMember, RemoveMember, AcceptInvite, Promote, Demote, MemberList); each mode leaves alone what its handler does not touch; NameInUse, NoPower and AdminProtection change nothing at all |
| UserRegister.NewUserFile | Source/Server/Users/UserRegister.cs:39-42 | a new account's record carries its uid and password and nothing else: no faction, not an admin, not banned, no enemies or allies, no saved address |
| UserRegister.RegisterOutcome | Source/Server/Users/UserRegister.cs:28-57 | registration succeeds exactly when the details are well formed (the name at most 32 UTF-16 code units), the name is free and the record is saved; it reports the name in use exactly when well-formed details name a taken account; every outcome is one of the three registration responses |
| UserRegister.TryFetchAlreadyRegistered | Source/Server/Users/UserRegister.cs:59-75 | the scan reports the name taken exactly when some stored name equals it ignoring ASCII case, and then answers RegisterInUse and disconnects the session; otherwise nothing is sent |
| UserRegister.TryRegisterUser | Source/Server/Users/UserRegister.cs:28-57 | the credentials are put on the session, exactly one login response with the registration outcome is sent and the session is disconnected; the user store becomes that of a successful registration or stays as it was |
| UserRegister.RegisteredCases | Source/Server/Users/UserRegister.cs:36-48 | a successful registration adds exactly one record, under a name no stored account has in any ASCII letter case, with the hashed uid and the given password; any other outcome leaves the store unchanged |
| UserRegister.RegisterKeepsCaseUnique | Source/Server/Users/UserRegister.cs:59-75 | when no two accounts differ only in ASCII letter case, registration keeps it so |
| UserRegister.RegisterThenLogin | Source/Server/Users/UserLogin.cs:47-51 | a newly registered account passes the credential checks of a login with the same details while the whitelist is off, is neither an admin nor banned, and its uid is the hash of its name |
| UserLogin.CredentialRefusal | Source/Server/Users/UserLogin.cs:47-51 | the whitelist refusal comes exactly when the whitelist is on and the name is not on it; the credentials pass exactly when the whitelist admits the name, the details are well formed (the name at most 32 UTF-16 code units), the record exists and the password matches; any refusal is Whitelist or InvalidLogin |
| UserLogin.AccountRefusal | Source/Server/Users/UserLogin.cs:53-57 | WrongMods exactly when there is a mod conflict and the user is not an admin; BannedLogin exactly when the mods pass (or the user is an admin) and the user is banned; otherwise the account passes |
| UserLogin.LoginRefusalCases | Source/Server/Users/UserLogin.cs:41-62 | a login is admitted exactly when every check passes; the whitelist refusal comes first; the mod and ban refusals only reach a user whose password matched |
| UserLogin.DuplicatesExact | Source/Server/Users/UserLogin.cs:84-94 | the displaced sessions are exactly the other sessions logged in under the same name |
| UserLogin.NotifyAppend | Source/Server/Users/UserLogin.cs:84-94 | sending a packet to two groups of sessions in turn is sending it to the joined group |
| UserLogin.FlagIfDuplicate | Source/Server/Users/UserLogin.cs:86-92 | one turn of the loop sends ExtraLogin to the session, and flags it, exactly when it is another session of the same user |
| UserLogin.SeenGrows | Source/Server/Users/UserLogin.cs:84 | every session visited so far stays visited after one more turn |
| UserLogin.RemoveOldClientIfAny | Source/Server/Users/UserLogin.cs:82-95 | every other session of the same user is sent ExtraLogin and flagged for disconnection, in registry order, and no other flag changes |
| UserLogin.WorldReplyCases | Source/Server/Users/UserLogin.cs:74-79 | the user's own save is sent exactly when the world exists and the user has one; the world file exactly when the world exists and the user has no save; the world is requested exactly when none exists |
| UserLogin.PostLogin | Source/Server/Users/UserLogin.cs:64-80 | the session's address is saved in its record, every session gets the recount, then the new session gets the overalls, the join greeting and the world reply |
| UserLogin.SendGreeting | Source/Server/Users/UserLogin.cs:70-79 | the new session gets the overalls, the join greeting and the world reply, in that order |
| UserLogin.SendWorldReply | Source/Server/Users/UserLogin.cs:74-79 | the new session gets exactly the world reply, and loading its save never faults |
| UserLogin.CheckCredentials | Source/Server/Users/UserLogin.cs:47-51 | the credential checks pass exactly when there is no credential refusal; a refusal sends exactly its response and disconnects; passing sends nothing |
| UserLogin.CheckAccount | Source/Server/Users/UserLogin.cs:53-57 | the record is loaded onto the session whatever the outcome; the account checks pass exactly when there is no account refusal; WrongMods carries the conflict list; passing stores the running mods and sends nothing |
| UserLogin.RunLoginChecks | Source/Server/Users/UserLogin.cs:47-57 | the login is admitted exactly when there is no refusal; the first refusal sends exactly its response and disconnects; an admitted session carries its record's fields and running mods; the session's password ends as it was given |
| UserLogin.AdmitSession | Source/Server/Users/UserLogin.cs:59-61 | the user's other sessions are sent ExtraLogin and flagged, then PostLogin's packets go out; the new session is not flagged |
| UserLogin.TryLoginUser | Source/Server/Users/UserLogin.cs:41-62 | the session takes the packet's name and password and the registry is unchanged; a refused login gets exactly its response, is disconnected, changes no record and leaves every other session's disconnect flag as it was; an admitted login displaces the user's other sessions, saves the address, sends the recount and greeting, and carries the record's admin flag and the running mods |
| Network.ListenForIncomingUsers | Source/Server/Network/Network.cs:64-91 | a connection accepted while the server is closing is only flagged; a full server answers ServerFull and flags the newcomer; otherwise the newcomer joins the end of the registry; admission never takes the registry past the player limit |
| Network.RemoveFirstDistinct | Source/Server/Network/Network.cs:129 | removing a session from a registry without repeats removes every trace of it, keeps every other session and keeps the registry without repeats |
| Network.KickClient | Source/Server/Network/Network.cs:125-144 | the session leaves the registry and every remaining session is sent the new player count and names |
| Network.Observe | Source/Server/Network/Network.cs:152 | the snapshot holds exactly the registered sessions, each with its disconnect flag and name |
| Network.Survivors | Source/Server/Network/Network.cs:152-163 | the sessions left after a sweep are some of the swept ones, no more of them |
| Network.SurvivorsExact | Source/Server/Network/Network.cs:157-160 | a session survives the sweep exactly when it was swept and was neither flagged nor found dead |
| Network.SurvivorsDistinct | Source/Server/Network/Network.cs:152-163 | a registry without repeats stays without repeats |
| Network.RecountObserved | Source/Server/Network/Network.cs:133 | the recount read from the snapshot is the recount read from the sessions |
| Network.SurvivorsSnoc | Source/Server/Network/Network.cs:153-163 | sweeping one more session adds it to the survivors exactly when it is kept |
| Network.NotYetSurvivor | Source/Server/Network/Network.cs:153 | the session about to be swept is not among the survivors so far |
| Network.RegistryStep | Source/Server/Network/Network.cs:157-160 | kicking a dropped session, or keeping a live one, takes the registry from one step of the sweep to the next |
| Network.RegistryWithin | Source/Server/Network/Network.cs:152-163 | during the sweep every registered session is one of the swept ones |
| Network.SweepOne | Source/Server/Network/Network.cs:155-162 | one turn of the sweep kicks a flagged or dead session, sending the recount, and leaves a live one |
| Network.SweepAll | Source/Server/Network/Network.cs:152-163 | the sweep leaves exactly the survivors in the registry and sends one recount per kicked session, in order |
| Network.HeartbeatClients | Source/Server/Network/Network.cs:146-165 | one pass of the heartbeat leaves the survivors of the registry as it was at the start and sends one recount per kick |
| Network.SweepLeavesLive | Source/Server/Network/Network.cs:157-160 | after a pass exactly the registered sessions that are neither flagged nor dead remain, each once |
| Network.FirstStop | Source/Server/Network/Network.cs:97-104 | every read before the stop was handled without flagging the session, and the read at the stop was not |
| Network.ListenToClient | Source/Server/Network/Network.cs:93-107 | a flagged session reads nothing; otherwise reads go on until a handler flags the session, a handler throws (illegal-action reply) or a read fails, and the session is then flagged |
| Network.SendDataOrFlag | Source/Server/Network/Network.cs:109-123 | a write that succeeds delivers the packet; a failed write delivers nothing and flags the session |
| PacketHandler.Route | Source/Server/Network/PacketHandler.cs:65-145 | a header is routed exactly when it is one of the known headers, and to the handler reached by that header |
| PacketHandler.RouteRoundTrip | Source/Server/Network/PacketHandler.cs:71-144 | every handler is reached by its own header |
| PacketHandler.RouteInjective | Source/Server/Network/PacketHandler.cs:71-144 | two headers that reach the same handler are the same header |
| PacketHandler.AccountAndSaveRoutes | Source/Server/Network/PacketHandler.cs:73-143 | login and registration packets reach the login and registration handlers; save-file, map and reset packets reach the save handlers |
| ServerCommandManager.PrefixesDistinct | Source/Server/Managers/ServerCommandManager.cs:783-813 | no two commands of the command table share a prefix, so the lookup by prefix is unambiguous |
| ServerCommandManager.FindCommand | Source/Server/Managers/ServerCommandManager.cs:70 | the lookup finds nothing exactly when no command has the prefix, and whatever it finds is a command of the table with that prefix |
| ServerCommandManager.FindCommandAt | Source/Server/Managers/ServerCommandManager.cs:70 | the lookup of the k-th command's prefix returns the k-th command, when prefixes are distinct |
| ServerCommandManager.ParseLine | Source/Server/Managers/ServerCommandManager.cs:64-66 | a console line always yields at least one parameter and a prefix without ASCII capital letters |
| ServerCommandManager.ParseLineShape | Source/Server/Managers/ServerCommandManager.cs:64-66 | the parameter count is the number of spaces in the line and no parameter contains a space |
| ServerCommandManager.DispatchCases | Source/Server/Managers/ServerCommandManager.cs:66-90 | a line runs an action only when its prefix names a command whose parameter count matches (or is unchecked), and then runs that command's action |
| ServerCommandManager.DispatchAt | Source/Server/Managers/ServerCommandManager.cs:66-90 | a line whose prefix is the k-th command's and whose count fits runs the k-th command's action |
| ServerCommandManager.ToLowerFixed | Source/Server/Managers/ServerCommandManager.cs:64 | lower-casing leaves a word unchanged exactly when it has no ASCII capital letter |
| ServerCommandManager.OneTokenLine | Source/Server/Managers/ServerCommandManager.cs:64-66 | a line without spaces has its lower-cased self as prefix, no counted parameters and itself as the only parameter |
| ServerCommandManager.NoSpaceNoPattern | Source/Server/Managers/ServerCommandManager.cs:66 | a space-free word contains no occurrence of a pattern ending in a space, so the prefix removal leaves it alone |
| ServerCommandManager.SplitTwo | Source/Server/Managers/ServerCommandManager.cs:66 | splitting two space-free words joined by one space gives back the two words |
| ServerCommandManager.CapitalPrefixAbsent | Source/Server/Managers/ServerCommandManager.cs:66 | when the first word has a capital letter, its lower-cased form followed by a space does not occur in the line, so nothing is removed |
| ServerCommandManager.TwoTokenLine | Source/Server/Managers/ServerCommandManager.cs:64-66 | a two-word line has one counted parameter; its parameters are the second word alone when the first is lower case, and both words when it is not |
| ServerCommandManager.OpLine | Source/Server/Managers/ServerCommandManager.cs:679-683 | "op" followed by a space-free name runs Op with that name as the only parameter |
| ServerCommandManager.CapitalisedOpLine | Source/Server/Managers/ServerCommandManager.cs:64-66 | a capitalised "OP" followed by a name still runs Op, but the parameters keep the command word first |
| ServerCommandManager.KickWithoutNameLine | Source/Server/Managers/ServerCommandManager.cs:687-689 | a kick line without a name runs nothing, since kick wants one parameter |
| ServerCommandManager.LockSaveLine | Source/Server/Managers/ServerCommandManager.cs:767-810 | the lock-save command is left out of the command table, so no line runs it |
| ServerCommandManager.SpacedJoin | Source/Server/Managers/ServerCommandManager.cs:446-449 | the parameters each followed by a space are the space-joined parameters plus one trailing space |
| ServerCommandManager.BroadcastText | Source/Server/Managers/ServerCommandManager.cs:442-454 | the broadcast text splits back into exactly the line's parameters |
| ServerCommandManager.WithAdmin | Source/Server/Managers/ServerCommandManager.cs:177-183 | the record set keeps its names; only the named record's admin flag changes |
| ServerCommandManager.WithBan | Source/Server/Managers/ServerCommandManager.cs:270-271 | the record set keeps its names; only the named record's ban flag changes |
| ServerCommandManager.OpDeopRoundTrip | Source/Server/Managers/ServerCommandManager.cs:167-239 | op then deop of a non-admin, or deop then op of an admin, gives back the same records |
| ServerCommandManager.BanPardonRoundTrip | Source/Server/Managers/ServerCommandManager.cs:256-349 | ban then pardon of an unbanned player, or pardon then ban of a banned one, gives back the same records |
| ServerCommandManager.CommandsDecideLogin | Source/Server/Users/UserLogin.cs:53-57 | a banned record is always refused at login, an admin record is never refused for its mods, and an unbanned record is refused only for its mods |
| ServerCommandManager.DigitString | Source/Server/Managers/CommandManager.cs:106-115 | an event index below ten is sent as its one decimal digit |
| ServerCommandManager.EventTypesDistinct | Source/Server/Managers/ServerCommandManager.cs:13-24 | the event names are all different, so an event's index is its name's only position |
| ServerCommandManager.FindEventIndex | Source/Server/Managers/ServerCommandManager.cs:383-407 | the search returns the event's position when the name is an event and the table length when it is not |
| ServerCommandManager.ServerCommandManager.constructor | Source/Server/Managers/ServerCommandManager.cs:26 | a new manager holds no parameters |
| ServerCommandManager.ServerCommandManager.OpCommandAction | Source/Server/Managers/ServerCommandManager.cs:167-202 | an unknown name or an existing admin changes nothing; otherwise the session becomes an admin, and when it has a record, so does the record and the session is sent the Op command |
| ServerCommandManager.ServerCommandManager.DeopCommandAction | Source/Server/Managers/ServerCommandManager.cs:204-239 | an unknown name or a non-admin changes nothing; otherwise the session loses admin, and when it has a record, so does the record and the session is sent the Deop command |
| ServerCommandManager.ServerCommandManager.KickCommandAction | Source/Server/Managers/ServerCommandManager.cs:241-254 | exactly the named session, if connected, is marked for disconnection |
| ServerCommandManager.ServerCommandManager.BanCommandAction | Source/Server/Managers/ServerCommandManager.cs:256-304 | an offline registered player not yet banned is banned; an online one is sent Ban, marked for disconnection and banned; afterwards the named record, if any, is banned |
| ServerCommandManager.ServerCommandManager.PardonCommandAction | Source/Server/Managers/ServerCommandManager.cs:319-349 | a banned record is unbanned and nothing else changes; afterwards the named record, if any, is not banned |
| ServerCommandManager.ServerCommandManager.EventCommandAction | Source/Server/Managers/ServerCommandManager.cs:383-407 | the named session gets the named event's index when both exist and the line has a second parameter; otherwise nothing is sent |
| ServerCommandManager.ServerCommandManager.EventAllCommandAction | Source/Server/Managers/ServerCommandManager.cs:409-429 | every session gets the named event's index, or nothing is sent when the event is unknown |
| ServerCommandManager.ServerCommandManager.BroadcastCommandAction | Source/Server/Managers/ServerCommandManager.cs:442-454 | every session gets a Broadcast command whose text is the parameters joined by single spaces |
| ServerCommandManager.ServerCommandManager.WhitelistAddCommandAction | Source/Server/Managers/ServerCommandManager.cs:467-491 | a registered name not yet listed is appended, anything else changes nothing; a registered name is listed afterwards |
| ServerCommandManager.ServerCommandManager.WhitelistRemoveCommandAction | Source/Server/Managers/ServerCommandManager.cs:493-517 | a registered listed name loses its first entry, anything else changes nothing |
| ServerCommandManager.ServerCommandManager.ForceSaveCommandAction | Source/Server/Managers/ServerCommandManager.cs:524-537 | the named session, if connected, is sent the ForceSave command, and nothing else is sent |
| ServerCommandManager.ServerCommandManager.DeletePlayerCommandAction | Source/Server/Managers/ServerCommandManager.cs:539-546 | an unregistered name changes nothing; a registered player loses its save, its settlements and their maps and its personal sites; every session is told of each destroyed site; the player's connected session, and no other, gets the disconnect flag |
| ServerCommandManager.ServerCommandManager.ParseServerCommands | Source/Server/Managers/ServerCommandManager.cs:62-91 | the parameters are stored whatever the line, and a line that names no runnable command changes nothing else |
| ServerCommandManager.ServerCommandManager.RunAction | Source/Server/Managers/ServerCommandManager.cs:671-813 | quit leaves the server closing, the difficulty commands set the difficulty flag, and the whitelist toggle flips whitelist use |
| ServerCommandManager.EnableDifficultyCommandAction | Source/Server/Managers/ServerCommandManager.cs:548-562 | custom difficulty is on afterwards |
| ServerCommandManager.DisableDifficultyCommandAction | Source/Server/Managers/ServerCommandManager.cs:564-578 | custom difficulty is off afterwards |
| ServerCommandManager.QuitCommandAction | Source/Server/Managers/ServerCommandManager.cs:624-641 | the server is closing and every session is sent the ForceSave command |
| Text.LowerChar | Source/Server/Managers/ServerCommandManager.cs:64 | a capital ASCII letter becomes its lower-case letter and every other character stays (ASCII case only) |
| Text.ToLower | Source/Server/Managers/ServerCommandManager.cs:64 | lower-casing keeps the length and lowers each ASCII capital on its own, leaving every other character |
| Text.ToLowerIdempotent | Source/Server/Managers/ServerCommandManager.cs:64 | a lower-cased word has no ASCII capital letter, and lower-casing it again changes nothing |
| Text.Split | Source/Server/Managers/ServerCommandManager.cs:64-66 | splitting on a separator always yields at least one piece |
| Text.CountChar | Source/Server/Managers/ServerCommandManager.cs:65 | the count is the character's multiplicity in the string: never more than the length, and zero exactly when the character is absent |
| Text.SplitCount | Source/Server/Managers/ServerCommandManager.cs:65 | a split yields one piece more than there are separators |
| Text.SplitPiecesFree | Source/Server/Managers/ServerCommandManager.cs:66 | no piece of a split contains the separator |
| Text.JoinSplit | Source/Server/Managers/ServerCommandManager.cs:446-449 | joining the pieces of a split with the same separator gives back the string |
| Text.JoinSnoc | Source/Server/Managers/ServerCommandManager.cs:446-449 | joining one more piece appends the separator and that piece |
| Text.JoinHead | Source/Server/Managers/ServerCommandManager.cs:446-449 | putting a character in front of the first piece puts it in front of the joined text |
| Text.SplitJoin | Source/Server/Managers/ServerCommandManager.cs:446-449 | splitting joined separator-free pieces gives back the pieces |
| Text.SplitFree | Source/Server/Managers/ServerCommandManager.cs:66 | a string without the separator splits into itself alone |
| Text.SplitPrefix | Source/Server/Managers/ServerCommandManager.cs:66 | a separator-free first piece followed by the separator splits off as the first piece |
| Text.RemoveAll | Source/Server/Managers/ServerCommandManager.cs:66 | removing every occurrence of a pattern never lengthens the string |
| Text.RemoveAllAbsent | Source/Server/Managers/ServerCommandManager.cs:66 | removing a pattern that occurs nowhere leaves the string unchanged |
| Lists.IndexOf | Source/Server/Managers/ServerCommandManager.cs:391-393 | the position found is the first one holding the element, or the length when the element is absent |
| Lists.RemoveFirstMultiset | Source/Server/Managers/WhitelistManager.cs:28 | removing a present element drops exactly one occurrence of it and keeps every other element |
| Lists.RemoveFirstMiddle | Source/Server/Network/Network.cs:129 | removal takes out the first occurrence and keeps the elements before and after it in order |
| Lists.WithoutKeys | Source/Server/Managers/SaveManager.cs:140 | deleting a set of files keeps exactly the files not named, each with its old contents |
| Packets.NewSiteDetails | Source/Server/Managers/Actions/SiteManager.cs:77 | a new site packet carries the step it is given and an empty reward list |
| ServerState.Server.constructor | Source/Server/Program.cs:35-46 | a new server has no records, no sessions, nothing sent, and is not closing |
| ServerState.Usernames | Source/Server/Managers/UserManager.cs:88-90 | the player name list has one name per session, in registry order |

## Left out

- Text.ToLower: only the ASCII capitals 'A' to 'Z' are lowered. The server calls .NET `string.ToLower()`, which also lowers every other Unicode capital ('É' to 'é'). The server fixes its culture to en-US at start (`Program.cs:123-126`), so culture-specific mappings such as the Turkish dotless i do not arise. Non-ASCII lower-casing is not modelled because Dafny has no Unicode case tables.
- Text.LowerChar: lowers ASCII capitals only, for the reason given for Text.ToLower.
- LoadedIds (ModManager.LoadedIds): the loaded package IDs have their ASCII capitals lowered only. An ID with a non-ASCII capital keeps it in the model, while the server lowers it.
- LoadMods (ModManager.ModManager.LoadMods): the three lists are free of ASCII capitals and of duplicates. Two IDs that differ only in a non-ASCII capital stay two entries in the model, where the server merges them.
- TryFetchAlreadyRegistered (UserRegister.TryFetchAlreadyRegistered): names are compared ignoring ASCII case only. A stored "Émile" does not block "émile" in the model, while the server answers RegisterInUse.
- RegisteredCases (UserRegister.RegisteredCases): "no stored account has the name in any letter case" holds for ASCII case only, for the reason given for TryFetchAlreadyRegistered.
- RegisterKeepsCaseUnique (UserRegister.RegisterKeepsCaseUnique): the uniqueness it keeps is uniqueness up to ASCII case, not up to the server's full Unicode lower-casing.
- ParseLine (ServerCommandManager.ParseLine): the command prefix has its ASCII capitals lowered only. No command prefix contains a non-ASCII letter, so only the stored parameters of such lines could differ.
- The source keeps two session registries. `Network.connectedClients` is filled on admission and emptied on kick, and it is what the player recount and the connected-user lookups of `UserManager` read. `ClientManager.Clients` is what the broadcasts and console lookups of the managers read, but no shown code calls `ClientManager.AddClient` or `ClientManager.RemoveClient`. The model keeps one registry, `srv.clients`: admission appends to it through ClientManager.AddClient and a kick removes from it. A server where the two lists drift apart is not modelled.
- ServerState.Client.constructor: a fresh session's username, password, uid and faction name are the empty string, where the source leaves them unset (null) until login.
- ChatManager.StopDetails: the visit stop that /sv sends carries the empty string in every field but the step, where the source leaves those fields unset (null) (Source/Server/Managers/ChatManager.cs:144-145).
- HandleLine (ChatManager.HandleLine): a line is a command when its first character is "/", an ordinal test. The source calls `StartsWith("/")` without a comparison type (Source/Server/Managers/ChatManager.cs:42). That test is culture-sensitive under the en-US culture the server sets, and it skips characters that culture ignores. A line such as "\u00AD/ping" (a soft hyphen before the slash) is a command to the server, which answers the sender alone with "Command was not found". The model broadcasts it as chat. .NET's culture collation tables are not part of this model.
- HandleLines (ChatManager.HandleLines): inherits the ordinal command test of HandleLine, for the reason given there.
- ParseClientMessages (ChatManager.ParseClientMessages): which lines count as commands inherits the ordinal test of HandleLine, for the reason given there.
- UserLogin.TryLoginUser, UserRegister.TryRegisterUser, UserManager_Joinings.CheckLoginDetails: strings missing from a packet are modelled as the empty string, not null. A registration whose details carry no username, or such a login that gets past the whitelist, reaches the shape check with a null name; the source's white-space scan of that name (Source/Server/Managers/UserManager_Joinings.cs:35) throws, and the read loop answers IllegalActionPacket and sets the disconnect flag (Source/Server/Network/Network.cs:103). The model answers InvalidLogin (RegisterError for a registration) with the flag instead. A missing password is blank to both and gets the same answer.

- Sockets, the listener, the asynchronous accept and read tasks, and the timers are not modelled. Admission, one read, one heartbeat sweep and one reward tick are explicit steps; the delays between them are not modelled.
- Whether a connection is alive is a parameter of the heartbeat sweep. The probe itself is a socket call.
- Network.SendDataOrFlag: the busy-wait send gate is not modelled. The source marks a session busy before a write and clears the mark only when the write succeeds (Source/Server/Network/Network.cs:110-122). After one failed write, every later write to that session waits forever and blocks the handler, heartbeat or command thread that makes it. The model states only the failed write itself: the session is flagged and nothing is sent. Later writes to such a session are modelled as if they went out.
- The wait for the registry to empty on quit is not modelled. It only orders shutdown.
- Network.ListenToClient: a handler's effects are abstracted into the read outcome (a packet handled, a failed read, or a handler fault). A fault is modelled as happening before any state change.
- JSON serialisation, file reads and writes, and directory scans are not modelled. Stores are maps keyed by file name, and listings are parameters.
- Whether a save or a registration write succeeds is a parameter.
- `Hasher.GetHash` is a function parameter. Its code is not part of this model.
- The likelihood updates are omitted, because their code is not part of this model. These are the faction likelihood clearing and the client likelihood updates after settlement, site and faction changes, and the likelihood packet route.
- The world and custom-difficulty files, and their admin gate, are not modelled. Custom difficulty appears only as the flag the console commands switch.
- The fields `UserFile.cs` initialises are not part of this model. A new record sets only what registration sets.
- The console event commands leave the event packet's from-tile and to-tile unset (null). The model writes them as empty strings.
- Console output, colours, logging and the console title are not modelled. The help, list and status commands only print, so they change nothing in the model.
- Reload and ForceQuit are console-only commands: one re-reads resource files and the other exits the process. Both change nothing in the model.
- Lock and unlock save are left out of the server's command table and use GZip, so they are not modelled.
- The heartbeat reads a snapshot of each session's flag and name taken before the sweep. Later writes by other threads are not modelled.
- PacketHandler is modelled as routing only. Each handler it names is modelled in its own module, except the world, difficulty and likelihood handlers listed above.
- ServerCommandManager.ServerCommandManager.RunAction: states only what the flag-setting actions guarantee. Each other action's full effect is the contract of its own method.
- ServerCommandManager.ServerCommandManager.ParseServerCommands: states the stored parameters and that a line running no command changes nothing. What a runnable line does is stated by the dispatch lemmas and the action methods.
