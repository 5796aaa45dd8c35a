/*
 * UserLogin: the login pipeline. The credentials from the packet are put
 * on the session, then the checks run in a fixed order and the first one
 * that fails ends the login with its response; a session that passes them
 * all displaces older sessions of the same user and is sent the join
 * greeting and its save or the world.
 */
module UserLogin {
  import opened Lists
  import opened Records
  import opened Packets
  import opened ServerState
  import opened WhitelistManager
  import opened UserManager_Joinings
  import opened UserManager
  import MM = ModManager
  import opened ChatManager
  import opened SaveManager

  /** LoginDetailsJSON: what the client sends to log in. */
  datatype LoginDetails = LoginDetails(username: string, password: string, runningMods: seq<string>)

  /** The response of the first failing credentials check, in the order
    * they run: whitelist, shape of the details, record and password. */
  function CredentialRefusal(useWhitelist: bool, whitelisted: seq<string>, users: map<string, UserFile>,
                             username: string, password: string): (r: Option<LoginResponse>)
    ensures r == Some(Whitelist) <==> useWhitelist && username !in whitelisted
    ensures r.None? <==>
      (!useWhitelist || username in whitelisted) && ValidDetails(username, password) &&
      username in users && users[username].password == password
    ensures r.Some? ==> r.value in {Whitelist, InvalidLogin}
  {
    if useWhitelist && username !in whitelisted then Some(Whitelist)
    else if !ValidDetails(username, password) then Some(InvalidLogin)
    else if username !in users || users[username].password != password then Some(InvalidLogin)
    else None
  }

  /** The response of the first failing account check, run on the loaded
    * record: mods (skipped for admins), then the ban. */
  function AccountRefusal(file: UserFile, conflicts: seq<string>): (r: Option<LoginResponse>)
    ensures r == Some(WrongMods) <==> |conflicts| > 0 && !file.isAdmin
    ensures r == Some(BannedLogin) <==> (|conflicts| == 0 || file.isAdmin) && file.isBanned
    ensures r.None? <==> (|conflicts| == 0 || file.isAdmin) && !file.isBanned
  {
    if |conflicts| > 0 && !file.isAdmin then Some(WrongMods)
    else if file.isBanned then Some(BannedLogin)
    else None
  }

  /** The response that ends a login (None when every check passes).
    * `conflicts` is the mod-conflict list of the client's running mods. */
  function LoginRefusal(useWhitelist: bool, whitelisted: seq<string>, users: map<string, UserFile>,
                        conflicts: seq<string>, username: string, password: string): Option<LoginResponse>
  {
    var first := CredentialRefusal(useWhitelist, whitelisted, users, username, password);
    if first.Some? then first else AccountRefusal(users[username], conflicts)
  }

  /** A login is admitted exactly when every check passes; the whitelist
    * refusal comes first, and the mod and ban refusals only reach a user
    * whose password matched. */
  lemma LoginRefusalCases(useWhitelist: bool, whitelisted: seq<string>, users: map<string, UserFile>,
                          conflicts: seq<string>, username: string, password: string)
    ensures var r := LoginRefusal(useWhitelist, whitelisted, users, conflicts, username, password);
      && (r.None? <==>
            (!useWhitelist || username in whitelisted) && ValidDetails(username, password) &&
            username in users && users[username].password == password &&
            (|conflicts| == 0 || users[username].isAdmin) && !users[username].isBanned)
      && (r == Some(Whitelist) <==> useWhitelist && username !in whitelisted)
      && (r == Some(WrongMods) ==> username in users && users[username].password == password && !users[username].isAdmin)
      && (r == Some(BannedLogin) ==> username in users && users[username].password == password && users[username].isBanned)
  {
  }

  /** The sessions other than `client` whose name (in `names`, index-aligned
    * with `cs`) is `username`, in registry order. */
  function Duplicates(cs: seq<Client>, names: seq<string>, client: Client, username: string): seq<Client>
    requires |names| == |cs|
  {
    if |cs| == 0 then []
    else
      var k := |cs| - 1;
      Duplicates(cs[..k], names[..k], client, username) + (if cs[k] != client && names[k] == username then [cs[k]] else [])
  }

  /** Duplicates holds exactly the other sessions named `username`. */
  lemma {:induction false} DuplicatesExact(cs: seq<Client>, names: seq<string>, client: Client, username: string)
    requires |names| == |cs|
    ensures forall c :: c in Duplicates(cs, names, client, username) ==>
      c != client && exists i :: 0 <= i < |cs| && cs[i] == c && names[i] == username
    ensures forall i :: 0 <= i < |cs| && cs[i] != client && names[i] == username ==>
      cs[i] in Duplicates(cs, names, client, username)
    ensures |Duplicates(cs, names, client, username)| <= |cs|
  {
    if |cs| > 0 {
      var k := |cs| - 1;
      DuplicatesExact(cs[..k], names[..k], client, username);
      forall c | c in Duplicates(cs, names, client, username)
        ensures c != client && exists i :: 0 <= i < |cs| && cs[i] == c && names[i] == username
      {
        if c in Duplicates(cs[..k], names[..k], client, username) {
          var i :| 0 <= i < k && cs[..k][i] == c && names[..k][i] == username;
          assert cs[i] == c && names[i] == username;
        } else {
          assert cs[k] == c && names[k] == username;
        }
      }
      forall i | 0 <= i < |cs| && cs[i] != client && names[i] == username
        ensures cs[i] in Duplicates(cs, names, client, username)
      {
        if i < k {
          assert cs[..k][i] == cs[i] && names[..k][i] == names[i];
        }
      }
    }
  }

  /** Notify distributes over concatenation of the recipients. */
  lemma {:induction false} NotifyAppend(a: seq<Client>, b: seq<Client>, p: Packet)
    ensures Notify(a + b, p) == Notify(a, p) + Notify(b, p)
  {
    var l, r := Notify(a + b, p), Notify(a, p) + Notify(b, p);
    assert |l| == |r|;
    forall i | 0 <= i < |l|
      ensures l[i] == r[i]
    {
      if i < |a| {
        assert (a + b)[i] == a[i];
      } else {
        assert (a + b)[i] == b[i - |a|];
      }
    }
  }

  /** One turn of RemoveOldClientIfAny's loop: the session at index i is
    * sent ExtraLogin exactly when it is another session of the same user. */
  method FlagIfDuplicate(srv: Server, client: Client, c: Client, ghost cs: seq<Client>, ghost names: seq<string>,
                         i: nat, ghost base: seq<Envelope>)
    requires i < |cs| == |names| && cs[i] == c && names[i] == c.username
    requires srv.outbox == base + Notify(Duplicates(cs[..i], names[..i], client, client.username), LoginResponsePacket(ExtraLogin, []))
    modifies srv`outbox, c`disconnectFlag
    ensures srv.outbox == base + Notify(Duplicates(cs[..i + 1], names[..i + 1], client, client.username), LoginResponsePacket(ExtraLogin, []))
    ensures c.disconnectFlag == (old(c.disconnectFlag) || (c != client && c.username == client.username))
  {
    var p := LoginResponsePacket(ExtraLogin, []);
    assert cs[..i + 1][..i] == cs[..i] && names[..i + 1][..i] == names[..i];
    ghost var done := Duplicates(cs[..i], names[..i], client, client.username);
    if c != client && c.username == client.username {
      SendLoginResponse(srv, c, ExtraLogin, []);
      NotifyAppend(done, [c], p);
      AppendAssociates(base, Notify(done, p), [Envelope(c, p)]);
    }
  }

  lemma SeenGrows(cs: seq<Client>, seen: set<Client>, i: nat)
    requires i < |cs|
    requires forall j :: 0 <= j < i ==> cs[j] in seen
    ensures forall j :: 0 <= j < i + 1 ==> cs[j] in seen + {cs[i]}
  {
  }

  /** RemoveOldClientIfAny: every other session of the same user is sent
    * ExtraLogin, and so flagged for disconnection; no other flag changes. */
  method RemoveOldClientIfAny(srv: Server, client: Client)
    modifies srv`outbox, srv.clients`disconnectFlag
    ensures srv.outbox == old(srv.outbox) +
      Notify(Duplicates(srv.clients, Usernames(srv.clients), client, client.username), LoginResponsePacket(ExtraLogin, []))
    ensures forall c :: c in srv.clients ==>
      c.disconnectFlag == (old(c.disconnectFlag) || (c != client && c.username == client.username))
  {
    var cs := srv.clients;
    ghost var names := Usernames(cs);
    ghost var seen: set<Client> := {};
    var i := 0;
    while i < |cs|
      invariant 0 <= i <= |cs|
      invariant srv.clients == cs
      invariant forall j :: 0 <= j < i ==> cs[j] in seen
      invariant srv.outbox == old(srv.outbox) + Notify(Duplicates(cs[..i], names[..i], client, client.username), LoginResponsePacket(ExtraLogin, []))
      invariant forall c :: c in cs ==>
        c.disconnectFlag == (old(c.disconnectFlag) || (c != client && c.username == client.username && c in seen))
    {
      FlagIfDuplicate(srv, client, cs[i], cs, names, i, old(srv.outbox));
      SeenGrows(cs, seen, i);
      seen := seen + {cs[i]};
      i := i + 1;
    }
    assert cs[..i] == cs && names[..i] == names;
  }

  /** What ends a login: the save when the world exists and the user has
    * one, the world file when only the world exists, and otherwise the
    * request that the client create the world. */
  function WorldReply(worldExists: bool, saves: map<string, string>, username: string): Packet
  {
    if worldExists then (if username in saves then LoadFilePacket(saves[username]) else WorldPacket(WorldExisting))
    else WorldPacket(WorldRequired)
  }

  /** The save is sent exactly when the world exists and the user has one,
    * and it is the user's own save. */
  lemma WorldReplyCases(worldExists: bool, saves: map<string, string>, username: string)
    ensures var p := WorldReply(worldExists, saves, username);
      && (p.LoadFilePacket? <==> worldExists && username in saves)
      && (p.LoadFilePacket? ==> p.saveData == saves[username])
      && (p == WorldPacket(WorldExisting) <==> worldExists && username !in saves)
      && (p == WorldPacket(WorldRequired) <==> !worldExists)
  {
  }

  /** Everything PostLogin sends: the recount to every session, then the
    * overalls, the join greeting and the world reply to the new session. */
  function PostLoginEnvelopes(cs: seq<Client>, client: Client, worldExists: bool, saves: map<string, string>): seq<Envelope>
    reads cs`username, client`username
  {
    Notify(cs, PlayerRecountPacket(|cs|, Usernames(cs))) + Greeting(client, worldExists, saves)
  }

  /** What the new session alone is sent after the recount. */
  function Greeting(client: Client, worldExists: bool, saves: map<string, string>): seq<Envelope>
    reads client`username
  {
    [Envelope(client, ServerOverallsPacket),
     Envelope(client, ChatPacket(ConsoleMessages(DefaultJoinMessages))),
     Envelope(client, WorldReply(worldExists, saves, client.username))]
  }

  /** PostLogin: the session's address is saved in its record, the recount
    * and the greeting go out, and the world branch is taken. The record
    * exists (the credentials check found it). */
  method PostLogin(srv: Server, client: Client)
    requires client.username in srv.users
    modifies srv`users, srv`outbox, client`disconnectFlag
    ensures srv.users == old(srv.users)[client.username := old(srv.users)[client.username].(savedIP := client.savedIP)]
    ensures srv.outbox == old(srv.outbox) + PostLoginEnvelopes(srv.clients, client, srv.worldExists, srv.saves)
    ensures client.disconnectFlag == old(client.disconnectFlag)
  {
    SaveUserIP(srv, client);
    SendPlayerRecount(srv);
    ghost var recount := Notify(srv.clients, PlayerRecountPacket(|srv.clients|, Usernames(srv.clients)));
    SendGreeting(srv, client);
    AppendAssociates(old(srv.outbox), recount, Greeting(client, srv.worldExists, srv.saves));
  }

  /** The overalls, the join greeting and the world reply, to the new session. */
  method SendGreeting(srv: Server, client: Client)
    modifies srv`outbox, client`disconnectFlag
    ensures srv.outbox == old(srv.outbox) + Greeting(client, srv.worldExists, srv.saves)
    ensures client.disconnectFlag == old(client.disconnectFlag)
  {
    SendData(srv, client, ServerOverallsPacket);
    ghost var o := srv.outbox;
    SendMessagesToClient(srv, client, DefaultJoinMessages);
    SendWorldReply(srv, client);
  }

  /** The world branch of PostLogin. The user's save is in the store
    * whenever it is loaded, so loading does not fault. */
  method SendWorldReply(srv: Server, client: Client)
    modifies srv`outbox, client`disconnectFlag
    ensures srv.outbox == old(srv.outbox) + [Envelope(client, WorldReply(srv.worldExists, srv.saves, client.username))]
    ensures client.disconnectFlag == old(client.disconnectFlag)
  {
    if srv.worldExists {
      if client.username in srv.saves {
        LoadUserGame(srv, client);
      } else {
        SendData(srv, client, WorldPacket(WorldExisting));
      }
    } else {
      SendData(srv, client, WorldPacket(WorldRequired));
    }
  }

  /** The credentials half of TryLoginUser's checks; the first failure
    * sends its response and stops. */
  method CheckCredentials(srv: Server, wl: WhitelistFile, client: Client) returns (ok: bool)
    modifies srv`outbox, client`disconnectFlag
    ensures var refusal := CredentialRefusal(wl.useWhitelist, wl.whitelistedUsers, srv.users, client.username, client.password);
      && (ok <==> refusal.None?)
      && (refusal.Some? ==>
            client.disconnectFlag && srv.outbox == old(srv.outbox) + [Envelope(client, LoginResponsePacket(refusal.value, []))])
    ensures ok ==> srv.outbox == old(srv.outbox) && client.disconnectFlag == old(client.disconnectFlag)
  {
    ok := CheckWhitelist(srv, wl, client);
    if !ok { return; }
    ok := CheckLoginDetails(srv, client, Login);
    if !ok { return; }
    ok := CheckIfUserExists(srv, client);
  }

  /** The account half of TryLoginUser's checks: the record is loaded onto
    * the session, then the mods and the ban are checked. */
  method CheckAccount(srv: Server, mm: MM.ModManager, client: Client, runningMods: seq<string>) returns (ok: bool)
    requires client.username in srv.users
    modifies srv`outbox, client`disconnectFlag, client`uid, client`password, client`factionName, client`hasFaction,
      client`isAdmin, client`isBanned, client`enemyPlayers, client`allyPlayers, client`runningMods
    ensures var file := srv.users[client.username];
      var conflicts := MM.Conflicts(mm.loadedRequiredMods, mm.loadedOptionalMods, mm.loadedForbiddenMods, runningMods);
      var refusal := AccountRefusal(file, conflicts);
      && (ok <==> refusal.None?)
      && (refusal.Some? ==>
            client.disconnectFlag &&
            srv.outbox == old(srv.outbox) +
              [Envelope(client, LoginResponsePacket(refusal.value, if refusal.value == WrongMods then conflicts else []))])
      && (ok ==>
            srv.outbox == old(srv.outbox) && client.disconnectFlag == old(client.disconnectFlag) &&
            client.runningMods == runningMods && client.uid == file.uid && client.password == file.password &&
            client.isAdmin == file.isAdmin && client.isBanned == file.isBanned &&
            client.hasFaction == file.hasFaction && client.factionName == file.factionName)
    ensures var file := srv.users[client.username];
      client.uid == file.uid && client.password == file.password &&
      client.isAdmin == file.isAdmin && client.isBanned == file.isBanned &&
      client.hasFaction == file.hasFaction && client.factionName == file.factionName
  {
    LoadDataFromFile(srv, client);
    var conflict := mm.CheckIfModConflict(srv, client, runningMods);
    if conflict { return false; }
    var banned := CheckIfUserBanned(srv, client);
    return !banned;
  }

  /** The checks of TryLoginUser, in order: whitelist, shape of the
    * details, credentials, then (with the record loaded onto the session)
    * mods and ban. The first failure sends its response and stops. */
  method RunLoginChecks(srv: Server, wl: WhitelistFile, mm: MM.ModManager, client: Client, runningMods: seq<string>)
    returns (admitted: bool)
    modifies srv`outbox, client`disconnectFlag, client`uid, client`password, client`factionName, client`hasFaction,
      client`isAdmin, client`isBanned, client`enemyPlayers, client`allyPlayers, client`runningMods
    ensures var conflicts := MM.Conflicts(mm.loadedRequiredMods, mm.loadedOptionalMods, mm.loadedForbiddenMods, runningMods);
      var refusal := LoginRefusal(wl.useWhitelist, wl.whitelistedUsers, srv.users, conflicts, client.username, old(client.password));
      && (admitted <==> refusal.None?)
      && (refusal.Some? ==>
            client.disconnectFlag &&
            srv.outbox == old(srv.outbox) +
              [Envelope(client, LoginResponsePacket(refusal.value, if refusal.value == WrongMods then conflicts else []))])
    ensures admitted ==>
      var file := srv.users[client.username];
      srv.outbox == old(srv.outbox) && client.disconnectFlag == old(client.disconnectFlag) &&
      client.runningMods == runningMods && client.uid == file.uid && client.password == file.password &&
      client.isAdmin == file.isAdmin && client.isBanned == file.isBanned &&
      client.hasFaction == file.hasFaction && client.factionName == file.factionName
    ensures client.password == old(client.password)
  {
    admitted := CheckCredentials(srv, wl, client);
    if !admitted { return; }
    admitted := CheckAccount(srv, mm, client, runningMods);
  }

  /** The admitted half of TryLoginUser: the user's other sessions are
    * flagged, then PostLogin runs. */
  method AdmitSession(srv: Server, client: Client)
    requires client.username in srv.users
    modifies srv`outbox, srv`users, srv.clients`disconnectFlag, client`disconnectFlag
    ensures srv.users == old(srv.users)[client.username := old(srv.users)[client.username].(savedIP := client.savedIP)]
    ensures srv.outbox == old(srv.outbox) +
      Notify(Duplicates(srv.clients, Usernames(srv.clients), client, client.username), LoginResponsePacket(ExtraLogin, [])) +
      PostLoginEnvelopes(srv.clients, client, srv.worldExists, srv.saves)
    ensures client.disconnectFlag == old(client.disconnectFlag)
    ensures forall c :: c in srv.clients && c != client ==>
      c.disconnectFlag == (old(c.disconnectFlag) || c.username == client.username)
  {
    RemoveOldClientIfAny(srv, client);
    ghost var displaced := srv.outbox;
    PostLogin(srv, client);
    assert srv.outbox == displaced + PostLoginEnvelopes(srv.clients, client, srv.worldExists, srv.saves);
  }

  /** The first check a login with these details fails, if any. */
  function Refusal(wl: WhitelistFile, mm: MM.ModManager, users: map<string, UserFile>, details: LoginDetails): Option<LoginResponse>
    reads wl, mm
  {
    LoginRefusal(wl.useWhitelist, wl.whitelistedUsers, users,
      MM.Conflicts(mm.loadedRequiredMods, mm.loadedOptionalMods, mm.loadedForbiddenMods, details.runningMods),
      details.username, details.password)
  }

  /** TryLoginUser: the session takes the packet's credentials; a refused
    * login gets exactly its response and changes no record; an admitted
    * one flags the user's other sessions and runs PostLogin. */
  method TryLoginUser(srv: Server, wl: WhitelistFile, mm: MM.ModManager, client: Client, details: LoginDetails)
    modifies srv`outbox, srv`users, srv.clients`disconnectFlag
    modifies client`username, client`disconnectFlag, client`uid, client`password, client`factionName, client`hasFaction,
      client`isAdmin, client`isBanned, client`enemyPlayers, client`allyPlayers, client`runningMods
    ensures client.username == details.username && client.password == details.password
    ensures srv.clients == old(srv.clients)
    ensures var refusal := Refusal(wl, mm, old(srv.users), details);
      refusal.Some? ==>
        client.disconnectFlag && srv.users == old(srv.users) &&
        (forall c :: c in srv.clients && c != client ==> c.disconnectFlag == old(c.disconnectFlag)) &&
        srv.outbox == old(srv.outbox) +
          [Envelope(client, LoginResponsePacket(refusal.value,
             if refusal.value == WrongMods
             then MM.Conflicts(mm.loadedRequiredMods, mm.loadedOptionalMods, mm.loadedForbiddenMods, details.runningMods)
             else []))]
    ensures Refusal(wl, mm, old(srv.users), details).None? ==>
        && srv.users == old(srv.users)[client.username := old(srv.users)[client.username].(savedIP := client.savedIP)]
        && srv.outbox == old(srv.outbox) +
             Notify(Duplicates(srv.clients, Usernames(srv.clients), client, client.username), LoginResponsePacket(ExtraLogin, [])) +
             PostLoginEnvelopes(srv.clients, client, srv.worldExists, srv.saves)
        && client.disconnectFlag == old(client.disconnectFlag)
        && client.isAdmin == old(srv.users)[details.username].isAdmin
        && client.runningMods == details.runningMods
        && (forall c :: c in srv.clients && c != client ==>
              c.disconnectFlag == (old(c.disconnectFlag) || c.username == client.username))
  {
    client.username := details.username;
    client.password := details.password;
    ghost var refusal := Refusal(wl, mm, srv.users, details);
    var admitted := RunLoginChecks(srv, wl, mm, client, details.runningMods);
    assert admitted <==> refusal.None?;
    if !admitted { return; }
    ghost var isAdmin := client.isAdmin;
    AdmitSession(srv, client);
    assert client.isAdmin == isAdmin;
  }
}
