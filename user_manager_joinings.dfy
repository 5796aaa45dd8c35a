/*
 * UserManager_Joinings: the shape check on login details, the login
 * response (which always ends the session) and the whitelist gate.
 */
module UserManager_Joinings {
  import opened Text
  import opened Packets
  import opened ServerState
  import opened WhitelistManager

  datatype CheckMode = Login | Register

  /** The longest username accepted. */
  const MaxUsernameLength := 32

  /** The details pass: non-blank username without white space, of at most
    * 32 UTF-16 code units, and a non-blank password. */
  predicate ValidDetails(username: string, password: string)
  {
    !IsBlank(username) && !HasWhiteSpace(username) && !IsBlank(password)
    && Utf16Length(username) <= MaxUsernameLength
  }

  /** Valid details have a username of 1 to 32 UTF-16 code units (so at
    * most 32 characters, and at most 16 outside the Basic Multilingual
    * Plane) with no white space in it, and a password with at least one
    * non-white-space character. */
  lemma ValidDetailsShape(username: string, password: string)
    requires ValidDetails(username, password)
    ensures 1 <= |username| <= Utf16Length(username) <= MaxUsernameLength
    ensures forall i :: 0 <= i < |username| ==> !IsWhiteSpace(username[i])
    ensures exists i :: 0 <= i < |password| && !IsWhiteSpace(password[i])
  {
  }

  /** A name of 17 characters outside the Basic Multilingual Plane is 34
    * code units long and is refused, although it has only 17 characters. */
  lemma AstralNameTooLong()
    ensures var name := seq(17, _ => '\U{1D400}');
      |name| == 17 && !ValidDetails(name, "pw")
  {
    var name := seq(17, _ => '\U{1D400}');
    assert forall i :: 0 <= i < |name| ==> (name[i] as int) >= 0x1_0000;
  }

  /** The response for details that fail the shape check. */
  function InvalidDetailsResponse(mode: CheckMode): (r: LoginResponse)
    ensures mode == Login ==> r == InvalidLogin
    ensures mode == Register ==> r == RegisterError
  {
    match mode
    case Login => InvalidLogin
    case Register => RegisterError
  }

  /** Every response is followed by disconnection, RegisterSuccess included;
    * the conflicting mods travel only with WrongMods. */
  method SendLoginResponse(srv: Server, client: Client, response: LoginResponse, conflictingMods: seq<string>)
    modifies srv`outbox, client`disconnectFlag
    ensures srv.outbox == old(srv.outbox) +
      [Envelope(client, LoginResponsePacket(response, if response == WrongMods then conflictingMods else []))]
    ensures client.disconnectFlag
  {
    var mods := if response == WrongMods then conflictingMods else [];
    SendData(srv, client, LoginResponsePacket(response, mods));
    client.disconnectFlag := true;
  }

  method CheckLoginDetails(srv: Server, client: Client, mode: CheckMode) returns (ok: bool)
    modifies srv`outbox, client`disconnectFlag
    ensures ok <==> ValidDetails(client.username, client.password)
    ensures ok ==> srv.outbox == old(srv.outbox) && client.disconnectFlag == old(client.disconnectFlag)
    ensures !ok ==> srv.outbox == old(srv.outbox) + [Envelope(client, LoginResponsePacket(InvalidDetailsResponse(mode), []))]
    ensures !ok ==> client.disconnectFlag
  {
    if ValidDetails(client.username, client.password) {
      return true;
    }
    SendLoginResponse(srv, client, InvalidDetailsResponse(mode), []);
    return false;
  }

  /** With the whitelist off everybody passes; with it on, exactly the listed
    * usernames pass and anybody else gets the Whitelist response. */
  method CheckWhitelist(srv: Server, wl: WhitelistFile, client: Client) returns (ok: bool)
    modifies srv`outbox, client`disconnectFlag
    ensures ok <==> !wl.useWhitelist || client.username in wl.whitelistedUsers
    ensures ok ==> srv.outbox == old(srv.outbox) && client.disconnectFlag == old(client.disconnectFlag)
    ensures !ok ==> srv.outbox == old(srv.outbox) + [Envelope(client, LoginResponsePacket(Whitelist, []))]
    ensures !ok ==> client.disconnectFlag
  {
    if !wl.useWhitelist {
      return true;
    }
    var users := wl.whitelistedUsers;
    var i := 0;
    while i < |users|
      invariant 0 <= i <= |users|
      invariant client.username !in users[..i]
    {
      if users[i] == client.username {
        return true;
      }
      assert users[..i + 1] == users[..i] + [users[i]];
      i := i + 1;
    }
    assert users[..i] == users;
    SendLoginResponse(srv, client, Whitelist, []);
    return false;
  }
}
