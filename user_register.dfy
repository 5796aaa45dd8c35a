/*
 * UserRegister: creating an account. The credentials from the packet are
 * put on the session, the shape check runs, then the stored user files are
 * searched for the name ignoring case; a free name gets a new record whose
 * uid is the hash of the username. Every path ends with a login response,
 * and so with disconnection.
 */
module UserRegister {
  import opened Lists
  import opened Text
  import opened Records
  import opened Packets
  import opened ServerState
  import opened UserManager_Joinings
  import UL = UserLogin

  /** LoginDetailsJSON as sent with a registration request. */
  datatype RegisterDetails = RegisterDetails(username: string, password: string)

  /** Some stored username equals `username` once both have their ASCII capitals lowered. */
  predicate NameTaken(names: seq<string>, username: string)
  {
    exists i :: 0 <= i < |names| && ToLower(names[i]) == ToLower(username)
  }

  /** No two stored usernames differ only in ASCII letter case. */
  predicate CaseUnique(users: map<string, UserFile>)
  {
    forall a, b :: a in users && b in users && ToLower(a) == ToLower(b) ==> a == b
  }

  /** The record of a new account: its uid and password, everything else empty. */
  function NewUserFile(uid: string, password: string): (f: UserFile)
    ensures f.uid == uid && f.password == password
    ensures !f.hasFaction && f.factionName == "" && !f.isAdmin && !f.isBanned
    ensures f.enemyPlayers == [] && f.allyPlayers == [] && f.savedIP == ""
  {
    UserFile(uid, password, false, "", false, false, [], [], "")
  }

  /** The response a registration ends with. `taken` says whether the name is
    * already in use, `saveOk` whether writing the new record succeeded. */
  function RegisterOutcome(username: string, password: string, taken: bool, saveOk: bool): (r: LoginResponse)
    ensures r == RegisterSuccess <==> ValidDetails(username, password) && !taken && saveOk
    ensures r == RegisterInUse <==> ValidDetails(username, password) && taken
    ensures r in {RegisterSuccess, RegisterInUse, RegisterError}
  {
    if !ValidDetails(username, password) then InvalidDetailsResponse(Register)
    else if taken then RegisterInUse
    else if saveOk then RegisterSuccess
    else RegisterError
  }

  /** The user store after a registration attempt. */
  function Registered(users: map<string, UserFile>, listing: seq<string>, details: RegisterDetails,
                      hash: string -> string, saveOk: bool): map<string, UserFile>
  {
    if RegisterOutcome(details.username, details.password, NameTaken(listing, details.username), saveOk) == RegisterSuccess
    then users[details.username := NewUserFile(hash(details.username), details.password)]
    else users
  }

  /** TryFetchAlreadyRegistered: the stored names are scanned in listing
    * order; the first one equal to the session's name ignoring case ends the
    * registration with RegisterInUse. */
  method TryFetchAlreadyRegistered(srv: Server, client: Client, listing: seq<string>) returns (found: bool)
    modifies srv`outbox, client`disconnectFlag
    ensures found <==> NameTaken(listing, client.username)
    ensures found ==> srv.outbox == old(srv.outbox) + [Envelope(client, LoginResponsePacket(RegisterInUse, []))]
    ensures found ==> client.disconnectFlag
    ensures !found ==> srv.outbox == old(srv.outbox) && client.disconnectFlag == old(client.disconnectFlag)
  {
    var i := 0;
    while i < |listing|
      invariant 0 <= i <= |listing|
      invariant forall j :: 0 <= j < i ==> ToLower(listing[j]) != ToLower(client.username)
    {
      if ToLower(listing[i]) == ToLower(client.username) {
        SendLoginResponse(srv, client, RegisterInUse, []);
        return true;
      }
      i := i + 1;
    }
    return false;
  }

  /** TryRegisterUser. `listing` holds the usernames of the stored user
    * files, `hash` stands for Hasher.GetHash and `saveOk` for whether
    * UserManager.SaveUserFile succeeds. */
  method TryRegisterUser(srv: Server, client: Client, details: RegisterDetails, listing: seq<string>,
                         hash: string -> string, saveOk: bool)
    requires forall u :: u in listing <==> u in srv.users
    modifies srv`users, srv`outbox, client`username, client`password, client`disconnectFlag
    ensures client.username == details.username && client.password == details.password
    ensures client.disconnectFlag
    ensures srv.outbox == old(srv.outbox) + [Envelope(client, LoginResponsePacket(
      RegisterOutcome(details.username, details.password, NameTaken(listing, details.username), saveOk), []))]
    ensures srv.users == Registered(old(srv.users), listing, details, hash, saveOk)
  {
    client.username := details.username;
    client.password := details.password;
    var ok := CheckLoginDetails(srv, client, Register);
    if !ok {
      return;
    }
    var taken := TryFetchAlreadyRegistered(srv, client, listing);
    if taken {
      return;
    }
    var file := NewUserFile(hash(client.username), client.password);
    if saveOk {
      srv.users := srv.users[client.username := file];
      SendLoginResponse(srv, client, RegisterSuccess, []);
    } else {
      SendLoginResponse(srv, client, RegisterError, []);
    }
  }

  /** A successful registration adds exactly one record, under a name that
    * was not stored before (in any letter case); any other outcome leaves the
    * store as it was. */
  lemma RegisteredCases(users: map<string, UserFile>, listing: seq<string>, details: RegisterDetails,
                        hash: string -> string, saveOk: bool)
    requires forall u :: u in listing <==> u in users
    ensures var success := ValidDetails(details.username, details.password) &&
                           !NameTaken(listing, details.username) && saveOk;
      var users' := Registered(users, listing, details, hash, saveOk);
      && (success ==> forall u :: u in users ==> ToLower(u) != ToLower(details.username))
      && (success ==> users'.Keys == users.Keys + {details.username} && details.username !in users)
      && (success ==> users'[details.username] == NewUserFile(hash(details.username), details.password))
      && (!success ==> users' == users)
  {
    if !NameTaken(listing, details.username) {
      forall u | u in users
        ensures ToLower(u) != ToLower(details.username)
      {
        var i := IndexOf(listing, u);
        assert ToLower(listing[i]) == ToLower(u);
      }
    }
  }

  /** Registration never lets two accounts differ only in letter case. */
  lemma RegisterKeepsCaseUnique(users: map<string, UserFile>, listing: seq<string>, details: RegisterDetails,
                                hash: string -> string, saveOk: bool)
    requires forall u :: u in listing <==> u in users
    requires CaseUnique(users)
    ensures CaseUnique(Registered(users, listing, details, hash, saveOk))
  {
    var users' := Registered(users, listing, details, hash, saveOk);
    if users' != users {
      forall a | a in users
        ensures ToLower(a) != ToLower(details.username)
      {
        var i := IndexOf(listing, a);
        assert ToLower(listing[i]) == ToLower(a);
      }
    }
  }

  /** A newly registered account passes the credential checks of a login
    * with the same details while the whitelist is off, and is neither an
    * admin nor banned. */
  lemma RegisterThenLogin(users: map<string, UserFile>, listing: seq<string>, details: RegisterDetails,
                          hash: string -> string, saveOk: bool)
    requires RegisterOutcome(details.username, details.password, NameTaken(listing, details.username), saveOk) == RegisterSuccess
    ensures var users' := Registered(users, listing, details, hash, saveOk);
      && UL.CredentialRefusal(false, [], users', details.username, details.password).None?
      && !users'[details.username].isAdmin && !users'[details.username].isBanned
      && users'[details.username].uid == hash(details.username)
  {
  }
}
