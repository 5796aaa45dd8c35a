/*
 * The server's mutable state: the client sessions (the Client class), the
 * stores kept on disk, the registry of connected sessions, and the outbox
 * that stands for the socket writes of Network.SendData.
 */
module ServerState {
  import opened Records
  import opened Packets

  /** One connected game client (a session). */
  class Client {
    var username: string
    var password: string
    var uid: string
    var isAdmin: bool
    var isBanned: bool
    var hasFaction: bool
    var factionName: string
    var inVisitWith: Client?
    var inSafeZone: bool
    var disconnectFlag: bool
    var runningMods: seq<string>
    var enemyPlayers: seq<string>
    var allyPlayers: seq<string>
    var savedIP: string

    /** A session for a freshly accepted connection: nothing is known about it yet. */
    constructor (ip: string)
      ensures username == "" && password == "" && uid == ""
      ensures !isAdmin && !isBanned && !hasFaction && factionName == ""
      ensures inVisitWith == null && !inSafeZone && !disconnectFlag
      ensures runningMods == [] && enemyPlayers == [] && allyPlayers == []
      ensures savedIP == ip
    {
      username := "";
      password := "";
      uid := "";
      isAdmin := false;
      isBanned := false;
      hasFaction := false;
      factionName := "";
      inVisitWith := null;
      inSafeZone := false;
      disconnectFlag := false;
      runningMods := [];
      enemyPlayers := [];
      allyPlayers := [];
      savedIP := ip;
    }
  }

  /** A packet written to one client's stream. */
  datatype Envelope = Envelope(to: Client, packet: Packet)

  class Server {
    /** Settlements: tile -> owner. */
    var settlements: map<string, string>
    /** Sites: tile -> site record. */
    var sites: map<string, SiteFile>
    /** Factions: faction name -> faction record. */
    var factions: map<string, FactionFile>
    /** Users: username -> user record. */
    var users: map<string, UserFile>
    /** Maps: tile -> map record. */
    var maps: map<string, MapFile>
    /** Saves: username -> save data. */
    var saves: map<string, string>
    /** The registry of connected sessions, in connection order. */
    var clients: seq<Client>
    /** Every packet sent so far, in sending order. */
    var outbox: seq<Envelope>
    var worldExists: bool
    var isClosing: bool
    var maxPlayers: int
    var useCustomDifficulty: bool

    constructor (maxPlayers: int)
      ensures settlements == map[] && sites == map[] && factions == map[]
      ensures users == map[] && maps == map[] && saves == map[]
      ensures clients == [] && outbox == []
      ensures !worldExists && !isClosing && !useCustomDifficulty
      ensures this.maxPlayers == maxPlayers
    {
      settlements := map[];
      sites := map[];
      factions := map[];
      users := map[];
      maps := map[];
      saves := map[];
      clients := [];
      outbox := [];
      worldExists := false;
      isClosing := false;
      this.maxPlayers := maxPlayers;
      useCustomDifficulty := false;
    }
  }

  /** Position of the first session logged in under `username`, or |cs| when there is none. */
  function IndexOfName(cs: seq<Client>, username: string): (i: nat)
    reads cs`username
    ensures i <= |cs|
    ensures i < |cs| ==> cs[i].username == username
    ensures forall j :: 0 <= j < i ==> cs[j].username != username
  {
    if |cs| == 0 then 0
    else if cs[0].username == username then 0
    else 1 + IndexOfName(cs[1..], username)
  }

  /** GetConnectedClientFromUsername: the first matching session, or null. */
  function FindClient(cs: seq<Client>, username: string): (r: Client?)
    reads cs`username
    ensures r == null <==> forall c :: c in cs ==> c.username != username
    ensures r != null ==> r in cs && r.username == username
  {
    var i := IndexOfName(cs, username);
    if i < |cs| then cs[i] else null
  }

  /** The usernames of the sessions, in registry order. */
  function Usernames(cs: seq<Client>): (r: seq<string>)
    reads cs`username
    ensures |r| == |cs|
    ensures forall i :: 0 <= i < |cs| ==> r[i] == cs[i].username
  {
    if |cs| == 0 then [] else [cs[0].username] + Usernames(cs[1..])
  }

  /** CheckIfUserIsConnected(u) holds exactly when GetConnectedClientFromUsername(u) finds a session. */
  lemma ConnectedIffFound(cs: seq<Client>, username: string)
    ensures FindClient(cs, username) != null <==> username in Usernames(cs)
  {
    var names := Usernames(cs);
    if username in names {
      var i :| 0 <= i < |names| && names[i] == username;
      assert cs[i].username == username;
    }
  }

  /** One envelope per recipient, in registry order. */
  function Notify(cs: seq<Client>, p: Packet): (r: seq<Envelope>)
  {
    seq(|cs|, i requires 0 <= i < |cs| => Envelope(cs[i], p))
  }

  /** The registry without one session (`if (cClient == client) continue;`). */
  function Others(cs: seq<Client>, c: Client): (r: seq<Client>)
    ensures forall i :: 0 <= i < |r| ==> r[i] in cs && r[i] != c
    ensures forall i :: 0 <= i < |cs| && cs[i] != c ==> cs[i] in r
    ensures |r| <= |cs|
    ensures c !in cs ==> r == cs
  {
    if |cs| == 0 then []
    else (if cs[0] == c then [] else [cs[0]]) + Others(cs[1..], c)
  }

  /** Skipping a session commutes with concatenation, so the recipients
    * keep the registry order. */
  lemma {:induction false} OthersAppend(a: seq<Client>, b: seq<Client>, c: Client)
    ensures Others(a + b, c) == Others(a, c) + Others(b, c)
  {
    if |a| == 0 {
      assert a + b == b;
    } else {
      assert (a + b)[1..] == a[1..] + b;
      OthersAppend(a[1..], b, c);
    }
  }

  /** Network.SendData: the packet is written to the client's stream. */
  method SendData(srv: Server, client: Client, p: Packet)
    modifies srv`outbox
    ensures srv.outbox == old(srv.outbox) + [Envelope(client, p)]
  {
    srv.outbox := srv.outbox + [Envelope(client, p)];
  }

  /** `foreach (Client c in recipients) c.SendData(p)` */
  method SendToEach(srv: Server, recipients: seq<Client>, p: Packet)
    modifies srv`outbox
    ensures srv.outbox == old(srv.outbox) + Notify(recipients, p)
  {
    var i := 0;
    while i < |recipients|
      invariant 0 <= i <= |recipients|
      invariant srv.outbox == old(srv.outbox) + Notify(recipients[..i], p)
    {
      SendData(srv, recipients[i], p);
      assert Notify(recipients[..i + 1], p) == Notify(recipients[..i], p) + [Envelope(recipients[i], p)];
      i := i + 1;
    }
    assert recipients[..i] == recipients;
  }
}
