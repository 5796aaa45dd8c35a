/*
 * Network: admission of new connections, removal of sessions (kicking),
 * the heartbeat sweep over the registry, and the rules that turn failures
 * into the disconnect flag. Sockets, the accept and read tasks and the
 * timers are not modelled: each accepted connection, each sweep and each
 * read is an explicit step, and whether a connection is still alive is a
 * parameter.
 */
module Network {
  import opened Lists
  import opened Packets
  import opened ServerState
  import opened ClientManager
  import opened UserManager
  import opened UserManager_Joinings
  import opened ResponseShortcutManager

  /** ListenForIncomingUsers, for one accepted connection from `ip`. While
    * the server is closing the newcomer is only flagged; a full server
    * answers ServerFull (which flags it too); otherwise it joins the
    * registry. Admission never takes the registry past MaxPlayers. */
  method ListenForIncomingUsers(srv: Server, ip: string) returns (client: Client)
    modifies srv`clients, srv`outbox
    ensures fresh(client) && client.savedIP == ip && client.username == ""
    ensures srv.isClosing ==>
      client.disconnectFlag && srv.clients == old(srv.clients) && srv.outbox == old(srv.outbox)
    ensures !srv.isClosing && |old(srv.clients)| >= srv.maxPlayers ==>
      client.disconnectFlag && srv.clients == old(srv.clients) &&
      srv.outbox == old(srv.outbox) + [Envelope(client, LoginResponsePacket(ServerFull, []))]
    ensures !srv.isClosing && |old(srv.clients)| < srv.maxPlayers ==>
      !client.disconnectFlag && srv.clients == old(srv.clients) + [client] && srv.outbox == old(srv.outbox)
    ensures srv.clients == old(srv.clients) || |srv.clients| <= srv.maxPlayers
  {
    client := new Client(ip);
    if srv.isClosing {
      client.disconnectFlag := true;
    } else if ClientCount(srv) >= srv.maxPlayers {
      SendLoginResponse(srv, client, ServerFull, []);
    } else {
      AddClient(srv, client);
    }
  }

  /** The recount every session receives after a kick. */
  function Recount(cs: seq<Client>): seq<Envelope>
    reads set c | c in cs
  {
    Notify(cs, PlayerRecountPacket(|cs|, Usernames(cs)))
  }

  /** Removing a session from a registry without repeats removes every trace
    * of it and keeps the registry without repeats. */
  lemma RemoveFirstDistinct(cs: seq<Client>, c: Client)
    requires Distinct(cs)
    ensures c !in RemoveFirst(cs, c) && Distinct(RemoveFirst(cs, c))
    ensures forall d :: d in RemoveFirst(cs, c) <==> d in cs && d != c
  {
    if c in cs {
      var i := IndexOf(cs, c);
      var r := RemoveFirst(cs, c);
      forall d | d in cs && d != c
        ensures d in r
      {
        var k :| 0 <= k < |cs| && cs[k] == d;
        if k < i { assert r[k] == d; } else { assert r[k - 1] == d; }
      }
    }
  }

  /** KickClient: the session leaves the registry and the remaining
    * sessions are sent the new player count. */
  method KickClient(srv: Server, client: Client)
    modifies srv`clients, srv`outbox
    ensures srv.clients == RemoveFirst(old(srv.clients), client)
    ensures srv.outbox == old(srv.outbox + Recount(RemoveFirst(srv.clients, client)))
  {
    RemoveClient(srv, client);
    SendPlayerRecount(srv);
  }

  /** What the heartbeat sees of a session: its disconnect flag and its
    * username. The sweep only ever changes the server, so what it sees of
    * each session stays the same throughout. */
  datatype Seen = Seen(flagged: bool, name: string)

  /** A snapshot of the sessions of `cs`. */
  function Observe(cs: seq<Client>): (view: map<Client, Seen>)
    reads set c | c in cs
    ensures forall c :: c in cs ==> c in view
    ensures forall c :: c in view ==> c in cs
    ensures forall c :: c in view ==> view[c] == Seen(c.disconnectFlag, c.username)
  {
    map c | c in cs :: Seen(c.disconnectFlag, c.username)
  }

  /** The snapshot agrees with the sessions it describes. */
  predicate Matches(view: map<Client, Seen>)
    reads view.Keys
  {
    forall c :: c in view ==> view[c] == Seen(c.disconnectFlag, c.username)
  }

  /** A session the heartbeat drops: flagged, or no longer connected. */
  predicate Dropped(c: Client, view: map<Client, Seen>, alive: Client -> bool)
  {
    (c in view && view[c].flagged) || !alive(c)
  }

  /** The sessions of `s` the heartbeat keeps, in order. */
  function Survivors(s: seq<Client>, view: map<Client, Seen>, alive: Client -> bool): (r: seq<Client>)
    ensures |r| <= |s|
    ensures forall c :: c in r ==> c in s
    decreases |s|
  {
    if |s| == 0 then []
    else Survivors(s[..|s| - 1], view, alive) + (if Dropped(s[|s| - 1], view, alive) then [] else [s[|s| - 1]])
  }

  /** A session survives exactly when it was registered and is not dropped. */
  lemma {:induction false} SurvivorsExact(s: seq<Client>, view: map<Client, Seen>, alive: Client -> bool)
    ensures forall c :: c in Survivors(s, view, alive) <==> c in s && !Dropped(c, view, alive)
    decreases |s|
  {
    if |s| > 0 {
      var front := s[..|s| - 1];
      SurvivorsExact(front, view, alive);
      assert s == front + [s[|s| - 1]];
    }
  }

  /** The survivors of a registry without repeats have none either. */
  lemma {:induction false} SurvivorsDistinct(s: seq<Client>, view: map<Client, Seen>, alive: Client -> bool)
    requires Distinct(s)
    ensures Distinct(Survivors(s, view, alive))
    decreases |s|
  {
    if |s| > 0 {
      var front := s[..|s| - 1];
      assert Distinct(front);
      SurvivorsDistinct(front, view, alive);
      SurvivorsExact(front, view, alive);
      assert s[|s| - 1] !in front;
    }
  }

  /** The registry after the sweep has looked at the first i sessions of the snapshot. */
  function Registry(s: seq<Client>, i: nat, view: map<Client, Seen>, alive: Client -> bool): seq<Client>
    requires i <= |s|
  {
    Survivors(s[..i], view, alive) + s[i..]
  }

  /** The recount sent to the sessions `cs`, with the names of the snapshot. */
  function RecountIn(cs: seq<Client>, view: map<Client, Seen>): seq<Envelope>
  {
    Notify(cs, PlayerRecountPacket(|cs|, seq(|cs|, k requires 0 <= k < |cs| =>
      if cs[k] in view then view[cs[k]].name else "")))
  }

  /** Where the snapshot agrees with the sessions, its recount is the one the
    * server sends. */
  lemma RecountObserved(cs: seq<Client>, view: map<Client, Seen>)
    requires Matches(view) && forall c :: c in cs ==> c in view
    ensures Recount(cs) == RecountIn(cs, view)
  {
    var names := seq(|cs|, k requires 0 <= k < |cs| => if cs[k] in view then view[cs[k]].name else "");
    assert Usernames(cs) == names;
  }

  /** The recount the sweep sends on reaching session i of the snapshot: one
    * to every session still registered if session i is kicked, else none. */
  function SweepStep(s: seq<Client>, i: nat, view: map<Client, Seen>, alive: Client -> bool): seq<Envelope>
    requires i < |s|
  {
    if Dropped(s[i], view, alive) then RecountIn(Registry(s, i + 1, view, alive), view) else []
  }

  /** The recounts sent by the sweep over the first i sessions of the snapshot. */
  function SweepNotices(s: seq<Client>, i: nat, view: map<Client, Seen>, alive: Client -> bool): seq<Envelope>
    requires i <= |s|
    decreases i
  {
    if i == 0 then [] else SweepNotices(s, i - 1, view, alive) + SweepStep(s, i - 1, view, alive)
  }

  /** Looking at one more session of the snapshot keeps or drops it. */
  lemma SurvivorsSnoc(s: seq<Client>, i: nat, view: map<Client, Seen>, alive: Client -> bool)
    requires i < |s|
    ensures Survivors(s[..i + 1], view, alive) ==
      Survivors(s[..i], view, alive) + (if Dropped(s[i], view, alive) then [] else [s[i]])
  {
    assert s[..i + 1][..i] == s[..i];
  }

  /** In a snapshot without repeats, a session is not among the survivors of
    * the sessions before it. */
  lemma NotYetSurvivor(s: seq<Client>, i: nat, view: map<Client, Seen>, alive: Client -> bool)
    requires i < |s| && Distinct(s)
    ensures s[i] !in Survivors(s[..i], view, alive)
  {
    assert s[i] !in s[..i];
  }

  /** Kicking the next session of the snapshot takes the registry one step on. */
  lemma RegistryStep(s: seq<Client>, i: nat, view: map<Client, Seen>, alive: Client -> bool)
    requires i < |s| && Distinct(s)
    ensures Dropped(s[i], view, alive) ==>
      RemoveFirst(Registry(s, i, view, alive), s[i]) == Registry(s, i + 1, view, alive)
    ensures !Dropped(s[i], view, alive) ==> Registry(s, i, view, alive) == Registry(s, i + 1, view, alive)
  {
    var front, rest := Survivors(s[..i], view, alive), s[i + 1..];
    SurvivorsSnoc(s, i, view, alive);
    NotYetSurvivor(s, i, view, alive);
    assert s[i..] == [s[i]] + rest;
    AppendAssociates(front, [s[i]], rest);
    if Dropped(s[i], view, alive) {
      assert front + [] == front;
      RemoveFirstMiddle(front, s[i], rest);
    }
  }

  /** The registry never holds a session the snapshot did not. */
  lemma RegistryWithin(s: seq<Client>, i: nat, view: map<Client, Seen>, alive: Client -> bool)
    requires i <= |s|
    ensures forall c :: c in Registry(s, i, view, alive) ==> c in s
  {
    var front := Survivors(s[..i], view, alive);
    forall c | c in Registry(s, i, view, alive)
      ensures c in s
    {
      if c in front {
        var k :| 0 <= k < i && s[..i][k] == c;
        assert s[k] == c;
      } else {
        assert c in s[i..];
        var k :| 0 <= k < |s| - i && s[i..][k] == c;
        assert s[i + k] == c;
      }
    }
  }

  /** One session of the heartbeat sweep. */
  method SweepOne(srv: Server, s: seq<Client>, i: nat, ghost view: map<Client, Seen>, alive: Client -> bool)
    requires i < |s| && Distinct(s)
    requires Matches(view) && forall c :: c in s ==> c in view
    requires srv.clients == Registry(s, i, view, alive)
    modifies srv`clients, srv`outbox
    ensures Matches(view)
    ensures srv.clients == Registry(s, i + 1, view, alive)
    ensures srv.outbox == old(srv.outbox) + SweepStep(s, i, view, alive)
  {
    RegistryStep(s, i, view, alive);
    var c := s[i];
    if c.disconnectFlag || !alive(c) {
      RegistryWithin(s, i + 1, view, alive);
      RecountObserved(Registry(s, i + 1, view, alive), view);
      KickClient(srv, c);
    }
  }

  /** The sweep over the snapshot `s` of the registry, as seen through `view`. */
  method SweepAll(srv: Server, s: seq<Client>, ghost view: map<Client, Seen>, alive: Client -> bool)
    requires Distinct(s) && srv.clients == s
    requires Matches(view) && forall c :: c in s ==> c in view
    modifies srv`clients, srv`outbox
    ensures srv.clients == Survivors(s, view, alive)
    ensures srv.outbox == old(srv.outbox) + SweepNotices(s, |s|, view, alive)
  {
    assert s[..0] == [] && s[0..] == s;
    var i := 0;
    ghost var sent := [];
    while i < |s|
      invariant 0 <= i <= |s|
      invariant Matches(view)
      invariant srv.clients == Registry(s, i, view, alive)
      invariant sent == SweepNotices(s, i, view, alive)
      invariant srv.outbox == old(srv.outbox) + sent
    {
      SweepOne(srv, s, i, view, alive);
      AppendAssociates(old(srv.outbox), sent, SweepStep(s, i, view, alive));
      sent := sent + SweepStep(s, i, view, alive);
      i := i + 1;
    }
    assert s[..i] == s;
  }

  /** One pass of HeartbeatClients over a snapshot of the registry: every
    * flagged or dead session is kicked, in registry order, each kick
    * followed by a recount to the sessions still registered. */
  method HeartbeatClients(srv: Server, alive: Client -> bool)
    requires Distinct(srv.clients)
    modifies srv`clients, srv`outbox
    ensures srv.clients == old(Survivors(srv.clients, Observe(srv.clients), alive))
    ensures srv.outbox == old(srv.outbox + SweepNotices(srv.clients, |srv.clients|, Observe(srv.clients), alive))
  {
    ghost var view := Observe(srv.clients);
    SweepAll(srv, srv.clients, view, alive);
  }

  /** After a sweep exactly the registered sessions that are neither flagged
    * nor dead remain, each once. */
  lemma SweepLeavesLive(s: seq<Client>, alive: Client -> bool)
    requires Distinct(s)
    ensures var r := Survivors(s, Observe(s), alive);
      && (forall c :: c in r <==> c in s && !c.disconnectFlag && alive(c))
      && Distinct(r)
  {
    SurvivorsExact(s, Observe(s), alive);
    SurvivorsDistinct(s, Observe(s), alive);
  }

  /** What one read of ListenToClient produced: a packet its handler
    * processed (which may have flagged the session), a handler that threw,
    * or a failed read. */
  datatype ReadOutcome = Handled(flagged: bool) | HandlerFailed | ReadFailed

  /** The first read after which the loop stops, or |outcomes|. */
  function FirstStop(outcomes: seq<ReadOutcome>): (i: nat)
    ensures i <= |outcomes|
    ensures forall k :: 0 <= k < i ==> outcomes[k] == Handled(false)
    ensures i < |outcomes| ==> outcomes[i] != Handled(false)
  {
    if |outcomes| == 0 then 0
    else if outcomes[0] != Handled(false) then 0
    else 1 + FirstStop(outcomes[1..])
  }

  /** ListenToClient over a sequence of outcomes. The loop runs while the
    * session is not flagged; a handler that throws gets the illegal-action
    * reply (which flags the session) and a failed read flags it directly,
    * and either ends the loop, as does a handler that flagged the session.
    * Only the loop's own effects are stated: what the routed handlers do is
    * modelled by the handlers. */
  method ListenToClient(srv: Server, client: Client, outcomes: seq<ReadOutcome>) returns (consumed: nat)
    modifies srv`outbox, client`disconnectFlag
    ensures old(client.disconnectFlag) ==>
      consumed == 0 && client.disconnectFlag && srv.outbox == old(srv.outbox)
    ensures !old(client.disconnectFlag) && FirstStop(outcomes) == |outcomes| ==>
      consumed == |outcomes| && !client.disconnectFlag && srv.outbox == old(srv.outbox)
    ensures !old(client.disconnectFlag) && FirstStop(outcomes) < |outcomes| ==>
      consumed == FirstStop(outcomes) + 1 && client.disconnectFlag &&
      srv.outbox == old(srv.outbox) +
        (if outcomes[FirstStop(outcomes)] == HandlerFailed then [Envelope(client, IllegalActionPacket)] else [])
  {
    consumed := 0;
    while consumed < |outcomes| && !client.disconnectFlag
      invariant consumed <= |outcomes|
      invariant forall k :: 0 <= k < consumed ==> outcomes[k] == Handled(false)
      invariant client.disconnectFlag == old(client.disconnectFlag)
      invariant old(client.disconnectFlag) ==> consumed == 0
      invariant srv.outbox == old(srv.outbox)
    {
      match outcomes[consumed]
      case ReadFailed =>
        client.disconnectFlag := true;
        return consumed + 1;
      case HandlerFailed =>
        SendIllegalPacket(srv, client, true);
        return consumed + 1;
      case Handled(flagged) =>
        if flagged {
          client.disconnectFlag := true;
          return consumed + 1;
        }
        consumed := consumed + 1;
    }
  }

  /** Network.SendData: a write that fails flags the session instead of
    * raising. */
  method SendDataOrFlag(srv: Server, client: Client, p: Packet, writeOk: bool)
    modifies srv`outbox, client`disconnectFlag
    ensures writeOk ==>
      srv.outbox == old(srv.outbox) + [Envelope(client, p)] && client.disconnectFlag == old(client.disconnectFlag)
    ensures !writeOk ==> srv.outbox == old(srv.outbox) && client.disconnectFlag
  {
    if writeOk {
      SendData(srv, client, p);
    } else {
      client.disconnectFlag := true;
    }
  }
}
