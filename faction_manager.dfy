/*
 * FactionManager: factions, their members and ranks. A faction record keeps
 * the member names and their ranks in two index-aligned lists; every
 * operation here keeps them aligned (FactionsAligned). The faction a
 * session acts for is the record stored under its factionName.
 */
module FactionManager {
  import opened Lists
  import opened Records
  import opened Packets
  import opened ServerState
  import opened ResponseShortcutManager
  import opened SiteManager

  // ---------------------------------------------------------------------
  // Lookups

  /** GetMemberRank: the scan of the member list. */
  method GetMemberRank(f: FactionFile, username: string) returns (r: Rank)
    requires Aligned(f)
    ensures r == RankOf(f, username)
  {
    var i := 0;
    while i < |f.members|
      invariant 0 <= i <= |f.members|
      invariant forall j :: 0 <= j < i ==> f.members[j] != username
    {
      if f.members[i] == username {
        IndexOfUnique(f.members, username, i);
        return f.ranks[i];
      }
      i := i + 1;
    }
    return Member;
  }

  /** CheckIfUserIsInFaction */
  method CheckIfUserIsInFaction(f: FactionFile, username: string) returns (b: bool)
    ensures b <==> username in f.members
  {
    var i := 0;
    while i < |f.members|
      invariant 0 <= i <= |f.members|
      invariant username !in f.members[..i]
    {
      if f.members[i] == username {
        return true;
      }
      assert f.members[..i + 1] == f.members[..i] + [f.members[i]];
      i := i + 1;
    }
    assert f.members[..i] == f.members;
    return false;
  }

  // ---------------------------------------------------------------------
  // The three in-place edits of a faction record, and what they do to ranks

  /** AcceptInvite: the user joins at the end of both lists with rank Member. */
  function WithMember(f: FactionFile, username: string): (g: FactionFile)
    requires Aligned(f)
    ensures Aligned(g)
  {
    FactionFile(f.members + [username], f.ranks + [Member])
  }

  /** A newcomer has rank Member, and every other member keeps the rank it had. */
  lemma JoinKeepsRanks(f: FactionFile, username: string, m: string)
    requires Aligned(f) && username !in f.members
    ensures RankOf(WithMember(f, username), username) == Member
    ensures m != username ==> RankOf(WithMember(f, username), m) == RankOf(f, m)
  {
    var g := WithMember(f, username);
    IndexOfUnique(g.members, username, |f.members|);
    if m != username && m in f.members {
      var j := IndexOf(f.members, m);
      IndexOfUnique(g.members, m, j);
    }
  }

  /** The member removed from a faction: the same index goes from both lists. */
  function WithoutMember(f: FactionFile, username: string): (g: FactionFile)
    requires Aligned(f) && username in f.members
    ensures Aligned(g)
  {
    var i := IndexOf(f.members, username);
    FactionFile(RemoveAt(f.members, i), RemoveAt(f.ranks, i))
  }

  /** Removing one member keeps every other member, and that member's rank. */
  lemma LeaveKeepsRanks(f: FactionFile, username: string, m: string)
    requires Aligned(f) && username in f.members && m != username
    ensures m in WithoutMember(f, username).members <==> m in f.members
    ensures RankOf(WithoutMember(f, username), m) == RankOf(f, m)
  {
    var g := WithoutMember(f, username);
    var i := IndexOf(f.members, username);
    if m in f.members {
      var j := IndexOf(f.members, m);
      if j < i {
        IndexOfUnique(g.members, m, j);
      } else {
        assert j != i;
        IndexOfUnique(g.members, m, j - 1);
      }
    } else {
      assert forall k :: 0 <= k < |g.members| ==> g.members[k] != m by {
        forall k | 0 <= k < |g.members| ensures g.members[k] != m {
          if k < i { assert g.members[k] == f.members[k]; }
          else { assert g.members[k] == f.members[k + 1]; }
        }
      }
    }
  }

  /** Promote and Demote: only the entry beside the member's first occurrence changes. */
  function WithRank(f: FactionFile, username: string, r: Rank): (g: FactionFile)
    requires Aligned(f) && username in f.members
    ensures Aligned(g) && g.members == f.members
  {
    FactionFile(f.members, f.ranks[IndexOf(f.members, username) := r])
  }

  lemma RerankSetsOnlyTarget(f: FactionFile, username: string, r: Rank, m: string)
    requires Aligned(f) && username in f.members
    ensures RankOf(WithRank(f, username, r), username) == r
    ensures m != username ==> RankOf(WithRank(f, username, r), m) == RankOf(f, m)
  {
  }

  // ---------------------------------------------------------------------
  // Create and delete

  /** A free name creates a faction whose only member is the creator, at rank
    * Admin; the creator's session and user record join it. A taken name is
    * answered with NameInUse and nothing changes. The creator's current
    * faction is not checked. A creator without a user record faults after
    * the faction and the session have been updated. */
  method CreateFaction(srv: Server, client: Client, manifest: FactionManifest)
    requires FactionsAligned(srv.factions)
    modifies srv`factions, srv`users, srv`outbox, client`hasFaction, client`factionName, client`disconnectFlag
    ensures FactionsAligned(srv.factions)
    ensures manifest.details in old(srv.factions) ==>
      srv.factions == old(srv.factions) && srv.users == old(srv.users) &&
      client.hasFaction == old(client.hasFaction) && client.factionName == old(client.factionName) &&
      client.disconnectFlag == old(client.disconnectFlag) &&
      srv.outbox == old(srv.outbox) + [Envelope(client, FactionPacket(manifest.(mode := NameInUse)))]
    ensures manifest.details !in old(srv.factions) ==>
      srv.factions == old(srv.factions)[manifest.details := FactionFile([client.username], [Admin])] &&
      client.hasFaction && client.factionName == manifest.details
    ensures manifest.details !in old(srv.factions) && client.username in old(srv.users) ==>
      srv.users == old(srv.users)[client.username :=
        old(srv.users)[client.username].(hasFaction := true, factionName := manifest.details)] &&
      client.disconnectFlag == old(client.disconnectFlag) &&
      srv.outbox == old(srv.outbox) + [Envelope(client, FactionPacket(manifest.(mode := Create)))]
    ensures manifest.details !in old(srv.factions) && client.username !in old(srv.users) ==>
      srv.users == old(srv.users) && client.disconnectFlag &&
      srv.outbox == old(srv.outbox) + [Envelope(client, IllegalActionPacket)]
  {
    if manifest.details in srv.factions {
      SendData(srv, client, FactionPacket(manifest.(mode := NameInUse)));
      return;
    }
    srv.factions := srv.factions[manifest.details := FactionFile([client.username], [Admin])];
    client.hasFaction := true;
    client.factionName := manifest.details;
    if client.username !in srv.users {
      // the missing user record is dereferenced: the fault reaches Network's catch
      SendIllegalPacket(srv, client, true);
      return;
    }
    var record := srv.users[client.username];
    srv.users := srv.users[client.username := record.(hasFaction := true, factionName := manifest.details)];
    SendData(srv, client, FactionPacket(manifest.(mode := Create)));
  }

  /** The creator of a new faction is its Admin. */
  lemma CreatorIsAdmin(username: string)
    ensures RankOf(FactionFile([username], [Admin]), username) == Admin
    ensures forall m :: m != username ==> RankOf(FactionFile([username], [Admin]), m) == Member
  {
    var f := FactionFile([username], [Admin]);
    IndexOfUnique(f.members, username, 0);
  }

  /** The user records once a faction is gone: whoever named it has no faction. */
  function Disaffiliated(users: map<string, UserFile>, factionName: string): (r: map<string, UserFile>)
    ensures r.Keys == users.Keys
    ensures forall u :: u in users && users[u].factionName == factionName ==>
      !r[u].hasFaction && r[u].factionName == ""
    ensures forall u :: u in users && users[u].factionName != factionName ==> r[u] == users[u]
  {
    map u | u in users :: if users[u].factionName == factionName then users[u].(hasFaction := false, factionName := "") else users[u]
  }

  /** The first session of each name in `names`, or null for a name with no session. */
  function Targets(cs: seq<Client>, names: seq<string>): seq<Client?>
    reads cs`username
  {
    if |names| == 0 then [] else [FindClient(cs, names[0])] + Targets(cs, names[1..])
  }

  /** Targets is FindClient applied name by name. */
  lemma {:induction false} TargetsAt(cs: seq<Client>, names: seq<string>)
    ensures |Targets(cs, names)| == |names|
    ensures forall k :: 0 <= k < |names| ==> Targets(cs, names)[k] == FindClient(cs, names[k])
  {
    if |names| > 0 {
      TargetsAt(cs, names[1..]);
      var t := Targets(cs, names);
      forall k | 0 <= k < |names|
        ensures t[k] == FindClient(cs, names[k])
      {
        if k > 0 {
          assert t[k] == Targets(cs, names[1..])[k - 1];
          assert names[1..][k - 1] == names[k];
        }
      }
    }
  }

  /** Every target that is not null is a registered session. */
  lemma TargetsRegistered(cs: seq<Client>, names: seq<string>)
    ensures forall k :: 0 <= k < |Targets(cs, names)| && Targets(cs, names)[k] != null ==> Targets(cs, names)[k] in cs
  {
    TargetsAt(cs, names);
  }

  /** A session is a target exactly when it is the first session of one of the names. */
  lemma TargetsAreFirstSessions(cs: seq<Client>, names: seq<string>, c: Client)
    requires c in cs
    ensures c in Targets(cs, names) <==> c.username in names && FindClient(cs, c.username) == c
  {
    var t := Targets(cs, names);
    TargetsAt(cs, names);
    if c in t {
      var k :| 0 <= k < |t| && t[k] == c;
      assert FindClient(cs, names[k]) == c;
    }
    if c.username in names && FindClient(cs, c.username) == c {
      var k :| 0 <= k < |names| && names[k] == c.username;
      assert t[k] == c;
    }
  }

  /** One envelope per non-null target, in order. */
  function NoticesTo(targets: seq<Client?>, p: Packet): (r: seq<Envelope>)
    ensures |r| <= |targets|
    ensures forall i :: 0 <= i < |r| ==> r[i].packet == p && r[i].to in targets
    ensures forall t: Client :: t in targets ==> Envelope(t, p) in r
    decreases |targets|
  {
    if |targets| == 0 then []
    else
      var t := targets[|targets| - 1];
      NoticesTo(targets[..|targets| - 1], p) + (if t != null then [Envelope(t, p)] else [])
  }

  /** The state of ClearSessions after the first `i` targets: `cleared`
    * holds the non-null ones, and the sessions' faction fields are those
    * from before the loop (`had`, `names`) except that the cleared sessions
    * have none. */
  ghost predicate Cleared(cs: seq<Client>, targets: seq<Client?>, i: nat,
                          had: map<Client, bool>, names: map<Client, string>, cleared: set<Client>)
    reads cs
  {
    && i <= |targets|
    && (forall k :: 0 <= k < i && targets[k] != null ==> targets[k] in cleared)
    && (forall c :: c in cleared ==> c in targets)
    && (forall c :: c in cs ==> c in had && c in names)
    && (forall c :: c in cs ==>
          c.hasFaction == (had[c] && c !in cleared) &&
          c.factionName == (if c in cleared then "" else names[c]))
  }

  /** One turn of ClearSessions on a non-null target: the session leaves
    * the faction and is told. */
  method ClearOne(srv: Server, targets: seq<Client?>, p: Packet, i: nat, t: Client,
                  ghost had: map<Client, bool>, ghost names: map<Client, string>,
                  ghost cleared: set<Client>, ghost base: seq<Envelope>)
    returns (ghost cleared': set<Client>)
    requires i < |targets| && targets[i] == t && t in srv.clients
    requires Cleared(srv.clients, targets, i, had, names, cleared)
    requires srv.outbox == base + NoticesTo(targets[..i], p)
    modifies srv`outbox, t`hasFaction, t`factionName
    ensures Cleared(srv.clients, targets, i + 1, had, names, cleared')
    ensures srv.outbox == base + NoticesTo(targets[..i + 1], p)
  {
    assert targets[..i + 1] == targets[..i] + [t];
    assert NoticesTo(targets[..i + 1], p) == NoticesTo(targets[..i], p) + [Envelope(t, p)];
    SendData(srv, t, p);
    AppendAssociates(base, NoticesTo(targets[..i], p), [Envelope(t, p)]);
    t.hasFaction := false;
    t.factionName := "";
    ClearedGrows(targets, cleared, i);
    cleared' := cleared + {t};
  }

  /** A null target (a member with no session) is skipped. */
  lemma SkipNull(cs: seq<Client>, targets: seq<Client?>, i: nat, p: Packet,
                 had: map<Client, bool>, names: map<Client, string>, cleared: set<Client>)
    requires i < |targets| && targets[i] == null
    requires Cleared(cs, targets, i, had, names, cleared)
    ensures Cleared(cs, targets, i + 1, had, names, cleared)
    ensures NoticesTo(targets[..i + 1], p) == NoticesTo(targets[..i], p)
  {
    assert targets[..i + 1][..i] == targets[..i];
  }

  /** One turn of ClearSessions: a non-null target is cleared and told, a
    * null one skipped. */
  method ClearNext(srv: Server, targets: seq<Client?>, p: Packet, i: nat,
                   ghost had: map<Client, bool>, ghost names: map<Client, string>,
                   ghost cleared: set<Client>, ghost base: seq<Envelope>)
    returns (ghost cleared': set<Client>)
    requires i < |targets| && (targets[i] != null ==> targets[i] in srv.clients)
    requires Cleared(srv.clients, targets, i, had, names, cleared)
    requires srv.outbox == base + NoticesTo(targets[..i], p)
    modifies srv`outbox, srv.clients`hasFaction, srv.clients`factionName
    ensures Cleared(srv.clients, targets, i + 1, had, names, cleared')
    ensures srv.outbox == base + NoticesTo(targets[..i + 1], p)
  {
    var t := targets[i];
    if t != null {
      cleared' := ClearOne(srv, targets, p, i, t, had, names, cleared, base);
    } else {
      SkipNull(srv.clients, targets, i, p, had, names, cleared);
      cleared' := cleared;
    }
  }

  /** The member loop of DeleteFaction: each non-null target is cleared and told. */
  method ClearSessions(srv: Server, targets: seq<Client?>, p: Packet)
    requires forall k :: 0 <= k < |targets| && targets[k] != null ==> targets[k] in srv.clients
    modifies srv`outbox, srv.clients`hasFaction, srv.clients`factionName
    ensures forall c :: c in srv.clients ==>
      c.hasFaction == (old(c.hasFaction) && c !in targets) &&
      c.factionName == (if c in targets then "" else old(c.factionName))
    ensures srv.outbox == old(srv.outbox) + NoticesTo(targets, p)
  {
    ghost var had: map<Client, bool> := map c | c in srv.clients :: c.hasFaction;
    ghost var names: map<Client, string> := map c | c in srv.clients :: c.factionName;
    ghost var cleared: set<Client> := {};
    assert forall c :: c in srv.clients ==> had[c] == old(c.hasFaction) && names[c] == old(c.factionName);
    var i := 0;
    while i < |targets|
      invariant 0 <= i <= |targets|
      invariant Cleared(srv.clients, targets, i, had, names, cleared)
      invariant srv.outbox == old(srv.outbox) + NoticesTo(targets[..i], p)
    {
      cleared := ClearNext(srv, targets, p, i, had, names, cleared, old(srv.outbox));
      i := i + 1;
    }
    assert targets[..i] == targets;
    AllCleared(srv.clients, targets, had, names, cleared);
  }

  /** Once the loop is over, the cleared sessions are exactly the non-null targets. */
  lemma AllCleared(cs: seq<Client>, targets: seq<Client?>, had: map<Client, bool>, names: map<Client, string>, cleared: set<Client>)
    requires Cleared(cs, targets, |targets|, had, names, cleared)
    ensures forall c :: c in cs ==>
      c.hasFaction == (had[c] && c !in targets) &&
      c.factionName == (if c in targets then "" else names[c])
  {
    assert forall c: Client :: c in cleared <==> c in targets;
  }

  lemma ClearedGrows(targets: seq<Client?>, cleared: set<Client>, i: nat)
    requires i < |targets| && targets[i] != null
    requires forall k :: 0 <= k < i && targets[k] != null ==> targets[k] in cleared
    ensures forall k :: 0 <= k < i + 1 && targets[k] != null ==> targets[k] in cleared + {targets[i]}
  {
  }

  /** The Admin branch of DeleteFaction for the faction `name`. */
  method Disband(srv: Server, name: string, manifest: FactionManifest, siteListing: seq<string>)
    requires FactionsAligned(srv.factions) && name in srv.factions
    modifies srv`factions, srv`users, srv`sites, srv`outbox, srv.clients`hasFaction, srv.clients`factionName
    ensures FactionsAligned(srv.factions)
    ensures srv.factions == old(srv.factions) - {name}
    ensures srv.users == Disaffiliated(old(srv.users), name)
    ensures srv.sites == WithoutKeys(old(srv.sites), FactionSitesOf(siteListing, old(srv.sites), name))
    ensures var targets := old(Targets(srv.clients, srv.factions[name].members));
      forall c :: c in srv.clients ==>
        c.hasFaction == (old(c.hasFaction) && c !in targets) &&
        c.factionName == (if c in targets then "" else old(c.factionName))
    ensures srv.outbox == old(srv.outbox)
      + NoticesTo(old(Targets(srv.clients, srv.factions[name].members)), FactionPacket(manifest.(mode := Delete)))
      + DestroyNotices(FactionSitesOf(siteListing, old(srv.sites), name), srv.clients)
  {
    var targets := Targets(srv.clients, srv.factions[name].members);
    TargetsRegistered(srv.clients, srv.factions[name].members);
    srv.users := Disaffiliated(srv.users, name);
    ClearSessions(srv, targets, FactionPacket(manifest.(mode := Delete)));
    var tiles := GetFactionSites(srv, siteListing, name);
    DestroySites(srv, tiles);
    srv.factions := srv.factions - {name};
  }

  /** Only the faction's Admin may delete it. Deletion (Disband) clears the
    * affiliation of every user record naming the faction and of the first
    * session of each member (each of those is told), destroys the faction's
    * sites (each destruction told to every session) and deletes the faction
    * record. A session whose faction record does not exist is ignored. */
  method DeleteFaction(srv: Server, client: Client, manifest: FactionManifest, siteListing: seq<string>)
    requires FactionsAligned(srv.factions)
    modifies srv`factions, srv`users, srv`sites, srv`outbox, srv.clients`hasFaction, srv.clients`factionName
    ensures FactionsAligned(srv.factions)
    ensures old(client.factionName) !in old(srv.factions) ==>
      srv.factions == old(srv.factions) && srv.users == old(srv.users) && srv.sites == old(srv.sites) &&
      srv.outbox == old(srv.outbox) &&
      forall c :: c in srv.clients ==> c.hasFaction == old(c.hasFaction) && c.factionName == old(c.factionName)
    ensures var name := old(client.factionName);
      name in old(srv.factions) && RankOf(old(srv.factions)[name], client.username) != Admin ==>
        srv.factions == old(srv.factions) && srv.users == old(srv.users) && srv.sites == old(srv.sites) &&
        srv.outbox == old(srv.outbox) + [Envelope(client, FactionPacket(manifest.(mode := NoPower)))] &&
        forall c :: c in srv.clients ==> c.hasFaction == old(c.hasFaction) && c.factionName == old(c.factionName)
    ensures var name := old(client.factionName);
      name in old(srv.factions) && RankOf(old(srv.factions)[name], client.username) == Admin ==>
        var targets := old(Targets(srv.clients, srv.factions[name].members));
        var tiles := FactionSitesOf(siteListing, old(srv.sites), name);
        srv.factions == old(srv.factions) - {name} &&
        srv.users == Disaffiliated(old(srv.users), name) &&
        srv.sites == WithoutKeys(old(srv.sites), tiles) &&
        (forall c :: c in srv.clients ==>
          c.hasFaction == (old(c.hasFaction) && c !in targets) &&
          c.factionName == (if c in targets then "" else old(c.factionName))) &&
        srv.outbox == old(srv.outbox)
          + NoticesTo(targets, FactionPacket(manifest.(mode := Delete)))
          + DestroyNotices(tiles, srv.clients)
  {
    var name := client.factionName;
    if name !in srv.factions {
      return;
    }
    var rank := GetMemberRank(srv.factions[name], client.username);
    if rank != Admin {
      SendNoPowerPacket(srv, client, manifest);
      return;
    }
    Disband(srv, name, manifest, siteListing);
  }

  // ---------------------------------------------------------------------
  // Membership

  /** AddMemberToFaction: an invitation for the owner of the settlement named
    * in the manifest, sent only when the inviter ranks above Member and the
    * invitee is connected, has no faction and is not already a member. A
    * tile with no settlement faults before anything else is checked. */
  method AddMemberToFaction(srv: Server, client: Client, manifest: FactionManifest)
    requires FactionsAligned(srv.factions)
    modifies srv`outbox, client`disconnectFlag
    ensures manifest.details !in srv.settlements ==>
      client.disconnectFlag && srv.outbox == old(srv.outbox) + [Envelope(client, IllegalActionPacket)]
    ensures manifest.details in srv.settlements ==>
      var toAdd := FindClient(srv.clients, srv.settlements[manifest.details]);
      client.disconnectFlag == old(client.disconnectFlag) &&
      srv.outbox == old(srv.outbox) +
        (if client.factionName !in srv.factions then []
         else if RankOf(srv.factions[client.factionName], client.username) == Member then
           [Envelope(client, FactionPacket(manifest.(mode := NoPower)))]
         else if toAdd == null || toAdd.hasFaction || toAdd.username in srv.factions[client.factionName].members then []
         else [Envelope(toAdd, FactionPacket(manifest.(details := client.factionName)))])
  {
    if manifest.details !in srv.settlements {
      // the missing settlement record is dereferenced: the fault reaches Network's catch
      SendIllegalPacket(srv, client, true);
      return;
    }
    var toAdd := FindClient(srv.clients, srv.settlements[manifest.details]);
    if client.factionName !in srv.factions {
      return;
    }
    var f := srv.factions[client.factionName];
    var rank := GetMemberRank(f, client.username);
    if rank == Member {
      SendNoPowerPacket(srv, client, manifest);
    } else if toAdd == null || toAdd.hasFaction {
    } else {
      var isMember := CheckIfUserIsInFaction(f, toAdd.username);
      if !isMember {
        SendData(srv, toAdd, FactionPacket(manifest.(details := client.factionName)));
      }
    }
  }

  /** ConfirmAddMemberToFaction: the accepting user joins the faction named in
    * the manifest with rank Member, unless already listed or the faction
    * does not exist. No invitation is checked. A user without a user record
    * faults after the faction and the session have been updated. */
  method ConfirmAddMemberToFaction(srv: Server, client: Client, manifest: FactionManifest)
    requires FactionsAligned(srv.factions)
    modifies srv`factions, srv`users, srv`outbox, client`hasFaction, client`factionName, client`disconnectFlag
    ensures FactionsAligned(srv.factions)
    ensures var name := manifest.details;
      name !in old(srv.factions) || client.username in old(srv.factions)[name].members ==>
        srv.factions == old(srv.factions) && srv.users == old(srv.users) && srv.outbox == old(srv.outbox) &&
        client.hasFaction == old(client.hasFaction) && client.factionName == old(client.factionName) &&
        client.disconnectFlag == old(client.disconnectFlag)
    ensures var name := manifest.details;
      name in old(srv.factions) && client.username !in old(srv.factions)[name].members ==>
        srv.factions == old(srv.factions)[name := WithMember(old(srv.factions)[name], client.username)] &&
        client.hasFaction && client.factionName == name &&
        (client.username in old(srv.users) ==>
          srv.users == old(srv.users)[client.username := old(srv.users)[client.username].(hasFaction := true, factionName := name)] &&
          srv.outbox == old(srv.outbox) && client.disconnectFlag == old(client.disconnectFlag)) &&
        (client.username !in old(srv.users) ==>
          srv.users == old(srv.users) && client.disconnectFlag &&
          srv.outbox == old(srv.outbox) + [Envelope(client, IllegalActionPacket)])
  {
    var name := manifest.details;
    if name !in srv.factions {
      return;
    }
    var f := srv.factions[name];
    var isMember := CheckIfUserIsInFaction(f, client.username);
    if isMember {
      return;
    }
    srv.factions := srv.factions[name := WithMember(f, client.username)];
    client.hasFaction := true;
    client.factionName := name;
    if client.username !in srv.users {
      // the missing user record is dereferenced: the fault reaches Network's catch
      SendIllegalPacket(srv, client, true);
      return;
    }
    var record := srv.users[client.username];
    srv.users := srv.users[client.username := record.(hasFaction := true, factionName := name)];
  }

  datatype RemovalVerdict = RemoveTarget | DenyNoPower | AdminProtected

  /** The removal matrix of RemoveMemberFromFaction. */
  function RemovalDecision(actor: Rank, self: bool, target: Rank): (v: RemovalVerdict)
    ensures v == AdminProtected <==> self && actor == Admin
    ensures v == RemoveTarget <==>
      (self && actor != Admin) || (!self && (actor == Admin || (actor == Moderator && target == Member)))
    ensures v == DenyNoPower <==>
      !self && (actor == Member || (actor == Moderator && target != Member))
  {
    match actor
    case Member => if self then RemoveTarget else DenyNoPower
    case Moderator => if self then RemoveTarget else if target != Member then DenyNoPower else RemoveTarget
    case Admin => if self then AdminProtected else RemoveTarget
  }

  /** A Member may only leave; a Moderator may leave or remove a Member; an
    * Admin may remove anybody but cannot leave. */
  lemma RemovalMatrix(self: bool, target: Rank)
    ensures RemovalDecision(Member, self, target) == (if self then RemoveTarget else DenyNoPower)
    ensures RemovalDecision(Moderator, self, target) ==
      (if self || target == Member then RemoveTarget else DenyNoPower)
    ensures RemovalDecision(Admin, self, target) == (if self then AdminProtected else RemoveTarget)
  {
  }

  /** The local RemoveFromFaction of RemoveMemberFromFaction, for a listed
    * member: the member's first session (if any) is cleared and told, and a
    * member with a user record has it cleared and loses its first entry in
    * both lists. */
  method RemoveFromFaction(srv: Server, name: string, owner: string, target: Client?, manifest: FactionManifest)
    requires FactionsAligned(srv.factions)
    requires name in srv.factions && owner in srv.factions[name].members
    requires target != null ==> target in srv.clients
    modifies srv`factions, srv`users, srv`outbox, srv.clients`hasFaction, srv.clients`factionName
    ensures FactionsAligned(srv.factions)
    ensures forall c :: c in srv.clients ==>
      c.hasFaction == (old(c.hasFaction) && c != target) &&
      c.factionName == (if c == target then "" else old(c.factionName))
    ensures srv.outbox == old(srv.outbox) + (if target != null then [Envelope(target, FactionPacket(manifest))] else [])
    ensures owner in old(srv.users) ==>
      srv.users == old(srv.users)[owner := old(srv.users)[owner].(hasFaction := false, factionName := "")] &&
      srv.factions == old(srv.factions)[name := WithoutMember(old(srv.factions)[name], owner)]
    ensures owner !in old(srv.users) ==> srv.users == old(srv.users) && srv.factions == old(srv.factions)
  {
    if target != null {
      target.hasFaction := false;
      target.factionName := "";
      SendData(srv, target, FactionPacket(manifest));
    }
    if owner !in srv.users {
      return;
    }
    var record := srv.users[owner];
    srv.users := srv.users[owner := record.(hasFaction := false, factionName := "")];
    srv.factions := srv.factions[name := WithoutMember(srv.factions[name], owner)];
  }

  /** The verdict RemoveMemberFromFaction reaches for the owner of a settlement. */
  function RemovalFor(f: FactionFile, actor: string, owner: string): RemovalVerdict
    requires Aligned(f)
  {
    RemovalDecision(RankOf(f, actor), owner == actor, RankOf(f, owner))
  }

  /** RemoveMemberFromFaction: the target is the owner of the settlement named
    * in the manifest and the verdict is RemovalDecision's. A permitted
    * removal of a listed member is RemoveFromFaction; a permitted removal of
    * somebody not listed does nothing. A missing settlement or faction record
    * faults. */
  method RemoveMemberFromFaction(srv: Server, client: Client, manifest: FactionManifest)
    requires FactionsAligned(srv.factions)
    modifies srv`factions, srv`users, srv`outbox, srv.clients`hasFaction, srv.clients`factionName, client`disconnectFlag
    ensures FactionsAligned(srv.factions)
    ensures manifest.details !in srv.settlements || old(client.factionName) !in old(srv.factions) ==>
      srv.factions == old(srv.factions) && srv.users == old(srv.users) &&
      (forall c :: c in srv.clients ==> c.hasFaction == old(c.hasFaction) && c.factionName == old(c.factionName)) &&
      client.disconnectFlag && srv.outbox == old(srv.outbox) + [Envelope(client, IllegalActionPacket)]
    ensures manifest.details in srv.settlements && old(client.factionName) in old(srv.factions) ==>
      var f := old(srv.factions)[old(client.factionName)];
      var owner := srv.settlements[manifest.details];
      var v := RemovalFor(f, client.username, owner);
      client.disconnectFlag == old(client.disconnectFlag) &&
      (v != RemoveTarget || owner !in f.members ==>
        srv.factions == old(srv.factions) && srv.users == old(srv.users) &&
        (forall c :: c in srv.clients ==> c.hasFaction == old(c.hasFaction) && c.factionName == old(c.factionName)) &&
        srv.outbox == old(srv.outbox) +
          (if v == DenyNoPower then [Envelope(client, FactionPacket(manifest.(mode := NoPower)))]
           else if v == AdminProtected then [Envelope(client, FactionPacket(manifest.(mode := AdminProtection)))]
           else []))
    ensures manifest.details in srv.settlements && old(client.factionName) in old(srv.factions) ==>
      var name := old(client.factionName);
      var f := old(srv.factions)[name];
      var owner := srv.settlements[manifest.details];
      var target := old(FindClient(srv.clients, owner));
      RemovalFor(f, client.username, owner) == RemoveTarget && owner in f.members ==>
        (forall c :: c in srv.clients ==>
          c.hasFaction == (old(c.hasFaction) && c != target) &&
          c.factionName == (if c == target then "" else old(c.factionName))) &&
        srv.outbox == old(srv.outbox) + (if target != null then [Envelope(target, FactionPacket(manifest))] else []) &&
        (owner in old(srv.users) ==>
          srv.users == old(srv.users)[owner := old(srv.users)[owner].(hasFaction := false, factionName := "")] &&
          srv.factions == old(srv.factions)[name := WithoutMember(f, owner)]) &&
        (owner !in old(srv.users) ==> srv.users == old(srv.users) && srv.factions == old(srv.factions))
  {
    var name := client.factionName;
    if manifest.details !in srv.settlements || name !in srv.factions {
      // a missing settlement or faction record is dereferenced: the fault reaches Network's catch
      SendIllegalPacket(srv, client, true);
      return;
    }
    var owner := srv.settlements[manifest.details];
    var target := FindClient(srv.clients, owner);
    var f := srv.factions[name];
    var actorRank := GetMemberRank(f, client.username);
    var targetRank := GetMemberRank(f, owner);
    var v := RemovalDecision(actorRank, owner == client.username, targetRank);
    match v
    case DenyNoPower => SendNoPowerPacket(srv, client, manifest);
    case AdminProtected => SendData(srv, client, FactionPacket(manifest.(mode := AdminProtection)));
    case RemoveTarget =>
      var isMember := CheckIfUserIsInFaction(f, owner);
      if isMember {
        RemoveFromFaction(srv, name, owner, target, manifest);
      }
  }

  /** PromoteMember: an actor above Member makes a listed, non-Admin target a
    * Moderator. A missing settlement, faction record or target user record
    * faults. */
  method PromoteMember(srv: Server, client: Client, manifest: FactionManifest)
    requires FactionsAligned(srv.factions)
    modifies srv`factions, srv`outbox, client`disconnectFlag
    ensures FactionsAligned(srv.factions)
    ensures manifest.details !in srv.settlements || client.factionName !in old(srv.factions) ==>
      srv.factions == old(srv.factions) && client.disconnectFlag &&
      srv.outbox == old(srv.outbox) + [Envelope(client, IllegalActionPacket)]
    ensures manifest.details in srv.settlements && client.factionName in old(srv.factions) ==>
      var owner := srv.settlements[manifest.details];
      var f := old(srv.factions)[client.factionName];
      if RankOf(f, client.username) == Member then
        srv.factions == old(srv.factions) && client.disconnectFlag == old(client.disconnectFlag) &&
        srv.outbox == old(srv.outbox) + [Envelope(client, FactionPacket(manifest.(mode := NoPower)))]
      else if owner !in srv.users then
        srv.factions == old(srv.factions) && client.disconnectFlag &&
        srv.outbox == old(srv.outbox) + [Envelope(client, IllegalActionPacket)]
      else if owner !in f.members then
        srv.factions == old(srv.factions) && client.disconnectFlag == old(client.disconnectFlag) &&
        srv.outbox == old(srv.outbox)
      else if RankOf(f, owner) == Admin then
        srv.factions == old(srv.factions) && client.disconnectFlag == old(client.disconnectFlag) &&
        srv.outbox == old(srv.outbox) + [Envelope(client, FactionPacket(manifest.(mode := NoPower)))]
      else
        srv.factions == old(srv.factions)[client.factionName := WithRank(f, owner, Moderator)] &&
        client.disconnectFlag == old(client.disconnectFlag) && srv.outbox == old(srv.outbox)
  {
    if manifest.details !in srv.settlements || client.factionName !in srv.factions {
      // a missing settlement or faction record is dereferenced: the fault reaches Network's catch
      SendIllegalPacket(srv, client, true);
      return;
    }
    var owner := srv.settlements[manifest.details];
    var f := srv.factions[client.factionName];
    var actorRank := GetMemberRank(f, client.username);
    if actorRank == Member {
      SendNoPowerPacket(srv, client, manifest);
      return;
    }
    if owner !in srv.users {
      // the missing user record is dereferenced: the fault reaches Network's catch
      SendIllegalPacket(srv, client, true);
      return;
    }
    var isMember := CheckIfUserIsInFaction(f, owner);
    if !isMember {
      return;
    }
    var targetRank := GetMemberRank(f, owner);
    if targetRank == Admin {
      SendNoPowerPacket(srv, client, manifest);
      return;
    }
    srv.factions := srv.factions[client.factionName := WithRank(f, owner, Moderator)];
  }

  /** DemoteMember: only an Admin may demote, and a listed target of any rank
    * (another Admin or the actor included) becomes a Member. A missing
    * settlement, faction record or target user record faults. */
  method DemoteMember(srv: Server, client: Client, manifest: FactionManifest)
    requires FactionsAligned(srv.factions)
    modifies srv`factions, srv`outbox, client`disconnectFlag
    ensures FactionsAligned(srv.factions)
    ensures manifest.details !in srv.settlements || client.factionName !in old(srv.factions) ==>
      srv.factions == old(srv.factions) && client.disconnectFlag &&
      srv.outbox == old(srv.outbox) + [Envelope(client, IllegalActionPacket)]
    ensures manifest.details in srv.settlements && client.factionName in old(srv.factions) ==>
      var owner := srv.settlements[manifest.details];
      var f := old(srv.factions)[client.factionName];
      if RankOf(f, client.username) != Admin then
        srv.factions == old(srv.factions) && client.disconnectFlag == old(client.disconnectFlag) &&
        srv.outbox == old(srv.outbox) + [Envelope(client, FactionPacket(manifest.(mode := NoPower)))]
      else if owner !in srv.users then
        srv.factions == old(srv.factions) && client.disconnectFlag &&
        srv.outbox == old(srv.outbox) + [Envelope(client, IllegalActionPacket)]
      else if owner !in f.members then
        srv.factions == old(srv.factions) && client.disconnectFlag == old(client.disconnectFlag) &&
        srv.outbox == old(srv.outbox)
      else
        srv.factions == old(srv.factions)[client.factionName := WithRank(f, owner, Member)] &&
        client.disconnectFlag == old(client.disconnectFlag) && srv.outbox == old(srv.outbox)
  {
    if manifest.details !in srv.settlements || client.factionName !in srv.factions {
      // a missing settlement or faction record is dereferenced: the fault reaches Network's catch
      SendIllegalPacket(srv, client, true);
      return;
    }
    var owner := srv.settlements[manifest.details];
    var f := srv.factions[client.factionName];
    var actorRank := GetMemberRank(f, client.username);
    if actorRank != Admin {
      SendNoPowerPacket(srv, client, manifest);
      return;
    }
    if owner !in srv.users {
      // the missing user record is dereferenced: the fault reaches Network's catch
      SendIllegalPacket(srv, client, true);
      return;
    }
    var isMember := CheckIfUserIsInFaction(f, owner);
    if !isMember {
      return;
    }
    srv.factions := srv.factions[client.factionName := WithRank(f, owner, Member)];
  }

  // ---------------------------------------------------------------------
  // Member list

  /** The rank GetMemberRank reports for each name, in order. */
  function ListedRanks(f: FactionFile, names: seq<string>): seq<Rank>
    requires Aligned(f)
  {
    seq(|names|, k requires 0 <= k < |names| => RankOf(f, names[k]))
  }

  /** With no name listed twice, the reported ranks are exactly the stored ones;
    * a repeated name reports the rank of its first entry each time. */
  lemma ListedRanksOfDistinct(f: FactionFile)
    requires Aligned(f)
    requires forall i, j :: 0 <= i < j < |f.members| ==> f.members[i] != f.members[j]
    ensures ListedRanks(f, f.members) == f.ranks
  {
    var r := ListedRanks(f, f.members);
    forall k | 0 <= k < |f.members|
      ensures r[k] == f.ranks[k]
    {
      IndexOfUnique(f.members, f.members[k], k);
    }
  }

  /** SendFactionMemberList: the manifest comes back with every member and its
    * rank appended. A session whose faction record is missing faults. */
  method SendFactionMemberList(srv: Server, client: Client, manifest: FactionManifest)
    requires FactionsAligned(srv.factions)
    modifies srv`outbox, client`disconnectFlag
    ensures client.factionName !in srv.factions ==>
      client.disconnectFlag && srv.outbox == old(srv.outbox) + [Envelope(client, IllegalActionPacket)]
    ensures client.factionName in srv.factions ==>
      var f := srv.factions[client.factionName];
      client.disconnectFlag == old(client.disconnectFlag) &&
      srv.outbox == old(srv.outbox) + [Envelope(client, FactionPacket(manifest.(
        complexDetails := manifest.complexDetails + f.members,
        secondaryComplexDetails := manifest.secondaryComplexDetails + ListedRanks(f, f.members))))]
  {
    if client.factionName !in srv.factions {
      // GetMemberRank's scan of a missing record: the fault reaches Network's catch
      SendIllegalPacket(srv, client, true);
      return;
    }
    var f := srv.factions[client.factionName];
    var names, ranks := ListMembers(f, manifest.complexDetails, manifest.secondaryComplexDetails);
    SendData(srv, client, FactionPacket(manifest.(complexDetails := names, secondaryComplexDetails := ranks)));
  }

  /** The loop of SendFactionMemberList: each member, and the rank
    * GetMemberRank reports for it, appended in list order. */
  method ListMembers(f: FactionFile, names0: seq<string>, ranks0: seq<Rank>) returns (names: seq<string>, ranks: seq<Rank>)
    requires Aligned(f)
    ensures names == names0 + f.members
    ensures ranks == ranks0 + ListedRanks(f, f.members)
  {
    names, ranks := names0, ranks0;
    var i := 0;
    while i < |f.members|
      invariant 0 <= i <= |f.members|
      invariant names == names0 + f.members[..i]
      invariant ranks == ranks0 + ListedRanks(f, f.members[..i])
    {
      var rank := GetMemberRank(f, f.members[i]);
      assert ListedRanks(f, f.members[..i + 1]) == ListedRanks(f, f.members[..i]) + [rank];
      names := names + [f.members[i]];
      ranks := ranks + [rank];
      i := i + 1;
    }
    assert f.members[..i] == f.members;
  }

  /** ParseFactionPacket: each mode runs its handler and has that handler's
    * effect; the reply-only modes change nothing. */
  method ParseFactionPacket(srv: Server, client: Client, manifest: FactionManifest, siteListing: seq<string>)
    requires FactionsAligned(srv.factions)
    modifies srv`factions, srv`users, srv`sites, srv`outbox, srv.clients`hasFaction, srv.clients`factionName
    modifies client`hasFaction, client`factionName, client`disconnectFlag
    ensures FactionsAligned(srv.factions)
    // What each mode leaves alone
    ensures manifest.mode in {NameInUse, NoPower, AdminProtection} ==>
      unchanged(srv, client) && forall c :: c in srv.clients ==> unchanged(c)
    ensures manifest.mode != Delete ==> srv.sites == old(srv.sites)
    ensures manifest.mode !in {Create, Delete, RemoveMember, AcceptInvite} ==> srv.users == old(srv.users)
    ensures manifest.mode !in {Create, Delete, RemoveMember, AcceptInvite, Promote, Demote} ==>
      srv.factions == old(srv.factions)
    ensures manifest.mode !in {Delete, RemoveMember} ==>
      forall c :: c in srv.clients && c != client ==> c.hasFaction == old(c.hasFaction) && c.factionName == old(c.factionName)
    ensures manifest.mode !in {Create, Delete, RemoveMember, AcceptInvite} ==>
      client.hasFaction == old(client.hasFaction) && client.factionName == old(client.factionName)
    ensures manifest.mode == Delete ==> client.disconnectFlag == old(client.disconnectFlag)
    // Create
    ensures manifest.mode == Create && manifest.details in old(srv.factions) ==>
      srv.factions == old(srv.factions) && srv.users == old(srv.users) &&
      client.hasFaction == old(client.hasFaction) && client.factionName == old(client.factionName) &&
      client.disconnectFlag == old(client.disconnectFlag) &&
      srv.outbox == old(srv.outbox) + [Envelope(client, FactionPacket(manifest.(mode := NameInUse)))]
    ensures manifest.mode == Create && manifest.details !in old(srv.factions) ==>
      srv.factions == old(srv.factions)[manifest.details := FactionFile([client.username], [Admin])] &&
      client.hasFaction && client.factionName == manifest.details &&
      (client.username in old(srv.users) ==>
        srv.users == old(srv.users)[client.username :=
          old(srv.users)[client.username].(hasFaction := true, factionName := manifest.details)] &&
        client.disconnectFlag == old(client.disconnectFlag) &&
        srv.outbox == old(srv.outbox) + [Envelope(client, FactionPacket(manifest.(mode := Create)))]) &&
      (client.username !in old(srv.users) ==>
        srv.users == old(srv.users) && client.disconnectFlag &&
        srv.outbox == old(srv.outbox) + [Envelope(client, IllegalActionPacket)])
    // Delete
    ensures manifest.mode == Delete && old(client.factionName) !in old(srv.factions) ==>
      srv.factions == old(srv.factions) && srv.users == old(srv.users) && srv.outbox == old(srv.outbox) &&
      forall c :: c in srv.clients ==> c.hasFaction == old(c.hasFaction) && c.factionName == old(c.factionName)
    ensures var name := old(client.factionName);
      manifest.mode == Delete && name in old(srv.factions) && RankOf(old(srv.factions)[name], client.username) != Admin ==>
        srv.factions == old(srv.factions) && srv.users == old(srv.users) &&
        srv.outbox == old(srv.outbox) + [Envelope(client, FactionPacket(manifest.(mode := NoPower)))] &&
        forall c :: c in srv.clients ==> c.hasFaction == old(c.hasFaction) && c.factionName == old(c.factionName)
    ensures var name := old(client.factionName);
      manifest.mode == Delete && name in old(srv.factions) && RankOf(old(srv.factions)[name], client.username) == Admin ==>
        var targets := old(Targets(srv.clients, srv.factions[name].members));
        var tiles := FactionSitesOf(siteListing, old(srv.sites), name);
        srv.factions == old(srv.factions) - {name} &&
        srv.users == Disaffiliated(old(srv.users), name) &&
        srv.sites == WithoutKeys(old(srv.sites), tiles) &&
        (forall c :: c in srv.clients ==>
          c.hasFaction == (old(c.hasFaction) && c !in targets) &&
          c.factionName == (if c in targets then "" else old(c.factionName))) &&
        srv.outbox == old(srv.outbox)
          + NoticesTo(targets, FactionPacket(manifest.(mode := Delete)))
          + DestroyNotices(tiles, srv.clients)
    // AddMember
    ensures manifest.mode == AddMember && manifest.details !in srv.settlements ==>
      client.disconnectFlag && srv.outbox == old(srv.outbox) + [Envelope(client, IllegalActionPacket)]
    ensures manifest.mode == AddMember && manifest.details in srv.settlements ==>
      var toAdd := FindClient(srv.clients, srv.settlements[manifest.details]);
      var name := old(client.factionName);
      client.disconnectFlag == old(client.disconnectFlag) &&
      srv.outbox == old(srv.outbox) +
        (if name !in old(srv.factions) then []
         else if RankOf(old(srv.factions)[name], client.username) == Member then
           [Envelope(client, FactionPacket(manifest.(mode := NoPower)))]
         else if toAdd == null || old(toAdd.hasFaction) || toAdd.username in old(srv.factions)[name].members then []
         else [Envelope(toAdd, FactionPacket(manifest.(details := name)))])
    // RemoveMember
    ensures manifest.mode == RemoveMember &&
            (manifest.details !in srv.settlements || old(client.factionName) !in old(srv.factions)) ==>
      srv.factions == old(srv.factions) && srv.users == old(srv.users) &&
      (forall c :: c in srv.clients ==> c.hasFaction == old(c.hasFaction) && c.factionName == old(c.factionName)) &&
      client.disconnectFlag && srv.outbox == old(srv.outbox) + [Envelope(client, IllegalActionPacket)]
    ensures manifest.mode == RemoveMember &&
            manifest.details in srv.settlements && old(client.factionName) in old(srv.factions) ==>
      var name := old(client.factionName);
      var f := old(srv.factions)[name];
      var owner := srv.settlements[manifest.details];
      var v := RemovalFor(f, client.username, owner);
      var target := old(FindClient(srv.clients, owner));
      client.disconnectFlag == old(client.disconnectFlag) &&
      (v != RemoveTarget || owner !in f.members ==>
        srv.factions == old(srv.factions) && srv.users == old(srv.users) &&
        (forall c :: c in srv.clients ==> c.hasFaction == old(c.hasFaction) && c.factionName == old(c.factionName)) &&
        srv.outbox == old(srv.outbox) +
          (if v == DenyNoPower then [Envelope(client, FactionPacket(manifest.(mode := NoPower)))]
           else if v == AdminProtected then [Envelope(client, FactionPacket(manifest.(mode := AdminProtection)))]
           else [])) &&
      (v == RemoveTarget && owner in f.members ==>
        (forall c :: c in srv.clients ==>
          c.hasFaction == (old(c.hasFaction) && c != target) &&
          c.factionName == (if c == target then "" else old(c.factionName))) &&
        srv.outbox == old(srv.outbox) + (if target != null then [Envelope(target, FactionPacket(manifest))] else []) &&
        (owner in old(srv.users) ==>
          srv.users == old(srv.users)[owner := old(srv.users)[owner].(hasFaction := false, factionName := "")] &&
          srv.factions == old(srv.factions)[name := WithoutMember(f, owner)]) &&
        (owner !in old(srv.users) ==> srv.users == old(srv.users) && srv.factions == old(srv.factions)))
    // AcceptInvite
    ensures var name := manifest.details;
      manifest.mode == AcceptInvite && (name !in old(srv.factions) || client.username in old(srv.factions)[name].members) ==>
        srv.factions == old(srv.factions) && srv.users == old(srv.users) && srv.outbox == old(srv.outbox) &&
        client.hasFaction == old(client.hasFaction) && client.factionName == old(client.factionName) &&
        client.disconnectFlag == old(client.disconnectFlag)
    ensures var name := manifest.details;
      manifest.mode == AcceptInvite && name in old(srv.factions) && client.username !in old(srv.factions)[name].members ==>
        srv.factions == old(srv.factions)[name := WithMember(old(srv.factions)[name], client.username)] &&
        client.hasFaction && client.factionName == name &&
        (client.username in old(srv.users) ==>
          srv.users == old(srv.users)[client.username := old(srv.users)[client.username].(hasFaction := true, factionName := name)] &&
          srv.outbox == old(srv.outbox) && client.disconnectFlag == old(client.disconnectFlag)) &&
        (client.username !in old(srv.users) ==>
          srv.users == old(srv.users) && client.disconnectFlag &&
          srv.outbox == old(srv.outbox) + [Envelope(client, IllegalActionPacket)])
    // Promote and Demote
    ensures (manifest.mode == Promote || manifest.mode == Demote) &&
            (manifest.details !in srv.settlements || old(client.factionName) !in old(srv.factions)) ==>
      srv.factions == old(srv.factions) && client.disconnectFlag &&
      srv.outbox == old(srv.outbox) + [Envelope(client, IllegalActionPacket)]
    ensures (manifest.mode == Promote || manifest.mode == Demote) &&
            manifest.details in srv.settlements && old(client.factionName) in old(srv.factions) ==>
      var name := old(client.factionName);
      var owner := srv.settlements[manifest.details];
      var f := old(srv.factions)[name];
      var promote := manifest.mode == Promote;
      if (if promote then RankOf(f, client.username) == Member else RankOf(f, client.username) != Admin) then
        srv.factions == old(srv.factions) && client.disconnectFlag == old(client.disconnectFlag) &&
        srv.outbox == old(srv.outbox) + [Envelope(client, FactionPacket(manifest.(mode := NoPower)))]
      else if owner !in old(srv.users) then
        srv.factions == old(srv.factions) && client.disconnectFlag &&
        srv.outbox == old(srv.outbox) + [Envelope(client, IllegalActionPacket)]
      else if owner !in f.members then
        srv.factions == old(srv.factions) && client.disconnectFlag == old(client.disconnectFlag) &&
        srv.outbox == old(srv.outbox)
      else if promote && RankOf(f, owner) == Admin then
        srv.factions == old(srv.factions) && client.disconnectFlag == old(client.disconnectFlag) &&
        srv.outbox == old(srv.outbox) + [Envelope(client, FactionPacket(manifest.(mode := NoPower)))]
      else
        srv.factions == old(srv.factions)[name := WithRank(f, owner, if promote then Moderator else Member)] &&
        client.disconnectFlag == old(client.disconnectFlag) && srv.outbox == old(srv.outbox)
    // MemberList
    ensures manifest.mode == MemberList && old(client.factionName) !in old(srv.factions) ==>
      client.disconnectFlag && srv.outbox == old(srv.outbox) + [Envelope(client, IllegalActionPacket)]
    ensures manifest.mode == MemberList && old(client.factionName) in old(srv.factions) ==>
      var f := old(srv.factions)[old(client.factionName)];
      client.disconnectFlag == old(client.disconnectFlag) &&
      srv.outbox == old(srv.outbox) + [Envelope(client, FactionPacket(manifest.(
        complexDetails := manifest.complexDetails + f.members,
        secondaryComplexDetails := manifest.secondaryComplexDetails + ListedRanks(f, f.members))))]
  {
    match manifest.mode
    case Create => CreateFaction(srv, client, manifest);
    case Delete => DeleteFaction(srv, client, manifest, siteListing);
    case AddMember => AddMemberToFaction(srv, client, manifest);
    case RemoveMember => RemoveMemberFromFaction(srv, client, manifest);
    case AcceptInvite => ConfirmAddMemberToFaction(srv, client, manifest);
    case Promote => PromoteMember(srv, client, manifest);
    case Demote => DemoteMember(srv, client, manifest);
    case MemberList => SendFactionMemberList(srv, client, manifest);
    case NameInUse =>
    case NoPower =>
    case AdminProtection =>
  }
}
