/*
 * ServerCommandManager: the server console. A typed line is split at
 * spaces; its lower-cased first token picks a command from the command
 * table, the number of remaining tokens must match the command's declared
 * parameter count (-1 accepts any), and the parameters are kept in a
 * shared field that the command actions read. The actions grant and revoke
 * admin rights, kick, ban and pardon players, send events and broadcasts,
 * edit the whitelist, delete a player's data and close the server.
 * Console output is not modelled: a command that only prints changes
 * nothing here.
 */
module ServerCommandManager {
  import opened Text
  import opened Lists
  import opened Records
  import opened Packets
  import opened ServerState
  import opened WhitelistManager
  import opened SettlementManager
  import opened SiteManager
  import opened SaveManager
  import UL = UserLogin

  /** What a command runs. */
  datatype CommandAction =
    | HelpAction | ListAction | DeepListAction | OpAction | DeopAction | KickAction
    | BanAction | BanListAction | PardonAction | ReloadAction | ModListAction
    | EventAction | EventAllAction | EventListAction | BroadcastAction
    | WhitelistAction | WhitelistAddAction | WhitelistRemoveAction | WhitelistToggleAction
    | ClearAction | ForceSaveAction | DeletePlayerAction
    | EnableDifficultyAction | DisableDifficultyAction | QuitAction | ForceQuitAction

  /** ServerCommand: a prefix, a declared parameter count (-1: any) and an action. */
  datatype ServerCommand = ServerCommand(prefix: string, parameters: int, action: CommandAction)

  /** ServerCommandStorage.serverCommands, in table order (locksave and
    * unlocksave are not in the table). */
  const ServerCommands: seq<ServerCommand> := [
    ServerCommand("help", 0, HelpAction),
    ServerCommand("list", 0, ListAction),
    ServerCommand("deeplist", 0, DeepListAction),
    ServerCommand("op", 1, OpAction),
    ServerCommand("deop", 1, DeopAction),
    ServerCommand("kick", 1, KickAction),
    ServerCommand("ban", 1, BanAction),
    ServerCommand("banlist", 0, BanListAction),
    ServerCommand("pardon", 1, PardonAction),
    ServerCommand("reload", 0, ReloadAction),
    ServerCommand("modlist", 0, ModListAction),
    ServerCommand("event", 2, EventAction),
    ServerCommand("eventall", 1, EventAllAction),
    ServerCommand("eventlist", 0, EventListAction),
    ServerCommand("broadcast", -1, BroadcastAction),
    ServerCommand("whitelist", 0, WhitelistAction),
    ServerCommand("whitelistadd", 1, WhitelistAddAction),
    ServerCommand("whitelistremove", 1, WhitelistRemoveAction),
    ServerCommand("togglewhitelist", 0, WhitelistToggleAction),
    ServerCommand("clear", 0, ClearAction),
    ServerCommand("forcesave", 1, ForceSaveAction),
    ServerCommand("deleteplayer", 1, DeletePlayerAction),
    ServerCommand("enabledifficulty", 0, EnableDifficultyAction),
    ServerCommand("disabledifficulty", 0, DisableDifficultyAction),
    ServerCommand("quit", 0, QuitAction),
    ServerCommand("forcequit", 0, ForceQuitAction)]

  /** The events a command can send; an event travels as its index here. */
  const EventTypes: seq<string> := [
    "Raid", "Infestation", "MechCluster", "ToxicFallout", "Manhunter",
    "Wanderer", "FarmAnimals", "ShipChunks", "TraderCaravan"]

  /** No two commands share a prefix, so a prefix names at most one command. */
  lemma PrefixesDistinct()
    ensures forall i, j :: 0 <= i < j < |ServerCommands| ==> ServerCommands[i].prefix != ServerCommands[j].prefix
  {
  }

  /** List.Find on the table: the first command with the prefix. */
  function FindCommand(cmds: seq<ServerCommand>, prefix: string): (r: Option<ServerCommand>)
    ensures r.None? <==> forall k :: 0 <= k < |cmds| ==> cmds[k].prefix != prefix
    ensures r.Some? ==> r.value in cmds && r.value.prefix == prefix
  {
    if |cmds| == 0 then None
    else if cmds[0].prefix == prefix then Some(cmds[0])
    else FindCommand(cmds[1..], prefix)
  }

  /** The first table entry with a prefix is the one Find returns. */
  lemma {:induction false} FindCommandAt(cmds: seq<ServerCommand>, prefix: string, k: nat)
    requires k < |cmds| && cmds[k].prefix == prefix
    requires forall j :: 0 <= j < k ==> cmds[j].prefix != prefix
    ensures FindCommand(cmds, prefix) == Some(cmds[k])
    decreases k
  {
    if k > 0 {
      FindCommandAt(cmds[1..], prefix, k - 1);
    }
  }

  /** A console line taken apart: the lower-cased first token, the number of
    * tokens after it, and the parameters. The parameters are the pieces of
    * the line once every occurrence of the prefix followed by a space has
    * been removed; the removal matches letter case, so it misses the
    * prefix when the line spells it in capitals. */
  datatype ParsedLine = ParsedLine(prefix: string, count: int, parameters: seq<string>)

  function ParseLine(line: string): (p: ParsedLine)
    ensures |p.parameters| >= 1
    ensures NoUpper(p.prefix)
  {
    var tokens := Split(line, ' ');
    var prefix := ToLower(tokens[0]);
    ToLowerIdempotent(tokens[0]);
    ParsedLine(prefix, |tokens| - 1, Split(RemoveAll(line, prefix + " "), ' '))
  }

  /** The count is the number of spaces in the line; no parameter holds a space. */
  lemma ParseLineShape(line: string)
    ensures ParseLine(line).count == CountChar(line, ' ')
    ensures forall k :: 0 <= k < |ParseLine(line).parameters| ==> ' ' !in ParseLine(line).parameters[k]
  {
    SplitCount(line, ' ');
    var p := ParseLine(line);
    SplitPiecesFree(RemoveAll(line, p.prefix + " "), ' ');
  }

  /** The command a line runs: None when the prefix is unknown or the
    * parameter count does not fit. */
  function Dispatch(line: string): Option<CommandAction>
  {
    var p := ParseLine(line);
    var found := FindCommand(ServerCommands, p.prefix);
    if found.None? then None
    else if found.value.parameters != p.count && found.value.parameters != -1 then None
    else Some(found.value.action)
  }

  /** A line runs an action exactly when some table entry has its lower-cased
    * first token as prefix and declares either the line's parameter count
    * or -1; the action run is that entry's. */
  lemma DispatchCases(line: string)
    ensures var p := ParseLine(line);
      (Dispatch(line).Some? <==>
        exists k :: 0 <= k < |ServerCommands| && ServerCommands[k].prefix == p.prefix &&
          (ServerCommands[k].parameters == p.count || ServerCommands[k].parameters == -1))
    ensures var p := ParseLine(line);
      forall k :: (0 <= k < |ServerCommands| && ServerCommands[k].prefix == p.prefix &&
        (ServerCommands[k].parameters == p.count || ServerCommands[k].parameters == -1)) ==>
        Dispatch(line) == Some(ServerCommands[k].action)
  {
    var p := ParseLine(line);
    var found := FindCommand(ServerCommands, p.prefix);
    PrefixesDistinct();
    if found.Some? {
      var i :| 0 <= i < |ServerCommands| && ServerCommands[i] == found.value;
      assert forall k :: 0 <= k < |ServerCommands| && ServerCommands[k].prefix == p.prefix ==> k == i;
    }
  }

  /** The command a line runs, given the table entry its prefix names. */
  lemma DispatchAt(line: string, k: nat)
    requires k < |ServerCommands| && ServerCommands[k].prefix == ParseLine(line).prefix
    ensures var c := ServerCommands[k];
      Dispatch(line) == if c.parameters == ParseLine(line).count || c.parameters == -1 then Some(c.action) else None
  {
    PrefixesDistinct();
    FindCommandAt(ServerCommands, ParseLine(line).prefix, k);
  }

  /** Lower-casing leaves a string alone exactly when it has no capital letter. */
  lemma ToLowerFixed(s: string)
    ensures ToLower(s) == s <==> NoUpper(s)
  {
    if ToLower(s) == s {
      forall i | 0 <= i < |s|
        ensures !('A' <= s[i] <= 'Z')
      {
        assert ToLower(s)[i] == LowerChar(s[i]);
      }
    }
  }

  /** A line without spaces is its own prefix (lower-cased) and its own single parameter. */
  lemma OneTokenLine(a: string)
    requires ' ' !in a
    ensures ParseLine(a) == ParsedLine(ToLower(a), 0, [a])
  {
    SplitFree(a, ' ');
  }

  /** A pattern ending in a space does not occur in a string without spaces. */
  lemma NoSpaceNoPattern(b: string, pattern: string)
    requires ' ' !in b && |pattern| > 0 && pattern[|pattern| - 1] == ' '
    ensures forall i: nat :: !OccursAt(b, pattern, i)
  {
    forall i: nat
      ensures !OccursAt(b, pattern, i)
    {
      if i + |pattern| <= |b| {
        assert b[i..i + |pattern|][|pattern| - 1] == b[i + |pattern| - 1] != ' ';
      }
    }
  }

  /** Two space-free tokens joined by a space split back into the two. */
  lemma SplitTwo(a: string, b: string)
    requires ' ' !in a && ' ' !in b
    ensures Split(a + " " + b, ' ') == [a, b]
  {
    SplitPrefix(a, b, ' ');
    assert a + " " + b == a + [' '] + b;
    SplitFree(b, ' ');
  }

  /** When the first token has a capital letter, its lower-cased form
    * followed by a space occurs nowhere in the line. */
  lemma CapitalPrefixAbsent(a: string, b: string)
    requires ' ' !in a && ' ' !in b && !NoUpper(a)
    ensures forall i: nat :: !OccursAt(a + " " + b, ToLower(a) + " ", i)
  {
    var line := a + " " + b;
    var pattern := ToLower(a) + " ";
    var j :| 0 <= j < |a| && 'A' <= a[j] <= 'Z';
    NoSpaceNoPattern(b, pattern);
    forall i: nat
      ensures !OccursAt(line, pattern, i)
    {
      if i + |pattern| <= |line| {
        if i == 0 {
          assert line[..|pattern|][j] == a[j] != LowerChar(a[j]) == pattern[j];
        } else if i <= |a| {
          assert line[i..i + |pattern|][|a|] == b[i - 1] != ' ';
        } else {
          assert line[i..i + |pattern|] == b[i - |a| - 1..i - |a| - 1 + |pattern|];
        }
      }
    }
  }

  /** A line of two space-free tokens counts one parameter. When the first
    * token is written in lower case the parameter is the second token; when
    * it has a capital letter the prefix removal finds nothing and both tokens
    * become parameters. */
  lemma TwoTokenLine(a: string, b: string)
    requires ' ' !in a && ' ' !in b
    ensures ParseLine(a + " " + b) == ParsedLine(ToLower(a), 1, if NoUpper(a) then [b] else [a, b])
  {
    var line := a + " " + b;
    SplitTwo(a, b);
    var pattern := ToLower(a) + " ";
    ToLowerFixed(a);
    if NoUpper(a) {
      NoSpaceNoPattern(b, pattern);
      RemoveAllAbsent(b, pattern);
      assert line[..|pattern|] == pattern;
      assert line[|pattern|..] == b;
      SplitFree(b, ' ');
    } else {
      CapitalPrefixAbsent(a, b);
      RemoveAllAbsent(line, pattern);
    }
  }

  /** "op <name>" grants admin rights to the session called <name>. */
  lemma OpLine(name: string)
    requires ' ' !in name
    ensures ParseLine("op " + name).parameters == [name]
    ensures Dispatch("op " + name) == Some(OpAction)
  {
    TwoTokenLine("op", name);
    assert "op" + " " + name == "op " + name;
    assert ToLower("op") == "op";
    DispatchAt("op " + name, 3);
  }

  /** "OP <name>" (or any capitalisation of "op") also runs Op, but with
    * the parameters [spelling, name]: Op looks for a session named after
    * the capitalised command word. */
  lemma CapitalisedOpLine(a: string, name: string)
    requires ' ' !in a && ' ' !in name && ToLower(a) == "op" && !NoUpper(a)
    ensures ParseLine(a + " " + name).parameters == [a, name]
    ensures Dispatch(a + " " + name) == Some(OpAction)
  {
    TwoTokenLine(a, name);
    DispatchAt(a + " " + name, 3);
  }

  /** "kick" with no name runs nothing: the count does not fit. */
  lemma KickWithoutNameLine(a: string)
    requires ' ' !in a && ToLower(a) == "kick"
    ensures Dispatch(a) == None
  {
    OneTokenLine(a);
    DispatchAt(a, 5);
  }

  /** A line whose prefix is "locksave" runs nothing: the command is not in the table. */
  lemma LockSaveLine(line: string)
    requires ParseLine(line).prefix == "locksave"
    ensures Dispatch(line) == None
  {
    assert forall k :: 0 <= k < |ServerCommands| ==> ServerCommands[k].prefix != "locksave";
  }

  /** The text a broadcast sends: every parameter followed by one space. */
  function Spaced(ps: seq<string>): string
  {
    if |ps| == 0 then "" else Spaced(ps[..|ps| - 1]) + ps[|ps| - 1] + " "
  }

  /** Dropping the last space of Spaced gives the parameters joined by single spaces. */
  lemma {:induction false} SpacedJoin(ps: seq<string>)
    requires |ps| >= 1
    ensures Spaced(ps) == Join(ps, ' ') + " "
    decreases |ps|
  {
    if |ps| > 1 {
      var front := ps[..|ps| - 1];
      SpacedJoin(front);
      JoinSnoc(front, ps[|ps| - 1], ' ');
      assert front + [ps[|ps| - 1]] == ps;
    }
  }

  /** The broadcast text of a line is the line with every occurrence of
    * the prefix and a space removed, and it splits back into the parameters. */
  lemma BroadcastText(line: string)
    ensures var p := ParseLine(line);
      Join(p.parameters, ' ') == RemoveAll(line, p.prefix + " ") &&
      Split(Join(p.parameters, ' '), ' ') == p.parameters
  {
    var p := ParseLine(line);
    JoinSplit(RemoveAll(line, p.prefix + " "), ' ');
  }

  /** A record with its admin flag set to `flag`; a missing record stays
    * missing (GetUserFile returns null and the update fails). */
  function WithAdmin(users: map<string, UserFile>, name: string, flag: bool): (r: map<string, UserFile>)
    ensures r.Keys == users.Keys
    ensures forall u :: u in users && u != name ==> r[u] == users[u]
    ensures name in users ==> r[name].isAdmin == flag && r[name].(isAdmin := users[name].isAdmin) == users[name]
  {
    if name in users then users[name := users[name].(isAdmin := flag)] else users
  }

  /** A record with its ban flag set to `flag`; a missing record stays missing. */
  function WithBan(users: map<string, UserFile>, name: string, flag: bool): (r: map<string, UserFile>)
    ensures r.Keys == users.Keys
    ensures forall u :: u in users && u != name ==> r[u] == users[u]
    ensures name in users ==> r[name].isBanned == flag && r[name].(isBanned := users[name].isBanned) == users[name]
  {
    if name in users then users[name := users[name].(isBanned := flag)] else users
  }

  /** Op followed by Deop gives a non-admin record back unchanged, and Deop
    * followed by Op gives an admin record back unchanged. */
  lemma OpDeopRoundTrip(users: map<string, UserFile>, name: string)
    ensures name in users && !users[name].isAdmin ==> WithAdmin(WithAdmin(users, name, true), name, false) == users
    ensures name in users && users[name].isAdmin ==> WithAdmin(WithAdmin(users, name, false), name, true) == users
  {
    if name in users {
      var f := users[name];
      assert f.(isAdmin := f.isAdmin) == f;
    }
  }

  /** Ban followed by Pardon gives an unbanned record back unchanged. */
  lemma BanPardonRoundTrip(users: map<string, UserFile>, name: string)
    ensures name in users && !users[name].isBanned ==> WithBan(WithBan(users, name, true), name, false) == users
    ensures name in users && users[name].isBanned ==> WithBan(WithBan(users, name, false), name, true) == users
  {
    if name in users {
      var f := users[name];
      assert f.(isBanned := f.isBanned) == f;
    }
  }

  /** A banned record is refused at login whatever mods the client runs,
    * unless it is an admin running conflicting mods (refused with WrongMods);
    * an admin record is never refused for its mods. */
  lemma CommandsDecideLogin(users: map<string, UserFile>, name: string, conflicts: seq<string>)
    requires name in users
    ensures UL.AccountRefusal(WithBan(users, name, true)[name], conflicts).Some?
    ensures UL.AccountRefusal(WithAdmin(users, name, true)[name], conflicts) != Some(WrongMods)
    ensures UL.AccountRefusal(WithBan(users, name, false)[name], conflicts).Some? ==>
      |conflicts| > 0 && !users[name].isAdmin
  {
  }

  /** int.ToString of an event index (always a single digit here). */
  function DigitString(i: nat): (s: string)
    requires i < 10
    ensures |s| == 1 && '0' <= s[0] <= '9' && s[0] as int - '0' as int == i
  {
    [('0' as int + i) as char]
  }

  /** CommandManager.SendEventCommand: the event as Receive, carrying its index. */
  function EventCommand(i: nat): Packet
    requires i < |EventTypes|
  {
    EventPacket(EventDetails(EventReceive, "", "", DigitString(i)))
  }

  /** No two event names are equal, so an index names one event. */
  lemma EventTypesDistinct()
    ensures Distinct(EventTypes)
  {
  }

  /** The for loop over eventTypes: the index of the first (only) entry equal
    * to the name, or |EventTypes| when there is none. */
  method FindEventIndex(name: string) returns (i: nat)
    ensures i <= |EventTypes|
    ensures i < |EventTypes| <==> name in EventTypes
    ensures i < |EventTypes| ==> EventTypes[i] == name
    ensures i == IndexOf(EventTypes, name)
  {
    i := 0;
    while i < |EventTypes|
      invariant 0 <= i <= |EventTypes|
      invariant forall j :: 0 <= j < i ==> EventTypes[j] != name
    {
      if EventTypes[i] == name {
        IndexOfUnique(EventTypes, name, i);
        return;
      }
      i := i + 1;
    }
  }

  /** The static field commandParameters, set by every parsed line and read
    * by the actions. */
  class ServerCommandManager {
    var commandParameters: seq<string>

    /** Before the first line the field holds nothing. */
    constructor ()
      ensures commandParameters == []
    {
      commandParameters := [];
    }

    /** Op: a connected session that is not yet an admin becomes one, and so
      * does its record; the session is told with an Op command. An unknown
      * name or an admin already changes nothing. A session without a record
      * keeps the flag it was given but gets no command. */
    method OpCommandAction(srv: Server)
      requires |commandParameters| >= 1
      modifies srv`users, srv`outbox, srv.clients`isAdmin
      ensures var name := commandParameters[0];
        var target := old(FindClient(srv.clients, name));
        if target == null || old(target.isAdmin) then
          srv.users == old(srv.users) && srv.outbox == old(srv.outbox) &&
          forall c :: c in srv.clients ==> c.isAdmin == old(c.isAdmin)
        else
          (forall c :: c in srv.clients ==> c.isAdmin == (old(c.isAdmin) || c == target)) &&
          srv.users == WithAdmin(old(srv.users), name, true) &&
          srv.outbox == old(srv.outbox) +
            (if name in old(srv.users) then [Envelope(target, CommandPacket(OpCommand, ""))] else [])
    {
      var name := commandParameters[0];
      var target := FindClient(srv.clients, name);
      if target == null || target.isAdmin {
        return;
      }
      target.isAdmin := true;
      if target.username in srv.users {
        srv.users := WithAdmin(srv.users, name, true);
        SendData(srv, target, CommandPacket(OpCommand, ""));
      }
    }

    /** Deop: the mirror image of Op, for a session that is an admin. */
    method DeopCommandAction(srv: Server)
      requires |commandParameters| >= 1
      modifies srv`users, srv`outbox, srv.clients`isAdmin
      ensures var name := commandParameters[0];
        var target := old(FindClient(srv.clients, name));
        if target == null || !old(target.isAdmin) then
          srv.users == old(srv.users) && srv.outbox == old(srv.outbox) &&
          forall c :: c in srv.clients ==> c.isAdmin == old(c.isAdmin)
        else
          (forall c :: c in srv.clients ==> c.isAdmin == (old(c.isAdmin) && c != target)) &&
          srv.users == WithAdmin(old(srv.users), name, false) &&
          srv.outbox == old(srv.outbox) +
            (if name in old(srv.users) then [Envelope(target, CommandPacket(DeopCommand, ""))] else [])
    {
      var name := commandParameters[0];
      var target := FindClient(srv.clients, name);
      if target == null || !target.isAdmin {
        return;
      }
      target.isAdmin := false;
      if target.username in srv.users {
        srv.users := WithAdmin(srv.users, name, false);
        SendData(srv, target, CommandPacket(DeopCommand, ""));
      }
    }

    /** Kick: the named session is marked for disconnection. */
    method KickCommandAction(srv: Server)
      requires |commandParameters| >= 1
      modifies srv.clients`disconnectFlag
      ensures var target := FindClient(srv.clients, commandParameters[0]);
        forall c :: c in srv.clients ==> c.disconnectFlag == (old(c.disconnectFlag) || c == target)
    {
      var target := FindClient(srv.clients, commandParameters[0]);
      if target != null {
        target.disconnectFlag := true;
      }
    }

    /** Ban. An offline player's record is banned unless it already is; an
      * online player is sent the Ban command, marked for disconnection and
      * its record banned, without the already-banned check. */
    method BanCommandAction(srv: Server)
      requires |commandParameters| >= 1
      modifies srv`users, srv`outbox, srv.clients`disconnectFlag
      ensures var name := commandParameters[0];
        var target := FindClient(srv.clients, name);
        if target == null then
          srv.outbox == old(srv.outbox) &&
          (forall c :: c in srv.clients ==> c.disconnectFlag == old(c.disconnectFlag)) &&
          srv.users == (if name in old(srv.users) && !old(srv.users)[name].isBanned
                        then WithBan(old(srv.users), name, true) else old(srv.users))
        else
          srv.outbox == old(srv.outbox) + [Envelope(target, CommandPacket(BanCommand, ""))] &&
          (forall c :: c in srv.clients ==> c.disconnectFlag == (old(c.disconnectFlag) || c == target)) &&
          srv.users == WithBan(old(srv.users), name, true)
      ensures var name := commandParameters[0];
        name in srv.users ==> srv.users[name].isBanned
    {
      var name := commandParameters[0];
      var target := FindClient(srv.clients, name);
      if target == null {
        if name in srv.users && !srv.users[name].isBanned {
          srv.users := WithBan(srv.users, name, true);
        }
        return;
      }
      SendData(srv, target, CommandPacket(BanCommand, ""));
      target.disconnectFlag := true;
      srv.users := WithBan(srv.users, name, true);
    }

    /** Pardon: a banned record is unbanned; anything else changes nothing. */
    method PardonCommandAction(srv: Server)
      requires |commandParameters| >= 1
      modifies srv`users
      ensures var name := commandParameters[0];
        srv.users == (if name in old(srv.users) && old(srv.users)[name].isBanned
                      then WithBan(old(srv.users), name, false) else old(srv.users))
      ensures var name := commandParameters[0];
        name in srv.users ==> !srv.users[name].isBanned
    {
      var name := commandParameters[0];
      if name in srv.users && srv.users[name].isBanned {
        srv.users := WithBan(srv.users, name, false);
      }
    }

    /** Event: the named session gets the event whose name is the second
      * parameter, as its index. An unknown session or event sends nothing,
      * and so does a line whose parameters lost a piece to the prefix
      * removal (reading the missing second parameter fails). */
    method EventCommandAction(srv: Server)
      requires |commandParameters| >= 1
      modifies srv`outbox
      ensures var target := old(FindClient(srv.clients, commandParameters[0]));
        if target != null && |commandParameters| >= 2 && commandParameters[1] in EventTypes then
          srv.outbox == old(srv.outbox) + [Envelope(target, EventCommand(IndexOf(EventTypes, commandParameters[1])))]
        else srv.outbox == old(srv.outbox)
    {
      var target := FindClient(srv.clients, commandParameters[0]);
      if target == null || |commandParameters| < 2 {
        return;
      }
      var i := FindEventIndex(commandParameters[1]);
      if i < |EventTypes| {
        SendData(srv, target, EventCommand(i));
      }
    }

    /** EventAll: every session gets the named event; an unknown event sends nothing. */
    method EventAllCommandAction(srv: Server)
      requires |commandParameters| >= 1
      modifies srv`outbox
      ensures if commandParameters[0] in EventTypes then
          srv.outbox == old(srv.outbox) + Notify(srv.clients, EventCommand(IndexOf(EventTypes, commandParameters[0])))
        else srv.outbox == old(srv.outbox)
    {
      var i := FindEventIndex(commandParameters[0]);
      if i < |EventTypes| {
        SendToEach(srv, srv.clients, EventCommand(i));
      }
    }

    /** Broadcast: the parameters, each followed by a space, with the last
      * space dropped, go to every session as a Broadcast command. */
    method BroadcastCommandAction(srv: Server)
      requires |commandParameters| >= 1
      modifies srv`outbox
      ensures srv.outbox == old(srv.outbox) + Notify(srv.clients, CommandPacket(BroadcastCommand, Join(commandParameters, ' ')))
    {
      var ps := commandParameters;
      var fullText := "";
      var i := 0;
      while i < |ps|
        invariant 0 <= i <= |ps|
        invariant fullText == Spaced(ps[..i])
      {
        assert ps[..i + 1][..i] == ps[..i];
        fullText := fullText + ps[i] + " ";
        i := i + 1;
      }
      assert ps[..i] == ps;
      SpacedJoin(ps);
      fullText := fullText[..|fullText| - 1];
      SendToEach(srv, srv.clients, CommandPacket(BroadcastCommand, fullText));
    }

    /** WhitelistAdd: a registered name not yet listed is appended. */
    method WhitelistAddCommandAction(srv: Server, wl: WhitelistFile)
      requires |commandParameters| >= 1
      modifies wl`whitelistedUsers
      ensures var name := commandParameters[0];
        wl.whitelistedUsers == if name in srv.users && name !in old(wl.whitelistedUsers)
          then old(wl.whitelistedUsers) + [name] else old(wl.whitelistedUsers)
      ensures commandParameters[0] in srv.users ==> commandParameters[0] in wl.whitelistedUsers
    {
      var name := commandParameters[0];
      if name in srv.users && name !in wl.whitelistedUsers {
        AddUserToWhitelist(wl, name);
      }
    }

    /** WhitelistRemove: a registered name that is listed is removed (its first entry). */
    method WhitelistRemoveCommandAction(srv: Server, wl: WhitelistFile)
      requires |commandParameters| >= 1
      modifies wl`whitelistedUsers
      ensures var name := commandParameters[0];
        wl.whitelistedUsers == if name in srv.users && name in old(wl.whitelistedUsers)
          then RemoveFirst(old(wl.whitelistedUsers), name) else old(wl.whitelistedUsers)
    {
      var name := commandParameters[0];
      if name in srv.users && name in wl.whitelistedUsers {
        RemoveUserFromWhitelist(wl, name);
      }
    }

    /** ForceSave: the named session is told to save. */
    method ForceSaveCommandAction(srv: Server)
      requires |commandParameters| >= 1
      modifies srv`outbox
      ensures var target := FindClient(srv.clients, commandParameters[0]);
        srv.outbox == old(srv.outbox) + (if target != null then [Envelope(target, CommandPacket(ForceSaveCommand, ""))] else [])
    {
      var target := FindClient(srv.clients, commandParameters[0]);
      if target != null {
        SendData(srv, target, CommandPacket(ForceSaveCommand, ""));
      }
    }

    /** DeletePlayer: a registered player's save, settlements, their maps and
      * personal sites are deleted and an online session is disconnected;
      * the user record itself stays. */
    method DeletePlayerCommandAction(srv: Server, settlementListing: seq<string>, siteListing: seq<string>)
      requires |commandParameters| >= 1
      requires Distinct(settlementListing) && MapsKeyed(srv.maps)
      modifies srv`saves, srv`maps, srv`sites, srv`settlements, srv`outbox, srv.clients`disconnectFlag
      ensures var name := commandParameters[0];
        name !in srv.users ==>
          srv.saves == old(srv.saves) && srv.maps == old(srv.maps) && srv.sites == old(srv.sites) &&
          srv.settlements == old(srv.settlements) && srv.outbox == old(srv.outbox) &&
          forall c :: c in srv.clients ==> c.disconnectFlag == old(c.disconnectFlag)
      ensures var name := commandParameters[0];
        var owned := OwnedSettlements(settlementListing, old(srv.settlements), name);
        name in srv.users ==>
          srv.saves == old(srv.saves) - {name} &&
          srv.settlements == WithoutKeys(old(srv.settlements), owned) &&
          srv.maps == WithoutKeys(old(srv.maps), owned) &&
          srv.sites == WithoutKeys(old(srv.sites), PersonalSites(siteListing, old(srv.sites), name)) &&
          srv.outbox == old(srv.outbox) + DestroyNotices(PersonalSites(siteListing, old(srv.sites), name), srv.clients)
      ensures var name := commandParameters[0];
        var target := old(FindClient(srv.clients, name));
        name in srv.users ==>
          forall c :: c in srv.clients ==> c.disconnectFlag == (old(c.disconnectFlag) || c == target)
    {
      var name := commandParameters[0];
      if name in srv.users {
        DeletePlayerDetails(srv, name, settlementListing, siteListing);
      }
    }

    /** ParseServerCommands: the parameters are stored, then the command the
      * line names runs, if any. Lines that run nothing change nothing else. */
    method ParseServerCommands(srv: Server, wl: WhitelistFile, line: string,
                               settlementListing: seq<string>, siteListing: seq<string>)
      requires Distinct(settlementListing) && MapsKeyed(srv.maps)
      modifies this`commandParameters, srv`users, srv`outbox, srv`saves, srv`maps, srv`sites,
        srv`settlements, srv`isClosing, srv`useCustomDifficulty,
        srv.clients`isAdmin, srv.clients`disconnectFlag, wl`whitelistedUsers, wl`useWhitelist
      ensures commandParameters == ParseLine(line).parameters
      ensures Dispatch(line).None? ==> unchanged(srv, wl)
      ensures Dispatch(line).None? ==>
        forall c :: c in srv.clients ==> c.isAdmin == old(c.isAdmin) && c.disconnectFlag == old(c.disconnectFlag)
    {
      commandParameters := ParseLine(line).parameters;
      var action := Dispatch(line);
      if action.Some? {
        RunAction(srv, wl, action.value, settlementListing, siteListing);
      }
    }

    /** Runs one action. Actions that only write to the console, Reload
      * (a reload of every resource file) and ForceQuit (process exit) change
      * nothing in the model. */
    method RunAction(srv: Server, wl: WhitelistFile, action: CommandAction,
                     settlementListing: seq<string>, siteListing: seq<string>)
      requires |commandParameters| >= 1
      requires Distinct(settlementListing) && MapsKeyed(srv.maps)
      modifies srv`users, srv`outbox, srv`saves, srv`maps, srv`sites,
        srv`settlements, srv`isClosing, srv`useCustomDifficulty,
        srv.clients`isAdmin, srv.clients`disconnectFlag, wl`whitelistedUsers, wl`useWhitelist
      ensures action == QuitAction ==> srv.isClosing
      ensures action == EnableDifficultyAction ==> srv.useCustomDifficulty
      ensures action == DisableDifficultyAction ==> !srv.useCustomDifficulty
      ensures action == WhitelistToggleAction ==> wl.useWhitelist == !old(wl.useWhitelist)
    {
      match action
      case OpAction => OpCommandAction(srv);
      case DeopAction => DeopCommandAction(srv);
      case KickAction => KickCommandAction(srv);
      case BanAction => BanCommandAction(srv);
      case PardonAction => PardonCommandAction(srv);
      case EventAction => EventCommandAction(srv);
      case EventAllAction => EventAllCommandAction(srv);
      case BroadcastAction => BroadcastCommandAction(srv);
      case WhitelistAddAction => WhitelistAddCommandAction(srv, wl);
      case WhitelistRemoveAction => WhitelistRemoveCommandAction(srv, wl);
      case WhitelistToggleAction => ToggleWhitelist(wl);
      case ForceSaveAction => ForceSaveCommandAction(srv);
      case DeletePlayerAction => DeletePlayerCommandAction(srv, settlementListing, siteListing);
      case EnableDifficultyAction => EnableDifficultyCommandAction(srv);
      case DisableDifficultyAction => DisableDifficultyCommandAction(srv);
      case QuitAction => QuitCommandAction(srv);
      case _ =>
    }
  }

  /** EnableDifficulty: turns custom difficulty on (a no-op when it already is). */
  method EnableDifficultyCommandAction(srv: Server)
    modifies srv`useCustomDifficulty
    ensures srv.useCustomDifficulty
  {
    if !srv.useCustomDifficulty {
      srv.useCustomDifficulty := true;
    }
  }

  /** DisableDifficulty: turns custom difficulty off (a no-op when it already is). */
  method DisableDifficultyCommandAction(srv: Server)
    modifies srv`useCustomDifficulty
    ensures !srv.useCustomDifficulty
  {
    if srv.useCustomDifficulty {
      srv.useCustomDifficulty := false;
    }
  }

  /** Quit: the server starts closing and every session is told to save.
    * Waiting for the registry to empty and stopping the host are not modelled. */
  method QuitCommandAction(srv: Server)
    modifies srv`isClosing, srv`outbox
    ensures srv.isClosing
    ensures srv.outbox == old(srv.outbox) + Notify(srv.clients, CommandPacket(ForceSaveCommand, ""))
  {
    srv.isClosing := true;
    SendToEach(srv, srv.clients, CommandPacket(ForceSaveCommand, ""));
  }
}
