/*
 * ChatManager: relays players' chat lines to everybody, sends console
 * messages, and runs the four chat commands (/help, /ping, /dc, /sv).
 */
module ChatManager {
  import opened Lists
  import opened Records
  import opened Text
  import opened Packets
  import opened ServerState
  import opened VisitManager

  const ConsoleName := "CONSOLE"

  const DefaultJoinMessages: seq<string> := [
    "Welcome to the global chat!",
    "Please be considerate with others and have fun!",
    "Use '/help' to check available commands"]

  /** n copies of one colour code. */
  function Repeat(color: string, n: nat): (r: seq<string>)
    ensures |r| == n
    ensures forall i :: 0 <= i < n ==> r[i] == color
  {
    seq(n, _ => color)
  }

  /** The chat lines a console message carries: one entry per message in
    * each of the four parallel lists, all from CONSOLE in the Console colour. */
  function ConsoleMessages(messages: seq<string>): (c: ChatMessages)
    ensures c.messages == messages
    ensures |c.usernames| == |c.userColors| == |c.messageColors| == |messages|
    ensures forall i :: 0 <= i < |messages| ==>
      c.usernames[i] == ConsoleName && c.userColors[i] == ColorConsole && c.messageColors[i] == ColorConsole
  {
    ChatMessages(Repeat(ConsoleName, |messages|), messages, Repeat(ColorConsole, |messages|), Repeat(ColorConsole, |messages|))
  }

  /** SendMessagesToClient: the four lists are filled line by line and sent
    * to the one client. */
  method SendMessagesToClient(srv: Server, client: Client, messages: seq<string>)
    modifies srv`outbox
    ensures srv.outbox == old(srv.outbox) + [Envelope(client, ChatPacket(ConsoleMessages(messages)))]
  {
    var usernames, lines, userColors, messageColors := [], [], [], [];
    var i := 0;
    while i < |messages|
      invariant 0 <= i <= |messages|
      invariant usernames == Repeat(ConsoleName, i) && lines == messages[..i]
      invariant userColors == Repeat(ColorConsole, i) && messageColors == Repeat(ColorConsole, i)
    {
      usernames := usernames + [ConsoleName];
      lines := lines + [messages[i]];
      userColors := userColors + [ColorConsole];
      messageColors := messageColors + [ColorConsole];
      i := i + 1;
    }
    assert lines == messages;
    SendData(srv, client, ChatPacket(ChatMessages(usernames, lines, userColors, messageColors)));
  }

  /** BroadcastServerMessages: one console line to every session. */
  method BroadcastServerMessages(srv: Server, message: string)
    modifies srv`outbox
    ensures srv.outbox == old(srv.outbox) + Notify(srv.clients, ChatPacket(ConsoleMessages([message])))
  {
    var chat := ChatMessages([ConsoleName], [message], [ColorConsole], [ColorConsole]);
    assert chat == ConsoleMessages([message]);
    SendToEach(srv, srv.clients, ChatPacket(chat));
  }

  /** The colour of a player's lines: Admin for an admin, Normal otherwise. */
  function ColorOf(isAdmin: bool): string
  {
    if isAdmin then ColorAdmin else ColorNormal
  }

  /** The packet's lines with one user colour and one message colour
    * appended per message. */
  function Colored(chat: ChatMessages, isAdmin: bool): (r: ChatMessages)
    ensures r.usernames == chat.usernames && r.messages == chat.messages
    ensures |r.userColors| == |chat.userColors| + |chat.messages|
    ensures |r.messageColors| == |chat.messageColors| + |chat.messages|
    ensures r.userColors[..|chat.userColors|] == chat.userColors
    ensures r.messageColors[..|chat.messageColors|] == chat.messageColors
    ensures forall i :: |chat.userColors| <= i < |r.userColors| ==> r.userColors[i] == ColorOf(isAdmin)
    ensures forall i :: |chat.messageColors| <= i < |r.messageColors| ==> r.messageColors[i] == ColorOf(isAdmin)
  {
    chat.(userColors := chat.userColors + Repeat(ColorOf(isAdmin), |chat.messages|),
          messageColors := chat.messageColors + Repeat(ColorOf(isAdmin), |chat.messages|))
  }

  /** BroadcastClientMessages: the colours are appended message by message
    * and the packet goes to every session, the sender included. */
  method BroadcastClientMessages(srv: Server, client: Client, chat: ChatMessages)
    modifies srv`outbox
    ensures srv.outbox == old(srv.outbox) + Notify(srv.clients, ChatPacket(Colored(chat, client.isAdmin)))
  {
    var userColors, messageColors := chat.userColors, chat.messageColors;
    var i := 0;
    while i < |chat.messages|
      invariant 0 <= i <= |chat.messages|
      invariant userColors == chat.userColors + Repeat(ColorOf(client.isAdmin), i)
      invariant messageColors == chat.messageColors + Repeat(ColorOf(client.isAdmin), i)
    {
      if client.isAdmin {
        userColors := userColors + [ColorAdmin];
        messageColors := messageColors + [ColorAdmin];
      } else {
        userColors := userColors + [ColorNormal];
        messageColors := messageColors + [ColorNormal];
      }
      i := i + 1;
    }
    SendToEach(srv, srv.clients, ChatPacket(chat.(userColors := userColors, messageColors := messageColors)));
  }

  datatype ChatAction = Help | Ping | DisconnectSelf | StopVisit

  /** A chat command's table entry. */
  datatype ChatCommand = ChatCommand(prefix: string, parameters: int, description: string, action: ChatAction)

  const ChatCommands: seq<ChatCommand> := [
    ChatCommand("/help", 0, "Shows a list of all available commands", Help),
    ChatCommand("/ping", 0, "Checks if the connection to the server is working", Ping),
    ChatCommand("/dc", 0, "Forcefully disconnects you from the server", DisconnectSelf),
    ChatCommand("/sv", 0, "Forcefully disconnects you from a visit", StopVisit)]

  /** The first command whose prefix is exactly the given text. */
  function FindChatCommand(commands: seq<ChatCommand>, text: string): Option<ChatCommand>
    decreases |commands|
  {
    if |commands| == 0 then None
    else if commands[0].prefix == text then Some(commands[0])
    else FindChatCommand(commands[1..], text)
  }

  /** The search finds a command exactly when some prefix equals the text,
    * and what it finds is such a command. */
  lemma {:induction false} FindChatCommandSound(commands: seq<ChatCommand>, text: string)
    ensures FindChatCommand(commands, text).None? <==> forall i :: 0 <= i < |commands| ==> commands[i].prefix != text
    ensures FindChatCommand(commands, text).Some? ==>
      FindChatCommand(commands, text).value in commands && FindChatCommand(commands, text).value.prefix == text
    decreases |commands|
  {
    if |commands| > 0 && commands[0].prefix != text {
      FindChatCommandSound(commands[1..], text);
      if FindChatCommand(commands, text).None? {
        forall i | 0 <= i < |commands|
          ensures commands[i].prefix != text
        {
          if i > 0 {
            assert commands[i] == commands[1..][i - 1];
          }
        }
      } else {
        assert forall c :: c in commands[1..] ==> c in commands;
      }
      if forall i :: 0 <= i < |commands| ==> commands[i].prefix != text {
        forall i | 0 <= i < |commands| - 1
          ensures commands[1..][i].prefix != text
        {
          assert commands[1..][i] == commands[i + 1];
        }
      }
    }
  }

  /** The four prefixes are distinct, so each finds its own command. */
  lemma ChatCommandsFound()
    ensures FindChatCommand(ChatCommands, "/help") == Some(ChatCommands[0])
    ensures FindChatCommand(ChatCommands, "/ping") == Some(ChatCommands[1])
    ensures FindChatCommand(ChatCommands, "/dc") == Some(ChatCommands[2])
    ensures FindChatCommand(ChatCommands, "/sv") == Some(ChatCommands[3])
  {
  }

  /** The action of the command named exactly by the text, if any. */
  function ActionOf(text: string): Option<ChatAction>
  {
    var found := FindChatCommand(ChatCommands, text);
    if found.Some? then Some(found.value.action) else None
  }

  /** "List of available commands: " followed by "<prefix> - <description>" per command. */
  function HelpLines(commands: seq<ChatCommand>): (r: seq<string>)
    ensures |r| == |commands| + 1 && r[0] == "List of available commands: "
    ensures forall i :: 0 <= i < |commands| ==> r[i + 1] == commands[i].prefix + " - " + commands[i].description
  {
    ["List of available commands: "] + seq(|commands|, i requires 0 <= i < |commands| => commands[i].prefix + " - " + commands[i].description)
  }

  /** The visit Stop a /sv sends. */
  const StopDetails := VisitDetails(VisitStop, "", "", "", "")

  /** What SendVisitStop sends: to the invoker, and to its partner if any. */
  function StopEnvelopes(client: Client, peer: Client?): seq<Envelope>
  {
    if peer == null then [Envelope(client, VisitPacket(StopDetails))]
    else [Envelope(client, VisitPacket(StopDetails)), Envelope(peer, VisitPacket(StopDetails))]
  }

  /** What running the chat command `text` sends. */
  function CommandEnvelopes(text: string, client: Client, peer: Client?): seq<Envelope>
  {
    match FindChatCommand(ChatCommands, text)
    case None => [Envelope(client, ChatPacket(ConsoleMessages(["Command was not found"])))]
    case Some(c) =>
      match c.action
      case Help => [Envelope(client, ChatPacket(ConsoleMessages(HelpLines(ChatCommands))))]
      case Ping => [Envelope(client, ChatPacket(ConsoleMessages(["Pong!"])))]
      case DisconnectSelf => []
      case StopVisit => StopEnvelopes(client, peer)
  }

  /** The commands other than /sv: a chat reply to the invoker, or for /dc
    * the invoker's disconnect flag. */
  method RunMessageCommand(srv: Server, client: Client, text: string, found: Option<ChatCommand>)
    requires found == FindChatCommand(ChatCommands, text)
    requires found.None? || found.value.action != StopVisit
    modifies srv`outbox, client`disconnectFlag
    ensures srv.outbox == old(srv.outbox) + CommandEnvelopes(text, client, null)
    ensures client.disconnectFlag == (old(client.disconnectFlag) || ActionOf(text) == Some(DisconnectSelf))
  {
    if found.None? {
      SendMessagesToClient(srv, client, ["Command was not found"]);
    } else if found.value.action == Help {
      SendMessagesToClient(srv, client, HelpLines(ChatCommands));
    } else if found.value.action == Ping {
      SendMessagesToClient(srv, client, ["Pong!"]);
    } else {
      client.disconnectFlag := true;
    }
  }

  /** ExecuteCommand: the command named exactly by `text` runs for the
    * invoker; an unknown one only tells the invoker so. Only /dc flags the
    * invoker and only /sv ends its visit. */
  method ExecuteCommand(srv: Server, client: Client, text: string)
    modifies srv`outbox, client`disconnectFlag, client`inVisitWith
    modifies (if client.inVisitWith == null then {} else {client.inVisitWith})`inVisitWith
    ensures srv.outbox == old(srv.outbox) + CommandEnvelopes(text, client, old(client.inVisitWith))
    ensures client.disconnectFlag == (old(client.disconnectFlag) || ActionOf(text) == Some(DisconnectSelf))
    ensures ActionOf(text) == Some(StopVisit) ==>
      client.inVisitWith == null && (old(client.inVisitWith) != null ==> old(client.inVisitWith).inVisitWith == null)
    ensures ActionOf(text) != Some(StopVisit) ==>
      client.inVisitWith == old(client.inVisitWith) &&
      (client.inVisitWith != null ==> client.inVisitWith.inVisitWith == old(client.inVisitWith.inVisitWith))
    ensures old(Symmetric(srv.clients)) && client in srv.clients ==> Symmetric(srv.clients)
  {
    var found := FindChatCommand(ChatCommands, text);
    if found.Some? && found.value.action == StopVisit {
      SendVisitStop(srv, client, StopDetails);
    } else {
      RunMessageCommand(srv, client, text, found);
    }
  }

  /** Whether a chat line starts with "/" (`StartsWith("/")`). */
  predicate IsCommand(line: string)
  {
    |line| > 0 && line[0] == '/'
  }

  /** Whether some line of the packet starts with "/". */
  predicate AnyCommand(lines: seq<string>, n: nat)
    requires n <= |lines|
  {
    n > 0 && (AnyCommand(lines, n - 1) || IsCommand(lines[n - 1]))
  }

  /** The invoker's partner once the given lines have been handled: when
    * the command is /sv (`stops`), any line starting with "/" has ended
    * the visit. */
  function PeerAfter(lines: seq<string>, n: nat, stops: bool, peer: Client?): Client?
    requires n <= |lines|
  {
    if stops && AnyCommand(lines, n) then null else peer
  }

  /** What handling one line sends: a line starting with "/" runs the
    * command (`alone` once the visit has been `stopped`, `paired` before),
    * any other line broadcasts the packet (`plain`). */
  function LineEnvelopes(line: string, stopped: bool, paired: seq<Envelope>, alone: seq<Envelope>, plain: seq<Envelope>): seq<Envelope>
  {
    if IsCommand(line) then (if stopped then alone else paired) else plain
  }

  /** Everything ParseClientMessages sends for the given lines, line by line. */
  function Trace(lines: seq<string>, n: nat, stops: bool, paired: seq<Envelope>, alone: seq<Envelope>, plain: seq<Envelope>): seq<Envelope>
    requires n <= |lines|
  {
    if n == 0 then []
    else Trace(lines, n - 1, stops, paired, alone, plain) + LineEnvelopes(lines[n - 1], stops && AnyCommand(lines, n - 1), paired, alone, plain)
  }

  /** One iteration of ParseClientMessages: a line starting with "/" runs
    * the command named by the packet's first line, any other line
    * broadcasts the packet. */
  method HandleLine(srv: Server, client: Client, chat: ChatMessages, text: string, line: string)
    modifies srv`outbox, client`disconnectFlag, client`inVisitWith
    modifies (if client.inVisitWith == null then {} else {client.inVisitWith})`inVisitWith
    ensures srv.outbox == old(srv.outbox) +
      (if IsCommand(line) then CommandEnvelopes(text, client, old(client.inVisitWith))
       else Notify(srv.clients, ChatPacket(Colored(chat, client.isAdmin))))
    ensures client.disconnectFlag == (old(client.disconnectFlag) || (IsCommand(line) && ActionOf(text) == Some(DisconnectSelf)))
    ensures client.inVisitWith == (if IsCommand(line) && ActionOf(text) == Some(StopVisit) then null else old(client.inVisitWith))
    ensures old(client.inVisitWith) != null ==>
      old(client.inVisitWith).inVisitWith ==
      (if IsCommand(line) && ActionOf(text) == Some(StopVisit) then null else old(client.inVisitWith.inVisitWith))
  {
    if IsCommand(line) {
      ExecuteCommand(srv, client, text);
    } else {
      BroadcastClientMessages(srv, client, chat);
    }
  }

  /** The state of ParseClientMessages after the first `n` lines, starting
    * from an outbox `base`, a disconnect flag `flag0` and a pairing of the
    * invoker with `peer`, itself paired with `partner`. */
  ghost predicate Progress(srv: Server, client: Client, chat: ChatMessages, text: string, n: nat,
                           base: seq<Envelope>, flag0: bool, peer: Client?, partner: Client?)
    requires n <= |chat.messages|
    reads srv, client, peer
  {
    var stops := ActionOf(text) == Some(StopVisit);
    && srv.outbox == base + Trace(chat.messages, n, stops, CommandEnvelopes(text, client, peer),
         CommandEnvelopes(text, client, null), Notify(srv.clients, ChatPacket(Colored(chat, client.isAdmin))))
    && client.disconnectFlag == (flag0 || (ActionOf(text) == Some(DisconnectSelf) && AnyCommand(chat.messages, n)))
    && client.inVisitWith == PeerAfter(chat.messages, n, stops, peer)
    && (peer != null ==> peer.inVisitWith == (if client.inVisitWith == null then null else partner))
  }

  /** Handling line `n` carries the state of ParseClientMessages from the
    * first `n` lines to the first `n + 1`. */
  method HandleNextLine(srv: Server, client: Client, chat: ChatMessages, text: string, n: nat,
                        ghost base: seq<Envelope>, ghost flag0: bool, ghost peer: Client?, ghost partner: Client?)
    requires n < |chat.messages|
    requires Progress(srv, client, chat, text, n, base, flag0, peer, partner)
    modifies srv`outbox, client`disconnectFlag, client`inVisitWith
    modifies (if client.inVisitWith == null then {} else {client.inVisitWith})`inVisitWith
    ensures Progress(srv, client, chat, text, n + 1, base, flag0, peer, partner)
  {
    ghost var stops := ActionOf(text) == Some(StopVisit);
    ghost var paired := CommandEnvelopes(text, client, peer);
    ghost var alone := CommandEnvelopes(text, client, null);
    ghost var plain := Notify(srv.clients, ChatPacket(Colored(chat, client.isAdmin)));
    ghost var sent := Trace(chat.messages, n, stops, paired, alone, plain);
    ghost var step := LineEnvelopes(chat.messages[n], stops && AnyCommand(chat.messages, n), paired, alone, plain);
    HandleLine(srv, client, chat, text, chat.messages[n]);
    AppendAssociates(base, sent, step);
  }

  /** `n` copies of a broadcast, one after the other. */
  function Copies(es: seq<Envelope>, n: nat): (r: seq<Envelope>)
    ensures |r| == n * |es|
  {
    if n == 0 then [] else Copies(es, n - 1) + es
  }

  /** A packet of plain lines (none starting with "/") is broadcast once per line. */
  lemma {:induction false} PlainLinesBroadcast(lines: seq<string>, n: nat, stops: bool, paired: seq<Envelope>, alone: seq<Envelope>, plain: seq<Envelope>)
    requires n <= |lines|
    requires forall i :: 0 <= i < n ==> !IsCommand(lines[i])
    ensures !AnyCommand(lines, n)
    ensures Trace(lines, n, stops, paired, alone, plain) == Copies(plain, n)
  {
    if n > 0 {
      PlainLinesBroadcast(lines, n - 1, stops, paired, alone, plain);
    }
  }

  /** Before the first line nothing has been sent and nothing has changed. */
  lemma ProgressStart(srv: Server, client: Client, chat: ChatMessages, text: string, peer: Client?, partner: Client?)
    requires client.inVisitWith == peer && (peer != null ==> peer.inVisitWith == partner)
    ensures Progress(srv, client, chat, text, 0, srv.outbox, client.disconnectFlag, peer, partner)
  {
  }

  /** The loop of ParseClientMessages over the packet's lines. The partner
    * of the invoker loses the pairing exactly when the invoker does. */
  method HandleLines(srv: Server, client: Client, chat: ChatMessages, text: string)
    modifies srv`outbox, client`disconnectFlag, client`inVisitWith
    modifies (if client.inVisitWith == null then {} else {client.inVisitWith})`inVisitWith
    ensures Progress(srv, client, chat, text, |chat.messages|, old(srv.outbox), old(client.disconnectFlag),
      old(client.inVisitWith), if old(client.inVisitWith) == null then null else old(client.inVisitWith.inVisitWith))
  {
    ghost var peer := client.inVisitWith;
    ghost var partner := if peer == null then null else peer.inVisitWith;
    ProgressStart(srv, client, chat, text, peer, partner);
    var i := 0;
    while i < |chat.messages|
      invariant 0 <= i <= |chat.messages|
      invariant Progress(srv, client, chat, text, i, old(srv.outbox), old(client.disconnectFlag), peer, partner)
    {
      HandleNextLine(srv, client, chat, text, i, old(srv.outbox), old(client.disconnectFlag), peer, partner);
      i := i + 1;
    }
  }

  /** ParseClientMessages: each line of the packet is handled in turn; the
    * command text is the packet's first line. Pairings stay symmetric. */
  method ParseClientMessages(srv: Server, client: Client, chat: ChatMessages)
    modifies srv`outbox, client`disconnectFlag, client`inVisitWith
    modifies (if client.inVisitWith == null then {} else {client.inVisitWith})`inVisitWith
    ensures var text := if |chat.messages| > 0 then chat.messages[0] else "";
      srv.outbox == old(srv.outbox) + Trace(chat.messages, |chat.messages|, ActionOf(text) == Some(StopVisit),
        CommandEnvelopes(text, client, old(client.inVisitWith)), CommandEnvelopes(text, client, null),
        Notify(srv.clients, ChatPacket(Colored(chat, client.isAdmin))))
    ensures var text := if |chat.messages| > 0 then chat.messages[0] else "";
      client.disconnectFlag == (old(client.disconnectFlag) || (ActionOf(text) == Some(DisconnectSelf) && AnyCommand(chat.messages, |chat.messages|)))
    ensures var text := if |chat.messages| > 0 then chat.messages[0] else "";
      client.inVisitWith == PeerAfter(chat.messages, |chat.messages|, ActionOf(text) == Some(StopVisit), old(client.inVisitWith))
    ensures old(Symmetric(srv.clients)) && client in srv.clients ==> Symmetric(srv.clients)
  {
    var text := if |chat.messages| > 0 then chat.messages[0] else "";
    HandleLines(srv, client, chat, text);
    ghost var peer := old(client.inVisitWith);
    if old(Symmetric(srv.clients)) && client in srv.clients {
      // only the invoker and its former peer change pairing, and together
      forall c | c in srv.clients && c.inVisitWith != null
        ensures c.inVisitWith in srv.clients && c.inVisitWith.inVisitWith == c
      {
        if c == client {
          assert peer != null && old(peer.inVisitWith) == client;
        } else if c == peer {
          assert old(peer.inVisitWith) == client;
        } else {
          var d := c.inVisitWith;
          assert old(d.inVisitWith) == c;
          assert d != client && d != peer;
        }
      }
    }
  }
}
