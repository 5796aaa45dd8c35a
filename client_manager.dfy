/*
 * ClientManager: the registry of connected sessions (Server.clients).
 */
module ClientManager {
  import opened Lists
  import opened ServerState

  /** The number of connected sessions. */
  function ClientCount(srv: Server): nat
    reads srv`clients
  {
    |srv.clients|
  }

  /** A session joins the end of the registry. */
  method AddClient(srv: Server, client: Client)
    modifies srv`clients
    ensures srv.clients == old(srv.clients) + [client]
    ensures ClientCount(srv) == old(ClientCount(srv)) + 1
  {
    srv.clients := srv.clients + [client];
  }

  /** List.Remove: the first registry entry for the session goes; removing a
    * session that is not registered changes nothing. */
  method RemoveClient(srv: Server, client: Client)
    modifies srv`clients
    ensures srv.clients == RemoveFirst(old(srv.clients), client)
    ensures client !in old(srv.clients) ==> srv.clients == old(srv.clients)
    ensures client in old(srv.clients) ==>
      ClientCount(srv) == old(ClientCount(srv)) - 1 &&
      multiset(srv.clients) == multiset(old(srv.clients)) - multiset{client}
  {
    if client in srv.clients {
      RemoveFirstMultiset(srv.clients, client);
    }
    srv.clients := RemoveFirst(srv.clients, client);
  }
}
