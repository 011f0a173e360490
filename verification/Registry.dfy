/** The tables of connections of a server (server/server.go:443-509, server/route.go:61-82 and
    247-264, server/client.go:259-262): which route connection stands for which remote server. */
module Registry {
  import opened Base

  /** What a route connection knows of the other end. */
  class Route {
    var remoteID: Bytes
    var didSolicit: bool

    constructor (didSolicit: bool)
      ensures remoteID == [] && this.didSolicit == didSolicit
    {
      remoteID, this.didSolicit := [], didSolicit;
    }
  }

  class Client {
    const cid: nat
    const router: bool
    var route: Route?
    var open: bool

    constructor (cid: nat, router: bool, didSolicit: bool)
      ensures this.cid == cid && this.router == router && open
      ensures if router then route != null && fresh(route) && route.remoteID == [] && route.didSolicit == didSolicit
              else route == null
    {
      this.cid, this.router, route, open := cid, router, null, true;
      new;
      if router {
        route := new Route(didSolicit);
      }
    }

    /** Its record says that it is a route to the server `id`. */
    ghost predicate IsTo(id: Bytes)
      reads this, route
    {
      router && route != null && route.remoteID == id
    }
  }

  class Server {
    var clients: map<nat, Client>
    var routes: map<nat, Client>
    var remotes: map<Bytes, Client>

    constructor ()
      ensures Valid() && clients == map[] && routes == map[] && remotes == map[]
    {
      clients, routes, remotes := map[], map[], map[];
    }

    /** The connections are filed under their ids. */
    ghost predicate Filed()
      reads this
    {
      && (forall i :: i in clients ==> clients[i].cid == i && !clients[i].router)
      && (forall i :: i in routes ==> routes[i].cid == i && routes[i].router)
    }

    ghost predicate Registered(c: Client)
      reads this
    {
      if c.router then c.cid in routes && routes[c.cid] == c else c.cid in clients && clients[c.cid] == c
    }

    /** Who stands for a remote server is a route that is there, and to that server. */
    ghost predicate Valid()
      reads this, remotes.Values, set c <- remotes.Values :: c.route
    {
      Filed() && forall id :: id in remotes ==> Registered(remotes[id]) && remotes[id].IsTo(id)
    }

    /** Connection ids are not used again. */
    ghost predicate OwnId(c: Client)
      reads this
    {
      (c.cid in routes ==> routes[c.cid] == c) && (c.cid in clients ==> clients[c.cid] == c)
    }

    /** The registration at the end of createClient and of createRoute. */
    method Register(c: Client)
      requires Valid() && c.cid !in clients && c.cid !in routes
      modifies this`clients, this`routes
      ensures Valid() && Registered(c) && remotes == old(remotes)
      ensures if c.router then routes == old(routes)[c.cid := c] && clients == old(clients)
              else clients == old(clients)[c.cid := c] && routes == old(routes)
    {
      if c.router {
        routes := routes[c.cid := c];
      } else {
        clients := clients[c.cid := c];
      }
    }

    /** removeClient: the entry for the remote server goes only if it is this connection's. */
    method RemoveClient(c: Client)
      modifies this`clients, this`routes, this`remotes
      ensures if c.router then routes == old(routes) - {c.cid} && clients == old(clients)
              else clients == old(clients) - {c.cid} && routes == old(routes)
      ensures remotes == if c.router && c.route != null && c.route.remoteID in old(remotes)
              && old(remotes)[c.route.remoteID] == c
                         then old(remotes) - {c.route.remoteID} else old(remotes)
      ensures old(Valid()) && old(OwnId(c)) ==>
                Valid() && !Registered(c) && forall id :: id in remotes <==> id in old(remotes) && old(remotes)[id] != c
    {
      if !c.router {
        clients := clients - {c.cid};
      } else {
        routes := routes - {c.cid};
        if c.route != null {
          var id := c.route.remoteID;
          // only if it is us
          if id in remotes && remotes[id] == c {
            remotes := remotes - {id};
          }
        }
      }
    }

    /** addRoute: false if another connection stands for that server already.  That connection takes over
        the record of a solicited one: the two share it from then on. */
    method AddRoute(c: Client) returns (added: bool)
      requires c.route != null
      modifies this`remotes, (if c.route.remoteID in remotes then {remotes[c.route.remoteID]} else {})`route
      ensures added <==> old(c.route.remoteID) !in old(remotes)
      ensures remotes == if added then old(remotes)[old(c.route.remoteID) := c] else old(remotes)
      ensures !added ==>
                var remote := remotes[old(c.route.remoteID)];
                remote.route == if old(c.route.didSolicit) then old(c.route) else old(remotes[c.route.remoteID].route)
    {
      var id := c.route.remoteID;
      if id !in remotes {
        remotes := remotes[id := c];
        added := true;
      } else {
        if c.route.didSolicit {
          // upgrade to solicited
          remotes[id].route := c.route;
        }
        added := false;
      }
    }

    /** What processRouteInfo does to the tables.  A duplicate is closed, and nothing else is. */
    method TakeInfo(c: Client, id: Bytes)
      requires c.router && c.route != null
      modifies this, c`open, c.route`remoteID, (if id in remotes then {remotes[id]} else {})`route
      ensures old(c.route).remoteID == id && clients == old(clients)
      ensures id !in old(remotes) ==> remotes == old(remotes)[id := c] && routes == old(routes) && c.open == old(c.open)
      ensures id in old(remotes) ==> routes == old(routes) - {c.cid} && !c.open
      ensures id in old(remotes) ==> remotes == if old(remotes)[id] == c then old(remotes) - {id} else old(remotes)
      ensures id in old(remotes) ==>
                old(remotes)[id].route == if old(c.route.didSolicit) then old(c.route) else old(remotes[id].route)
    {
      c.route.remoteID := id;
      var added := AddRoute(c);
      if !added {
        c.open := false;
        RemoveClient(c);
      }
    }

    /** processRouteInfo.  The tables stay valid exactly if the connection, or one that shares its record,
        did not stand for another server before, and what is entered for a new server is a connection
        that is still there: a second INFO with another id leaves its entry for the first behind. */
    method ProcessRouteInfo(c: Client, id: Bytes)
      requires Valid() && c.router && c.route != null && OwnId(c)
      modifies this, c`open, c.route`remoteID, (if id in remotes then {remotes[id]} else {})`route
      ensures Valid() <==>
              && (forall j :: j in old(remotes) && old(remotes[j].route) == old(c.route) ==> j == id)
              && (id in old(remotes) || old(Registered(c)))
      ensures old(c.route).remoteID == id
      ensures id !in old(remotes) ==> remotes == old(remotes)[id := c] && routes == old(routes) && c.open == old(c.open)
      ensures id in old(remotes) ==> routes == old(routes) - {c.cid} && !c.open
      ensures id in old(remotes) ==> remotes == if old(remotes)[id] == c then old(remotes) - {id} else old(remotes)
    {
      ghost var was, record := remotes, c.route;
      assert forall j :: j in was ==> was[j].IsTo(j);
      TakeInfo(c, id);
      if j :| j in was && old(was[j].route) == record && j != id {
        assert j in remotes && remotes[j] == was[j] && !remotes[j].IsTo(j);
      } else if id !in was {
        assert remotes[id] == c;
      }
    }

    /** processConnect on a route: the name in the CONNECT is taken for the identity of the other server,
        and the table is not asked.  It stays valid exactly if the record stood for no other. */
    method ProcessConnect(c: Client, name: Bytes)
      modifies (if c.route != null then {c.route} else {})`remoteID
      ensures old(Valid()) ==>
                (Valid() <==>
                   forall j :: j in remotes && c.router && c.route != null && remotes[j].route == c.route ==> j == name)
      ensures c.router && c.route != null ==> c.route.remoteID == name
    {
      if c.router && c.route != null {
        c.route.remoteID := name;
        if j :| j in remotes && remotes[j].route == c.route && j != name {
          assert !remotes[j].IsTo(j);
        }
      }
    }

    /** INFO with one id, CONNECT with another name, and the end of the connection: the entry for the
        first is left with a connection that is gone, and no route of that server is registered again. */
    method LeftBehind(c: Client, id: Bytes, name: Bytes, again: Client) returns (added: bool)
      requires Valid() && c.router && c.route != null && Registered(c) && OwnId(c) && id !in remotes && id != name
      requires again != c && again.router && again.route != null && again.route != c.route && again.route.remoteID == id
      requires name in remotes ==> remotes[name] != c
      modifies this, c`open, c`route, c.route
      ensures c.cid !in routes && id in remotes && remotes[id] == c && !added
    {
      ProcessRouteInfo(c, id);
      ProcessConnect(c, name);
      RemoveClient(c);
      added := AddRoute(again);
    }
  }
}
