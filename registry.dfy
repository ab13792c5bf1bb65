/**
 * The process-wide client registry: project id → auth token → client, each
 * client holding the ordered list of its live sessions. `ledge` adds a
 * session (creating the project's bucket and the client when absent),
 * `close` removes one, and watchers of the project are notified of both.
 */
module ClientRegistry {
  import opened Values

  /** A session in a client's list: its id and the rest of what was reported about the page. */
  datatype SessionEntry = SessionEntry(id: string, details: Value)

  /** A client: what was reported about the browser, and its sessions in the order they joined. */
  datatype Client = Client(descriptor: Value, sessions: seq<SessionEntry>)

  /** project id → token → client */
  type Clients = map<string, map<string, Client>>

  /** A watcher callback scheduled for later (`setTimeout(…, 0)`). */
  datatype WatcherNotice = Connect(project: string, token: string) | Disconnect(project: string, token: string, session: string)

  predicate HasClient(clients: Clients, project: string, token: string) {
    project in clients && token in clients[project]
  }

  /** How many sessions in `sessions` carry `id`. */
  function CountId(sessions: seq<SessionEntry>, id: string): nat {
    if |sessions| == 0 then 0
    else CountId(sessions[1..], id) + if sessions[0].id == id then 1 else 0
  }

  /** `sessions.filter(session => session.id !== id)`: keeps exactly the sessions with another id, in order. */
  function Without(sessions: seq<SessionEntry>, id: string): (r: seq<SessionEntry>)
    ensures forall x :: x in r <==> x in sessions && x.id != id
    ensures |r| + CountId(sessions, id) == |sessions|
  {
    if |sessions| == 0 then []
    else if sessions[0].id == id then Without(sessions[1..], id)
    else [sessions[0]] + Without(sessions[1..], id)
  }

  /**
   * The filter distributes over concatenation, so it keeps the surviving
   * sessions in their order; with `Without`'s own contract on one-element
   * lists, this determines it entirely.
   */
  lemma {:induction false} WithoutAppend(a: seq<SessionEntry>, b: seq<SessionEntry>, id: string)
    ensures Without(a + b, id) == Without(a, id) + Without(b, id)
  {
    if |a| > 0 {
      assert (a + b)[0] == a[0];
      assert (a + b)[1..] == a[1..] + b;
      WithoutAppend(a[1..], b, id);
      if a[0].id != id {
        assert ([a[0]] + Without(a[1..], id)) + Without(b, id) == [a[0]] + (Without(a[1..], id) + Without(b, id));
      }
    } else {
      assert a + b == b;
    }
  }

  /** No two sessions share an id. */
  predicate DistinctIds(sessions: seq<SessionEntry>) {
    forall i, j :: 0 <= i < j < |sessions| ==> sessions[i].id != sessions[j].id
  }

  /** In a list of distinct ids, at most one session carries a given id. */
  lemma {:induction false} CountIdDistinct(sessions: seq<SessionEntry>, id: string)
    requires DistinctIds(sessions)
    ensures CountId(sessions, id) <= 1
    ensures CountId(sessions, id) == 1 <==> exists i :: 0 <= i < |sessions| && sessions[i].id == id
  {
    if |sessions| > 0 {
      var tail := sessions[1..];
      assert DistinctIds(tail) by {
        forall i, j | 0 <= i < j < |tail| ensures tail[i].id != tail[j].id {
          assert tail[i] == sessions[i + 1] && tail[j] == sessions[j + 1];
        }
      }
      CountIdDistinct(tail, id);
      if sessions[0].id == id {
        assert CountId(tail, id) == 0;
      } else {
        if exists i :: 0 <= i < |sessions| && sessions[i].id == id {
          var i :| 0 <= i < |sessions| && sessions[i].id == id;
          assert tail[i - 1].id == id;
        }
        if exists i :: 0 <= i < |tail| && tail[i].id == id {
          var i :| 0 <= i < |tail| && tail[i].id == id;
          assert sessions[i + 1].id == id;
        }
      }
    }
  }

  /** Filtering keeps the ids distinct. */
  lemma {:induction false} WithoutDistinct(sessions: seq<SessionEntry>, id: string)
    requires DistinctIds(sessions)
    ensures DistinctIds(Without(sessions, id))
  {
    if |sessions| > 0 {
      var tail := sessions[1..];
      assert DistinctIds(tail) by {
        forall i, j | 0 <= i < j < |tail| ensures tail[i].id != tail[j].id {
          assert tail[i] == sessions[i + 1] && tail[j] == sessions[j + 1];
        }
      }
      WithoutDistinct(tail, id);
      if sessions[0].id != id {
        var r := Without(tail, id);
        forall j | 0 <= j < |r| ensures r[j].id != sessions[0].id {
          assert r[j] in tail;
          var k :| 0 <= k < |tail| && tail[k] == r[j];
          assert sessions[k + 1] == r[j];
        }
        assert Without(sessions, id) == [sessions[0]] + r;
      }
    }
  }

  /** The registry invariant: no client without sessions, and no session twice under one client. */
  ghost predicate WellFormed(clients: Clients) {
    forall p, t :: p in clients && t in clients[p] ==>
      |clients[p][t].sessions| > 0 && DistinctIds(clients[p][t].sessions)
  }

  /** The project's bucket, or the empty one `ledge` would create. */
  function Bucket(clients: Clients, project: string): map<string, Client> {
    if project in clients then clients[project] else map[]
  }

  /** The client a new session joins: the one under the token, else the newly reported one. */
  function Joined(clients: Clients, project: string, token: string, client: Client): Client {
    var bucket := Bucket(clients, project);
    if token in bucket then bucket[token] else client
  }

  /** The registry after `ledge`: the bucket and the client exist, and the session is appended to the client. */
  function Ledged(clients: Clients, project: string, token: string, client: Client, session: SessionEntry): (r: Clients)
    ensures HasClient(r, project, token)
    ensures |r[project][token].sessions| > 0 && r[project][token].sessions[|r[project][token].sessions| - 1] == session
    ensures r.Keys == clients.Keys + {project}
  {
    var joined := Joined(clients, project, token, client);
    clients[project := Bucket(clients, project)[token := joined.(sessions := joined.sessions + [session])]]
  }

  /**
   * The registry after `close`: a client with exactly one session is deleted
   * whichever session that is; otherwise the sessions with this id are
   * filtered out; with no client under the token nothing changes.
   */
  function Closed(clients: Clients, project: string, token: string, id: string): (r: Clients)
    ensures r.Keys == clients.Keys
    ensures forall t :: HasClient(r, project, t) ==> HasClient(clients, project, t)
    ensures HasClient(clients, project, token) && HasClient(r, project, token) ==>
      r[project][token].descriptor == clients[project][token].descriptor
  {
    if HasClient(clients, project, token) then
      var c := clients[project][token];
      if |c.sessions| == 1 then clients[project := clients[project] - {token}]
      else clients[project := clients[project][token := c.(sessions := Without(c.sessions, id))]]
    else clients
  }

  class Registry {
    var clients: Clients
    var watched: set<string>    // the projects with a watcher list
    var scheduled: seq<WatcherNotice>  // watcher notices scheduled, in order

    constructor (watched: set<string>)
      ensures clients == map[] && this.watched == watched && scheduled == []
    {
      clients := map[];
      this.watched := watched;
      scheduled := [];
    }

    /** `ledge`: create the project's bucket if absent, the client if absent, then append the session. */
    method Ledge(project: string, token: string, client: Client, session: SessionEntry)
      modifies this`clients
      ensures clients == Ledged(old(clients), project, token, client, session)
      ensures WellFormed(old(clients)) && DistinctIds(client.sessions) &&
              (forall x :: x in Joined(old(clients), project, token, client).sessions ==> x.id != session.id) ==>
              WellFormed(clients)
    {
      ghost var bucket := Bucket(clients, project);
      ghost var joined := Joined(clients, project, token, client);
      if project !in clients {
        clients := clients[project := map[]];
      }
      if token !in clients[project] {
        clients := clients[project := clients[project][token := client]];
      }
      var current := clients[project][token];
      assert current == joined;
      var entry := current.(sessions := current.sessions + [session]);
      assert clients[project][token := entry] == bucket[token := entry];
      clients := clients[project := clients[project][token := entry]];
      if WellFormed(old(clients)) && DistinctIds(client.sessions) &&
         (forall x :: x in joined.sessions ==> x.id != session.id) {
        LedgedWellFormed(old(clients), project, token, client, session);
      }
    }

    /** The `connect` callback scheduled once the session is registered, if the project has watchers. */
    method AnnounceConnect(project: string, token: string)
      modifies this`scheduled
      ensures scheduled == old(scheduled) + if project in watched then [Connect(project, token)] else []
    {
      if project in watched {
        scheduled := scheduled + [Connect(project, token)];
      }
    }

    /** `close`: remove the session, and schedule a `disconnect` callback, only when a client is registered. */
    method Close(project: string, token: string, id: string)
      modifies this`clients, this`scheduled
      ensures clients == Closed(old(clients), project, token, id)
      ensures WellFormed(old(clients)) ==> WellFormed(clients)
      ensures scheduled == old(scheduled) +
        if HasClient(old(clients), project, token) && project in watched then [Disconnect(project, token, id)] else []
    {
      if project in clients && token in clients[project] {
        if |clients[project][token].sessions| == 1 {
          clients := clients[project := clients[project] - {token}];
        } else {
          var current := clients[project][token];
          clients := clients[project := clients[project][token := current.(sessions := Without(current.sessions, id))]];
        }
        if project in watched {
          scheduled := scheduled + [Disconnect(project, token, id)];
        }
      }
      if WellFormed(old(clients)) {
        ClosedWellFormed(old(clients), project, token, id);
      }
    }
  }

  /**
   * `ledge` never overwrites: an existing client keeps its descriptor and
   * earlier sessions and gains exactly the new one at the end; a new token
   * gets the reported client with the session appended; every other token
   * and project is left as it was.
   */
  lemma LedgedShape(clients: Clients, project: string, token: string, client: Client, session: SessionEntry)
    ensures var after := Ledged(clients, project, token, client, session);
      && HasClient(after, project, token)
      && (HasClient(clients, project, token) ==>
            after[project][token] == clients[project][token].(sessions := clients[project][token].sessions + [session]))
      && (!HasClient(clients, project, token) ==>
            after[project][token] == client.(sessions := client.sessions + [session]))
      && after.Keys == clients.Keys + {project}
      && after[project].Keys == Bucket(clients, project).Keys + {token}
      && (forall p :: p in clients && p != project ==> after[p] == clients[p])
      && (forall t :: t in Bucket(clients, project) && t != token ==> after[project][t] == clients[project][t])
  {
  }

  /**
   * `close` on a registered client: with one session left the token is
   * deleted; otherwise exactly the sessions with this id are removed and the
   * rest stay, in order; every other token and project is left as it was.
   */
  lemma ClosedShape(clients: Clients, project: string, token: string, id: string)
    ensures !HasClient(clients, project, token) ==> Closed(clients, project, token, id) == clients
    ensures HasClient(clients, project, token) && |clients[project][token].sessions| == 1 ==>
      !HasClient(Closed(clients, project, token, id), project, token)
    ensures HasClient(clients, project, token) && |clients[project][token].sessions| != 1 ==>
      var after := Closed(clients, project, token, id)[project][token];
      && after.descriptor == clients[project][token].descriptor
      && after.sessions == Without(clients[project][token].sessions, id)
      && (forall x :: x in after.sessions <==> x in clients[project][token].sessions && x.id != id)
    ensures forall p :: p in clients && p != project ==>
      p in Closed(clients, project, token, id) && Closed(clients, project, token, id)[p] == clients[p]
    ensures forall t :: HasClient(clients, project, t) && t != token ==>
      HasClient(Closed(clients, project, token, id), project, t) &&
      Closed(clients, project, token, id)[project][t] == clients[project][t]
  {
  }

  /** Adding a session with a fresh id to a well-formed registry keeps it well formed. */
  lemma LedgedWellFormed(clients: Clients, project: string, token: string, client: Client, session: SessionEntry)
    requires WellFormed(clients)
    requires DistinctIds(client.sessions)
    requires forall x :: x in Joined(clients, project, token, client).sessions ==> x.id != session.id
    ensures WellFormed(Ledged(clients, project, token, client, session))
  {
    var joined := Joined(clients, project, token, client);
    var s := joined.sessions + [session];
    assert DistinctIds(s) by {
      forall i, j | 0 <= i < j < |s| ensures s[i].id != s[j].id {
        if j == |s| - 1 {
          assert s[i] in joined.sessions;
        }
      }
    }
  }

  /** Removing a session keeps a well-formed registry well formed: a client is never left with no sessions. */
  lemma ClosedWellFormed(clients: Clients, project: string, token: string, id: string)
    requires WellFormed(clients)
    ensures WellFormed(Closed(clients, project, token, id))
  {
    if HasClient(clients, project, token) && |clients[project][token].sessions| != 1 {
      var s := clients[project][token].sessions;
      CountIdDistinct(s, id);
      WithoutDistinct(s, id);
    }
  }

  /**
   * A session registered under a new token and then closed leaves the
   * registry as it was, except that the project's (possibly empty) bucket
   * stays created.
   */
  lemma LedgeThenClose(clients: Clients, project: string, token: string, descriptor: Value, session: SessionEntry)
    requires !HasClient(clients, project, token)
    ensures Closed(Ledged(clients, project, token, Client(descriptor, []), session), project, token, session.id)
         == clients[project := Bucket(clients, project)]
  {
    var after := Ledged(clients, project, token, Client(descriptor, []), session);
    assert after[project] - {token} == Bucket(clients, project);
  }

  /**
   * Two sessions under one token make one client with both; closing the
   * first leaves the client with the second; closing that deletes the client.
   */
  lemma TwoSessionsLifecycle(clients: Clients, project: string, token: string, descriptor: Value,
                             s1: SessionEntry, s2: SessionEntry)
    requires !HasClient(clients, project, token) && s1.id != s2.id
    ensures var one := Ledged(clients, project, token, Client(descriptor, []), s1);
      var two := Ledged(one, project, token, Client(descriptor, []), s2);
      && two[project][token] == Client(descriptor, [s1, s2])
      && Closed(two, project, token, s1.id)[project][token] == Client(descriptor, [s2])
      && !HasClient(Closed(Closed(two, project, token, s1.id), project, token, s2.id), project, token)
  {
    assert [s1, s2][1..] == [s2];
    assert Without([s2], s1.id) == [s2];
  }

  /**
   * `close` is not idempotent: closing the first of two sessions a second
   * time deletes the client although its other session is still live,
   * because a client with one session is deleted whichever session it is.
   */
  lemma SecondCloseDeletesLiveSession(clients: Clients, project: string, token: string, descriptor: Value,
                                      s1: SessionEntry, s2: SessionEntry)
    requires !HasClient(clients, project, token) && s1.id != s2.id
    ensures var two := Ledged(Ledged(clients, project, token, Client(descriptor, []), s1),
                              project, token, Client(descriptor, []), s2);
      var once := Closed(two, project, token, s1.id);
      && once[project][token].sessions == [s2]
      && !HasClient(Closed(once, project, token, s1.id), project, token)
  {
    TwoSessionsLifecycle(clients, project, token, descriptor, s1, s2);
  }
}
