/** The process-wide cache of API clients: one dictionary from hashes to clients,
    one from clusters to hashes. */
module RapiClients {
  import opened Decimals
  import opened Wrappers

  datatype Credentials = Credentials(username: string, password: string, hostname: string, port: nat)

  /** A cluster row, reduced to what a connection needs. */
  datatype ClusterRow = ClusterRow(credentials: Credentials, hash: string)

  datatype Client = Client(host: string, port: nat, username: Option<string>, password: Option<string>)

  datatype Outcome = Returned(client: Client) | NoCluster | KeyError | ClientError

  /** The hash digests the four values run together. */
  function CreateHash(digest: string -> string, c: Credentials): string {
    digest(c.username + c.password + c.hostname + Decimal(c.port))
  }

  /** Whatever the digest, credentials that only shift a letter from the password
      to the username get the same hash. */
  lemma HashIsAmbiguous(digest: string -> string, u: string, x: char, p: string, hostname: string, port: nat)
    ensures var a, b := Credentials(u + [x], p, hostname, port), Credentials(u, [x] + p, hostname, port);
            a != b && CreateHash(digest, a) == CreateHash(digest, b)
    ensures CreateHash(digest, Credentials(u, p, hostname + "1", 2)) ==
              CreateHash(digest, Credentials(u, p, hostname, 12))
  {
    assert Decimal(1) == "1" && Decimal(2) == "2" && Decimal(12) == "12";
    assert u + p + (hostname + "1") + "2" == u + p + hostname + "12";
    assert u + [x] + p == u + ([x] + p);
    assert |u + [x]| != |u|;
  }

  /** An empty name, an empty password and the literal None all mean that there is none. */
  function NormalName(s: string): Option<string> {
    if s == "" then None else Some(s)
  }

  function NormalPassword(s: string): Option<string> {
    if s == "" || s == "None" then None else Some(s)
  }

  function ClientFor(c: Credentials): Client {
    Client(c.hostname, c.port, NormalName(c.username), NormalPassword(c.password))
  }

  /** The constructor refuses a name without a password and a password without a name. */
  predicate Constructible(c: Credentials) {
    NormalName(c.username).None? <==> NormalPassword(c.password).None?
  }

  type Table = map<nat, ClusterRow>

  datatype Cache = Cache(clients: map<string, Client>, hashes: map<nat, string>)

  const EMPTY := Cache(map[], map[])

  function Lookup(cache: Cache, hash: string, cluster: nat, table: Table): (Cache, Outcome) {
    if hash in cache.clients then (cache, Returned(cache.clients[hash]))
    else if cluster !in table then (cache, NoCluster)
    else
      var row := table[cluster];
      if row.hash in cache.clients then (cache, Returned(cache.clients[row.hash]))
      else if cluster in cache.hashes && cache.hashes[cluster] !in cache.clients then (cache, KeyError)
      else
        var kept := if cluster in cache.hashes then cache.clients - {cache.hashes[cluster]} else cache.clients;
        if !Constructible(row.credentials) then (Cache(kept, cache.hashes), ClientError)
        else
          var client := ClientFor(row.credentials);
          (Cache(kept[row.hash := client], cache.hashes[cluster := row.hash]), Returned(client))
  }

  class RapiCache {
    var clients: map<string, Client>
    var hashes: map<nat, string>

    constructor ()
      ensures Value() == EMPTY
    {
      clients, hashes := map[], map[];
    }

    function Value(): Cache
      reads this
    {
      Cache(clients, hashes)
    }

    method GetRapi(hash: string, cluster: nat, table: Table) returns (outcome: Outcome)
      modifies this
      ensures (Value(), outcome) == Lookup(old(Value()), hash, cluster, table)
    {
      if hash in clients {
        return Returned(clients[hash]);
      }
      if cluster !in table {
        return NoCluster;
      }
      var row := table[cluster];
      if row.hash in clients {
        return Returned(clients[row.hash]);
      }
      if cluster in hashes {
        if hashes[cluster] !in clients {
          return KeyError;
        }
        clients := clients - {hashes[cluster]};
      }
      var built := Construct(row.credentials);
      if built.None? {
        return ClientError;
      }
      clients := clients[row.hash := built.value];
      hashes := hashes[cluster := row.hash];
      return Returned(built.value);
    }

    method ClearRapiCache()
      modifies this
      ensures Value() == EMPTY
    {
      clients, hashes := map[], map[];
    }
  }

  method Construct(c: Credentials) returns (client: Option<Client>)
    ensures client == if Constructible(c) then Some(ClientFor(c)) else None
  {
    var username := NormalName(c.username);
    var password := NormalPassword(c.password);
    if username.Some? && password.None? {
      return None;
    } else if password.Some? && username.None? {
      return None;
    }
    return Some(Client(c.hostname, c.port, username, password));
  }

  // ---- The two dictionaries stay inverse to each other ----

  ghost predicate Injective(hashes: map<nat, string>) {
    forall a, b :: a in hashes && b in hashes && hashes[a] == hashes[b] ==> a == b
  }

  ghost predicate Linked(cache: Cache) {
    cache.clients.Keys == cache.hashes.Values && Injective(cache.hashes)
  }

  /** Linked dictionaries hold at most one client per cluster: as many clients as clusters. */
  lemma {:induction false} OneClientPerCluster(hashes: map<nat, string>, clients: map<string, Client>)
    requires Linked(Cache(clients, hashes))
    ensures |clients.Keys| == |hashes.Keys|
    decreases |hashes|
  {
    if hashes == map[] {
      assert clients.Keys == {};
    } else {
      var c :| c in hashes;
      var h := hashes[c];
      var fewer, left := hashes - {c}, clients - {h};
      assert left.Keys == clients.Keys - {h};
      forall x
        ensures x in left.Keys <==> x in fewer.Values
      {
        if x in left.Keys {
          var d :| d in hashes && hashes[d] == x;
          assert d in fewer && fewer[d] == x;
        }
      }
      assert fewer.Keys == hashes.Keys - {c};
      OneClientPerCluster(fewer, left);
    }
  }

  /** The cluster asked for has no client under either hash, had one under another
      hash, and has credentials the constructor refuses. */
  predicate Drifts(cache: Cache, hash: string, cluster: nat, table: Table) {
    && hash !in cache.clients && cluster in table && table[cluster].hash !in cache.clients
    && cluster in cache.hashes && !Constructible(table[cluster].credentials)
  }

  /** A lookup in inverse dictionaries never misses a key, and keeps them inverse
      exactly unless it evicts a client before the constructor fails. */
  lemma LookupKeepsLinkedIff(cache: Cache, hash: string, cluster: nat, table: Table)
    requires Linked(cache)
    ensures var (after, outcome) := Lookup(cache, hash, cluster, table);
            && outcome != KeyError
            && (outcome == NoCluster <==> hash !in cache.clients && cluster !in table)
            && (outcome == ClientError ==> !Constructible(table[cluster].credentials))
            && (outcome.Returned? && hash in cache.clients ==> outcome.client == cache.clients[hash] && after == cache)
            && (Linked(after) <==> !Drifts(cache, hash, cluster, table))
  {
    var (after, outcome) := Lookup(cache, hash, cluster, table);
    if hash in cache.clients || cluster !in table || table[cluster].hash in cache.clients {
    } else {
      var h := table[cluster].hash;
      if cluster in cache.hashes {
        assert cache.hashes[cluster] in cache.hashes.Values;
      }
      if !Constructible(table[cluster].credentials) {
        if cluster in cache.hashes {
          assert cache.hashes[cluster] in after.hashes.Values && cache.hashes[cluster] !in after.clients;
        }
      } else {
        Relink(cache, cluster, h, after);
      }
    }
  }

  lemma Relink(cache: Cache, cluster: nat, h: string, after: Cache)
    requires Linked(cache) && h !in cache.clients
    requires after.hashes == cache.hashes[cluster := h]
    requires after.clients.Keys ==
               cache.clients.Keys - (if cluster in cache.hashes then {cache.hashes[cluster]} else {}) + {h}
    ensures Linked(after)
  {
    assert forall d :: d in cache.hashes ==> cache.hashes[d] in cache.clients.Keys;
    forall x
      ensures x in after.clients.Keys <==> x in after.hashes.Values
    {
      if x in after.clients.Keys && x != h {
        var d :| d in cache.hashes && cache.hashes[d] == x;
        assert d in after.hashes && after.hashes[d] == x;
      }
      if x == h {
        assert after.hashes[cluster] == h;
      }
    }
  }

  /** The cluster's hash leads to no client. */
  predicate Drifted(cache: Cache, cluster: nat) {
    cluster in cache.hashes && cache.hashes[cluster] !in cache.clients
  }

  /** The lookup builds a client for another cluster under the very hash that leads nowhere. */
  predicate Restores(cache: Cache, hash: string, other: nat, table: Table, cluster: nat)
    requires cluster in cache.hashes
  {
    && hash !in cache.clients && other in table && table[other].hash !in cache.clients
    && other != cluster && !Drifted(cache, other) && Constructible(table[other].credentials)
    && table[other].hash == cache.hashes[cluster]
  }

  /** A cluster that has drifted stays so, under the same hash, through every lookup
      but one that restores it. */
  lemma DriftedStaysIff(cache: Cache, hash: string, other: nat, table: Table, cluster: nat)
    requires Drifted(cache, cluster)
    ensures var after := Lookup(cache, hash, other, table).0;
            && cluster in after.hashes && after.hashes[cluster] == cache.hashes[cluster]
            && (Drifted(after, cluster) <==> !Restores(cache, hash, other, table, cluster))
  {
  }

  // ---- A client is built from credentials with the hash it is stored under ----

  /** The client connects to that host and port; an empty username, an empty password and
      the password None count as none. */
  predicate Uses(client: Client, c: Credentials) {
    && client.host == c.hostname && client.port == c.port
    && client.username == (if c.username == "" then None else Some(c.username))
    && client.password == (if c.password == "" || c.password == "None" then None else Some(c.password))
  }

  ghost predicate BuiltFrom(digest: string -> string, known: set<Credentials>, hash: string, client: Client) {
    exists c :: c in known && CreateHash(digest, c) == hash && Uses(client, c)
  }

  ghost predicate Genuine(digest: string -> string, known: set<Credentials>, cache: Cache) {
    forall h :: h in cache.clients ==> BuiltFrom(digest, known, h, cache.clients[h])
  }

  /** Every row's hash is that of its credentials, which are among `known`. */
  ghost predicate Hashed(digest: string -> string, known: set<Credentials>, table: Table) {
    forall c :: c in table ==>
      table[c].credentials in known && table[c].hash == CreateHash(digest, table[c].credentials)
  }

  lemma LookupKeepsGenuine(digest: string -> string, known: set<Credentials>, cache: Cache,
                           hash: string, cluster: nat, table: Table)
    requires Genuine(digest, known, cache) && Hashed(digest, known, table)
    ensures Genuine(digest, known, Lookup(cache, hash, cluster, table).0)
  {
  }

  /** No two of the credentials ever stored share a hash. */
  ghost predicate NoCollision(digest: string -> string, known: set<Credentials>) {
    forall a, b :: a in known && b in known && CreateHash(digest, a) == CreateHash(digest, b) ==> a == b
  }

  /** Asking with a cluster's present hash gives a client built from its present credentials. */
  lemma PresentHashPresentClient(digest: string -> string, known: set<Credentials>, cache: Cache, cluster: nat,
                                 table: Table)
    requires Genuine(digest, known, cache) && Hashed(digest, known, table) && NoCollision(digest, known)
    requires cluster in table
    ensures var outcome := Lookup(cache, table[cluster].hash, cluster, table).1;
            outcome.Returned? ==> Uses(outcome.client, table[cluster].credentials)
  {
  }
}
