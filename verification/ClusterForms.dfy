/** Editing a cluster's credentials, and what any run of edits and lookups does
    to the client cache. */
module ClusterForms {
  import opened Wrappers
  import opened RapiClients

  datatype Entry = Entry(username: string, password: string)

  /** What validation makes of an entry: the errors raised, or the entry to store. */
  datatype Verdict = Accepted(entry: Entry) | Rejected(usernameMissing: bool, passwordMissing: bool)

  function Cleaned(instance: Option<Entry>, input: Entry): Verdict {
    if instance.Some? && instance.value.username != ""
       && input.username == instance.value.username && input.password == ""
    then Accepted(Entry(input.username, instance.value.password))
    else if input.username != "" && input.password == "" then Rejected(false, true)
    else if input.password != "" && input.username == "" then Rejected(true, false)
    else Accepted(input)
  }

  class EditClusterForm {
    const instance: Option<Entry>
    var data: Entry
    var usernameMissing: bool
    var passwordMissing: bool

    constructor (instance: Option<Entry>, data: Entry)
      ensures this.instance == instance && this.data == data && !usernameMissing && !passwordMissing
    {
      this.instance, this.data := instance, data;
      usernameMissing, passwordMissing := false, false;
    }

    function Result(): Verdict
      reads this
    {
      if usernameMissing || passwordMissing then Rejected(usernameMissing, passwordMissing) else Accepted(data)
    }

    method Clean()
      requires !usernameMissing && !passwordMissing
      modifies this
      ensures Result() == Cleaned(instance, old(data))
    {
      var username, password := data.username, data.password;
      if instance.None? || instance.value.username == "" {
        if username != "" && password == "" {
          passwordMissing := true;
        } else if password != "" && username == "" {
          usernameMissing := true;
        }
      } else if instance.value.username != "" {
        if username != "" && password == "" {
          if username == instance.value.username {
            data := data.(password := instance.value.password);
          } else {
            passwordMissing := true;
          }
        } else if password != "" && username == "" {
          usernameMissing := true;
        }
      }
    }
  }

  predicate Paired(e: Entry) {
    e.username == "" <==> e.password == ""
  }

  /** An entry is accepted exactly when it is paired or only repeats the stored
      username; what is stored then is paired if the row was. */
  lemma CleanedPairs(instance: Option<Entry>, input: Entry)
    ensures Cleaned(instance, input).Accepted? <==>
              Paired(input) || (instance.Some? && input == Entry(instance.value.username, ""))
    ensures Cleaned(instance, input).Accepted? && (instance.Some? ==> Paired(instance.value)) ==>
              Paired(Cleaned(instance, input).entry)
    ensures Cleaned(instance, input).Accepted? ==>
              var entry := Cleaned(instance, input).entry;
              && entry.username == input.username
              && entry.password ==
                   (if input.password == "" && input.username != "" then instance.value.password else input.password)
    ensures Cleaned(instance, input).Rejected? ==>
              && (Cleaned(instance, input).usernameMissing <==> input.username == "")
              && (Cleaned(instance, input).passwordMissing <==> input.password == "")
  {
  }

  /** The constructor takes a username with a password and neither of them, where the password
      None counts as none. */
  lemma ConstructibleIff(c: Credentials)
    ensures Constructible(c) <==> (c.username != "" <==> c.password != "" && c.password != "None")
  {
  }

  // ---- Runs ----

  /** `known` are all credentials ever stored. */
  datatype World = World(table: Table, cache: Cache, known: set<Credentials>)

  datatype Event =
    | Submit(cluster: nat, input: Entry, hostname: string, port: nat)
    | Drop(cluster: nat)
    | Ask(hash: string, cluster: nat)
    | Reset

  function StoredEntry(w: World, cluster: nat): Option<Entry> {
    if cluster in w.table
    then Some(Entry(w.table[cluster].credentials.username, w.table[cluster].credentials.password))
    else None
  }

  /** A submission creates the cluster or edits it, if it is accepted. */
  function Submitted(digest: string -> string, w: World, e: Event): World
    requires e.Submit?
  {
    match Cleaned(StoredEntry(w, e.cluster), e.input)
    case Rejected(_, _) => w
    case Accepted(entry) =>
      var c := Credentials(entry.username, entry.password, e.hostname, e.port);
      World(w.table[e.cluster := ClusterRow(c, CreateHash(digest, c))], w.cache, w.known + {c})
  }

  function Step(digest: string -> string, w: World, e: Event): World {
    match e
    case Submit(_, _, _, _) => Submitted(digest, w, e)
    case Drop(cluster) => w.(table := w.table - {cluster})
    case Ask(hash, cluster) => w.(cache := Lookup(w.cache, hash, cluster, w.table).0)
    case Reset => w.(cache := EMPTY)
  }

  function Run(digest: string -> string, w: World, es: seq<Event>): World {
    if es == [] then w else Step(digest, Run(digest, w, es[..|es| - 1]), es[|es| - 1])
  }

  const START := World(map[], EMPTY, {})

  /** Nobody ever chooses the password None. */
  ghost predicate NoNone(es: seq<Event>) {
    forall i :: 0 <= i < |es| && es[i].Submit? ==> es[i].input.password != "None"
  }

  ghost predicate RowsFit(w: World) {
    forall c :: c in w.table ==>
      var creds := w.table[c].credentials;
      Paired(Entry(creds.username, creds.password)) && creds.password != "None"
  }

  /** Every row keeps a paired entry; the dictionaries stay inverse to each other;
      every client was built from credentials with the hash it is kept under. */
  lemma {:induction false} RunsKeepTheCacheLinked(digest: string -> string, es: seq<Event>)
    requires NoNone(es)
    ensures var w := Run(digest, START, es);
            RowsFit(w) && Hashed(digest, w.known, w.table) && Linked(w.cache) && Genuine(digest, w.known, w.cache)
  {
    if es != [] {
      var most, e := es[..|es| - 1], es[|es| - 1];
      RunsKeepTheCacheLinked(digest, most);
      var w := Run(digest, START, most);
      match e
      case Submit(cluster, input, _, _) =>
        CleanedPairs(StoredEntry(w, cluster), input);
        GenuineGrows(digest, w.known, Step(digest, w, e).known, w.cache);
      case Ask(hash, cluster) =>
        LookupKeepsGenuine(digest, w.known, w.cache, hash, cluster, w.table);
        LookupKeepsLinkedIff(w.cache, hash, cluster, w.table);
        if cluster in w.table {
          ConstructibleIff(w.table[cluster].credentials);
        }
      case _ =>
    }
  }

  lemma GenuineGrows(digest: string -> string, a: set<Credentials>, b: set<Credentials>, cache: Cache)
    requires a <= b && Genuine(digest, a, cache)
    ensures Genuine(digest, b, cache)
  {
  }

  /** After any such run, asking for an existing cluster with its present hash
      returns a client, and without collisions among the credentials ever stored it is
      one built from the cluster's present credentials. */
  lemma AskingAlwaysSucceeds(digest: string -> string, es: seq<Event>, cluster: nat)
    requires NoNone(es) && cluster in Run(digest, START, es).table
    ensures var w := Run(digest, START, es);
            var outcome := Lookup(w.cache, w.table[cluster].hash, cluster, w.table).1;
            && outcome.Returned?
            && (NoCollision(digest, w.known) ==> Uses(outcome.client, w.table[cluster].credentials))
  {
    RunsKeepTheCacheLinked(digest, es);
    var w := Run(digest, START, es);
    LookupKeepsLinkedIff(w.cache, w.table[cluster].hash, cluster, w.table);
    ConstructibleIff(w.table[cluster].credentials);
    if NoCollision(digest, w.known) {
      PresentHashPresentClient(digest, w.known, w.cache, cluster, w.table);
    }
  }

  /** A password None breaks the dictionaries apart: the form accepts it, the
      next lookup evicts the client the cluster had and fails in the constructor. */
  lemma NonePasswordDrifts(digest: string -> string, w: World, cluster: nat, username: string, hostname: string,
                           port: nat)
    requires Linked(w.cache) && cluster in w.cache.hashes && username != ""
    requires CreateHash(digest, Credentials(username, "None", hostname, port)) !in w.cache.clients
    ensures var hash := CreateHash(digest, Credentials(username, "None", hostname, port));
            var edited := Step(digest, w, Submit(cluster, Entry(username, "None"), hostname, port));
            && Lookup(edited.cache, hash, cluster, edited.table).1 == ClientError
            && Drifted(Step(digest, edited, Ask(hash, cluster)).cache, cluster)
  {
  }

  /** Clearing the cache ends every drift, and a cluster that is gone is only found under a hash
      that still has a client. */
  lemma ResetAndDrop(digest: string -> string, w: World, cluster: nat, hash: string)
    ensures var cleared := Step(digest, w, Reset).cache; Linked(cleared) && !Drifted(cleared, cluster)
    ensures var dropped := Step(digest, w, Drop(cluster));
            Lookup(dropped.cache, hash, cluster, dropped.table) ==
              if hash in w.cache.clients then (w.cache, Returned(w.cache.clients[hash])) else (w.cache, NoCluster)
  {
  }

  /** Nothing in the run restores the hash of `cluster`: the cache is not cleared,
      and no other cluster gets a client under that hash. */
  ghost predicate Unrestored(digest: string -> string, w: World, es: seq<Event>, cluster: nat)
    requires cluster in w.cache.hashes
    decreases |es|
  {
    es == [] ||
    (&& !es[0].Reset?
     && (es[0].Ask? ==> !Restores(w.cache, es[0].hash, es[0].cluster, w.table, cluster))
     && var next := Step(digest, w, es[0]);
        cluster in next.cache.hashes && Unrestored(digest, next, es[1..], cluster))
  }

  function RunFrom(digest: string -> string, w: World, es: seq<Event>): World
    decreases |es|
  {
    if es == [] then w else RunFrom(digest, Step(digest, w, es[0]), es[1..])
  }

  /** Through any such run, whatever is edited, dropped or asked for, the cluster
      keeps the hash that leads nowhere, and asking for it fails on the missing key
      unless another cluster's client lies under the hash asked for or the present one. */
  lemma {:induction false} DriftSticks(digest: string -> string, w: World, es: seq<Event>, cluster: nat)
    requires Drifted(w.cache, cluster) && Unrestored(digest, w, es, cluster)
    ensures var after := RunFrom(digest, w, es);
            && Drifted(after.cache, cluster) && after.cache.hashes[cluster] == w.cache.hashes[cluster]
            && forall hash: string ::
                 cluster in after.table && hash !in after.cache.clients
                 && after.table[cluster].hash !in after.cache.clients ==>
                   Lookup(after.cache, hash, cluster, after.table) == (after.cache, KeyError)
    decreases |es|
  {
    if es != [] {
      if es[0].Ask? {
        DriftedStaysIff(w.cache, es[0].hash, es[0].cluster, w.table, cluster);
      }
      hide Lookup, Restores;
      DriftSticks(digest, Step(digest, w, es[0]), es[1..], cluster);
    }
  }
}
