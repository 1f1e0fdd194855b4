/** The two nodes over whole histories: initial secrets, then transfer after transfer, each
    encrypted under a key that both nodes derive from the secrets they hold as VALID. */
module Agreement {
  import opened Bits
  import opened Config
  import opened RunningKey
  import opened SecretFile
  import opened Transfer
  import opened TransferInvariant
  import opened TransferTheorems
  import opened Wrappers

  type Name = nat

  type Store = map<Name, Bytes>

  // ----- listing a directory

  datatype Entry = Entry(name: Name, directory: bool, extension: string)

  predicate Listed(e: Entry, store: Store, status: map<Name, nat>) {
    !e.directory && e.extension == ".bin" && e.name in status && status[e.name] == VALID && e.name in store
  }

  /** The .bin files of a directory that are VALID, in directory order. A missing score reads
      as 0, which is not VALID. */
  function Listing(entries: seq<Entry>, store: Store, status: map<Name, nat>): seq<Bytes> {
    if entries == [] then []
    else
      var n := |entries| - 1;
      var e := entries[n];
      Listing(entries[..n], store, status)
      + (if Listed(e, store, status) then [store[e.name]] else [])
  }

  /** What one entry adds to the list. */
  lemma ListingOne(e: Entry, store: Store, status: map<Name, nat>)
    ensures Listing([e], store, status)
         == if !e.directory && e.extension == ".bin" && e.name in status && status[e.name] == 1 && e.name in store
            then [store[e.name]] else []
  {
    assert [e][..0] == [];
  }

  /** The entries count one by one and in order. */
  lemma {:induction false} ListingConcat(a: seq<Entry>, b: seq<Entry>, store: Store, status: map<Name, nat>)
    ensures Listing(a + b, store, status) == Listing(a, store, status) + Listing(b, store, status)
  {
    if b == [] {
      assert a + b == a;
    } else {
      var n := |b| - 1;
      assert (a + b)[..|a| + n] == a + b[..n];
      ListingConcat(a, b[..n], store, status);
    }
  }

  /** Key generation sees exactly the contents of the VALID files of the directory. */
  lemma {:induction false} ListingIff(entries: seq<Entry>, store: Store, status: map<Name, nat>, file: Bytes)
    ensures file in Listing(entries, store, status)
       <==> exists i :: 0 <= i < |entries| && Listed(entries[i], store, status) && store[entries[i].name] == file
  {
    if entries != [] {
      var n := |entries| - 1;
      var before := entries[..n];
      ListingIff(before, store, status, file);
      if i :| 0 <= i < |entries| && Listed(entries[i], store, status) && store[entries[i].name] == file {
        if i < n {
          assert before[i] == entries[i];
        }
      }
      if i :| 0 <= i < |before| && Listed(before[i], store, status) && store[before[i].name] == file {
        assert entries[i] == before[i];
      }
    }
  }

  /** readFileSize, returning the contents that its paths lead to; an exception at entry broken
      ends it with what was listed so far. */
  method ReadFileSize(entries: seq<Entry>, store: Store, status: map<Name, nat>, broken: nat) returns (list: seq<Bytes>)
    ensures list == Listing(if broken < |entries| then entries[..broken] else entries, store, status)
  {
    list := [];
    for i := 0 to |entries|
      invariant list == Listing(entries[..i], store, status) && i <= broken
    {
      if i == broken {
        return list;
      }
      var e := entries[i];
      assert entries[..i + 1][..i] == entries[..i];
      if e.directory {
        continue;
      }
      if e.extension != ".bin" {
        continue;
      }
      var isValid := if e.name in status then status[e.name] else UNKNOWN;
      if isValid != VALID {
        continue;
      }
      if e.name in store {
        list := list + [store[e.name]];
      }
    }
    assert entries[..|entries|] == entries;
  }

  /** The directory of a node: one .bin file per stored name, in an order common to both
      nodes. */
  function Directory(order: seq<Name>, store: Store): seq<Entry> {
    if order == [] then []
    else
      var n := |order| - 1;
      Directory(order[..n], store) + (if order[n] in store then [Entry(order[n], false, ".bin")] else [])
  }

  predicate ValidAt(order: seq<Name>, store: Store, status: map<Name, nat>, file: Bytes, i: nat)
    requires i < |order|
  {
    order[i] in store && order[i] in status && status[order[i]] == 1 && store[order[i]] == file
  }

  /** From a node's own directory every file is listed that is stored and VALID, and no other. */
  lemma {:induction false} DirectoryListsIff(order: seq<Name>, store: Store, status: map<Name, nat>, file: Bytes)
    ensures file in Listing(Directory(order, store), store, status)
       <==> exists i :: 0 <= i < |order| && ValidAt(order, store, status, file, i)
  {
    if order != [] {
      var before := order[..|order| - 1];
      DirectoryListsIff(before, store, status, file);
      LastInDirectory(order, store, status, file);
      forall i | 0 <= i < |before|
        ensures ValidAt(before, store, status, file, i) == ValidAt(order, store, status, file, i)
      {
      }
    }
  }

  lemma LastInDirectory(order: seq<Name>, store: Store, status: map<Name, nat>, file: Bytes)
    requires order != []
    ensures file in Listing(Directory(order, store), store, status)
       <==> file in Listing(Directory(order[..|order| - 1], store), store, status) || ValidAt(order, store, status, file, |order| - 1)
  {
    var entries := Directory(order[..|order| - 1], store);
    LastListed(entries, order[|order| - 1], store, status);
    assert entries + [] == entries;
  }

  // ----- the world

  datatype World = World(server: Store, client: Store, status: map<Name, nat>, current: Option<(Name, Session)>)

  /** Every name marked VALID has one and the same file in both stores. */
  ghost predicate Agree(server: Store, client: Store, status: map<Name, nat>) {
    forall name :: name in status && status[name] == VALID ==>
      name in server && name in client && server[name] == client[name]
  }

  /** What both nodes would derive from the same seed at this point. */
  lemma {:induction false} SameListing(order: seq<Name>, server: Store, client: Store, status: map<Name, nat>)
    requires Agree(server, client, status)
    ensures Listing(Directory(order, server), server, status) == Listing(Directory(order, client), client, status)
  {
    if order != [] {
      var n := |order| - 1;
      SameListing(order[..n], server, client, status);
      LastListed(Directory(order[..n], server), order[n], server, status);
      LastListed(Directory(order[..n], client), order[n], client, status);
      assert Directory(order[..n], server) + [] == Directory(order[..n], server);
      assert Directory(order[..n], client) + [] == Directory(order[..n], client);
    }
  }

  lemma LastListed(entries: seq<Entry>, name: Name, store: Store, status: map<Name, nat>)
    ensures var all := entries + [Entry(name, false, ".bin")];
      Listing(all, store, status) == Listing(entries, store, status)
        + (if name in status && status[name] == VALID && name in store then [store[name]] else [])
  {
    var all := entries + [Entry(name, false, ".bin")];
    assert all[..|all| - 1] == entries;
  }

  /** Agreement on the VALID files is agreement on every key that can be derived next. */
  lemma SameKey(order: seq<Name>, draws: seq<nat>, server: Store, client: Store, status: map<Name, nat>, p: Params)
    requires p.KeyOk() && Agree(server, client, status)
    ensures KeyFrom(draws, Listing(Directory(order, server), server, status), p)
         == KeyFrom(draws, Listing(Directory(order, client), client, status), p)
  {
    SameListing(order, server, client, status);
  }

  // ----- steps

  ghost predicate EnvOk(env: Env) {
    env.Ok() && env.p.KeyOk()
  }

  /** init.cc: the server's files copied to the client, all VALID. */
  ghost predicate Init(w: World) {
    w.client == w.server && w.current == None
    && forall name :: name in w.status ==> w.status[name] == VALID && name in w.server
  }

  /** Nothing on either node goes by this name yet. */
  predicate NewTo(w: World, name: Name) {
    name !in w.status && name !in w.server && name !in w.client
  }

  /** A transfer starts with the keys that the two nodes generated from their own directories
      and the common seed. */
  ghost predicate Begin(env: Env, w: World, w': World, name: Name, order: seq<Name>, draws: seq<nat>, s: Session)
    requires EnvOk(env)
  {
    && w.current == None
    && KeyFrom(draws, Listing(Directory(order, w.server), w.server, w.status), env.p) == Some(s.keyS)
    && KeyFrom(draws, Listing(Directory(order, w.client), w.client, w.status), env.p) == Some(s.keyC)
    && Transfer.Init(env, s)
    && w' == w.(current := Some((name, s)))
  }

  /** It starts under a name that is new to both nodes; module Issued derives that from the way
      indices are issued. */
  ghost predicate Start(env: Env, w: World, w': World, name: Name, order: seq<Name>, draws: seq<nat>, s: Session)
    requires EnvOk(env)
  {
    NewTo(w, name) && Begin(env, w, w', name, order, draws, s)
  }

  ghost predicate Advance(env: Env, w: World, w': World, s': Session)
    requires EnvOk(env)
  {
    w.current.Some? && Transfer.Next(env, w.current.value.1, s')
    && w' == w.(current := Some((w.current.value.0, s')))
  }

  function Put(store: Store, name: Name, file: Option<Bytes>): Store {
    if file.Some? then store[name := file.value] else store
  }

  function Committed(w: World): World
    requires w.current.Some?
  {
    var (name, s) := w.current.value;
    World(Put(w.server, name, s.secret), Put(w.client, name, s.clientFile), w.status[name := s.status], None)
  }

  /** The one hypothesis about damage: in a transfer in which some request failed, the
      checksum rejects the secret with the pieces zeroed that did not arrive. */
  ghost predicate Detected(env: Env, s: Session)
    requires env.Ok()
  {
    AllDone(s) || (env.p.secretSize >= CRC_LEN && !Unnoticed(env, s))
  }

  ghost predicate Commit(env: Env, w: World, w': World)
    requires EnvOk(env)
  {
    w.current.Some? && w.current.value.1.client == Finished && Detected(env, w.current.value.1) && w' == Committed(w)
  }

  ghost predicate Next(env: Env, w: World, w': World)
    requires EnvOk(env)
  {
    || Commit(env, w, w')
    || (exists s' :: Advance(env, w, w', s'))
    || (exists name, order, draws, s :: Start(env, w, w', name, order, draws, s))
  }

  ghost predicate History(env: Env, run: seq<World>)
    requires EnvOk(env)
  {
    run != [] && Init(run[0]) && forall n :: 0 <= n < |run| - 1 ==> StepAt(env, run, n)
  }

  /** Naming the step keeps the solver from walking along the history. */
  ghost predicate StepAt(env: Env, run: seq<World>, n: nat)
    requires EnvOk(env) && n < |run| - 1
  {
    Next(env, run[n], run[n + 1])
  }

  ghost predicate WorldInv(env: Env, w: World)
    requires EnvOk(env)
  {
    Agree(w.server, w.client, w.status)
    && (w.current.Some? ==>
          var (name, s) := w.current.value;
          TransferInvariant.Inv(env, s) && NewTo(w, name))
  }

  lemma CommitKeeps(env: Env, w: World, w': World)
    requires EnvOk(env) && WorldInv(env, w) && Commit(env, w, w')
    ensures WorldInv(env, w')
  {
    CommitAgreesIff(env, w);
  }

  /** Without the hypothesis: a finished transfer keeps agreement exactly when it is met. */
  lemma CommitAgreesIff(env: Env, w: World)
    requires EnvOk(env) && WorldInv(env, w) && w.current.Some? && w.current.value.1.client == Finished
    ensures var w' := Committed(w); Agree(w'.server, w'.client, w'.status) <==> Detected(env, w.current.value.1)
  {
    var (name, s) := w.current.value;
    FinishedAgrees(env, s);
    CommitAgrees(w, name, s);
  }

  lemma CommitAgrees(w: World, name: Name, s: Session)
    requires Agree(w.server, w.client, w.status) && w.current == Some((name, s))
    requires name !in w.status && name !in w.server && name !in w.client
    ensures var w' := Committed(w); Agree(w'.server, w'.client, w'.status) <==> Agrees(s)
  {
    var w' := Committed(w);
    assert w'.status[name] == s.status;
    if Agrees(s) {
      forall other | other in w'.status && w'.status[other] == VALID
        ensures other in w'.server && other in w'.client && w'.server[other] == w'.client[other]
      {
        assert other != name ==> other in w.status;
      }
    }
  }

  lemma NextKeeps(env: Env, w: World, w': World)
    requires EnvOk(env) && WorldInv(env, w) && Next(env, w, w')
    ensures WorldInv(env, w')
  {
    if Commit(env, w, w') {
      CommitKeeps(env, w, w');
    } else if s' :| Advance(env, w, w', s') {
      TransferInvariant.NextKeeps(env, w.current.value.1, s');
    } else {
      var name, order, draws, s :| Start(env, w, w', name, order, draws, s);
      SameKey(order, draws, w.server, w.client, w.status, env.p);
      InitHolds(env, s);
    }
  }

  /** Between transfers, whenever the draws give a key, a new secret under a new name can be
      transferred. */
  lemma CanStart(env: Env, w: World, name: Name, order: seq<Name>, draws: seq<nat>, file: Bytes)
    requires EnvOk(env) && WorldInv(env, w) && w.current == None && NewTo(w, name)
    requires KeyFrom(draws, Listing(Directory(order, w.server), w.server, w.status), env.p).Some?
    requires |file| == env.p.secretSize >= CRC_LEN && CrcOk(env.crc, file)
    ensures var key := KeyFrom(draws, Listing(Directory(order, w.server), w.server, w.status), env.p).value;
            var s := Fresh(env, key, file);
            Start(env, w, w.(current := Some((name, s))), name, order, draws, s)
  {
    SameKey(order, draws, w.server, w.client, w.status, env.p);
  }

  /** From init's state, at every moment of every history: every VALID name has the same
      file on both nodes, and the transfer under way uses the same key on both sides. */
  lemma {:induction false} AgreementOverHistories(env: Env, run: seq<World>, n: nat)
    requires EnvOk(env) && History(env, run) && n < |run|
    ensures Agree(run[n].server, run[n].client, run[n].status)
    ensures run[n].current.Some? ==> run[n].current.value.1.keyS == run[n].current.value.1.keyC
    ensures WorldInv(env, run[n])
    decreases n
  {
    if n > 0 {
      AgreementOverHistories(env, run, n - 1);
      assert StepAt(env, run, n - 1);
      NextKeeps(env, run[n - 1], run[n]);
    }
  }

  /** At every moment of a transfer without failures, a VALID report means that the server
      holds the secret, and that the client holds it too or is just about to write it. */
  lemma CurrentAgrees(env: Env, run: seq<World>, n: nat)
    requires EnvOk(env) && History(env, run) && n < |run| && run[n].current.Some?
    ensures var s := run[n].current.value.1;
            s.status == VALID && !SomeFailed(s) ==>
              s.secret == Some(s.file) && (s.clientFile == Some(s.file) || (s.client == Storing && s.buffer == s.file))
  {
    AgreementOverHistories(env, run, n);
    var s := run[n].current.value.1;
    if s.status == VALID && !SomeFailed(s) {
      ValidIsStored(env, s);
    }
  }

  /** In every history, a transfer in which no request failed ends VALID with the secret in
      both stores: the shared key is all that decryption needs. */
  lemma SuccessfulTransferIsKept(env: Env, run: seq<World>, n: nat)
    requires EnvOk(env) && History(env, run) && n < |run| && run[n].current.Some?
    requires run[n].current.value.1.client == Finished && AllDone(run[n].current.value.1)
    ensures var (name, s) := run[n].current.value;
            var w := Committed(run[n]);
            w.status[name] == VALID && name in w.server && name in w.client
            && w.server[name] == s.file && w.client[name] == s.file
  {
    AgreementOverHistories(env, run, n);
    FinishedAgrees(env, run[n].current.value.1);
  }

  /** A transfer in which a request failed and the damage was detected leaves both stores as they
      were and its index INVALID. */
  lemma FailedTransferIsDropped(env: Env, run: seq<World>, n: nat)
    requires EnvOk(env) && History(env, run) && n < |run| && run[n].current.Some?
    requires run[n].current.value.1.client == Finished && SomeFailed(run[n].current.value.1) && Detected(env, run[n].current.value.1)
    ensures var (name, s) := run[n].current.value;
            Committed(run[n]) == World(run[n].server, run[n].client, run[n].status[name := INVALID], None)
  {
    AgreementOverHistories(env, run, n);
    FinishedAgrees(env, run[n].current.value.1);
  }
}
