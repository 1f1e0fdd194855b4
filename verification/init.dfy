/** init/init.cc: the first secrets are generated for the server, copied to the client and
    registered as VALID; the state from which Agreement.AgreementOverHistories starts. */
module Initial {
  import opened Agreement
  import opened Buffers
  import opened SecretFile
  import opened Selection
  import opened Transfer
  import opened Wrappers

  /** secretPathVec[j][i] is file i of node j; the copying loops visit these pairs (i, j). */
  predicate Copied(nodes: nat, files: nat, i: nat, j: nat) {
    i < nodes && j < files && j % 2 == 0
  }

  /** The loops take the number of nodes for the number of files and the other way round. They
      stay in bounds and copy every file of node 0 to node 1 exactly when there are two files. */
  lemma CopyCoversIff(files: nat)
    ensures (forall i: nat, j: nat :: Copied(2, files, i, j) ==> i < files && j + 1 < 2)
            && (forall i: nat :: i < files ==> Copied(2, files, i, 0))
       <==> files == 0 || files == 2
  {
    if files == 1 {
      assert Copied(2, 1, 1, 0);
    } else if files > 2 {
      assert Copied(2, files, 0, 2);
    }
  }

  lemma OneMoreName(names: seq<Name>, k: nat)
    requires k < |names|
    ensures SetOf(names[..k + 1]) == SetOf(names[..k]) + {names[k]}
  {
    assert names[..k + 1] == names[..k] + [names[k]];
  }

  /** Same content wherever the client has a file. */
  predicate Within(client: Store, server: Store) {
    forall name :: name in client ==> name in server && client[name] == server[name]
  }

  predicate ProperFiles(crc: Checksum, size: nat, store: Store)
    requires size >= CRC_LEN
  {
    forall name :: name in store ==> |store[name]| == size && CrcOk(crc, store[name])
  }

  method GenerateServer(crc: Checksum, words: nat, q: nat, initSecrets: seq<Name>) returns (server: Store)
    requires 2 <= q && 2 * words >= CRC_LEN
    ensures server.Keys == SetOf(initSecrets) && ProperFiles(crc, 2 * words, server)
  {
    server := map[];
    for k := 0 to |initSecrets|
      invariant server.Keys == SetOf(initSecrets[..k]) && ProperFiles(crc, 2 * words, server)
    {
      OneMoreName(initSecrets, k);
      var source := new Lwe.Randomness();
      ghost var drawn;
      var file;
      file, drawn := GenerateSecretFile(crc, words, q, source);
      server := server[initSecrets[k] := file];
    }
    assert initSecrets[..|initSecrets|] == initSecrets;
  }

  /** The copying loops over the paths of both nodes. */
  method CopyToClient(server: Store, initSecrets: seq<Name>, size: nat) returns (client: Store)
    requires |initSecrets| == 2 && server.Keys == SetOf(initSecrets)
    requires forall name :: name in server ==> |server[name]| == size
    ensures client == server
  {
    client := map[];
    for i := 0 to 2
      invariant client.Keys == SetOf(initSecrets[..i]) && Within(client, server)
    {
      OneMoreName(initSecrets, i);
      var j := 0;
      while j < 2
        invariant j == 0 || j == 2
        invariant client.Keys == SetOf(initSecrets[..if j == 0 then i else i + 1]) && Within(client, server)
      {
        var bufferVec := ReadAt(server[initSecrets[i]], 0, size);
        assert bufferVec == server[initSecrets[i]];
        client := client[initSecrets[i] := bufferVec];
        j := j + 2;
      }
    }
    assert initSecrets[..2] == initSecrets;
  }

  method MarkValid(initSecrets: seq<Name>) returns (status: map<Name, nat>)
    ensures status.Keys == SetOf(initSecrets) && forall name :: name in status ==> status[name] == VALID
  {
    status := map[];
    for k := 0 to |initSecrets|
      invariant status.Keys == SetOf(initSecrets[..k]) && forall name :: name in status ==> status[name] == VALID
    {
      OneMoreName(initSecrets, k);
      status := status[initSecrets[k] := VALID];
    }
    assert initSecrets[..|initSecrets|] == initSecrets;
  }

  /** run(): two fresh secrets of 2 * words bytes, the same in both stores and all VALID. */
  method Run(crc: Checksum, words: nat, q: nat, initSecrets: seq<Name>) returns (w: World)
    requires 2 <= q && 2 * words >= CRC_LEN && |initSecrets| == 2
    ensures Agreement.Init(w)
    ensures w.server.Keys == w.status.Keys == SetOf(initSecrets)
    ensures ProperFiles(crc, 2 * words, w.server)
  {
    var server := GenerateServer(crc, words, q, initSecrets);
    var client := CopyToClient(server, initSecrets, 2 * words);
    var status := MarkValid(initSecrets);
    w := World(server, client, status, None);
  }
}
