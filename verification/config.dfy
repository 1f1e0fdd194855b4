/** The constants of src/config/config.h as parameters, with the facts the proofs need. */
module Config {

  /** Sizes count bytes except readLen, which counts bits; BIT is 8, so M == N == 8 * sLen. */
  datatype Params = Params(
    q: nat, sLen: nat, eachNum: nat, secretSize: nat, keySize: nat,
    runningThreads: nat, clientThreads: nat, threadNum: nat, fileNum: nat,
    readLen: nat, readNum: nat)
  {
    /** Bytes of one chunk. */
    function ChunkSize(): nat {
      eachNum * sLen
    }

    /** PROGRESS: the number of chunks of one secret. */
    function Progress(): nat
      requires eachNum > 0 && sLen > 0
    {
      secretSize / eachNum / sLen
    }

    /** Random numbers per secret file and thread. */
    function Num(): nat
      requires readNum >= 8 && threadNum > 0
    {
      keySize / (readNum / 8) / threadNum
    }

    /** What key generation relies on. */
    predicate KeyOk() {
      && threadNum > 0 && readNum >= 8 && readNum % 8 == 0 && fileNum > 0
      && 0 < readLen <= secretSize && readLen / 8 < secretSize / threadNum
      && keySize == threadNum * (Num() * (readNum / 8))
    }

    /** What a transfer relies on; the last conjunct makes the decrypting threads cover a
        chunk (Tiling.DecryptCoversIff). */
    predicate TransferOk() {
      && 4 <= q <= 256 && sLen > 0 && eachNum > 0 && runningThreads > 0 && clientThreads > 0
      && Progress() > 0 && secretSize == Progress() * ChunkSize() && ChunkSize() >= 10
      && eachNum % runningThreads <= 1
    }
  }

  const DEPLOYED := Params(97, 1024, 1024, 1024 * 1024 * 1024, 8192 * 8192, 2, 2, 2, 8, 128, 1024)

  lemma DeployedOk()
    ensures DEPLOYED.KeyOk() && DEPLOYED.TransferOk()
    ensures DEPLOYED.Progress() == 1024 && DEPLOYED.Num() == 262144
  {
  }
}
