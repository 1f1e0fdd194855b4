/** The pulling loop of src/ClientApp.cc: batches of asynchronous chunk requests numbered by
    an atomic counter, a join that stops at the first failure, and the final gather. */
module Dispatch {

  function Range(a: nat, b: nat): (r: seq<nat>)
    ensures |r| == (if a < b then b - a else 0)
    ensures forall i :: 0 <= i < |r| ==> r[i] == a + i
  {
    if a < b then seq(b - a, i requires 0 <= i => a + i) else []
  }

  /** How many requests each round of the loop launches: all there is room for. */
  function Batches(start: nat, total: nat, clientThreads: nat): (sizes: seq<nat>)
    requires clientThreads >= 1
    ensures sizes != []
    decreases total - start
  {
    [BatchSize(start, total, clientThreads)]
    + if start + clientThreads >= total then [] else Batches(start + clientThreads, total, clientThreads)
  }

  function BatchSize(start: nat, total: nat, clientThreads: nat): nat {
    if start >= total then 0 else if total - start <= clientThreads then total - start else clientThreads
  }

  function Sum(sizes: seq<nat>): nat {
    if sizes == [] then 0 else sizes[0] + Sum(sizes[1..])
  }

  /** No round launches more than CLIENT_THREAD_NUM requests, every round but the last launches
      that many, and together they launch what is missing. */
  lemma {:induction false} BatchesAreBounded(start: nat, total: nat, clientThreads: nat)
    requires clientThreads >= 1
    ensures forall k :: 0 <= k < |Batches(start, total, clientThreads)| ==> Batches(start, total, clientThreads)[k] <= clientThreads
    ensures forall k :: 0 <= k < |Batches(start, total, clientThreads)| - 1 ==> Batches(start, total, clientThreads)[k] == clientThreads
    ensures Sum(Batches(start, total, clientThreads)) == if start < total then total - start else 0
    decreases total - start
  {
    var sizes := Batches(start, total, clientThreads);
    if start < total && total - start > clientThreads {
      BatchesAreBounded(start + clientThreads, total, clientThreads);
      assert sizes[1..] == Batches(start + clientThreads, total, clientThreads);
    } else {
      assert sizes[1..] == [];
    }
  }

  lemma OneBatch(before: seq<nat>, start: nat, total: nat, clientThreads: nat, all: seq<nat>)
    requires clientThreads >= 1 && before + Batches(start, total, clientThreads) == all
    ensures var now := before + [BatchSize(start, total, clientThreads)];
            now + (if start + clientThreads >= total then [] else Batches(start + clientThreads, total, clientThreads)) == all
  {
  }

  /** What is launched so far and what is still to be launched make up the whole. */
  predicate Launched(launched: seq<nat>, batches: seq<nat>, count: nat, total: nat, clientThreads: nat,
                     launchedAtEnd: seq<nat>, batchesAtEnd: seq<nat>)
    requires clientThreads >= 1
  {
    && launched + Range(count, total) == launchedAtEnd
    && batches + Batches(count, total, clientThreads) == batchesAtEnd
  }

  lemma RangeSplits(a: nat, b: nat, c: nat)
    requires a <= b && (b <= c || a == b)
    ensures Range(a, b) + Range(b, c) == Range(a, c)
  {
  }

  lemma LaunchedSplits(launched: seq<nat>, a: nat, b: nat, c: nat)
    requires a <= b && (b <= c || a == b)
    ensures launched + Range(a, b) + Range(b, c) == launched + Range(a, c)
  {
    RangeSplits(a, b, c);
    assert launched + Range(a, b) + Range(b, c) == launched + (Range(a, b) + Range(b, c));
  }

  lemma OneRound(launched: seq<nat>, batches: seq<nat>, first: nat, total: nat, clientThreads: nat,
                 launchedAtEnd: seq<nat>, batchesAtEnd: seq<nat>)
    requires clientThreads >= 1 && Launched(launched, batches, first, total, clientThreads, launchedAtEnd, batchesAtEnd)
    ensures var n := BatchSize(first, total, clientThreads);
            var now, sizes := launched + Range(first, first + n), batches + [n];
            if first + n >= total then now == launchedAtEnd && sizes == batchesAtEnd
            else Launched(now, sizes, first + n, total, clientThreads, launchedAtEnd, batchesAtEnd)
  {
    var n := BatchSize(first, total, clientThreads);
    LaunchedSplits(launched, first, first + n, total);
    OneBatch(batches, first, total, clientThreads, batchesAtEnd);
  }

  class Client {
    /** The client's member of the count zset. */
    var indexCount: nat
    /** The chunks whose process was launched, and the arguments gather was called with. */
    var launched: seq<nat>
    var gathered: seq<nat>
    /** How many requests each round has launched: the sizes of the vectors of futures. */
    var batches: seq<nat>

    constructor (indexCount: nat)
      ensures this.indexCount == indexCount && launched == [] && gathered == [] && batches == []
    {
      this.indexCount := indexCount;
      launched, gathered, batches := [], [], [];
    }

    method ZIncrBy() returns (progress: nat)
      modifies this`indexCount
      ensures progress == indexCount == old(indexCount) + 1
    {
      indexCount := indexCount + 1;
      progress := indexCount;
    }

    /** std::async of process: whether the request will succeed is open. */
    method Launch(chunk: nat) returns (outcome: bool)
      modifies this`launched
      ensures launched == old(launched) + [chunk]
    {
      launched := launched + [chunk];
      outcome := *;
    }

    method Gather(progress: nat) returns (done: bool)
      modifies this`gathered
      ensures done && gathered == old(gathered) + [progress]
    {
      gathered := gathered + [progress];
      done := true;
    }

    /** One round: chunks are launched until the batch is full or the counter reaches total. */
    method LaunchBatch(total: nat, clientThreads: nat) returns (progress: nat, outcomes: seq<bool>)
      requires clientThreads >= 1
      modifies this`indexCount, this`launched, this`batches
      ensures progress == indexCount == old(indexCount) + (if old(indexCount) < total then BatchSize(old(indexCount), total, clientThreads) else 1)
      ensures launched == old(launched) + Range(old(indexCount), old(indexCount) + |outcomes|)
      ensures |outcomes| == BatchSize(old(indexCount), total, clientThreads) && batches == old(batches) + [|outcomes|]
    {
      progress, outcomes := 0, [];
      var clientThreadId := 0;
      while clientThreadId < clientThreads
        invariant |outcomes| == clientThreadId <= clientThreads && indexCount == old(indexCount) + clientThreadId
        invariant clientThreadId > 0 ==> progress == indexCount < total
        invariant launched == old(launched) + Range(old(indexCount), indexCount) && batches == old(batches)
      {
        progress := ZIncrBy();
        if progress <= total {
          var outcome := Launch(progress - 1);
          outcomes := outcomes + [outcome];
          assert Range(old(indexCount), progress) == Range(old(indexCount), progress - 1) + [progress - 1];
        }
        if progress >= total {
          break;
        }
        clientThreadId := clientThreadId + 1;
      }
      batches := batches + [|outcomes|];
    }

    /** Whatever requests fail and wherever the counter starts, every chunk from there to
        total - 1 is launched once, in order and in batches that are joined one after another,
        and gather is called once: with total, or with one past the counter when nothing was
        left to launch. */
    method PullSecret(total: nat, clientThreads: nat)
      requires clientThreads >= 1
      modifies this
      ensures launched == old(launched) + Range(old(indexCount), total)
      ensures indexCount == (if old(indexCount) < total then total else old(indexCount) + 1)
      ensures gathered == old(gathered) + [indexCount]
      ensures batches == old(batches) + Batches(old(indexCount), total, clientThreads)
    {
      ghost var start := indexCount;
      ghost var launchedAtEnd := launched + Range(start, total);
      ghost var batchesAtEnd := batches + Batches(start, total, clientThreads);
      while true
        invariant start == indexCount || start < indexCount < total
        invariant Launched(launched, batches, indexCount, total, clientThreads, launchedAtEnd, batchesAtEnd)
        invariant gathered == old(gathered)
        decreases total - indexCount
      {
        OneRound(launched, batches, indexCount, total, clientThreads, launchedAtEnd, batchesAtEnd);
        var progress, outcomes := LaunchBatch(total, clientThreads);

        var joined := 0;
        while joined < |outcomes|
          decreases |outcomes| - joined
        {
          var runningFlag := outcomes[joined];
          if !runningFlag {
            break;
          }
          joined := joined + 1;
        }

        if progress >= total {
          var runningFlag := Gather(progress);
          if runningFlag {
            break;
          }
        }
      }
    }
  }

  /** From a fresh counter: each chunk once and gather(total), so gather reads them all. */
  method PullFreshSecret(total: nat, clientThreads: nat) returns (c: Client)
    requires clientThreads >= 1 && total >= 1
    ensures fresh(c) && c.launched == Range(0, total) && c.gathered == [total] && c.batches == Batches(0, total, clientThreads)
  {
    c := new Client(0);
    c.PullSecret(total, clientThreads);
  }
}
