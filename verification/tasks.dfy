/** The generator's tasks on the thread pool, overlapping at will: a tmp task reads its share
    of a secret file and writes its tmp file later, a merge task reads and deletes its inputs
    one by one before it writes its part. Only the wait for the futures separates the phases. */
module Tasks {
  import opened Bits
  import opened KeyGen
  import opened Schedule
  import opened Sequences

  /** What the tmp tasks are to write: tmp[t][f] for secret file f and thread t, n bytes each. */
  datatype Grid = Grid(tmp: seq<seq<Bytes>>, files: nat, n: nat)
  {
    predicate Ok() {
      forall t :: 0 <= t < |tmp| ==> |tmp[t]| == files && SameLength(tmp[t], n)
    }

    predicate IsTask(p: Slot) {
      p.thread < |tmp| && p.file < files
    }

    function Tmp(p: Slot): Bytes
      requires Ok() && IsTask(p)
    {
      tmp[p.thread][p.file]
    }
  }

  function GridOf(job: Job): (g: Grid)
    requires job.Ok()
    ensures g.Ok()
  {
    Grid(seq(job.threads, t requires 0 <= t < job.threads => job.Tmps(t)), |job.files|, job.PartLen())
  }

  /** Names the tmp file of a secret file and a thread. */
  datatype Slot = Slot(file: nat, thread: nat)

  /** held is what tmp tasks have computed, loaded what merge tasks have read so far; tmp and
      parts are the files, keyed by slot and by thread. */
  datatype Work = Work(held: map<Slot, Bytes>, tmp: map<Slot, Bytes>, merging: bool,
                       loaded: map<nat, seq<Bytes>>, parts: map<nat, Bytes>)

  const START := Work(map[], map[], false, map[], map[])

  function Loaded(w: Work, t: nat): seq<Bytes> {
    if t in w.loaded then w.loaded[t] else []
  }

  function MergeOf(files: seq<Bytes>, n: nat): Bytes {
    if SameLength(files, n) then MergeSecrets(files, n) else []
  }

  predicate Compute(g: Grid, w: Work, w': Work, p: Slot)
    requires g.Ok()
  {
    !w.merging && g.IsTask(p) && p !in w.held && w' == w.(held := w.held[p := g.Tmp(p)])
  }

  predicate WriteTmp(w: Work, w': Work, p: Slot) {
    !w.merging && p in w.held && p !in w.tmp && w' == w.(tmp := w.tmp[p := w.held[p]])
  }

  /** All futures of the first phase are ready. */
  ghost predicate Barrier(g: Grid, w: Work, w': Work) {
    !w.merging && (forall p :: g.IsTask(p) ==> p in w.tmp) && w' == w.(merging := true)
  }

  /** A merge task reads its next input and deletes it. */
  predicate Load(g: Grid, w: Work, w': Work, t: nat) {
    w.merging && t < |g.tmp| && |Loaded(w, t)| < g.files
    && var p := Slot(|Loaded(w, t)|, t);
       p in w.tmp && w' == w.(tmp := w.tmp - {p}, loaded := w.loaded[t := Loaded(w, t) + [w.tmp[p]]])
  }

  predicate WritePart(g: Grid, w: Work, w': Work, t: nat) {
    w.merging && t < |g.tmp| && |Loaded(w, t)| == g.files && t !in w.parts
    && w' == w.(parts := w.parts[t := MergeOf(Loaded(w, t), g.n)])
  }

  ghost predicate Next(g: Grid, w: Work, w': Work)
    requires g.Ok()
  {
    || Barrier(g, w, w')
    || (exists p :: Compute(g, w, w', p) || WriteTmp(w, w', p))
    || (exists t: nat :: Load(g, w, w', t) || WritePart(g, w, w', t))
  }

  ghost predicate Run(g: Grid, run: seq<Work>)
    requires g.Ok()
  {
    run != [] && run[0] == START && forall n :: 0 <= n < |run| - 1 ==> Next(g, run[n], run[n + 1])
  }

  /** What was computed or written is what it should be. */
  ghost predicate TmpInv(g: Grid, w: Work)
    requires g.Ok()
  {
    && (forall p :: p in w.held ==> g.IsTask(p) && w.held[p] == g.Tmp(p))
    && (forall p :: p in w.tmp ==> g.IsTask(p) && w.tmp[p] == g.Tmp(p))
    && (!w.merging ==> w.loaded == map[] && w.parts == map[])
  }

  /** Every merge task has a beginning of its inputs; the rest is still on disk. */
  ghost predicate MergeInv(g: Grid, w: Work)
    requires g.Ok()
  {
    && (w.merging ==> forall p :: g.IsTask(p) ==> (p in w.tmp <==> p.file >= |Loaded(w, p.thread)|))
    && (forall t: nat :: t < |g.tmp| ==> Loaded(w, t) <= g.tmp[t])
    && (forall t :: t in w.parts ==> t < |g.tmp| && Loaded(w, t) == g.tmp[t] && w.parts[t] == MergeSecrets(g.tmp[t], g.n))
  }

  ghost predicate Inv(g: Grid, w: Work)
    requires g.Ok()
  {
    TmpInv(g, w) && MergeInv(g, w)
  }

  lemma TmpKeeps(g: Grid, w: Work, w': Work, p: Slot)
    requires g.Ok() && Inv(g, w) && (Compute(g, w, w', p) || WriteTmp(w, w', p))
    ensures Inv(g, w')
  {
    SameMerges(g, w, w');
  }

  lemma SameMerges(g: Grid, w: Work, w': Work)
    requires g.Ok() && MergeInv(g, w) && !w'.merging && w'.loaded == w.loaded && w'.parts == w.parts
    ensures MergeInv(g, w')
  {
    assert forall t: nat :: Loaded(w', t) == Loaded(w, t);
  }

  lemma BarrierKeeps(g: Grid, w: Work, w': Work)
    requires g.Ok() && Inv(g, w) && Barrier(g, w, w')
    ensures Inv(g, w')
  {
    assert forall t: nat :: Loaded(w', t) == Loaded(w, t) == [];
  }

  lemma LoadKeeps(g: Grid, w: Work, w': Work, t: nat)
    requires g.Ok() && Inv(g, w) && Load(g, w, w', t)
    ensures Inv(g, w')
  {
    var p := Slot(|Loaded(w, t)|, t);
    assert w.tmp[p] == g.Tmp(p) == g.tmp[t][p.file];
    assert Loaded(w', t) == Loaded(w, t) + [g.tmp[t][p.file]];
    assert forall u: nat :: u != t ==> Loaded(w', u) == Loaded(w, u);
    LoadKeepsMerges(g, w, w', t);
  }

  lemma LoadKeepsMerges(g: Grid, w: Work, w': Work, t: nat)
    requires g.Ok() && MergeInv(g, w) && w.merging && t < |g.tmp| && |Loaded(w, t)| < g.files
    requires w'.merging && w'.parts == w.parts && w'.tmp == w.tmp - {Slot(|Loaded(w, t)|, t)}
    requires Loaded(w', t) == Loaded(w, t) + [g.tmp[t][|Loaded(w, t)|]]
    requires forall u: nat :: u != t ==> Loaded(w', u) == Loaded(w, u)
    ensures MergeInv(g, w')
  {
  }

  lemma WritePartKeeps(g: Grid, w: Work, w': Work, t: nat)
    requires g.Ok() && Inv(g, w) && WritePart(g, w, w', t)
    ensures Inv(g, w')
  {
    assert Loaded(w, t) == g.tmp[t];
    assert SameLength(g.tmp[t], g.n);
    PartKeepsMerges(g, w, w', t);
  }

  lemma PartKeepsMerges(g: Grid, w: Work, w': Work, t: nat)
    requires g.Ok() && MergeInv(g, w) && t < |g.tmp| && Loaded(w, t) == g.tmp[t]
    requires w' == w.(parts := w.parts[t := MergeSecrets(g.tmp[t], g.n)])
    ensures MergeInv(g, w')
  {
    assert forall u: nat :: Loaded(w', u) == Loaded(w, u);
  }

  lemma NextKeeps(g: Grid, w: Work, w': Work)
    requires g.Ok() && Inv(g, w) && Next(g, w, w')
    ensures Inv(g, w')
  {
    if Barrier(g, w, w') {
      BarrierKeeps(g, w, w');
    } else if p :| Compute(g, w, w', p) || WriteTmp(w, w', p) {
      TmpKeeps(g, w, w', p);
    } else {
      var t: nat :| Load(g, w, w', t) || WritePart(g, w, w', t);
      if Load(g, w, w', t) {
        LoadKeeps(g, w, w', t);
      } else {
        WritePartKeeps(g, w, w', t);
      }
    }
  }

  lemma {:induction false} RunKeeps(g: Grid, run: seq<Work>, n: nat)
    requires g.Ok() && Run(g, run) && n < |run|
    ensures Inv(g, run[n])
    decreases n
  {
    if n > 0 {
      RunKeeps(g, run, n - 1);
      NextKeeps(g, run[n - 1], run[n]);
    }
  }

  /** All futures of the second phase are ready. */
  predicate Finished(g: Grid, w: Work) {
    forall t: nat :: t < |g.tmp| ==> t in w.parts
  }

  /** As long as the work is not finished some task can go on: no merge misses an input. */
  lemma NeverStuck(g: Grid, run: seq<Work>) returns (w': Work)
    requires g.Ok() && Run(g, run) && !Finished(g, Last(run))
    ensures Next(g, Last(run), w')
  {
    RunKeeps(g, run, |run| - 1);
    var w := Last(run);
    if !w.merging {
      w' := TmpGoesOn(g, w);
    } else {
      var t: nat :| t < |g.tmp| && t !in w.parts;
      w' := MergeGoesOn(g, w, t);
    }
  }

  lemma TmpGoesOn(g: Grid, w: Work) returns (w': Work)
    requires g.Ok() && !w.merging
    ensures Next(g, w, w')
  {
    if p :| g.IsTask(p) && p !in w.tmp {
      if p in w.held {
        w' := w.(tmp := w.tmp[p := w.held[p]]);
        assert WriteTmp(w, w', p);
      } else {
        w' := w.(held := w.held[p := g.Tmp(p)]);
        assert Compute(g, w, w', p);
      }
    } else {
      w' := w.(merging := true);
      assert Barrier(g, w, w');
    }
  }

  lemma MergeGoesOn(g: Grid, w: Work, t: nat) returns (w': Work)
    requires g.Ok() && Inv(g, w) && w.merging && t < |g.tmp| && t !in w.parts
    ensures Next(g, w, w')
  {
    if |Loaded(w, t)| < g.files {
      var p := Slot(|Loaded(w, t)|, t);
      assert g.IsTask(p);
      w' := w.(tmp := w.tmp - {p}, loaded := w.loaded[t := Loaded(w, t) + [w.tmp[p]]]);
      assert Load(g, w, w', t);
    } else {
      w' := w.(parts := w.parts[t := MergeOf(Loaded(w, t), g.n)]);
      assert WritePart(g, w, w', t);
    }
  }

  /** The part files in order, as the generator reads them back. */
  function PartFiles(g: Grid, w: Work): (parts: seq<Bytes>)
    requires Finished(g, w)
    ensures |parts| == |g.tmp|
  {
    seq(|g.tmp|, t requires 0 <= t < |g.tmp| => w.parts[t])
  }

  lemma AllMerged(g: Grid, run: seq<Work>, n: nat)
    requires g.Ok() && Run(g, run) && n < |run| && Finished(g, run[n])
    ensures run[n].tmp == map[]
    ensures forall t :: 0 <= t < |g.tmp| ==> PartFiles(g, run[n])[t] == MergeSecrets(g.tmp[t], g.n)
  {
    RunKeeps(g, run, n);
    var w := run[n];
    forall p
      ensures p !in w.tmp
    {
      assert p in w.tmp ==> g.IsTask(p) && p.thread in w.parts;
    }
  }

  /** However the pool runs and overlaps the tasks, in the end the tmp directory is empty and
      the part files are those of the running key. */
  lemma AnySchedule(job: Job, run: seq<Work>, n: nat)
    requires job.Ok() && Run(GridOf(job), run) && n < |run| && Finished(GridOf(job), run[n])
    ensures run[n].tmp == map[] && PartFiles(GridOf(job), run[n]) == job.Parts()
  {
    AllMerged(GridOf(job), run, n);
    var parts := PartFiles(GridOf(job), run[n]);
    forall t | 0 <= t < job.threads
      ensures parts[t] == job.Parts()[t]
    {
      assert GridOf(job).tmp[t] == job.Tmps(t);
    }
  }

  /** The closed form of the running key under any schedule: bit r * readNum + i of part t is
      the exclusive or over the secret files of the parity of one window of each. */
  lemma KeyUnderAnySchedule(job: Job, run: seq<Work>, n: nat, t: nat, r: nat, i: nat)
    requires job.Ok() && LongEnough(job) && Run(GridOf(job), run) && n < |run| && Finished(GridOf(job), run[n])
    requires t < job.threads && r < job.num && i < job.readNum
    ensures var parts := PartFiles(GridOf(job), run[n]);
            SameLength(parts, job.PartLen())
            && var key := Concat(parts, job.PartLen());
               var k := 8 * (t * job.PartLen()) + InPart(job, r, i);
               k < 8 * |key| && Unpack(key)[k] == Parity(FileBits(job, t, r, i))
  {
    AnySchedule(job, run, n);
    KeyMeetsClosedForm(job, t, r, i);
    WindowsAreFileBits(job, t, r, i);
  }
}
