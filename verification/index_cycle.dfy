/** The life of a secret index: genSecret reads a lock key and a time zset before issuing,
    the generator writes the zset and deletes the key after generating. Every Redis command
    is one step; the two programs interleave freely. The orders of the two reads and of the
    two writes are parameters, so that the source's choice can be compared with the others. */
module IndexCycle {

  type Index = nat

  datatype Source = Server | Client

  datatype Message = Message(source: Source, index: Index)

  /** lockFirst: genSecret reads the lock before the time. timeFirst: the generator writes
      the time before it deletes the lock. */
  datatype Orders = Orders(lockFirst: bool, timeFirst: bool)

  /** genSecret reads redis.get before zscore; the generator calls zadd before del. */
  const SOURCE := Orders(true, true)

  datatype Issuer = Ready | HalfRead(c: Index, seen: bool) | Chosen(c: Index) | Pushing(c: Index)

  datatype Generator = Idle | Checking(m: Message) | Working(m: Message) | HalfWritten(m: Message)

  datatype State = State(locked: set<Index>, times: set<Index>, clientTimes: set<Index>,
                         queue: seq<Message>, issuer: Issuer, generator: Generator, issued: seq<Index>)

  predicate Init(s: State) {
    s.queue == [] && s.issuer == Ready && s.generator == Idle && s.issued == []
  }

  // ----- genSecret

  /** A candidate is drawn and the first of the two reads is made. */
  predicate FirstRead(o: Orders, s: State, s': State, c: Index) {
    s.issuer == Ready
    && s' == s.(issuer := HalfRead(c, if o.lockFirst then c in s.locked else c in s.times))
  }

  predicate SecondRead(o: Orders, s: State, s': State) {
    s.issuer.HalfRead?
    && var c := s.issuer.c;
       var seen := if o.lockFirst then c in s.times else c in s.locked;
       s' == s.(issuer := if !s.issuer.seen && !seen then Chosen(c) else Ready)
  }

  /** redis.set succeeds: from here on the index counts as issued. */
  predicate SetLock(s: State, s': State) {
    s.issuer.Chosen?
    && s' == s.(locked := s.locked + {s.issuer.c}, issued := s.issued + [s.issuer.c], issuer := Pushing(s.issuer.c))
  }

  predicate Push(s: State, s': State) {
    s.issuer.Pushing?
    && s' == s.(queue := s.queue + [Message(Server, s.issuer.c)], issuer := Ready)
  }

  /** A failed set or lpush answers 500 and takes nothing back. */
  predicate IssueFails(s: State, s': State) {
    (s.issuer.Chosen? || s.issuer.Pushing?) && s' == s.(issuer := Ready)
  }

  predicate ClientPush(s: State, s': State, c: Index) {
    c in s.issued && s' == s.(queue := s.queue + [Message(Client, c)])
  }

  // ----- the generator

  function TimesOf(s: State, source: Source): set<Index> {
    if source == Server then s.times else s.clientTimes
  }

  function WithTime(s: State, m: Message): State {
    if m.source == Server then s.(times := s.times + {m.index}) else s.(clientTimes := s.clientTimes + {m.index})
  }

  function WithoutLock(s: State, m: Message): State {
    if m.source == Server then s.(locked := s.locked - {m.index}) else s
  }

  predicate Pop(s: State, s': State) {
    s.generator == Idle && s.queue != [] && s' == s.(queue := s.queue[1..], generator := Checking(s.queue[0]))
  }

  predicate CheckTime(s: State, s': State) {
    s.generator.Checking?
    && var m := s.generator.m;
       s' == s.(generator := if m.index in TimesOf(s, m.source) then Idle else Working(m))
  }

  /** Any of the error exits, or a Redis exception between the two writes. */
  predicate GiveUp(s: State, s': State) {
    (s.generator.Working? || s.generator.HalfWritten?) && s' == s.(generator := Idle)
  }

  predicate FirstWrite(o: Orders, s: State, s': State) {
    s.generator.Working?
    && var m := s.generator.m;
       s' == (if o.timeFirst then WithTime(s, m) else WithoutLock(s, m)).(generator := HalfWritten(m))
  }

  predicate SecondWrite(o: Orders, s: State, s': State) {
    s.generator.HalfWritten?
    && var m := s.generator.m;
       s' == (if o.timeFirst then WithoutLock(s, m) else WithTime(s, m)).(generator := Idle)
  }

  ghost predicate Next(o: Orders, s: State, s': State) {
    || SecondRead(o, s, s') || SetLock(s, s') || Push(s, s') || IssueFails(s, s')
    || Pop(s, s') || CheckTime(s, s') || GiveUp(s, s') || FirstWrite(o, s, s') || SecondWrite(o, s, s')
    || exists c: Index :: FirstRead(o, s, s', c) || ClientPush(s, s', c)
  }

  ghost predicate Run(o: Orders, run: seq<State>) {
    run != [] && Init(run[0]) && forall n :: 0 <= n < |run| - 1 ==> StepAt(o, run, n)
  }

  ghost predicate StepAt(o: Orders, run: seq<State>, n: nat)
    requires n < |run| - 1
  {
    Next(o, run[n], run[n + 1])
  }

  lemma StepInRun(o: Orders, run: seq<State>, n: nat)
    requires Run(o, run) && n < |run| - 1
    ensures Next(o, run[n], run[n + 1])
  {
    assert StepAt(o, run, n);
  }

  predicate IssuedOnce(s: State) {
    forall i, j :: 0 <= i < j < |s.issued| ==> s.issued[i] != s.issued[j]
  }

  // ----- the source's orders are safe

  /** Every issued index is locked or in the time zset, and what the issuer has read so far
      is still good enough. */
  predicate Inv(s: State) {
    && IssuedOnce(s)
    && (forall c :: c in s.issued ==> c in s.locked || c in s.times)
    && (s.issuer.HalfRead? && !s.issuer.seen ==> s.issuer.c !in s.issued || s.issuer.c in s.times)
    && (s.issuer.Chosen? ==> s.issuer.c !in s.issued)
    && (s.generator.HalfWritten? && s.generator.m.source == Server ==> s.generator.m.index in s.times)
  }

  lemma NextKeeps(s: State, s': State)
    requires Inv(s) && Next(SOURCE, s, s')
    ensures Inv(s')
  {
  }

  lemma {:induction false} RunKeeps(run: seq<State>, n: nat)
    requires Run(SOURCE, run) && n < |run|
    ensures Inv(run[n])
    decreases n
  {
    if n > 0 {
      RunKeeps(run, n - 1);
      StepInRun(SOURCE, run, n - 1);
      NextKeeps(run[n - 1], run[n]);
    }
  }

  /** Nothing that was in the time zset at the start is ever issued. */
  predicate OnlyNew(s: State, start: set<Index>) {
    start <= s.times && (s.issuer.Chosen? ==> s.issuer.c !in start) && forall c :: c in s.issued ==> c !in start
  }

  lemma OnlyNewKeeps(s: State, s': State, start: set<Index>)
    requires OnlyNew(s, start) && Next(SOURCE, s, s')
    ensures OnlyNew(s', start) && s.issued <= s'.issued
  {
  }

  /** An issued index was not in the time zset from the beginning either, so it is new to both
      nodes: init registers the secrets it copies there. */
  lemma {:induction false} IssuedAreNew(run: seq<State>, n: nat)
    requires Run(SOURCE, run) && n < |run|
    ensures OnlyNew(run[n], run[0].times)
    decreases n
  {
    if n > 0 {
      IssuedAreNew(run, n - 1);
      StepInRun(SOURCE, run, n - 1);
      OnlyNewKeeps(run[n - 1], run[n], run[0].times);
    }
  }

  ghost predicate Safe(o: Orders) {
    forall run :: Run(o, run) ==> IssuedOnce(run[|run| - 1])
  }

  // ----- no message is lost

  predicate Has(g: Generator, m: Message) {
    g in {Checking(m), Working(m), HalfWritten(m)}
  }

  /** The message is queued, or the generator has it, or its node's zset holds the index. */
  predicate Held(s: State, m: Message) {
    || m in s.queue
    || Has(s.generator, m)
    || m.index in (match m.source case Server => s.times case Client => s.clientTimes)
  }

  /** The generator works on an index only while its node's zset lacks it; after the first of
      its writes the zset has it. */
  predicate WorksOnNew(s: State) {
    match s.generator
    case Working(Message(Server, c)) => c !in s.times
    case Working(Message(Client, c)) => c !in s.clientTimes
    case HalfWritten(Message(Server, c)) => c in s.times
    case HalfWritten(Message(Client, c)) => c in s.clientTimes
    case _ => true
  }

  /** The one step that loses a message: giving up before the time is written. */
  predicate Abandons(s: State, s': State, m: Message) {
    s.generator == Working(m) && GiveUp(s, s')
  }

  predicate AbandonedAt(run: seq<State>, j: nat, m: Message) {
    j + 1 < |run| && Abandons(run[j], run[j + 1], m)
  }

  lemma WorksOnNewKeeps(s: State, s': State)
    requires WorksOnNew(s) && Next(SOURCE, s, s')
    ensures WorksOnNew(s')
  {
  }

  lemma HeldUnlessAbandoned(s: State, s': State, m: Message)
    requires WorksOnNew(s) && Next(SOURCE, s, s') && Held(s, m)
    ensures Held(s', m) || Abandons(s, s', m)
    ensures Abandons(s, s', m) ==> (Held(s', m) <==> m in s.queue)
  {
    if Pop(s, s') && m != s.queue[0] && m in s.queue {
      assert m in s.queue[1..];
    }
  }

  lemma {:induction false} WorkingIsNew(run: seq<State>, n: nat)
    requires Run(SOURCE, run) && n < |run|
    ensures WorksOnNew(run[n])
    decreases n
  {
    if n > 0 {
      WorkingIsNew(run, n - 1);
      StepInRun(SOURCE, run, n - 1);
      WorksOnNewKeeps(run[n - 1], run[n]);
    }
  }

  lemma HeldOnwards(run: seq<State>, j: nat, m: Message)
    requires Run(SOURCE, run) && j + 1 < |run| && Held(run[j], m) && !AbandonedAt(run, j, m)
    ensures Held(run[j + 1], m)
  {
    WorkingIsNew(run, j);
    StepInRun(SOURCE, run, j);
    HeldUnlessAbandoned(run[j], run[j + 1], m);
  }

  /** In every run: what was queued is still queued, or being handled, or in the zset of the node
      that asked, unless the generator gave up while it worked on it. */
  lemma {:induction false} NoMessageLost(run: seq<State>, k: nat, n: nat, m: Message)
    requires Run(SOURCE, run) && k <= n < |run| && m in run[k].queue
    requires forall j :: k <= j < n ==> !AbandonedAt(run, j, m)
    ensures Held(run[n], m)
    decreases n
  {
    if k < n {
      assert !AbandonedAt(run, n - 1, m);
      NoMessageLost(run, k, n - 1, m);
      HeldOnwards(run, n - 1, m);
    }
  }

  /** Hence with nothing queued and the generator idle every message has been answered: the
      index of each is in the zset of the node that asked for it. */
  lemma EveryMessageAnswered(run: seq<State>, k: nat, n: nat, m: Message)
    requires Run(SOURCE, run) && k <= n < |run| && m in run[k].queue
    requires forall j :: k <= j < n ==> !AbandonedAt(run, j, m)
    requires run[n].queue == [] && run[n].generator == Idle
    ensures if m.source.Server? then m.index in run[n].times else m.index in run[n].clientTimes
  {
    NoMessageLost(run, k, n, m);
  }

  /** An issued index is generated for the server, unless its message could not be pushed. */
  predicate IssuedHeld(s: State) {
    forall c :: c in s.issued ==> s.issuer == Pushing(c) || Held(s, Message(Server, c))
  }

  /** No message fails to be pushed, and the generator does not give up. */
  predicate Smooth(s: State, s': State) {
    !(s.issuer.Pushing? && IssueFails(s, s')) && !GiveUp(s, s')
  }

  predicate SmoothAt(run: seq<State>, j: nat) {
    j + 1 < |run| && Smooth(run[j], run[j + 1])
  }

  lemma IssuedHeldKeeps(s: State, s': State)
    requires WorksOnNew(s) && IssuedHeld(s) && Next(SOURCE, s, s') && Smooth(s, s')
    ensures IssuedHeld(s')
  {
    forall c | c in s'.issued
      ensures s'.issuer == Pushing(c) || Held(s', Message(Server, c))
    {
      if Held(s, Message(Server, c)) {
        HeldUnlessAbandoned(s, s', Message(Server, c));
      }
    }
  }

  lemma {:induction false} IssuedIsGenerated(run: seq<State>, n: nat)
    requires Run(SOURCE, run) && n < |run| && forall j :: 0 <= j < n ==> SmoothAt(run, j)
    ensures IssuedHeld(run[n])
    ensures run[n].queue == [] && run[n].generator == Idle && run[n].issuer == Ready ==>
      forall c :: c in run[n].issued ==> c in run[n].times
    decreases n
  {
    if n > 0 {
      assert SmoothAt(run, n - 1);
      IssuedIsGenerated(run, n - 1);
      WorkingIsNew(run, n - 1);
      StepInRun(SOURCE, run, n - 1);
      IssuedHeldKeeps(run[n - 1], run[n]);
    }
  }

  // ----- every lock is released

  /** Each issued index has one message for the server at most, and until that message is
      handled the index is not in the time zset. */
  predicate OneMessageEach(s: State) {
    QueuedOnce(s) && NotHandledYet(s)
  }

  predicate QueuedOnce(s: State) {
    && (forall i :: 0 <= i < |s.queue| && s.queue[i].source.Server? ==>
          s.queue[i].index in s.issued && s.queue[i].index !in s.times && !Has(s.generator, s.queue[i])
          && s.issuer != Pushing(s.queue[i].index))
    && (forall i, j :: 0 <= i < j < |s.queue| && s.queue[i].source.Server? ==> s.queue[i] != s.queue[j])
  }

  predicate NotHandledYet(s: State) {
    && (!s.generator.Idle? && s.generator.m.source.Server? ==>
          s.generator.m.index in s.issued && s.issuer != Pushing(s.generator.m.index)
          && (s.generator.HalfWritten? || s.generator.m.index !in s.times))
    && (s.issuer.Pushing? ==> s.issuer.c in s.issued && s.issuer.c !in s.times)
    && (s.issuer.Chosen? ==> s.issuer.c !in s.issued && s.issuer.c !in s.times)
  }

  lemma OneMessageEachKeeps(s: State, s': State)
    requires Inv(s) && OneMessageEach(s) && Next(SOURCE, s, s')
    ensures OneMessageEach(s')
  {
    QueuedOnceKeeps(s, s');
  }

  lemma QueuedOnceKeeps(s: State, s': State)
    requires Inv(s) && OneMessageEach(s) && Next(SOURCE, s, s')
    ensures QueuedOnce(s')
  {
    if Push(s, s') {
    } else if Pop(s, s') {
    }
  }

  /** A lock that was not there at the start belongs to an index whose message is on its way. */
  predicate LockedForMessage(s: State, start: set<Index>) {
    forall c :: c in s.locked && c !in start ==>
      s.issuer == Pushing(c) || Message(Server, c) in s.queue || Has(s.generator, Message(Server, c))
  }

  lemma LockedForMessageKeeps(s: State, s': State, start: set<Index>)
    requires OneMessageEach(s) && LockedForMessage(s, start) && Next(SOURCE, s, s') && Smooth(s, s')
    ensures LockedForMessage(s', start)
  {
    if Pop(s, s') {
      assert s.queue == [s.queue[0]] + s'.queue;
    }
  }

  /** Without failures every lock that genSecret sets is released: with nothing under way only
      those of the start are left. */
  lemma {:induction false} LocksAreReleased(run: seq<State>, n: nat)
    requires Run(SOURCE, run) && n < |run| && forall j :: 0 <= j < n ==> SmoothAt(run, j)
    ensures OneMessageEach(run[n]) && LockedForMessage(run[n], run[0].locked)
    ensures run[n].queue == [] && run[n].generator == Idle && run[n].issuer == Ready ==> run[n].locked <= run[0].locked
    decreases n
  {
    if n > 0 {
      assert SmoothAt(run, n - 1);
      LocksAreReleased(run, n - 1);
      RunKeeps(run, n - 1);
      StepInRun(SOURCE, run, n - 1);
      OneMessageEachKeeps(run[n - 1], run[n]);
      LockedForMessageKeeps(run[n - 1], run[n], run[0].locked);
    }
  }

  // ----- the other orders are not

  /** Index 7 is issued, queued and being generated for the server. */
  function Generating(o: Orders): (run: seq<State>)
    ensures |run| == 7
  {
    var m := Message(Server, 7);
    var s0 := State({}, {}, {}, [], Ready, Idle, []);
    var s1 := s0.(issuer := HalfRead(7, false));
    var s2 := s0.(issuer := Chosen(7));
    var s3 := s0.(issuer := Pushing(7), locked := {7}, issued := [7]);
    var s4 := s3.(issuer := Ready, queue := [m]);
    var s5 := s4.(queue := [], generator := Checking(m));
    var s6 := s5.(generator := Working(m));
    [s0, s1, s2, s3, s4, s5, s6]
  }

  lemma GeneratingRuns(o: Orders)
    ensures Run(o, Generating(o))
  {
    var run := Generating(o);
    assert FirstRead(o, run[0], run[1], 7);
    assert SecondRead(o, run[1], run[2]);
    assert SetLock(run[2], run[3]);
    assert Push(run[3], run[4]);
    assert Pop(run[4], run[5]);
    assert CheckTime(run[5], run[6]);
    forall n | 0 <= n < |run| - 1
      ensures StepAt(o, run, n)
    {
      assert n in {0, 1, 2, 3, 4, 5};
    }
  }

  lemma Extend(o: Orders, run: seq<State>, s: State)
    requires Run(o, run) && Next(o, run[|run| - 1], s)
    ensures Run(o, run + [s])
  {
    var longer := run + [s];
    forall n | 0 <= n < |longer| - 1
      ensures StepAt(o, longer, n)
    {
      if n < |run| - 1 {
        StepInRun(o, run, n);
      }
    }
  }

  /** Two reads that both miss and the set that follows them. */
  lemma IssueAgain(o: Orders, run: seq<State>)
    requires Run(o, run) && run[|run| - 1].issued == [7]
    requires run[|run| - 1].issuer == HalfRead(7, false)
    requires 7 !in (if o.lockFirst then run[|run| - 1].times else run[|run| - 1].locked)
    ensures !Safe(o)
  {
    var s := run[|run| - 1];
    var t := s.(issuer := Chosen(7));
    assert SecondRead(o, s, t);
    Extend(o, run, t);
    var u := t.(locked := t.locked + {7}, issued := [7, 7], issuer := Pushing(7));
    assert SetLock(t, u);
    Extend(o, run + [t], u);
    var bad := run + [t] + [u];
    assert bad[|bad| - 1].issued[0] == bad[|bad| - 1].issued[1];
  }

  /** Deleting the lock before writing the time leaves a gap between the two writes. */
  lemma DeleteFirstReissues(o: Orders)
    requires !o.timeFirst
    ensures !Safe(o)
  {
    GeneratingRuns(o);
    var run := Generating(o);
    var s := run[6].(locked := {}, generator := HalfWritten(Message(Server, 7)));
    assert s.locked == run[6].locked - {7};
    assert FirstWrite(o, run[6], s);
    Extend(o, run, s);
    var t := s.(issuer := HalfRead(7, false));
    assert FirstRead(o, s, t, 7);
    Extend(o, run + [s], t);
    IssueAgain(o, run + [s] + [t]);
  }

  /** Reading the time before the lock lets both writes slip in between the two reads. */
  lemma TimeReadFirstReissues(o: Orders)
    requires !o.lockFirst && o.timeFirst
    ensures !Safe(o)
  {
    GeneratingRuns(o);
    var run := Generating(o);
    var r := run[6].(issuer := HalfRead(7, false));
    assert FirstRead(o, run[6], r, 7);
    Extend(o, run, r);
    var s := r.(times := r.times + {7}, generator := HalfWritten(Message(Server, 7)));
    assert FirstWrite(o, r, s);
    Extend(o, run + [r], s);
    var t := s.(locked := s.locked - {7}, generator := Idle);
    assert SecondWrite(o, s, t);
    Extend(o, run + [r] + [s], t);
    IssueAgain(o, run + [r] + [s] + [t]);
  }

  /** No index is ever issued twice, under any interleaving, exactly with the source's orders. */
  lemma NeverReissuedIff(o: Orders)
    ensures Safe(o) <==> o == SOURCE
  {
    if o == SOURCE {
      forall run | Run(o, run)
        ensures IssuedOnce(run[|run| - 1])
      {
        RunKeeps(run, |run| - 1);
      }
    } else if !o.timeFirst {
      DeleteFirstReissues(o);
    } else {
      TimeReadFirstReissues(o);
    }
  }

  // ----- the loop of genSecret on its own

  /** The candidates are drawn until one is neither locked nor timed; with nobody writing in
      between, that is the first free candidate. */
  method GenSecret(candidates: seq<Index>, locked: set<Index>, times: set<Index>) returns (i: nat)
    ensures i <= |candidates|
    ensures i < |candidates| ==> candidates[i] !in locked && candidates[i] !in times
    ensures forall j :: 0 <= j < i ==> candidates[j] in locked || candidates[j] in times
  {
    i := 0;
    while i < |candidates|
      invariant i <= |candidates|
      invariant forall j :: 0 <= j < i ==> candidates[j] in locked || candidates[j] in times
    {
      var isExist := candidates[i] in locked;
      var score := candidates[i] in times;
      if !isExist && !score {
        break;
      }
      i := i + 1;
    }
  }
}
