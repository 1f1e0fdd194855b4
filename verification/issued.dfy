/** Histories together with the issuing of indices: genSecret and the generator run on, and
    every transfer starts under an issued index. That such an index is new to both nodes is
    then a theorem. */
module Issued {
  import opened Agreement
  import opened Transfer
  import IndexCycle

  /** used holds the positions of the issued indices under which a transfer has started. */
  datatype System = System(world: World, cycle: IndexCycle.State, used: set<nat>)

  /** init.cc enters the first secrets in the time zset. */
  ghost predicate Init(x: System) {
    && Agreement.Init(x.world) && IndexCycle.Init(x.cycle) && x.used == {}
    && forall name :: Known(x.world, name) ==> name in x.cycle.times
  }

  /** Some file, status or transfer goes by this name. */
  predicate Known(w: World, name: Name) {
    !NewTo(w, name) || (w.current.Some? && w.current.value.0 == name)
  }

  ghost predicate Cycle(x: System, x': System) {
    IndexCycle.Next(IndexCycle.SOURCE, x.cycle, x'.cycle) && x' == x.(cycle := x'.cycle)
  }

  ghost predicate Continue(env: Env, x: System, x': System)
    requires EnvOk(env)
  {
    (Commit(env, x.world, x'.world) || exists s' :: Advance(env, x.world, x'.world, s')) && x' == x.(world := x'.world)
  }

  /** The transfer for the index issued at position k. */
  ghost predicate BeginIssued(env: Env, x: System, x': System, k: nat)
    requires EnvOk(env)
  {
    k < |x.cycle.issued| && k !in x.used && x' == System(x'.world, x.cycle, x.used + {k})
    && exists order, draws, s :: Begin(env, x.world, x'.world, x.cycle.issued[k], order, draws, s)
  }

  ghost predicate Next(env: Env, x: System, x': System)
    requires EnvOk(env)
  {
    Cycle(x, x') || Continue(env, x, x') || exists k :: BeginIssued(env, x, x', k)
  }

  ghost predicate StepAt(env: Env, run: seq<System>, n: nat)
    requires EnvOk(env) && n < |run| - 1
  {
    Next(env, run[n], run[n + 1])
  }

  ghost predicate History(env: Env, run: seq<System>)
    requires EnvOk(env)
  {
    run != [] && Init(run[0]) && forall n :: 0 <= n < |run| - 1 ==> StepAt(env, run, n)
  }

  /** Every name is an initial one or was issued at a position used since. */
  ghost predicate Named(x: System, start: set<Name>) {
    && (forall k :: k in x.used ==> k < |x.cycle.issued|)
    && forall name :: Known(x.world, name) ==>
         name in start || exists k :: k in x.used && x.cycle.issued[k] == name
  }

  ghost predicate CycleInv(x: System, start: set<Name>) {
    IndexCycle.Inv(x.cycle) && IndexCycle.OnlyNew(x.cycle, start) && Named(x, start)
  }

  /** An issued index that has not been used is new to both nodes. */
  lemma UnusedIsNew(x: System, start: set<Name>, k: nat)
    requires CycleInv(x, start) && k < |x.cycle.issued| && k !in x.used
    ensures NewTo(x.world, x.cycle.issued[k])
  {
    var name := x.cycle.issued[k];
    assert name in x.cycle.issued && name !in start;
    assert !NewTo(x.world, name) ==> Known(x.world, name);
  }

  lemma CycleKeeps(x: System, x': System, start: set<Name>)
    requires CycleInv(x, start) && Cycle(x, x')
    ensures CycleInv(x', start)
  {
    IndexCycle.NextKeeps(x.cycle, x'.cycle);
    IndexCycle.OnlyNewKeeps(x.cycle, x'.cycle, start);
    forall name | Known(x'.world, name) && name !in start
      ensures exists k :: k in x'.used && x'.cycle.issued[k] == name
    {
      var k :| k in x.used && x.cycle.issued[k] == name;
      assert x'.cycle.issued[k] == name;
    }
  }

  /** Going on with a transfer brings up no new name. */
  lemma ContinueKeeps(env: Env, x: System, x': System, start: set<Name>)
    requires EnvOk(env) && CycleInv(x, start) && Continue(env, x, x')
    ensures CycleInv(x', start)
  {
    forall name | Known(x'.world, name)
      ensures Known(x.world, name)
    {
    }
  }

  lemma BeginKeeps(env: Env, x: System, x': System, k: nat, start: set<Name>)
    requires EnvOk(env) && CycleInv(x, start) && BeginIssued(env, x, x', k)
    ensures CycleInv(x', start)
  {
    forall name | Known(x'.world, name) && name !in start
      ensures exists j :: j in x'.used && x'.cycle.issued[j] == name
    {
      if Known(x.world, name) {
        var j :| j in x.used && x.cycle.issued[j] == name;
        assert j in x'.used;
      } else {
        assert k in x'.used && x'.cycle.issued[k] == name;
      }
    }
  }

  /** A step of the whole system is a step of module Agreement or leaves its state alone. */
  lemma NextIsStep(env: Env, x: System, x': System, start: set<Name>)
    requires EnvOk(env) && CycleInv(x, start) && Next(env, x, x')
    ensures CycleInv(x', start)
    ensures x'.world == x.world || Agreement.Next(env, x.world, x'.world)
  {
    if Cycle(x, x') {
      CycleKeeps(x, x', start);
    } else if Continue(env, x, x') {
      ContinueKeeps(env, x, x', start);
      ContinueIsStep(env, x, x');
    } else {
      var k :| BeginIssued(env, x, x', k);
      BeginKeeps(env, x, x', k, start);
      BeginIsStep(env, x, x', k, start);
    }
  }

  lemma ContinueIsStep(env: Env, x: System, x': System)
    requires EnvOk(env) && Continue(env, x, x')
    ensures Agreement.Next(env, x.world, x'.world)
  {
  }

  lemma BeginIsStep(env: Env, x: System, x': System, k: nat, start: set<Name>)
    requires EnvOk(env) && CycleInv(x, start) && BeginIssued(env, x, x', k)
    ensures Agreement.Next(env, x.world, x'.world)
  {
    UnusedIsNew(x, start, k);
    var order, draws, s :| Begin(env, x.world, x'.world, x.cycle.issued[k], order, draws, s);
    assert Start(env, x.world, x'.world, x.cycle.issued[k], order, draws, s);
  }

  lemma StepInHistory(env: Env, run: seq<System>, n: nat)
    requires EnvOk(env) && History(env, run) && n < |run| - 1
    ensures Next(env, run[n], run[n + 1])
  {
    assert StepAt(env, run, n);
  }

  /** However genSecret and the generator interleave, as long as every transfer starts under an
      issued index that was not used before, both nodes agree on every completed VALID secret
      at every moment, and the transfer under way has one key. */
  lemma {:induction false} AgreementOfIssued(env: Env, run: seq<System>, n: nat)
    requires EnvOk(env) && History(env, run) && n < |run|
    ensures CycleInv(run[n], run[0].cycle.times) && WorldInv(env, run[n].world)
    ensures var w := run[n].world;
            Agree(w.server, w.client, w.status)
            && (w.current.Some? ==> w.current.value.1.keyS == w.current.value.1.keyC)
    decreases n
  {
    if n > 0 {
      AgreementOfIssued(env, run, n - 1);
      StepInHistory(env, run, n - 1);
      NextIsStep(env, run[n - 1], run[n], run[0].cycle.times);
      if run[n].world != run[n - 1].world {
        Agreement.NextKeeps(env, run[n - 1].world, run[n].world);
      }
    }
  }
}
