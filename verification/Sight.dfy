/** What an agent of the protocol has seen: a prefix of the bus log, and the survival state in it. */
module Sight {
  import opened Protocol
  import opened Reals

  ghost predicate Placed(w: World) { forall a: Agent :: Cursor(w, a) <= |w.log| }

  lemma PlacedStep(w: World, a: Action, c: Config)
    requires Enabled(w, a) && Placed(w)
    ensures Placed(Do(w, a, c))
  {
    hide Enabled, Do, Emits, Cursor;
    LogStep(w, a, c);
    forall agent: Agent ensures Cursor(Do(w, a, c), agent) <= |Do(w, a, c).log| {
      CursorStep(w, a, c, agent);
      if Reads(a, agent) > 0 { ReadsInside(w, agent); }
    }
  }

  lemma ReadsInside(w: World, agent: Agent)
    requires CanReceive(w, agent)
    ensures Cursor(w, agent) < |w.log|
  {
  }

  /** No agent has consumed more than was published. */
  lemma {:induction false} AlwaysPlaced(run: seq<World>, actions: seq<Action>, c: Config, j: nat)
    requires IsRun(run, actions, c) && AtStart(run[0]) && j < |run|
    ensures Placed(run[j])
  {
    hide Enabled, Do;
    if j > 0 {
      AlwaysPlaced(run, actions, c, j - 1);
      PlacedStep(run[j - 1], actions[j - 1], c);
    }
  }

  lemma {:induction false} LogGrows(run: seq<World>, actions: seq<Action>, c: Config, i: nat, j: nat)
    requires IsRun(run, actions, c) && i <= j < |run|
    ensures run[i].log <= run[j].log
    decreases j - i
  {
    hide Enabled, Do, Emits;
    if i < j {
      LogGrows(run, actions, c, i, j - 1);
      LogStep(run[j - 1], actions[j - 1], c);
    }
  }

  /** An agent that has fallen more than the channel's capacity of 4096 events behind never reads another one. */
  lemma {:induction false} OverrunIsForever(run: seq<World>, actions: seq<Action>, c: Config, i: nat, j: nat,
                                            agent: Agent)
    requires IsRun(run, actions, c) && i <= j < |run| && |run[i].log| > Cursor(run[i], agent) + 4096
    ensures Cursor(run[j], agent) == Cursor(run[i], agent)
    decreases j - i
  {
    hide Enabled, Do;
    if i < j {
      OverrunIsForever(run, actions, c, i, j - 1, agent);
      LogGrows(run, actions, c, i, j - 1);
      CursorStep(run[j - 1], actions[j - 1], c, agent);
    }
  }

  function LastMode(log: seq<Event>): Option<Mode>
  {
    if |log| == 0 then None
    else if log[|log| - 1].SurvivalUpdated? then Some(log[|log| - 1].mode)
    else LastMode(log[..|log| - 1])
  }

  /** The last survival state among the events the agent has consumed, if there is one, is not a halting one. */
  ghost predicate SeesNoHalt(w: World, a: Agent) {
    && Cursor(w, a) <= |w.log|
    && var seen := LastMode(w.log[..Cursor(w, a)]); seen == None || !seen.value.Halts()
  }

  /** Each gate's survival cache is the last state among the events its agent has consumed: a prefix of the log. */
  lemma {:induction false} CacheIsLastConsumed(run: seq<World>, actions: seq<Action>, c: Config, j: nat, agent: Agent)
    requires IsRun(run, actions, c) && AtStart(run[0]) && j < |run| && Caches(agent)
    ensures Cursor(run[j], agent) <= |run[j].log|
    ensures CacheOf(run[j], agent) == LastMode(run[j].log[..Cursor(run[j], agent)])
  {
    hide Enabled, Do, Emits;
    AlwaysPlaced(run, actions, c, j);
    if j > 0 {
      var w, a := run[j - 1], actions[j - 1];
      CacheIsLastConsumed(run, actions, c, j - 1, agent);
      CacheStep(w, a, c, agent);
      CursorStep(w, a, c, agent);
      LogStep(w, a, c);
      var p := Cursor(w, agent);
      assert run[j].log[..p] == w.log[..p];
      if Reads(a, agent) > 0 { assert run[j].log[..p + 1] == w.log[..p] + [w.log[p]]; }
    }
  }

  /** So a gate whose cache does not halt has seen no halting state last. */
  lemma GateSees(run: seq<World>, actions: seq<Action>, c: Config, j: nat, agent: Agent)
    requires IsRun(run, actions, c) && AtStart(run[0]) && j < |run| && Caches(agent)
    ensures SeesNoHalt(run[j], agent) <==> !CacheHalts(run[j], agent)
  {
    hide IsRun, LastMode, Cursor;
    CacheIsLastConsumed(run, actions, c, j, agent);
  }
}
