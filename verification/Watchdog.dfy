/** The watchdog (src/agents/watchdog.rs): it publishes a freeze when a watched agent falls silent and an
    unfreeze when all are heard again. Times are milliseconds. */
module Watchdog {
  import opened Reals

  datatype AgentId =
    | Data | Feeds | Signal | Risk | Brain | Learning | Manager | Execution | Monitor | Survival | Control

  datatype Command = Freeze | Unfreeze

  /** Commands that alternate, a freeze first. */
  ghost predicate Alternates(cs: seq<Command>) {
    forall i :: 0 <= i < |cs| ==> cs[i] == if i % 2 == 0 then Freeze else Unfreeze
  }

  class WatchdogAgent {
    const watched: seq<AgentId>
    const timeoutSecs: int
    var lastSeen: map<AgentId, int>
    var frozen: bool
    var published: seq<Command>

    /** A watched agent silent for more than the timeout, in whole seconds. */
    predicate Stale(a: AgentId, now: int) reads this {
      a in lastSeen && (now - lastSeen[a]) / 1000 > timeoutSecs
    }

    /** The timeout in milliseconds, with the second that truncation forgives. */
    lemma StaleFrom(a: AgentId, now: int)
      requires a in lastSeen
      ensures Stale(a, now) <==> now - lastSeen[a] >= 1000 * timeoutSecs + 1000
    {
      var age := now - lastSeen[a];
      assert age == 1000 * (age / 1000) + age % 1000;
    }

    ghost predicate AnyStale(now: int) reads this { exists i :: 0 <= i < |watched| && Stale(watched[i], now) }

    /** The flag says what was published last, so no command is ever repeated. */
    ghost predicate Valid() reads this {
      && Alternates(published) && (frozen <==> |published| % 2 == 1)
      && forall i :: 0 <= i < |watched| ==> watched[i] in lastSeen
    }

    constructor (watched: seq<AgentId>, timeoutSecs: int, now: int)
      ensures Valid() && published == [] && this.watched == watched && this.timeoutSecs == timeoutSecs
      ensures forall i :: 0 <= i < |watched| ==> lastSeen[watched[i]] == now
    {
      this.watched, this.timeoutSecs := watched, timeoutSecs;
      lastSeen := map a | a in watched :: now;
      frozen, published := false, [];
    }

    method OnHeartbeat(from: AgentId, ts: int)
      requires Valid()
      modifies this`lastSeen
      ensures Valid() && lastSeen == old(lastSeen)[from := ts]
    {
      lastSeen := lastSeen[from := ts];
    }

    /** A periodic check: afterwards the flag holds exactly if some watched agent is stale, and a command was published
        exactly if that changed. */
    method Check(now: int)
      requires Valid()
      modifies this`frozen, this`published
      ensures Valid()
      ensures frozen <==> AnyStale(now)
      ensures published == old(published) + if frozen == old(frozen) then [] else [if frozen then Freeze else Unfreeze]
    {
      var stale: seq<AgentId> := [];
      for i := 0 to |watched|
        invariant stale != [] <==> exists k :: 0 <= k < i && Stale(watched[k], now)
      {
        if Stale(watched[i], now) { stale := stale + [watched[i]]; }
      }
      if stale != [] {
        if !frozen {
          frozen := true;
          published := published + [Freeze];
        }
      } else if frozen {
        frozen := false;
        published := published + [Unfreeze];
      }
    }
  }

  datatype Input = Heartbeat(from: AgentId, ts: int) | Tick(now: int)

  /** Over any inputs the published commands keep alternating, and at the end the last one says whether the last check
      found a silent agent. */
  method Run(w: WatchdogAgent, inputs: seq<Input>)
    requires w.Valid()
    modifies w
    ensures w.Valid() && |w.published| >= |old(w.published)|
    ensures w.frozen <==> w.published != [] && w.published[|w.published| - 1] == Freeze
  {
    for i := 0 to |inputs|
      invariant w.Valid() && |w.published| >= |old(w.published)|
    {
      match inputs[i] {
        case Heartbeat(from, ts) => w.OnHeartbeat(from, ts);
        case Tick(now) => w.Check(now);
      }
    }
  }
}
