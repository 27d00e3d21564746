/** Handling every queued request when nothing new arrives. */
module Draining {
  import opened Keyed
  import opened Registry
  import opened RegistryProofs

  /** A context report puts one commit request back, so it weighs more than a commit. */
  function WeightOf(a: Action): nat { if a == CollectAndSendContextInfo then 2 else 1 }

  function Weight(q: seq<Action>): nat {
    if q == [] then 0 else WeightOf(q[0]) + Weight(q[1..])
  }

  lemma {:induction false} WeightConcat(q: seq<Action>, a: Action)
    ensures Weight(q + [a]) == Weight(q) + WeightOf(a)
  {
    if q != [] {
      assert (q + [a])[1..] == q[1..] + [a];
      WeightConcat(q[1..], a);
    } else {
      assert (q + [a])[1..] == [];
    }
  }

  lemma HandleLightens(r: Reg)
    requires r.queue != []
    ensures Weight(Handle(r).queue) < Weight(r.queue)
  {
    var r' := r.(queue := r.queue[1..]);
    if r.queue[0] == CollectAndSendContextInfo {
      RecountShape(r', 0);
      WeightConcat(r'.queue, CommitContextList);
    }
  }

  function Drained(r: Reg): Reg
    decreases Weight(r.queue)
  {
    if r.queue == [] then r
    else
      HandleLightens(r);
      Drained(Handle(r))
  }

  /** Draining ends with nothing staged, and the processes that are left are the unmarked ones. */
  lemma {:induction false} DrainCommitsAll(r: Reg, cfg: Config)
    requires Inv(r, cfg)
    ensures var d := Drained(r);
            && Inv(d, cfg)
            && d.queue == [] && d.marked == {} && d.ctxMarked == {}
            && d.procs == WithoutPids(r.procs, r.marked)
    decreases Weight(r.queue)
  {
    hide Inv, Clean, OnePerPid, OnePerId, Pids, Ids, Handle;
    if r.queue == [] {
      NothingStaged(r, cfg);
      DropNothing(r.procs, PidOf);
    } else {
      HandleInv(r, cfg);
      HandleLightens(r);
      DrainCommitsAll(Handle(r), cfg);
      HandleKeepsOutcome(r);
    }
  }

  lemma NothingStaged(r: Reg, cfg: Config)
    requires Inv(r, cfg) && r.queue == []
    ensures r.marked == {} && r.ctxMarked == {}
  {
  }

  /** Committing now or later leaves the same processes. */
  lemma HandleKeepsOutcome(r: Reg)
    requires r.queue != []
    ensures WithoutPids(Handle(r).procs, Handle(r).marked) == WithoutPids(r.procs, r.marked)
  {
    match r.queue[0]
    case CommitProcList => DropNothing(WithoutPids(r.procs, r.marked), PidOf);
    case CollectAndSendContextInfo => RecountShape(r.(queue := r.queue[1..]), 0);
    case _ =>
  }
}
