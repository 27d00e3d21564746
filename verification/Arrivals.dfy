/** When a forked process is listed, and when its pid's earlier life gets in the way. */
module Arrivals {
  import opened Words
  import T = Text
  import opened StatLine
  import opened ProcEntries
  import opened Registry
  import opened RegistryProofs
  import opened NameTable
  import opened Draining

  // ---- Which forks are followed ----

  /** After the fork event of a process it is listed and unmarked if and only if it was before, or its
      pid was not listed and examining it leads to an entry. */
  lemma ArrivesIff(r: Reg, cfg: Config, pid: int, probe: Probe)
    requires Inv(r, cfg) && cfg.updateOnProcEvent
    ensures Lives(Next(r, cfg, Fork(pid, pid, probe)), pid)
            <==> Lives(r, pid) || (pid !in Pids(r.procs) && Admits(cfg, probe))
  {
    hide Next, Admits, Clean, OnePerPid, OnePerId, Pids;
    NextTable(r, cfg, Fork(pid, pid, probe));
  }

  /** Examining a pid leads to an entry exactly when its name and its stat file can be read and no key of
      the blacklist stands anywhere in the name. */
  ghost predicate Welcome(cfg: Config, probe: Probe) {
    && probe.name.Some? && ReadInit(probe.stat).Some?
    && forall i, before, after :: 0 <= i < |cfg.blacklist| ==>
         !T.Around(probe.name.value, before, cfg.blacklist[i], after)
  }

  lemma AdmitsIffWelcome(cfg: Config, probe: Probe)
    ensures Admits(cfg, probe) <==> Welcome(cfg, probe)
  {
    hide ReadInit, Blacklisted, T.Around;
    if probe.name.Some? {
      BlacklistedIff(cfg.blacklist, probe.name.value);
    }
  }

  /** A pid that is not listed is listed by its fork event if and only if it is welcome. */
  lemma ForkListsIff(r: Reg, cfg: Config, pid: int, probe: Probe)
    requires Inv(r, cfg) && cfg.updateOnProcEvent && pid !in Pids(r.procs)
    ensures pid in Pids(Next(r, cfg, Fork(pid, pid, probe)).procs) <==> Welcome(cfg, probe)
  {
    hide Next, Admits, Welcome, Clean, OnePerPid, OnePerId, Pids;
    AdmitsIffWelcome(cfg, probe);
    NextTable(r, cfg, Fork(pid, pid, probe));
  }

  /** By a scan, if and only if it is found at least once when it is welcome. */
  lemma ScanListsIff(r: Reg, cfg: Config, found: seq<(int, Probe)>, pid: int)
    requires Inv(r, cfg) && pid !in Pids(r.procs)
    ensures pid in Pids(Next(r, cfg, Rescan(found)).procs)
            <==> exists i :: 0 <= i < |found| && found[i].0 == pid && Welcome(cfg, found[i].1)
  {
    hide Next, Admits, Welcome, Clean, OnePerPid, OnePerId, Pids;
    NextTable(r, cfg, Rescan(found));
    MarkedAreNamed(r, cfg);
    TableScanIff(TableOf(r), cfg, found, pid);
  }

  lemma MarkedAreNamed(r: Reg, cfg: Config)
    requires Inv(r, cfg)
    ensures OnePerPid(r.procs) && r.marked <= Names(r.procs).Keys
  {
  }

  lemma {:induction false} TableScanIff(t: Table, cfg: Config, found: seq<(int, Probe)>, pid: int)
    requires pid !in t.marked
    ensures pid in Scanned(t, cfg, found).names
            <==> pid in t.names || exists i :: 0 <= i < |found| && found[i].0 == pid && Welcome(cfg, found[i].1)
    decreases |found|
  {
    hide Admits, Welcome;
    if found != [] {
      AdmitsIffWelcome(cfg, found[0].1);
      TableScanIff(Added(t, cfg, found[0].0, found[0].1), cfg, found[1..], pid);
      assert forall i :: 1 <= i < |found| ==> found[i] == found[1..][i - 1];
      assert forall i :: 0 <= i < |found[1..]| ==> found[1..][i] == found[i + 1];
    }
  }

  /** The initial scan lists a pid if and only if it is found at least once when it is welcome. */
  lemma {:induction false} AdmittedIff(cfg: Config, found: seq<(int, Probe)>, pid: int)
    ensures pid in Admitted(cfg, found)
            <==> exists i :: 0 <= i < |found| && found[i].0 == pid && Welcome(cfg, found[i].1)
  {
    hide Admits, Welcome;
    if found != [] {
      AdmitsIffWelcome(cfg, found[0].1);
      AdmittedIff(cfg, found[1..], pid);
      assert forall i :: 1 <= i < |found| ==> found[i] == found[1..][i - 1];
      assert forall i :: 0 <= i < |found[1..]| ==> found[1..][i] == found[i + 1];
    }
  }

  /** The fork event of a pid whose entry is marked changes nothing, and the commit that is queued for
      the old entry drops the pid, though its process runs. */
  lemma ForkOfMarkedIsLost(r: Reg, cfg: Config, pid: int, probe: Probe)
    requires Inv(r, cfg) && pid in r.marked
    ensures var r' := Next(r, cfg, Fork(pid, pid, probe));
            && r' == r && CommitProcList in r'.queue
            && pid !in Pids(Drained(r').procs)
  {
    hide Clean, OnePerPid, OnePerId, Drained, Admit;
    DrainCommitsAll(r, cfg);
    WithoutPidsFacts(r.procs, r.marked);
  }

  /** Where process events drive the registry, a pid that is not listed is listed by nothing but its own
      fork event or a rescan. */
  lemma {:induction false} StaysUnlisted(r: Reg, cfg: Config, es: seq<Event>, pid: int)
    requires Inv(r, cfg) && cfg.procEvent && cfg.updateOnProcEvent && pid !in Pids(r.procs)
    requires forall i :: 0 <= i < |es| ==> !es[i].Rescan? && !(es[i].Fork? && es[i].tgid == pid)
    ensures pid !in Pids(Run(r, cfg, es).procs) && pid !in Run(r, cfg, es).marked
    decreases |es|
  {
    hide Next, Step, Clean, OnePerPid, OnePerId, Pids;
    if es != [] {
      NextInv(r, cfg, es[0]);
      NextTable(r, cfg, es[0]);
      NotNamed(TableOf(r), cfg, es[0], SeenAt(r, cfg, es[0]), pid);
      StaysUnlisted(Next(r, cfg, es[0]), cfg, es[1..], pid);
    }
  }

  lemma NotNamed(t: Table, cfg: Config, e: Event, seen: Seen, pid: int)
    requires cfg.procEvent && cfg.updateOnProcEvent && pid !in t.names
    requires !e.Rescan? && !(e.Fork? && e.tgid == pid)
    ensures pid !in Step(t, cfg, e, seen).names
  {
    hide Admits, Blacklisted, Succeeds;
  }

  // ---- A pid that comes back ----

  lemma ExitForgets(r: Reg, cfg: Config, pid: int)
    requires Inv(r, cfg) && cfg.updateOnProcEvent
    ensures var gone := Next(r, cfg, Exit(pid, pid));
            Inv(gone, cfg) && pid !in Pids(gone.procs) && gone.marked == {}
  {
    hide Next, Clean, OnePerPid, OnePerId, Pids;
    NextInv(r, cfg, Exit(pid, pid));
    NextTable(r, cfg, Exit(pid, pid));
  }

  lemma ForkName(r: Reg, cfg: Config, pid: int, probe: Probe)
    requires Inv(r, cfg) && cfg.updateOnProcEvent && Admits(cfg, probe) && pid !in Pids(r.procs)
    ensures exists p :: && p in Next(r, cfg, Fork(pid, pid, probe)).procs
                        && p.pid == pid && p.info.comm == probe.name.value
  {
    hide Next, Clean, OnePerId, OnePerPid, Pids, Names, Admits;
    NextTable(r, cfg, Fork(pid, pid, probe));
    NamedEntry(Next(r, cfg, Fork(pid, pid, probe)).procs, pid);
  }

  lemma NamedEntry(ps: seq<Proc>, pid: int)
    requires OnePerPid(ps) && pid in Pids(ps)
    ensures exists p :: p in ps && p.pid == pid && p.info.comm == Names(ps)[pid]
  {
    var p :| p in ps && p.pid == pid;
  }

  lemma {:induction false} RunConcat(r: Reg, cfg: Config, a: seq<Event>, b: seq<Event>)
    ensures Run(r, cfg, a + b) == Run(Run(r, cfg, a), cfg, b)
    decreases |a|
  {
    hide Next;
    if a == [] {
      assert a + b == b;
    } else {
      assert (a + b)[1..] == a[1..] + b;
      RunConcat(Next(r, cfg, a[0]), cfg, a[1..], b);
    }
  }

  /** A pid that exits is off the list at once, with nothing marked. Whatever happens before it is forked
      again, the new process is listed if and only if the pid is not marked when its fork event comes.
      Then it stays through any later run that does not ask for its removal; otherwise it is lost. */
  lemma ReforkSurvives(r: Reg, cfg: Config, pid: int, between: seq<Event>, probe: Probe, later: seq<Event>)
    requires Inv(r, cfg) && cfg.updateOnProcEvent && Admits(cfg, probe)
    ensures var gone := Next(r, cfg, Exit(pid, pid));
            var s := Run(gone, cfg, between);
            var back := Next(s, cfg, Fork(pid, pid, probe));
            && pid !in Pids(gone.procs)
            && Inv(back, cfg)
            && (Lives(back, pid) <==> pid !in s.marked)
            && (pid !in Pids(s.procs) ==>
                  exists p :: p in back.procs && p.pid == pid && p.info.comm == probe.name.value)
            && (pid !in s.marked && SparedBy(back, cfg, later, pid) ==>
                  Lives(Run(r, cfg, ([Exit(pid, pid)] + between) + ([Fork(pid, pid, probe)] + later)), pid))
            && (pid in s.marked ==> pid !in Pids(Drained(back).procs))
  {
    hide Next, Pids, Inv, Admits, SparedBy, Run, Drained;
    var exit, fork := Exit(pid, pid), Fork(pid, pid, probe);
    var gone := Next(r, cfg, exit);
    ExitForgets(r, cfg, pid);
    RunInv(gone, cfg, between);
    var s := Run(gone, cfg, between);
    MarkedIsListed(s, cfg, pid);
    NextInv(s, cfg, fork);
    ArrivesIff(s, cfg, pid, probe);
    var back := Next(s, cfg, fork);
    RunConcat(r, cfg, [exit] + between, [fork] + later);
    FirstStep(r, cfg, exit, between);
    FirstStep(s, cfg, fork, later);
    if pid in s.marked {
      ForkOfMarkedIsLost(s, cfg, pid, probe);
    } else {
      SurvivesRun(back, cfg, later, pid);
    }
    if pid !in Pids(s.procs) {
      ForkName(s, cfg, pid, probe);
    }
  }

  lemma MarkedIsListed(r: Reg, cfg: Config, pid: int)
    requires Inv(r, cfg)
    ensures pid in r.marked ==> pid in Pids(r.procs)
  {
  }

  lemma FirstStep(r: Reg, cfg: Config, e: Event, later: seq<Event>)
    ensures Run(r, cfg, [e] + later) == Run(Next(r, cfg, e), cfg, later)
  {
    hide Next;
    assert ([e] + later)[1..] == later;
  }

  // ---- A lost fork is reachable ----

  /** The end of a process is noticed by a failed update only; its pid is forked again before the commit
      is handled; then the list is empty though the process runs. */
  lemma LostForkIsReachable(cfg: Config, pid: int, probe: Probe, again: Probe, wanted: bool)
    requires cfg.procEvent && cfg.updateOnProcEvent && Admits(cfg, probe)
    ensures var es := [Fork(pid, pid, probe), Tick(Pace, [], map[], wanted, {}), Fork(pid, pid, again), HandleNext];
            Run(EMPTY, cfg, es).procs == [] && !RunStops(EMPTY, cfg, es)
  {
    var p, c := Entry(pid, probe), Ctx(probe.ctxId, probe.ctxName, NO_TOTALS);
    var e1, e2, e3 := Fork(pid, pid, probe), Tick(Pace, [], map[], wanted, {}), Fork(pid, pid, again);
    var r1 := Reg([p], {}, [c], {}, []);
    var r2 := Reg([p], {pid}, [c], {}, [CommitProcList]);
    var r4 := Reg([], {}, [c], {}, []);
    FirstFork(cfg, pid, probe);
    FailedUpdate(cfg, p, c, wanted);
    IgnoredFork(cfg, p, c, again);
    hide Next, Stops;
    assert Run(r4, cfg, []) == r4;
    FirstStep(EMPTY, cfg, e1, [e2, e3, HandleNext]);
    FirstStep(r1, cfg, e2, [e3, HandleNext]);
    FirstStep(r2, cfg, e3, [HandleNext]);
    FirstStep(r2, cfg, HandleNext, []);
    var es := [e1, e2, e3, HandleNext];
    assert [e1] + [e2, e3, HandleNext] == es && [e2] + [e3, HandleNext] == es[1..];
    assert es[1..][1..] == [e3, HandleNext] && [e3, HandleNext][1..] == [HandleNext];
    assert [HandleNext][1..] == [];
    assert !RunStops(r4, cfg, []);
    assert !RunStops(r2, cfg, [HandleNext]);
    assert !RunStops(r2, cfg, [e3, HandleNext]);
    assert !RunStops(r1, cfg, es[1..]);
  }

  lemma FirstFork(cfg: Config, pid: int, probe: Probe)
    requires cfg.updateOnProcEvent && Admits(cfg, probe)
    ensures Next(EMPTY, cfg, Fork(pid, pid, probe))
         == Reg([Entry(pid, probe)], {}, [Ctx(probe.ctxId, probe.ctxName, NO_TOTALS)], {}, [])
    ensures !Stops(EMPTY, cfg, Fork(pid, pid, probe))
  {
    hide Blacklisted, ReadInit;
  }

  lemma FailedUpdate(cfg: Config, p: Proc, c: Ctx, wanted: bool)
    requires cfg.procEvent && cfg.updateOnProcEvent
    ensures var r, e := Reg([p], {}, [c], {}, []), Tick(Pace, [], map[], wanted, {});
            && Next(r, cfg, e) == Reg([p], {p.pid}, [c], {}, [CommitProcList])
            && !Stops(r, cfg, e)
  {
    var r := Reg([p], {}, [c], {}, []);
    assert r.procs[0] in r.procs && p.pid in Pids(r.procs);
    assert FailsBy(map[])(p) && ReadBy(map[])(p) == p && r.procs[0 := p] == r.procs;
    assert {p.pid} * Pids(r.procs) == {p.pid};
    var r' := PassAt(r, ReadBy(map[]), FailsBy(map[]), 0);
    assert r' == Reg([p], {p.pid}, [c], {}, [CommitProcList]);
    assert PassFrom(r', ReadBy(map[]), FailsBy(map[]), 1) == r';
  }

  lemma IgnoredFork(cfg: Config, p: Proc, c: Ctx, again: Probe)
    requires cfg.updateOnProcEvent
    ensures var r, e := Reg([p], {p.pid}, [c], {}, [CommitProcList]), Fork(p.pid, p.pid, again);
            && Next(r, cfg, e) == r && !Stops(r, cfg, e)
            && Next(r, cfg, HandleNext) == Reg([], {}, [c], {}, []) && !Stops(r, cfg, HandleNext)
  {
    var r := Reg([p], {p.pid}, [c], {}, [CommitProcList]);
    assert r.procs[0] in r.procs && p.pid in Pids(r.procs);
    hide Admit;
    assert r.queue[1..] == [] && WithoutPids(r.procs[1..], {p.pid}) == [];
    assert WithoutPids(r.procs, {p.pid}) == [];
  }
}
