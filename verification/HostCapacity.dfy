/** The limits of 64 containers and 128 forwards per container: exactly when they hold, and how far
    overlapping requests can exceed them. */
module HostCapacity {
  import opened Cardinality
  import opened PortSearch
  import opened HostForwarding
  import opened HostRuns

  // ---- Properties of all states and all steps of a run ---------------------------

  ghost predicate Always(s: Sys, steps: seq<Step>, good: Sys -> bool)
    requires IsRun(s, steps)
    decreases |steps|
  {
    good(s) && (steps == [] || Always(Apply(s, steps[0]), steps[1..], good))
  }

  ghost predicate Never(s: Sys, steps: seq<Step>, bad: (Sys, Step) -> bool)
    requires IsRun(s, steps)
    decreases |steps|
  {
    steps == [] || (!bad(s, steps[0]) && Never(Apply(s, steps[0]), steps[1..], bad))
  }

  /** If a step leaves the good states exactly when it is bad, a run stays in them exactly when it has
      no bad step. */
  lemma {:induction false} GoodIffNeverBad(s: Sys, steps: seq<Step>, good: Sys -> bool, bad: (Sys, Step) -> bool)
    requires IsRun(s, steps) && good(s)
    requires forall x, step | Enabled(x, step) && good(x) :: good(Apply(x, step)) <==> !bad(x, step)
    ensures Always(s, steps, good) <==> Never(s, steps, bad)
    decreases |steps|
  {
    if steps != [] {
      var s' := Apply(s, steps[0]);
      if good(s') {
        GoodIffNeverBad(s', steps[1..], good, bad);
      } else {
        assert !Always(s', steps[1..], good);
      }
    }
  }

  lemma {:induction false} AlwaysWeaker(s: Sys, steps: seq<Step>, good: Sys -> bool, weaker: Sys -> bool)
    requires IsRun(s, steps) && Always(s, steps, good)
    requires forall x | good(x) :: weaker(x)
    ensures Always(s, steps, weaker)
    decreases |steps|
  {
    if steps != [] { AlwaysWeaker(Apply(s, steps[0]), steps[1..], good, weaker); }
  }

  // ---- Containers -------------------------------------------------------------------

  ghost predicate ContainersWithin(s: Sys) { |s.host.containers| <= MAX_CONTAINERS }

  /** A registration is inserted as a new container although the host is full by now. */
  ghost predicate Overfills(s: Sys, step: Step) {
    step.Insert? && step.conn in s.conns && s.conns[step.conn].cid !in s.host.containers
    && |s.host.containers| >= MAX_CONTAINERS
  }

  lemma StepExceedsContainersIff(s: Sys, step: Step)
    requires Enabled(s, step) && ContainersWithin(s)
    ensures ContainersWithin(Apply(s, step)) <==> !Overfills(s, step)
  {
    ContainersAfter(s, step);
  }

  /** Only an insertion adds a container, and only one. */
  lemma ContainersAfter(s: Sys, step: Step)
    requires Enabled(s, step)
    ensures var n, n' := |s.host.containers|, |Apply(s, step).host.containers|;
      if step.Insert? then n' == n + if s.conns[step.conn].cid in s.host.containers then 0 else 1 else n' <= n
  {
    ContainerIdsAfter(s, step);
    hide Apply, Enabled;
    var before, after := s.host.containers.Keys, Apply(s, step).host.containers.Keys;
    if !step.Insert? { SubsetCount(after, before); }
  }

  lemma ContainerIdsAfter(s: Sys, step: Step)
    requires Enabled(s, step)
    ensures var before, after := s.host.containers.Keys, Apply(s, step).host.containers.Keys;
      if step.Insert? then step.conn in s.conns && after == before + {s.conns[step.conn].cid} else after <= before
  {
  }

  /** Main result: a run keeps to 64 containers if and only if no insertion comes after the room that
      was checked for it has been taken. */
  lemma ContainerLimitHoldsIff(steps: seq<Step>)
    requires IsRun(INIT, steps)
    ensures Always(INIT, steps, ContainersWithin) <==> Never(INIT, steps, Overfills)
  {
    forall s, step | Enabled(s, step) && ContainersWithin(s)
      ensures ContainersWithin(Apply(s, step)) <==> !Overfills(s, step)
    {
      StepExceedsContainersIff(s, step);
    }
    GoodIffNeverBad(INIT, steps, ContainersWithin, Overfills);
  }

  /** The registrations between their capacity check and their insertion. */
  ghost function Registering(s: Sys): set<Id> {
    set c | c in s.conns && Pending(s.conns[c])
  }

  ghost function FewRegistering(k: nat): Sys -> bool { (s: Sys) => |Registering(s)| <= k }

  lemma StepKeepsContainerBound(s: Sys, step: Step, k: nat)
    requires Enabled(s, step) && |s.host.containers| + |Registering(s)| <= 63 + k
    requires |Registering(Apply(s, step))| <= k
    ensures |Apply(s, step).host.containers| + |Registering(Apply(s, step))| <= 63 + k
  {
    ContainersAfter(s, step);
    RegisteringAfter(s, step);
    if step.Admit? && AdmitRegistration(s.host, step.cid).1 { AdmitMakesRoom(s, step); }
    hide Apply, Registering, AdmitRegistration;
  }

  lemma RegisteringAfter(s: Sys, step: Step)
    requires Enabled(s, step)
    ensures var before, after := Registering(s), Registering(Apply(s, step));
      match step
      case Admit(c, cid) => after == if AdmitRegistration(s.host, cid).1 then before + {c} else before
      case Insert(c) => c in before && after == before - {c}
      case Abandon(c) => c in before && after == before - {c}
      case _ => after == before
  {
    hide WithoutForward, CommitForward, ReservePort, ReleasePort, WithoutContainer, EvictForward, Cleanup, IsFirstFree;
  }

  /** A registration is admitted in the place of another of its id, or where there is room. */
  lemma AdmitMakesRoom(s: Sys, step: Step)
    requires step.Admit? && Enabled(s, step) && AdmitRegistration(s.host, step.cid).1
    ensures var n, n' := |s.host.containers|, |Apply(s, step).host.containers|;
      n' == n - 1 || n' == n < MAX_CONTAINERS
  {
    var before, after := s.host.containers.Keys, Apply(s, step).host.containers.Keys;
    if step.cid in before { assert after == before - {step.cid}; }
  }

  lemma {:induction false} RunKeepsContainerBound(s: Sys, steps: seq<Step>, k: nat)
    requires IsRun(s, steps) && Always(s, steps, FewRegistering(k))
    requires |s.host.containers| + |Registering(s)| <= 63 + k
    ensures |Run(s, steps).host.containers| <= 63 + k
    decreases |steps|
  {
    if steps != [] {
      var s' := Apply(s, steps[0]);
      assert FewRegistering(k)(s');
      StepKeepsContainerBound(s, steps[0], k);
      RunKeepsContainerBound(s', steps[1..], k);
    }
  }

  /** Main result: if at most k registrations are ever between check and insertion at once, there are
      never more than 63 + k containers; 64 if registrations do not overlap. */
  lemma ContainersAreBounded(steps: seq<Step>, k: nat)
    requires IsRun(INIT, steps) && Always(INIT, steps, FewRegistering(k))
    ensures |Run(INIT, steps).host.containers| <= 63 + k
  {
    assert Registering(INIT) == {};
    RunKeepsContainerBound(INIT, steps, k);
  }

  // ---- Forwards of one container ------------------------------------------------------

  ghost predicate ForwardsWithin(s: Sys) {
    forall cid | cid in s.host.containers :: |s.host.containers[cid].forwards| <= MAX_FORWARDS_PER_CONTAINER
  }

  /** A forward of a new port is committed although the container is full by now. */
  ghost predicate Overloads(s: Sys, step: Step) {
    step.Commit? && step.task in s.tasks && s.tasks[step.task].Binding?
    && AtLimit(s.host, s.tasks[step.task].cid, s.tasks[step.task].port)
  }

  /** Only a commit adds a forward, and only one. */
  lemma ForwardsAfter(s: Sys, step: Step, cid: ContainerId)
    requires Enabled(s, step)
    ensures var n, n' := |s.host.LivePorts(cid)|, |Apply(s, step).host.LivePorts(cid)|;
      if Adds(s, step, cid)
      then n' == n + if s.host.Live(cid, s.tasks[step.task].port) then 0 else 1
      else n' <= n
  {
    PortsAfter(s, step, cid);
    hide Apply, Enabled;
    var before, after := s.host.LivePorts(cid), Apply(s, step).host.LivePorts(cid);
    if !Adds(s, step, cid) { SubsetCount(after, before); }
  }

  ghost predicate Adds(s: Sys, step: Step, cid: ContainerId)
    requires Enabled(s, step)
  {
    step.Commit? && s.tasks[step.task].cid == cid && cid in s.host.containers
  }

  lemma PortsAfter(s: Sys, step: Step, cid: ContainerId)
    requires Enabled(s, step)
    ensures var before, after := s.host.LivePorts(cid), Apply(s, step).host.LivePorts(cid);
      if Adds(s, step, cid) then after == before + {s.tasks[step.task].port} else after <= before
  {
    hide IsFirstFree;
  }

  lemma StepExceedsForwardsIff(s: Sys, step: Step)
    requires Enabled(s, step) && ForwardsWithin(s)
    ensures ForwardsWithin(Apply(s, step)) <==> !Overloads(s, step)
  {
    var s' := Apply(s, step);
    forall cid | cid in s'.host.containers
      ensures |s'.host.containers[cid].forwards| <= MAX_FORWARDS_PER_CONTAINER
         <==> !(Overloads(s, step) && s.tasks[step.task].cid == cid)
    {
      ForwardsAfter(s, step, cid);
      assert s'.host.LivePorts(cid) == s'.host.containers[cid].forwards.Keys;
      assert cid in s.host.containers ==> s.host.LivePorts(cid) == s.host.containers[cid].forwards.Keys;
    }
    assert Overloads(s, step) ==> s.tasks[step.task].cid in s'.host.containers;
  }

  /** Main result: in a run no container exceeds 128 forwards if and only if no commit of a new port
      comes after the room that was checked for it has been taken. */
  lemma ForwardLimitHoldsIff(steps: seq<Step>)
    requires IsRun(INIT, steps)
    ensures Always(INIT, steps, ForwardsWithin) <==> Never(INIT, steps, Overloads)
  {
    forall s, step | Enabled(s, step) && ForwardsWithin(s)
      ensures ForwardsWithin(Apply(s, step)) <==> !Overloads(s, step)
    {
      StepExceedsForwardsIff(s, step);
    }
    GoodIffNeverBad(INIT, steps, ForwardsWithin, Overloads);
  }

  /** The forwards in flight for one container id. */
  ghost function InFlightOf(s: Sys, cid: ContainerId): set<Id> {
    set t | t in s.tasks && s.tasks[t].cid == cid
  }

  ghost function FewInFlight(cid: ContainerId, k: nat): Sys -> bool { (s: Sys) => |InFlightOf(s, cid)| <= k }

  lemma StepKeepsForwardBound(s: Sys, step: Step, cid: ContainerId, k: nat)
    requires Enabled(s, step) && |s.host.LivePorts(cid)| + |InFlightOf(s, cid)| <= 127 + k
    requires |InFlightOf(Apply(s, step), cid)| <= k
    ensures |Apply(s, step).host.LivePorts(cid)| + |InFlightOf(Apply(s, step), cid)| <= 127 + k
  {
    ForwardsAfter(s, step, cid);
    InFlightAfter(s, step, cid);
    if Begins(s, step, cid) { BeginMakesRoom(s, step); }
    hide Apply, InFlightOf, EvictForward;
  }

  /** The step puts a forward for cid in flight. */
  ghost predicate Begins(s: Sys, step: Step, cid: ContainerId) {
    step.BeginForward? && step.cid == cid && EvictForward(s.host, cid, step.port).1.Proceed?
  }

  /** The step ends a forward in flight. */
  ghost predicate Ends(step: Step) {
    step.Commit? || step.BindFails? || (step.Search? && step.found.None?)
  }

  lemma InFlightAfter(s: Sys, step: Step, cid: ContainerId)
    requires Enabled(s, step)
    ensures var before, after := InFlightOf(s, cid), InFlightOf(Apply(s, step), cid);
      if Begins(s, step, cid) then step.task !in before && after == before + {step.task}
      else if Ends(step) && s.tasks[step.task].cid == cid then step.task in before && after == before - {step.task}
      else after == before
  {
    hide WithoutForward, CommitForward, ReservePort, ReleasePort, WithoutContainer, Cleanup, IsFirstFree;
  }

  /** A forward begins in the place of another of its port, or where there is room. */
  lemma BeginMakesRoom(s: Sys, step: Step)
    requires step.BeginForward? && Enabled(s, step) && Begins(s, step, step.cid)
    ensures var n, n' := |s.host.LivePorts(step.cid)|, |Apply(s, step).host.LivePorts(step.cid)|;
      n' == n - 1 || n' == n < MAX_FORWARDS_PER_CONTAINER
  {
    var before, after := s.host.LivePorts(step.cid), Apply(s, step).host.LivePorts(step.cid);
    if s.host.Live(step.cid, step.port) { assert after == before - {step.port}; }
  }

  lemma {:induction false} RunKeepsForwardBound(s: Sys, steps: seq<Step>, cid: ContainerId, k: nat)
    requires IsRun(s, steps) && Always(s, steps, FewInFlight(cid, k))
    requires |s.host.LivePorts(cid)| + |InFlightOf(s, cid)| <= 127 + k
    ensures |Run(s, steps).host.LivePorts(cid)| <= 127 + k
    decreases |steps|
  {
    if steps != [] {
      var s' := Apply(s, steps[0]);
      assert FewInFlight(cid, k)(s');
      StepKeepsForwardBound(s, steps[0], cid, k);
      RunKeepsForwardBound(s', steps[1..], cid, k);
    }
  }

  /** Main result: if at most k forwards are ever in flight for a container id at once, it never has
      more than 127 + k forwards; 128 if they do not overlap. */
  lemma ForwardsAreBounded(steps: seq<Step>, cid: ContainerId, k: nat)
    requires IsRun(INIT, steps) && Always(INIT, steps, FewInFlight(cid, k))
    ensures |Run(INIT, steps).host.LivePorts(cid)| <= 127 + k
  {
    assert InFlightOf(INIT, cid) == {};
    RunKeepsForwardBound(INIT, steps, cid, k);
  }
}
