/** What the two-party protocol promises a container at rest, for a host with any number of containers. */
module DeploymentAtRest {
  import opened Wrappers
  import opened PortSearch
  import opened HostForwarding
  import HostRuns
  import HostEpochs
  import Reconciliation
  import opened Deployment
  import opened DeploymentProjection

  // ---- At rest ------------------------------------------------------------------------------

  /** The container is in a session whose connection the host has open and past registration, with no
      request waiting or in hand and no acknowledgement on its way. */
  ghost predicate AtRest(w: World, cid: ContainerId) {
    var c := ClientOf(w, cid);
    && c.phase.InSession? && c.acks == []
    && c.session in w.wires && w.wires[c.session] == Held(cid, []) && HostEpochs.IsInserted(w.host, c.session)
    && c.session !in w.checked && c.session !in w.host.tasks
  }

  lemma RestIsQuiescent(w: World, cid: ContainerId, n: Reconciliation.Net)
    requires Appears(w, cid, n) && AtRest(w, cid)
    ensures Reconciliation.Quiescent(n)
  {
    Seen(w, cid, n);
    SeenBusy(w, cid, n, n.session);
  }

  /** A port the container relies on: forwarded to it alone. */
  ghost predicate Served(s: HostRuns.Sys, cid: ContainerId, port: Port) {
    && s.host.Live(cid, port)
    && var p := s.host.HostPort(cid, port);
       && p in s.host.used && s.host.used[p] == cid
       && forall x | HostRuns.Holds(s, x, p) :: x == HostRuns.Live(cid, port)
  }

  lemma {:induction false} RunKeepsPortsSafe(w: World, steps: seq<Step>)
    requires HostRuns.PortsSafe(w.host) && IsRun(w, steps)
    ensures HostRuns.PortsSafe(Run(w, steps).host)
    decreases |steps|
  {
    hide HostRuns.PortsSafe, HostRuns.Apply, Enabled;
    if steps != [] {
      if SectionOf(w, steps[0]).Some? { StepKeepsSafe(w, steps[0]); }
      RunKeepsPortsSafe(Apply(w, steps[0]), steps[1..]);
    }
  }

  lemma StepKeepsSafe(w: World, step: Step)
    requires HostRuns.PortsSafe(w.host) && Enabled(w, step) && SectionOf(w, step).Some?
    ensures HostRuns.PortsSafe(HostAfter(w, step))
  {
    hide HostRuns.PortsSafe, HostRuns.Apply;
    HostRuns.StepKeepsPortsSafe(w.host, SectionOf(w, step).value);
  }

  lemma LivePortsAreServed(s: HostRuns.Sys, cid: ContainerId, port: Port)
    requires HostRuns.PortsSafe(s) && s.host.Live(cid, port)
    ensures Served(s, cid, port)
  {
    assert HostRuns.Holds(s, HostRuns.Live(cid, port), s.host.HostPort(cid, port));
  }

  /** In the protocol's run no late registration orphans the session, and no other connection's section and
      no administrator takes a port away that the container relies on. */
  ghost predicate Undisturbed(trace: seq<Reconciliation.Step>) {
    && Reconciliation.IsRun(Reconciliation.INIT, trace)
    && Reconciliation.NeverOrphans(Reconciliation.INIT, trace) && Reconciliation.NeverLoses(Reconciliation.INIT, trace)
  }

  /** Main result: after any run that is undisturbed for a container, whenever it is at rest every port it
      holds is live, on a host port that no other forward of any container has. */
  lemma HeldPortsAreServed(steps: seq<Step>, cid: ContainerId)
    requires IsRun(INIT, steps) && Undisturbed(Trace(INIT, steps, cid)) && AtRest(Run(INIT, steps), cid)
    ensures forall p | p in ClientOf(Run(INIT, steps), cid).forwarded :: Served(Run(INIT, steps).host, cid, p)
  {
    hide IsRun, Run, Trace, AllOk, Appears, Reconciliation.IsRun, Reconciliation.Run, Reconciliation.NeverOrphans;
    hide Reconciliation.NeverLoses, Reconciliation.Quiescent, Reconciliation.Consistent, AtRest, Served, ClientOf;
    hide HostRuns.PortsSafe;
    var w := Run(INIT, steps);
    StartAppears(cid);
    EveryContainerFollowsProtocol(steps, cid);
    var n := Reconciliation.Run(Reconciliation.INIT, Trace(INIT, steps, cid));
    RestIsQuiescent(w, cid, n);
    Reconciliation.ForwardedPortsAreLive(Trace(INIT, steps, cid));
    RunKeepsPortsSafe(INIT, steps);
    Seen(w, cid, n);
    forall p | p in n.forwarded ensures Served(w.host, cid, p) {
      LivePortsAreServed(w.host, cid, p);
    }
  }

  // ---- A container left alone ------------------------------------------------------------------

  /** An administrator, or a connection of the container other than its latest, changes what the host has
      for it. What other containers do never counts. */
  ghost predicate Foreign(w: World, step: Step, cid: ContainerId)
    requires Enabled(w, step)
  {
    var k := ClientOf(w, cid).session;
    match step
    case Unforward(c) => w.checked[c].cid == cid && c != k
    case Section(BeginForward(t, c, p)) => c == cid && t != k && EvictForward(w.host.host, c, p).1.Proceed?
    case Section(Commit(t)) => w.host.tasks[t].cid == cid && t != k
    case Section(Unforward(c, _)) => c == cid
    case Section(Admit(c, id)) => id == cid && c != k && AdmitRegistration(w.host.host, id).1
    case Section(Insert(c)) => w.host.conns[c].cid == cid && c != k
    case _ => false
  }

  /** A Forward of the container is refused: too many, no port, or no listener. */
  ghost predicate Refuses(w: World, step: Step, cid: ContainerId)
    requires Enabled(w, step)
  {
    match step
    case Section(BeginForward(_, c, p)) => c == cid && EvictForward(w.host.host, c, p).1.TooManyForwards?
    case Section(Search(t, None)) => w.host.tasks[t].cid == cid
    case Section(BindFails(t)) => w.host.tasks[t].cid == cid
    case _ => false
  }

  ghost predicate NeverForeign(w: World, steps: seq<Step>, cid: ContainerId)
    requires IsRun(w, steps)
    decreases |steps|
  {
    steps == [] || (!Foreign(w, steps[0], cid) && NeverForeign(Apply(w, steps[0]), steps[1..], cid))
  }

  ghost predicate NeverRefuses(w: World, steps: seq<Step>, cid: ContainerId)
    requires IsRun(w, steps)
    decreases |steps|
  {
    steps == [] || (!Refuses(w, steps[0], cid) && NeverRefuses(Apply(w, steps[0]), steps[1..], cid))
  }

  ghost predicate Harmless(n: Reconciliation.Net, step: Reconciliation.Step) {
    && !Reconciliation.Orphans(n, step)
    && forall p :: !Reconciliation.Loses(n, step, p) && !Reconciliation.Plants(n, step, p)
  }

  /** A step of the session, or one that comes from no connection, does no harm. */
  lemma SessionIsHarmless(n: Reconciliation.Net, step: Reconciliation.Step)
    requires !step.AdminUnforward?
    requires step.Admit? || step.Insert? || (step.Act? && !step.limit) || (step.Commit? && step.ok) ==>
      step.k == n.session
    ensures Harmless(n, step)
  {
    hide Reconciliation.Attached, Reconciliation.Enabled, Reconciliation.LastAbout, Reconciliation.Queue;
    hide Reconciliation.LiveNow;
  }

  lemma OwnStepIsHarmless(w: World, step: Step, cid: ContainerId, n: Reconciliation.Net)
    requires Follows(w, step, cid, n) && NetStep(w, step, cid).Some? && !Foreign(w, step, cid)
    ensures Harmless(n, NetStep(w, step, cid).value)
  {
    hide Appears, IsFirstFree, AdmitRegistration, Harmless, ClientOf, Reconciliation.Enabled;
    Seen(w, cid, n);
    SessionIsHarmless(n, NetStep(w, step, cid).value);
  }

  lemma UnrefusedIsNoRejection(w: World, step: Step, cid: ContainerId)
    requires Enabled(w, step) && NetStep(w, step, cid).Some? && !Refuses(w, step, cid)
    ensures !Reconciliation.IsRejection(NetStep(w, step, cid).value)
  {
    hide IsFirstFree, AdmitRegistration, ClientOf;
  }

  lemma {:induction false} NeverForeignIsHarmless(w: World, steps: seq<Step>, cid: ContainerId, n: Reconciliation.Net)
    requires IsRun(w, steps) && AllOk(w) && Appears(w, cid, n) && Reconciliation.Consistent(n)
    requires NeverForeign(w, steps, cid)
    ensures Reconciliation.IsRun(n, Trace(w, steps, cid))
    ensures Reconciliation.NeverOrphans(n, Trace(w, steps, cid)) && Reconciliation.NeverLoses(n, Trace(w, steps, cid))
    decreases |steps|
  {
    hide AllOk, Appears, Reconciliation.Consistent, Apply, Enabled, NetStep, Foreign;
    hide Reconciliation.Apply, Reconciliation.Enabled, Reconciliation.Orphans, Reconciliation.Loses;
    if steps != [] {
      var ns := NetStep(w, steps[0], cid);
      StepKeepsAllOk(w, steps[0]);
      StepStaysSeen(w, steps[0], cid, n);
      if ns.Some? {
        OwnStepIsHarmless(w, steps[0], cid, n);
        Reconciliation.StepKeepsConsistent(n, ns.value);
      }
      NeverForeignIsHarmless(Apply(w, steps[0]), steps[1..], cid, Advance(n, ns));
      var rest := Trace(Apply(w, steps[0]), steps[1..], cid);
      if ns.Some? { assert ([ns.value] + rest)[1..] == rest; }
    }
  }

  /** No rejection is on its way to a session the host serves. */
  predicate OnlySuccesses(n: Reconciliation.Net) {
    Reconciliation.Attached(n) ==> forall a | a in n.acks :: a.success
  }

  lemma SuccessesAreNotStale(n: Reconciliation.Net, step: Reconciliation.Step)
    requires OnlySuccesses(n)
    ensures forall p :: !Reconciliation.StaleRejection(n, step, p)
  {
  }

  lemma {:induction false} NeverRefusesNeverDiverts(w: World, steps: seq<Step>, cid: ContainerId, n: Reconciliation.Net)
    requires IsRun(w, steps) && AllOk(w) && Appears(w, cid, n) && Reconciliation.Consistent(n)
    requires NeverForeign(w, steps, cid) && NeverRefuses(w, steps, cid) && OnlySuccesses(n)
    ensures Reconciliation.IsRun(n, Trace(w, steps, cid)) && Reconciliation.NeverDiverts(n, Trace(w, steps, cid))
    decreases |steps|
  {
    hide AllOk, Appears, Reconciliation.Consistent, Apply, Enabled, NetStep, Foreign, Refuses;
    hide Reconciliation.Apply, Reconciliation.Enabled, Reconciliation.StaleRejection, Reconciliation.Plants;
    hide Reconciliation.IsRejection, Reconciliation.Attached;
    if steps != [] {
      var ns := NetStep(w, steps[0], cid);
      StepKeepsAllOk(w, steps[0]);
      StepStaysSeen(w, steps[0], cid, n);
      if ns.Some? {
        OwnStepIsHarmless(w, steps[0], cid, n);
        UnrefusedIsNoRejection(w, steps[0], cid);
        SuccessesAreNotStale(n, ns.value);
        Reconciliation.StepKeepsConsistent(n, ns.value);
        Reconciliation.AcksStaySuccesses(n, ns.value);
      }
      NeverRefusesNeverDiverts(Apply(w, steps[0]), steps[1..], cid, Advance(n, ns));
      var rest := Trace(Apply(w, steps[0]), steps[1..], cid);
      if ns.Some? { assert ([ns.value] + rest)[1..] == rest; }
    }
  }

  /** Main result, without reference to the protocol: a container for which only its latest connection acts
      has all its ports served whenever it is at rest, whatever the other containers and their connections do. */
  lemma LoneContainerIsServed(steps: seq<Step>, cid: ContainerId)
    requires IsRun(INIT, steps) && NeverForeign(INIT, steps, cid) && AtRest(Run(INIT, steps), cid)
    ensures forall p | p in ClientOf(Run(INIT, steps), cid).forwarded :: Served(Run(INIT, steps).host, cid, p)
  {
    hide IsRun, Run, Trace, AllOk, Appears, Reconciliation.IsRun, Reconciliation.NeverOrphans;
    hide Reconciliation.NeverLoses;
    hide Reconciliation.Consistent, AtRest, Served, ClientOf, NeverForeign;
    StartAppears(cid);
    NeverForeignIsHarmless(INIT, steps, cid, Reconciliation.INIT);
    HeldPortsAreServed(steps, cid);
  }

  /** Main result: if moreover none of its Forwards is refused, exactly its ports are live for it. */
  lemma LoneContainerAgrees(steps: seq<Step>, cid: ContainerId)
    requires IsRun(INIT, steps) && NeverForeign(INIT, steps, cid) && NeverRefuses(INIT, steps, cid)
    requires AtRest(Run(INIT, steps), cid)
    ensures Run(INIT, steps).host.host.LivePorts(cid) == ClientOf(Run(INIT, steps), cid).forwarded
  {
    hide IsRun, Run, Trace, AllOk, Appears, Reconciliation.IsRun, Reconciliation.Run, Reconciliation.NeverOrphans;
    hide Reconciliation.NeverLoses, Reconciliation.NeverDiverts, Reconciliation.Quiescent, Reconciliation.Consistent;
    hide AtRest, ClientOf, NeverForeign, NeverRefuses;
    StartAppears(cid);
    EveryContainerFollowsProtocol(steps, cid);
    var trace, n := Trace(INIT, steps, cid), Reconciliation.Run(Reconciliation.INIT, Trace(INIT, steps, cid));
    NeverForeignIsHarmless(INIT, steps, cid, Reconciliation.INIT);
    NeverRefusesNeverDiverts(INIT, steps, cid, Reconciliation.INIT);
    RestIsQuiescent(Run(INIT, steps), cid, n);
    Reconciliation.SidesAgree(trace);
    Seen(Run(INIT, steps), cid, n);
  }
}
