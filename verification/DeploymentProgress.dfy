/** What a container and the host can always do by themselves: from any state, steps of the container and of
    its own connection lead to rest with its ports served, so no damage is beyond a reconnect. */
module DeploymentProgress {
  import opened Cardinality
  import opened Wrappers
  import opened PortSearch
  import opened HostForwarding
  import HostRuns
  import HostEpochs
  import HostAccounting
  import Reconciliation
  import opened Deployment
  import opened DeploymentProjection
  import opened DeploymentAtRest

  // ---- Room for the container --------------------------------------------------------------

  /** The container knows, or is about to know, that it is registered, and its connection is open. */
  ghost predicate Underway(w: World, cid: ContainerId) {
    var c := ClientOf(w, cid);
    (Connected(c) || (c.phase.Registering? && c.welcome)) && c.session in w.wires
  }

  /** The ports it has yet to forward again. */
  function ToResend(c: Client): nat {
    match c.phase
    case Registering => |c.forwarded|
    case Reforwarding(todo) => |todo|
    case _ => 0
  }

  /** The requests the host has yet to finish, and those it has yet to find a port for. */
  ghost function Outstanding(w: World, cid: ContainerId): nat
    requires Underway(w, cid)
  {
    var k := ClientOf(w, cid).session;
    ToResend(ClientOf(w, cid)) + |w.wires[k].it| + (if k in w.checked then 1 else 0)
    + (if k in w.host.tasks then 1 else 0)
  }

  ghost function Searches(w: World, cid: ContainerId): nat
    requires Underway(w, cid)
  {
    var k := ClientOf(w, cid).session;
    ToResend(ClientOf(w, cid)) + |w.wires[k].it| + (if k in w.checked then 1 else 0)
    + (if k in w.host.tasks && w.host.tasks[k].Preparing? then 1 else 0)
  }

  /** The container stays within its 128 forwards, unprivileged host ports are left for it, and it asks for
      real ports only. */
  ghost predicate HasRoom(w: World, cid: ContainerId)
    requires Underway(w, cid)
  {
    var k := ClientOf(w, cid).session;
    && |w.host.host.LivePorts(cid)| + Outstanding(w, cid) <= 128
    && |w.host.host.used.Keys| + Searches(w, cid) <= 64512
    && 0 !in ClientOf(w, cid).forwarded && (forall r | r in w.wires[k].it :: r.port != 0)
    && (k in w.checked ==> w.checked[k].it.port != 0) && (k in w.host.tasks ==> w.host.tasks[k].port != 0)
  }

  /** Ports whose rejection is on its way. */
  function Rejected(c: Client): set<Port> { set a | a in c.acks && !a.success :: a.port }

  /** What the container holds once it has read its acknowledgements. */
  function Remaining(c: Client): set<Port> { c.forwarded - Rejected(c) }

  // ---- Getting closer ------------------------------------------------------------------------

  /** Steps the container has before its session proper, work of its connection, acknowledgements to read. */
  function ClientRank(c: Client): nat {
    match c.phase
    case Registering => |c.forwarded| + 2
    case Reforwarding(todo) => |todo| + 1
    case _ => 0
  }

  ghost function ConnRank(w: World, k: Id): nat
    requires k in w.wires
  {
    4 * |w.wires[k].it| + (if k in w.checked then 3 else 0)
    + (if k !in w.host.tasks then 0 else if w.host.tasks[k].Preparing? then 2 else 1)
    + (if k !in w.host.conns then 3
       else if w.host.conns[k].Admitted? then 2
       else if w.host.conns[k].Numbered? then 1 else 0)
  }

  ghost predicate Closer(w: World, w': World, cid: ContainerId)
    requires Underway(w, cid) && Underway(w', cid)
  {
    var (c, c') := (ClientOf(w, cid), ClientOf(w', cid));
    && c'.session == c.session && Remaining(c') == Remaining(c)
    && (ClientRank(c') < ClientRank(c)
        || (ClientRank(c') == ClientRank(c)
            && (ConnRank(w', c.session) < ConnRank(w, c.session)
                || (ConnRank(w', c.session) == ConnRank(w, c.session) && |c'.acks| < |c.acks|))))
  }

  /** The step is the container's, or one of its latest connection's. */
  predicate IsOwn(step: Step, cid: ContainerId, k: Id) {
    match step
    case Begin(c) => c == cid
    case Resend(c, _) => c == cid
    case ReceiveAck(c) => c == cid
    case Check(c) => c == k
    case Unforward(c) => c == k
    case Section(TakeNumber(c)) => c == k
    case Section(Insert(c)) => c == k
    case Section(BeginForward(t, c, _)) => t == k && c == cid
    case Section(Search(t, _)) => t == k
    case Section(Commit(t)) => t == k
    case _ => false
  }

  /** The session's connection is being registered, or owns the container's state. */
  ghost predicate IsServed(w: World, cid: ContainerId) {
    var k := ClientOf(w, cid).session;
    && Underway(w, cid) && w.wires[k].cid == cid && k in w.host.conns && w.host.conns[k].cid == cid
    && (HostRuns.Pending(w.host.conns[k]) || HostEpochs.OwnsState(w.host, k))
    && (k in w.checked ==>
          HostEpochs.IsInserted(w.host, k) && w.checked[k].cid == cid && k !in w.host.tasks)
    && (k in w.host.tasks ==> HostEpochs.IsInserted(w.host, k) && w.host.tasks[k].cid == cid)
  }

  /** A step towards rest. */
  ghost predicate Helps(w: World, step: Step, cid: ContainerId) {
    && Enabled(w, step) && IsOwn(step, cid, ClientOf(w, cid).session) && !Foreign(w, step, cid)
    && Underway(w, cid) && Underway(Apply(w, step), cid) && HasRoom(Apply(w, step), cid)
    && Closer(w, Apply(w, step), cid)
  }

  ghost predicate Ready(w: World, cid: ContainerId) { IsServed(w, cid) && HasRoom(w, cid) && ClientsOk(w) }

  lemma RegistrationHelps(w: World, cid: ContainerId) returns (step: Step)
    requires Ready(w, cid) && HostRuns.Pending(w.host.conns[ClientOf(w, cid).session])
    ensures Helps(w, step, cid)
  {
    var k := ClientOf(w, cid).session;
    step := Section(if w.host.conns[k].Admitted? then HostRuns.TakeNumber(k) else HostRuns.Insert(k));
  }

  lemma BeginHelps(w: World, cid: ContainerId) returns (step: Step)
    requires Ready(w, cid) && ClientOf(w, cid).phase.Registering?
    ensures Helps(w, step, cid)
  {
    step := Begin(cid);
  }

  lemma ResendHelps(w: World, cid: ContainerId) returns (step: Step)
    requires Ready(w, cid) && ClientOf(w, cid).phase.Reforwarding?
    requires ClientOf(w, cid).phase.todo <= ClientOf(w, cid).forwarded
    ensures Helps(w, step, cid)
  {
    var p :| p in ClientOf(w, cid).phase.todo;
    step := Resend(cid, p);
  }

  lemma AckHelps(w: World, cid: ContainerId) returns (step: Step)
    requires Ready(w, cid) && ClientOf(w, cid).phase.InSession? && ClientOf(w, cid).acks != []
    ensures Helps(w, step, cid)
  {
    step := ReceiveAck(cid);
  }

  lemma CheckHelps(w: World, cid: ContainerId) returns (step: Step)
    requires Ready(w, cid)
    requires var k := ClientOf(w, cid).session;
      HostEpochs.OwnsState(w.host, k) && k !in w.checked && k !in w.host.tasks && w.wires[k].it != []
    ensures Helps(w, step, cid)
  {
    step := Check(ClientOf(w, cid).session);
  }

  lemma RemovalMakesRoom(h: Host, cid: ContainerId, port: Port)
    ensures var h' := WithoutForward(h, cid, port);
      |h'.LivePorts(cid)| <= |h.LivePorts(cid)| && |h'.used.Keys| <= |h.used.Keys|
  {
    var h' := WithoutForward(h, cid, port);
    SubsetCount(h'.LivePorts(cid), h.LivePorts(cid));
    SubsetCount(h'.used.Keys, h.used.Keys);
  }

  lemma UnforwardHelps(w: World, cid: ContainerId) returns (step: Step)
    requires Ready(w, cid)
    requires var k := ClientOf(w, cid).session; k in w.checked && w.checked[k].it.Unforward?
    ensures Helps(w, step, cid)
  {
    hide WithoutForward;
    var k := ClientOf(w, cid).session;
    RemovalMakesRoom(w.host.host, cid, w.checked[k].it.port);
    step := Unforward(k);
  }

  lemma EvictionMakesRoom(h: Host, cid: ContainerId, port: Port)
    requires |h.LivePorts(cid)| < 128
    ensures var (h', eviction) := EvictForward(h, cid, port);
      eviction.Proceed? && |h'.LivePorts(cid)| <= |h.LivePorts(cid)| && |h'.used.Keys| <= |h.used.Keys|
  {
    assert !AtLimit(h, cid, port);
    RemovalMakesRoom(h, cid, port);
  }

  lemma EvictHelps(w: World, cid: ContainerId) returns (step: Step)
    requires Ready(w, cid)
    requires var k := ClientOf(w, cid).session; k in w.checked && w.checked[k].it.Forward?
    ensures Helps(w, step, cid)
  {
    hide EvictForward;
    var k := ClientOf(w, cid).session;
    EvictionMakesRoom(w.host.host, cid, w.checked[k].it.port);
    step := Section(HostRuns.BeginForward(k, cid, w.checked[k].it.port));
  }

  lemma SearchHelps(w: World, cid: ContainerId) returns (step: Step)
    requires Ready(w, cid)
    requires var k := ClientOf(w, cid).session; k in w.host.tasks && w.host.tasks[k].Preparing?
    ensures Helps(w, step, cid)
  {
    var k := ClientOf(w, cid).session;
    var found := FreePortIsFound(w.host.host.used.Keys, w.host.tasks[k].port);
    step := Section(HostRuns.Search(k, Some(found)));
  }

  lemma CommitHelps(w: World, cid: ContainerId) returns (step: Step)
    requires Ready(w, cid)
    requires var k := ClientOf(w, cid).session; k in w.host.tasks && w.host.tasks[k].Binding?
    ensures Helps(w, step, cid)
  {
    step := Section(HostRuns.Commit(ClientOf(w, cid).session));
  }

  /** While an unprivileged port is free, a search for a real port finds one. */
  lemma FreePortIsFound(used: set<Port>, port: Port) returns (found: Port)
    requires port != 0 && |used| < 64512
    ensures IsFirstFree(used, port, Some(found))
  {
    HostAccounting.PortsBelowCount(65536);
    if HostAccounting.PortsBelow(65536) <= used { SubsetCount(HostAccounting.PortsBelow(65536), used); }
    var q :| q in HostAccounting.PortsBelow(65536) && q !in used;
    var k := CandidatesCover(port, q);
    found := FirstFreeUpTo(used, port, k);
  }

  lemma {:induction false} FirstFreeUpTo(used: set<Port>, port: Port, k: nat) returns (found: Port)
    requires port != 0 && k <= UNPRIVILEGED_COUNT && Candidate(port, k) !in used
    ensures IsFirstFree(used, port, Some(found))
  {
    if AllUsedBefore(used, port, k) {
      found := Candidate(port, k);
    } else {
      var j: nat :| j < k && Candidate(port, j) !in used;
      found := FirstFreeUpTo(used, port, j);
    }
  }

  // ---- Every step on the way ------------------------------------------------------------------

  /** The session is the one served, no port it holds is missing, and none of `gone` is held or will be live. */
  ghost predicate Fine(n: Reconciliation.Net, gone: set<Port>) {
    && Reconciliation.Consistent(n) && !Reconciliation.Orphaned(n)
    && (forall p :: !Reconciliation.Missing(n, p))
    && (forall p | p in gone :: p !in n.forwarded && !Reconciliation.Divergent(n, p))
  }

  lemma HarmlessStaysFine(n: Reconciliation.Net, step: Reconciliation.Step, gone: set<Port>)
    requires Fine(n, gone) && Reconciliation.Enabled(n, step) && Harmless(n, step) && !step.SendForward?
    ensures Fine(Reconciliation.Apply(n, step), gone)
  {
    hide Reconciliation.Consistent, Reconciliation.Missing, Reconciliation.Divergent, Reconciliation.Attached;
    hide Reconciliation.Orphaned, Reconciliation.Open, Reconciliation.Loses, Reconciliation.Orphans;
    hide Reconciliation.Plants, Reconciliation.StaleRejection;
    var n' := Reconciliation.Apply(n, step);
    Reconciliation.StepKeepsConsistent(n, step);
    NoneForwarded(n, step);
    if Reconciliation.Open(n') {
      Reconciliation.OrphanedEvolves(n, step);
    } else {
      Reconciliation.ClosedIsNotOrphaned(n');
    }
    forall p ensures !Reconciliation.Missing(n', p)
             ensures p in gone ==> p !in n'.forwarded && !Reconciliation.Divergent(n', p)
    {
      if Reconciliation.Attached(n') {
        Reconciliation.MissingEvolves(n, step, p);
        Reconciliation.DivergenceEvolves(n, step, p);
        StaleIsHeld(n, step, p);
      } else {
        Reconciliation.NotAttachedIsNeither(n', p);
      }
    }
  }

  lemma NoneForwarded(n: Reconciliation.Net, step: Reconciliation.Step)
    requires Reconciliation.Enabled(n, step) && !step.SendForward?
    ensures Reconciliation.Apply(n, step).forwarded <= n.forwarded
  {
  }

  lemma StaleIsHeld(n: Reconciliation.Net, step: Reconciliation.Step, p: Port)
    ensures Reconciliation.StaleRejection(n, step, p) ==> p in n.forwarded
  {
  }

  /** A state from which rest is to be reached. */
  ghost predicate Good(w: World, cid: ContainerId, n: Reconciliation.Net, gone: set<Port>) {
    && AllOk(w) && HostRuns.PortsSafe(w.host) && Appears(w, cid, n) && Fine(n, gone)
    && Underway(w, cid) && HasRoom(w, cid)
  }

  lemma SessionIsServed(w: World, cid: ContainerId, n: Reconciliation.Net)
    requires AllOk(w) && Appears(w, cid, n) && Reconciliation.PhaseOk(n) && !Reconciliation.Orphaned(n)
    requires Underway(w, cid)
    ensures IsServed(w, cid)
  {
    hide HasRoom, HostEpochs.EpochsUnique, NumbersOk, Appears;
    Seen(w, cid, n);
  }

  lemma NextStep(w: World, cid: ContainerId, n: Reconciliation.Net, gone: set<Port>) returns (step: Step)
    requires Good(w, cid, n, gone) && !AtRest(w, cid)
    ensures Helps(w, step, cid)
  {
    hide HasRoom, Helps, Appears, HostRuns.PortsSafe, HostEpochs.EpochsUnique, HostEpochs.OwnsState;
    SessionIsServed(w, cid, n);
    Seen(w, cid, n);
    var c := ClientOf(w, cid);
    var k := c.session;
    if HostRuns.Pending(w.host.conns[k]) {
      step := RegistrationHelps(w, cid);
    } else if c.phase.Registering? {
      step := BeginHelps(w, cid);
    } else if c.phase.Reforwarding? {
      step := ResendHelps(w, cid);
    } else if k in w.checked {
      if w.checked[k].it.Unforward? { step := UnforwardHelps(w, cid); } else { step := EvictHelps(w, cid); }
    } else if k in w.host.tasks {
      if w.host.tasks[k].Preparing? { step := SearchHelps(w, cid); } else { step := CommitHelps(w, cid); }
    } else if w.wires[k].it != [] {
      step := CheckHelps(w, cid);
    } else {
      step := AckHelps(w, cid);
    }
  }

  lemma StepStaysGood(w: World, cid: ContainerId, n: Reconciliation.Net, gone: set<Port>, step: Step)
    returns (n': Reconciliation.Net)
    requires Good(w, cid, n, gone) && Helps(w, step, cid)
    ensures Good(Apply(w, step), cid, n', gone)
  {
    hide HasRoom, Appears, HostRuns.PortsSafe, AllOk, Closer, Foreign, Harmless, Enabled, Underway;
    hide NetStep, Reconciliation.Apply, HostRuns.Apply;
    StepKeepsAllOk(w, step);
    if SectionOf(w, step).Some? { StepKeepsSafe(w, step); }
    StepStaysSeen(w, step, cid, n);
    var ns := NetStep(w, step, cid);
    n' := Advance(n, ns);
    if ns.Some? {
      OwnStepIsHarmless(w, step, cid, n);
      NothingNew(w, step, cid);
      HarmlessStaysFine(n, ns.value, gone);
    }
  }

  lemma NothingNew(w: World, step: Step, cid: ContainerId)
    requires Enabled(w, step) && IsOwn(step, cid, ClientOf(w, cid).session) && NetStep(w, step, cid).Some?
    ensures !NetStep(w, step, cid).value.SendForward?
  {
  }

  ghost predicate OwnSteps(steps: seq<Step>, cid: ContainerId, k: Id) {
    forall i | 0 <= i < |steps| :: IsOwn(steps[i], cid, k)
  }

  /** From a good state steps of the container and its connection lead to rest. */
  lemma {:induction false} RestIsReached(w: World, cid: ContainerId, n: Reconciliation.Net, gone: set<Port>)
    returns (steps: seq<Step>, n': Reconciliation.Net)
    requires Good(w, cid, n, gone)
    ensures IsRun(w, steps) && OwnSteps(steps, cid, ClientOf(w, cid).session)
    ensures Good(Run(w, steps), cid, n', gone) && AtRest(Run(w, steps), cid)
    ensures Remaining(ClientOf(Run(w, steps), cid)) == Remaining(ClientOf(w, cid))
    decreases ClientRank(ClientOf(w, cid)), ConnRank(w, ClientOf(w, cid).session), |ClientOf(w, cid).acks|
  {
    hide AllOk, Appears, Fine, HasRoom, HostRuns.PortsSafe, AtRest, Apply, Enabled, IsOwn, ConnRank, ClientRank;
    hide Remaining;
    if AtRest(w, cid) {
      steps, n' := [], n;
    } else {
      var step := NextStep(w, cid, n, gone);
      var n1 := StepStaysGood(w, cid, n, gone, step);
      var rest;
      rest, n' := RestIsReached(Apply(w, step), cid, n1, gone);
      steps := [step] + rest;
      assert steps[1..] == rest;
    }
  }

  // ---- What rest means ---------------------------------------------------------------------------

  lemma RestServes(w: World, cid: ContainerId, n: Reconciliation.Net, gone: set<Port>)
    requires Good(w, cid, n, gone) && AtRest(w, cid)
    ensures ClientOf(w, cid).forwarded == Remaining(ClientOf(w, cid))
    ensures forall p | p in ClientOf(w, cid).forwarded :: Served(w.host, cid, p)
    ensures w.host.host.LivePorts(cid) !! gone
  {
    hide HasRoom, Underway, Served, HostRuns.PortsSafe, AllOk;
    RestIsQuiescent(w, cid, n);
    Seen(w, cid, n);
    forall p ensures p in n.forwarded ==> Served(w.host, cid, p)
             ensures p in gone ==> p !in w.host.host.LivePorts(cid)
    {
      assert !Reconciliation.Missing(n, p);
      if p in n.forwarded { LivePortsAreServed(w.host, cid, p); }
    }
  }

  /** What is reached: the container is at rest with every port it holds served. */
  ghost predicate Recovered(w: World, cid: ContainerId, held: set<Port>) {
    && AtRest(w, cid) && ClientOf(w, cid).forwarded == held
    && (forall p | p in held :: Served(w.host, cid, p))
  }

  lemma UndisturbedIsFine(before: seq<Step>, cid: ContainerId) returns (n: Reconciliation.Net)
    requires IsRun(INIT, before) && Undisturbed(Trace(INIT, before, cid))
    ensures AllOk(Run(INIT, before)) && HostRuns.PortsSafe(Run(INIT, before).host)
    ensures Appears(Run(INIT, before), cid, n) && Fine(n, {})
  {
    hide IsRun, Run, Trace, AllOk, Appears, Reconciliation.IsRun, Reconciliation.Run, Reconciliation.NeverOrphans;
    hide Reconciliation.NeverLoses, Reconciliation.Consistent, Reconciliation.Missing, Reconciliation.Orphaned;
    hide HostRuns.PortsSafe;
    StartAppears(cid);
    StartIsFine();
    EveryContainerFollowsProtocol(before, cid);
    RunKeepsPortsSafe(INIT, before);
    var start, trace := Reconciliation.INIT, Trace(INIT, before, cid);
    n := Reconciliation.Run(start, trace);
    Reconciliation.NeverOrphansStaysAttached(start, trace);
    forall p ensures !Reconciliation.Missing(n, p) { Reconciliation.NeverLosesNeverMisses(start, trace, p); }
  }

  lemma StartIsFine()
    ensures Fine(Reconciliation.INIT, {})
  {
  }

  /** Main result: from every state an undisturbed run reaches in which the container's connection is open and
      acknowledged, and in which there is room, steps of the container and of that connection alone lead to
      rest with every port served; the container holds what it held but for rejections already on their way. */
  lemma SessionReachesRest(before: seq<Step>, cid: ContainerId) returns (after: seq<Step>)
    requires IsRun(INIT, before) && Undisturbed(Trace(INIT, before, cid))
    requires Underway(Run(INIT, before), cid) && HasRoom(Run(INIT, before), cid)
    ensures var w := Run(INIT, before);
      && IsRun(w, after) && OwnSteps(after, cid, ClientOf(w, cid).session)
      && Recovered(Run(w, after), cid, Remaining(ClientOf(w, cid)))
  {
    hide IsRun, Run, Trace, AllOk, Appears, Fine, HasRoom, Underway, Remaining, Undisturbed, AtRest, Served;
    hide HostRuns.PortsSafe;
    var w := Run(INIT, before);
    var n := UndisturbedIsFine(before, cid);
    var n';
    after, n' := RestIsReached(w, cid, n, {});
    RestServes(Run(w, after), cid, n', {});
  }

  // ---- Reconnecting -----------------------------------------------------------------------------------

  /** There is room for the container to register and forward what it holds. */
  ghost predicate CanReconnect(w: World, cid: ContainerId) {
    var held := ClientOf(w, cid).forwarded;
    && (cid in w.host.host.containers || |w.host.host.containers| < 64)
    && |held| <= 128 && 0 !in held && |w.host.host.used.Keys| + |held| <= 64512
  }

  /** The container gives up what connection it has and registers again. */
  function Reconnecting(w: World, cid: ContainerId): seq<Step> {
    (if ClientOf(w, cid).phase.Disconnected? then [] else [Lose(cid)])
    + [Connect(cid), Section(HostRuns.Admit(w.nextConn, cid))]
  }

  lemma LoseIsPossible(w: World, cid: ContainerId) returns (w': World)
    requires AllOk(w) && HostRuns.PortsSafe(w.host) && CanReconnect(w, cid) && !ClientOf(w, cid).phase.Disconnected?
    ensures Enabled(w, Lose(cid)) && w' == Apply(w, Lose(cid))
    ensures AllOk(w') && HostRuns.PortsSafe(w'.host) && CanReconnect(w', cid)
    ensures ClientOf(w', cid).phase.Disconnected? && ClientOf(w', cid).forwarded == ClientOf(w, cid).forwarded
    ensures w'.nextConn == w.nextConn
  {
    hide AllOk, HostRuns.PortsSafe;
    w' := Apply(w, Lose(cid));
    StepKeepsAllOk(w, Lose(cid));
  }

  lemma ConnectIsPossible(w: World, cid: ContainerId) returns (w': World)
    requires AllOk(w) && HostRuns.PortsSafe(w.host) && CanReconnect(w, cid) && ClientOf(w, cid).phase.Disconnected?
    ensures Enabled(w, Connect(cid)) && w' == Apply(w, Connect(cid)) && AllOk(w') && HostRuns.PortsSafe(w'.host)
    ensures CanReconnect(w', cid) && ClientOf(w', cid).session == w.nextConn && ClientOf(w', cid).phase.Registering?
    ensures ClientOf(w', cid).forwarded == ClientOf(w, cid).forwarded
    ensures w.nextConn in w'.registering && w'.registering[w.nextConn] == cid && w.nextConn !in w'.host.conns
    ensures w.nextConn in w'.wires && w'.wires[w.nextConn] == Held(cid, [])
    ensures w.nextConn !in w'.checked && w.nextConn !in w'.host.tasks
  {
    hide AllOk, HostRuns.PortsSafe, HostRuns.Apply;
    w' := Apply(w, Connect(cid));
    StepKeepsAllOk(w, Connect(cid));
    NewConnectionIsFresh(w);
  }

  lemma AdmissionMakesRoom(h: Host, cid: ContainerId)
    requires cid in h.containers || |h.containers| < 64
    ensures var (h', admitted) := AdmitRegistration(h, cid);
      admitted && h'.LivePorts(cid) == {} && |h'.used.Keys| <= |h.used.Keys|
  {
    SubsetCount(WithoutContainer(h, cid).used.Keys, h.used.Keys);
  }

  lemma AdmissionIsPossible(w: World, cid: ContainerId, k: Id) returns (w': World)
    requires AllOk(w) && HostRuns.PortsSafe(w.host) && CanReconnect(w, cid)
    requires ClientOf(w, cid).session == k && ClientOf(w, cid).phase.Registering?
    requires k in w.registering && w.registering[k] == cid && k !in w.host.conns
    requires k in w.wires && w.wires[k] == Held(cid, []) && k !in w.checked && k !in w.host.tasks
    ensures Enabled(w, Section(HostRuns.Admit(k, cid))) && w' == Apply(w, Section(HostRuns.Admit(k, cid)))
    ensures AllOk(w') && HostRuns.PortsSafe(w'.host) && Underway(w', cid) && HasRoom(w', cid)
    ensures ClientOf(w', cid).session == k && ClientOf(w', cid).forwarded == ClientOf(w, cid).forwarded
    ensures NetStep(w, Section(HostRuns.Admit(k, cid)), cid) == Some(Reconciliation.Admit(k))
  {
    hide AllOk, HostRuns.PortsSafe, AdmitRegistration, IsFirstFree, HostEpochs.OwnsState;
    AdmissionMakesRoom(w.host.host, cid);
    var admit := Section(HostRuns.Admit(k, cid));
    w' := Apply(w, admit);
    StepKeepsAllOk(w, admit);
    StepKeepsSafe(w, admit);
  }

  lemma NewConnectionIsFresh(w: World)
    requires AllOk(w)
    ensures w.nextConn !in w.host.conns && w.nextConn !in w.wires && w.nextConn !in w.checked
    ensures w.nextConn !in w.host.tasks
  {
  }

  /** All ports but these. */
  ghost function OtherPorts(held: set<Port>): set<Port> { set p: Port | p !in held }

  /** A session that has just been admitted has everything before it. */
  lemma NewSessionIsFine(n: Reconciliation.Net, k: Id)
    requires Reconciliation.Consistent(n) && n.phase.Registering? && n.session == k && k in n.registering
    ensures Reconciliation.Enabled(n, Reconciliation.Admit(k))
    ensures Fine(Reconciliation.Apply(n, Reconciliation.Admit(k)), OtherPorts(n.forwarded))
    ensures Reconciliation.Apply(n, Reconciliation.Admit(k)).acks == []
  {
    Reconciliation.StepKeepsConsistent(n, Reconciliation.Admit(k));
  }

  lemma Registered(w: World, cid: ContainerId, n: Reconciliation.Net) returns (w': World, n': Reconciliation.Net)
    requires AllOk(w) && HostRuns.PortsSafe(w.host) && Appears(w, cid, n) && Reconciliation.Consistent(n)
    requires CanReconnect(w, cid) && ClientOf(w, cid).phase.Disconnected?
    ensures var steps := [Connect(cid), Section(HostRuns.Admit(w.nextConn, cid))];
      IsRun(w, steps) && Run(w, steps) == w'
    ensures Good(w', cid, n', OtherPorts(ClientOf(w, cid).forwarded))
    ensures ClientOf(w', cid).forwarded == ClientOf(w, cid).forwarded && ClientOf(w', cid).session == w.nextConn
    ensures ClientOf(w', cid).acks == []
  {
    hide AllOk, HostRuns.PortsSafe, Appears, Fine, HasRoom, Underway, CanReconnect, Apply, Reconciliation.Apply;
    hide Reconciliation.Consistent, Enabled;
    var k := w.nextConn;
    var admit := Section(HostRuns.Admit(k, cid));
    var w1 := ConnectIsPossible(w, cid);
    StepStaysSeen(w, Connect(cid), cid, n);
    var n1 := ConnectSeen(w, cid, n);
    w' := AdmissionIsPossible(w1, cid, k);
    StepStaysSeen(w1, admit, cid, n1);
    NewSessionIsFine(n1, k);
    n' := Reconciliation.Apply(n1, Reconciliation.Admit(k));
    Seen(w', cid, n');
    TwoSteps(w, Connect(cid), w1, admit);
  }

  lemma ConnectSeen(w: World, cid: ContainerId, n: Reconciliation.Net) returns (n': Reconciliation.Net)
    requires Enabled(w, Connect(cid)) && Follows(w, Connect(cid), cid, n) && Reconciliation.Consistent(n)
    requires Appears(Apply(w, Connect(cid)), cid, Advance(n, NetStep(w, Connect(cid), cid)))
    ensures Appears(Apply(w, Connect(cid)), cid, n') && Reconciliation.Consistent(n')
    ensures n'.phase.Registering? && n'.session == w.nextConn && w.nextConn in n'.registering
    ensures n'.forwarded == ClientOf(w, cid).forwarded
  {
    hide Reconciliation.ConnectionsOk, Reconciliation.PhaseOk;
    n' := Reconciliation.Apply(n, Reconciliation.Connect(w.nextConn));
    Seen(w, cid, n);
    Reconciliation.StepKeepsConsistent(n, Reconciliation.Connect(w.nextConn));
  }

  lemma TwoSteps(w: World, a: Step, w1: World, b: Step)
    requires Enabled(w, a) && w1 == Apply(w, a) && Enabled(w1, b)
    ensures IsRun(w, [a, b]) && Run(w, [a, b]) == Apply(w1, b)
  {
    hide Enabled, Apply;
    assert [a, b][1..] == [b] && [b][1..] == [];
    assert IsRun(w1, [b]) && Run(w1, [b]) == Apply(w1, b);
  }

  lemma {:induction false} RunsJoin(w: World, a: seq<Step>, b: seq<Step>)
    requires IsRun(w, a) && IsRun(Run(w, a), b)
    ensures IsRun(w, a + b) && Run(w, a + b) == Run(Run(w, a), b)
    decreases |a|
  {
    hide Enabled, Apply;
    if a == [] {
      assert a + b == b;
    } else {
      RunsJoin(Apply(w, a[0]), a[1..], b);
      assert (a + b)[1..] == a[1..] + b;
    }
  }

  lemma ReconnectedReachesRest(w: World, cid: ContainerId, n: Reconciliation.Net) returns (steps: seq<Step>)
    requires AllOk(w) && HostRuns.PortsSafe(w.host) && Appears(w, cid, n) && Reconciliation.Consistent(n)
    requires CanReconnect(w, cid) && ClientOf(w, cid).phase.Disconnected?
    ensures var reconnect := [Connect(cid), Section(HostRuns.Admit(w.nextConn, cid))];
      IsRun(w, reconnect + steps) && OwnSteps(steps, cid, w.nextConn)
      && Recovered(Run(w, reconnect + steps), cid, ClientOf(w, cid).forwarded)
      && Run(w, reconnect + steps).host.host.LivePorts(cid) == ClientOf(w, cid).forwarded
  {
    hide AllOk, HostRuns.PortsSafe, Appears, Fine, HasRoom, Underway, CanReconnect, IsRun, Run, AtRest, Served;
    hide Reconciliation.Consistent, ClientOf;
    var held := ClientOf(w, cid).forwarded;
    var w1, n1 := Registered(w, cid, n);
    var n2;
    steps, n2 := RestIsReached(w1, cid, n1, OtherPorts(held));
    RunsJoin(w, [Connect(cid), Section(HostRuns.Admit(w.nextConn, cid))], steps);
    RestServes(Run(w1, steps), cid, n2, OtherPorts(held));
    ServedAreLive(Run(w1, steps), cid, held);
  }

  lemma ServedAreLive(w: World, cid: ContainerId, held: set<Port>)
    requires (forall p | p in held :: Served(w.host, cid, p)) && w.host.host.LivePorts(cid) !! OtherPorts(held)
    ensures w.host.host.LivePorts(cid) == held
  {
  }

  /** Main result: no damage is beyond a reconnect. From every reachable state, whatever has been lost,
      stripped, planted or orphaned before, a container with room gives up its connection, registers
      again, and by its own and its new connection's steps comes to rest with exactly its ports live, each on
      a host port of its own. */
  lemma ReconnectHeals(before: seq<Step>, cid: ContainerId) returns (after: seq<Step>)
    requires IsRun(INIT, before) && CanReconnect(Run(INIT, before), cid)
    ensures var w := Run(INIT, before);
      var steps := Reconnecting(w, cid) + after;
      && OwnSteps(after, cid, w.nextConn) && IsRun(w, steps)
      && Recovered(Run(w, steps), cid, ClientOf(w, cid).forwarded)
      && Run(w, steps).host.host.LivePorts(cid) == ClientOf(w, cid).forwarded
  {
    hide IsRun, Run, Trace, AllOk, Appears, Enabled, Apply, Recovered, CanReconnect, Reconciliation.Consistent;
    hide HostRuns.PortsSafe, Reconciliation.IsRun, Reconciliation.Run, NetStep;
    StartAppears(cid);
    RunStaysConsistent(before, cid);
    RunKeepsPortsSafe(INIT, before);
    var w := Run(INIT, before);
    var n := Reconciliation.Run(Reconciliation.INIT, Trace(INIT, before, cid));
    var reconnect := [Connect(cid), Section(HostRuns.Admit(w.nextConn, cid))];
    if ClientOf(w, cid).phase.Disconnected? {
      after := ReconnectedReachesRest(w, cid, n);
      assert [] + reconnect == reconnect;
    } else {
      var w1 := LoseIsPossible(w, cid);
      StepStaysSeen(w, Lose(cid), cid, n);
      var n1 := LoseSeen(w, cid, n);
      after := ReconnectedReachesRest(w1, cid, n1);
      OneFirst(w, Lose(cid), reconnect + after);
      assert [Lose(cid)] + (reconnect + after) == ([Lose(cid)] + reconnect) + after;
    }
  }

  lemma RunStaysConsistent(before: seq<Step>, cid: ContainerId)
    requires IsRun(INIT, before)
    ensures AllOk(Run(INIT, before)) && Reconciliation.IsRun(Reconciliation.INIT, Trace(INIT, before, cid))
    ensures var n := Reconciliation.Run(Reconciliation.INIT, Trace(INIT, before, cid));
      Appears(Run(INIT, before), cid, n) && Reconciliation.Consistent(n)
  {
    hide IsRun, Run, Trace, AllOk, Appears, Reconciliation.IsRun, Reconciliation.Run, Reconciliation.Consistent;
    StartAppears(cid);
    EveryContainerFollowsProtocol(before, cid);
    Reconciliation.RunStaysConsistent(Reconciliation.INIT, Trace(INIT, before, cid));
  }

  lemma LoseSeen(w: World, cid: ContainerId, n: Reconciliation.Net) returns (n': Reconciliation.Net)
    requires Enabled(w, Lose(cid)) && Follows(w, Lose(cid), cid, n) && Reconciliation.Consistent(n)
    requires Appears(Apply(w, Lose(cid)), cid, Advance(n, NetStep(w, Lose(cid), cid)))
    ensures Appears(Apply(w, Lose(cid)), cid, n') && Reconciliation.Consistent(n')
  {
    hide Reconciliation.Consistent, Appears, Apply, Reconciliation.Apply;
    n' := Reconciliation.Apply(n, Reconciliation.Lose);
    Reconciliation.StepKeepsConsistent(n, Reconciliation.Lose);
  }

  lemma OneFirst(w: World, step: Step, rest: seq<Step>)
    requires Enabled(w, step) && IsRun(Apply(w, step), rest)
    ensures IsRun(w, [step] + rest) && Run(w, [step] + rest) == Run(Apply(w, step), rest)
  {
    hide Enabled, Apply;
    assert ([step] + rest)[1..] == rest;
  }

  // ---- What a scan asks for -----------------------------------------------------------------------

  /** In a session with room for one more request, a port that is not held can be announced and one that is
      held can be withdrawn. */
  ghost predicate MayScan(w: World, cid: ContainerId, step: Step) {
    var c := ClientOf(w, cid);
    && c.phase.InSession? && Underway(w, cid) && HasRoom(w, cid)
    && |w.host.host.LivePorts(cid)| + Outstanding(w, cid) < 128
    && |w.host.host.used.Keys| + Searches(w, cid) < 64512
    && ((step.SendForward? && step.port !in c.forwarded) || (step.SendUnforward? && step.port in c.forwarded))
    && step.cid == cid && step.port != 0
  }

  lemma ScanStepHelps(w: World, cid: ContainerId, step: Step)
    requires MayScan(w, cid, step)
    ensures Enabled(w, step)
    ensures var (c, w') := (ClientOf(w, cid), Apply(w, step));
      && Underway(w', cid) && HasRoom(w', cid) && w'.host == w.host
      && ClientOf(w', cid) == c.(forwarded := if step.SendForward? then c.forwarded + {step.port}
                                              else c.forwarded - {step.port})
  {
  }

  lemma SendStaysFine(n: Reconciliation.Net, step: Reconciliation.Step)
    requires Fine(n, {}) && Reconciliation.Enabled(n, step) && (step.SendForward? || step.SendUnforward?)
    ensures Fine(Reconciliation.Apply(n, step), if step.SendUnforward? then {step.p} else {})
  {
    hide Reconciliation.Consistent, Reconciliation.Missing, Reconciliation.Divergent, Reconciliation.Attached;
    hide Reconciliation.Orphaned, Reconciliation.Open, Reconciliation.Plants, Reconciliation.Cures;
    var n' := Reconciliation.Apply(n, step);
    Reconciliation.StepKeepsConsistent(n, step);
    if Reconciliation.Open(n') {
      Reconciliation.OrphanedEvolves(n, step);
    } else {
      Reconciliation.ClosedIsNotOrphaned(n');
    }
    forall p ensures !Reconciliation.Missing(n', p)
             ensures step == Reconciliation.SendUnforward(p) ==> !Reconciliation.Divergent(n', p)
    {
      Reconciliation.Exclusive(n, step, p);
      if Reconciliation.Attached(n') {
        Reconciliation.MissingEvolves(n, step, p);
        Reconciliation.DivergenceEvolves(n, step, p);
        HeldIsNotDivergent(n, p);
      } else {
        Reconciliation.NotAttachedIsNeither(n', p);
      }
    }
  }

  lemma HeldIsNotDivergent(n: Reconciliation.Net, p: Port)
    ensures p in n.forwarded ==> !Reconciliation.Divergent(n, p)
  {
  }

  lemma ScanStepSeen(w: World, cid: ContainerId, n: Reconciliation.Net, step: Step) returns (n': Reconciliation.Net)
    requires AllOk(w) && Appears(w, cid, n) && Fine(n, {}) && MayScan(w, cid, step) && Enabled(w, step)
    ensures AllOk(Apply(w, step)) && Appears(Apply(w, step), cid, n')
    ensures Fine(n', if step.SendUnforward? then {step.port} else {})
  {
    hide AllOk, Appears, HasRoom, Underway, Fine, Apply, Reconciliation.Apply, Reconciliation.Enabled, Enabled;
    StepKeepsAllOk(w, step);
    FineIsConsistent(n);
    StepStaysSeen(w, step, cid, n);
    var ns := NetStep(w, step, cid).value;
    n' := Reconciliation.Apply(n, ns);
    SendStaysFine(n, ns);
  }

  lemma FineIsConsistent(n: Reconciliation.Net)
    requires Fine(n, {})
    ensures Reconciliation.Consistent(n)
  {
  }

  /** Main result: in an undisturbed session a port that is announced is served, unless a rejection of its
      last announcement is still on its way, and one that is withdrawn is no longer live, after steps of the
      container and its connection alone. */
  lemma ScansAreCarriedOut(before: seq<Step>, cid: ContainerId, step: Step) returns (after: seq<Step>)
    requires IsRun(INIT, before) && Undisturbed(Trace(INIT, before, cid)) && MayScan(Run(INIT, before), cid, step)
    ensures var (w, c) := (Run(INIT, before), ClientOf(Run(INIT, before), cid));
      var held := if step.SendForward? then c.forwarded + {step.port} else c.forwarded - {step.port};
      && IsRun(w, [step] + after) && OwnSteps(after, cid, c.session)
      && Recovered(Run(w, [step] + after), cid, held - Rejected(c))
      && (step.SendUnforward? ==> step.port !in Run(w, [step] + after).host.host.LivePorts(cid))
  {
    hide IsRun, Run, Trace, AllOk, Appears, Fine, HasRoom, Underway, Undisturbed, AtRest, Served, Apply, Enabled;
    hide HostRuns.PortsSafe, Rejected, OwnSteps;
    var w := Run(INIT, before);
    var n := UndisturbedIsFine(before, cid);
    ScanStepHelps(w, cid, step);
    var n1 := ScanStepSeen(w, cid, n, step);
    var gone := if step.SendUnforward? then {step.port} else {};
    var w1, n2 := Apply(w, step), n1;
    after, n2 := RestIsReached(w1, cid, n1, gone);
    RestServes(Run(w1, after), cid, n2, gone);
    RejectedStays(ClientOf(w, cid), ClientOf(w1, cid));
    OneFirst(w, step, after);
  }

  lemma RejectedStays(c: Client, c': Client)
    requires c'.acks == c.acks
    ensures Rejected(c') == Rejected(c)
  {
  }

  // ---- What the surroundings can always do --------------------------------------------------------------

  /** How the host's side of a connection that is not in the middle of a request ends. */
  ghost function Ending(w: World, k: Id): seq<Step>
    requires k in w.wires && (k !in w.registering ==> k in w.host.conns)
  {
    if k in w.registering then [Close(k)]
    else if w.host.conns[k].Admitted? then [Section(HostRuns.Abandon(k))]
    else if w.host.conns[k].Numbered? then [Section(HostRuns.Insert(k)), Section(HostRuns.Disconnect(k))]
    else [Section(HostRuns.Disconnect(k))]
  }

  /** In every reachable state a container can lose its connection, and the host's side of every connection
      that is not in the middle of a request can end, leaving nothing of what it owned. */
  lemma ConnectionsMayEnd(before: seq<Step>, k: Id)
    requires IsRun(INIT, before)
    requires var w := Run(INIT, before); k in w.wires && k !in w.checked && k !in w.host.tasks
    ensures var w := Run(INIT, before);
      && (k !in w.registering ==> k in w.host.conns) && IsRun(w, Ending(w, k))
      && var w' := Run(w, Ending(w, k));
         && k !in w'.wires && !HostEpochs.OwnsState(w'.host, k)
         && (HostEpochs.OwnsState(w.host, k) ==> w.wires[k].cid !in w'.host.host.containers)
  {
    hide IsRun, Run, AllOk;
    RunStaysConsistent(before, "");
    EndsFrom(Run(INIT, before), k);
  }

  lemma EndsAtOnce(w: World, k: Id, step: Step)
    requires AllOk(w) && k in w.wires && k !in w.checked && k !in w.host.tasks
    requires (k !in w.registering ==> k in w.host.conns) && Ending(w, k) == [step]
    ensures Enabled(w, step)
    ensures var w' := Apply(w, step);
      && k !in w'.wires && !HostEpochs.OwnsState(w'.host, k)
      && (HostEpochs.OwnsState(w.host, k) ==> w.wires[k].cid !in w'.host.host.containers)
  {
  }

  lemma InsertionIsPossible(w: World, k: Id) returns (w': World)
    requires AllOk(w) && k in w.wires && k !in w.checked && k !in w.host.tasks
    requires k !in w.registering && k in w.host.conns && w.host.conns[k].Numbered?
    ensures Enabled(w, Section(HostRuns.Insert(k))) && w' == Apply(w, Section(HostRuns.Insert(k))) && AllOk(w')
    ensures k in w'.wires && k !in w'.checked && k !in w'.host.tasks && HostEpochs.IsInserted(w'.host, k)
    ensures k !in w'.registering && !HostEpochs.OwnsState(w.host, k)
  {
    hide NumbersOk, DispatchOk, ClientsOk, HostEpochs.EpochsUnique;
    w' := Apply(w, Section(HostRuns.Insert(k)));
    StepKeepsAllOk(w, Section(HostRuns.Insert(k)));
  }

  lemma ConnectionHasStage(w: World, k: Id)
    requires AllOk(w) && k in w.wires
    ensures k !in w.registering ==> k in w.host.conns
  {
  }

  lemma EndsFrom(w: World, k: Id)
    requires AllOk(w) && k in w.wires && k !in w.checked && k !in w.host.tasks
    ensures k !in w.registering ==> k in w.host.conns
    ensures IsRun(w, Ending(w, k))
    ensures var w' := Run(w, Ending(w, k));
      && k !in w'.wires && !HostEpochs.OwnsState(w'.host, k)
      && (HostEpochs.OwnsState(w.host, k) ==> w.wires[k].cid !in w'.host.host.containers)
  {
    hide AllOk, Enabled, Apply, HostEpochs.OwnsState;
    ConnectionHasStage(w, k);
    var steps := Ending(w, k);
    if |steps| == 2 {
      var w1 := InsertionIsPossible(w, k);
      EndsAtOnce(w1, k, steps[1]);
      TwoSteps(w, steps[0], w1, steps[1]);
    } else {
      EndsAtOnce(w, k, steps[0]);
      assert steps[1..] == [];
    }
  }

  /** In every state a listener can fail to bind, which frees its port and ends the request; an administrator
      can unforward any port; what a connection still carries can be lost once the container has given it up;
      and a container can lose its connection, which costs it none of the ports it holds. */
  lemma SurroundingsMayInterfere(w: World, cid: ContainerId, port: Port, k: Id)
    ensures k in w.host.tasks && w.host.tasks[k].Binding? ==>
      && Enabled(w, Section(HostRuns.BindFails(k)))
      && var w' := Apply(w, Section(HostRuns.BindFails(k)));
         k !in w'.host.tasks && w.host.tasks[k].target !in w'.host.host.used
    ensures Enabled(w, Section(HostRuns.Unforward(cid, port)))
         && port !in Apply(w, Section(HostRuns.Unforward(cid, port))).host.host.LivePorts(cid)
    ensures k in w.wires && w.wires[k].it != [] && !Connected(ClientOf(w, w.wires[k].cid)) ==>
      && Enabled(w, Truncate(k))
      && var w' := Apply(w, Truncate(k));
         k in w'.wires && w.wires[k].it == w'.wires[k].it + [w.wires[k].it[|w.wires[k].it| - 1]]
    ensures !ClientOf(w, cid).phase.Disconnected? ==>
      && Enabled(w, Lose(cid)) && ClientOf(Apply(w, Lose(cid)), cid).phase.Disconnected?
      && ClientOf(Apply(w, Lose(cid)), cid).forwarded == ClientOf(w, cid).forwarded
  {
    hide EvictForward, AdmitRegistration, IsFirstFree, HostEpochs.OwnsState;
  }
}
