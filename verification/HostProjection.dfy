/** The host's side of the two-party protocol, seen from both models: what `HostRuns` does to one
    container id, with any number of containers interleaving, is what the protocol lets its host do. */
module HostProjection {
  import opened Wrappers
  import opened PortSearch
  import opened HostForwarding
  import HostRuns
  import HostCapacity
  import HostEpochs
  import HostOverlap
  import Reconciliation

  type Id = nat

  /** What the host knows of one container: the forwards it has evicted and not yet committed, the
      connections admitted but not inserted, the connection that owns the state, and the live ports. */
  datatype Side = Side(evicted: map<Id, Port>, admitted: set<Id>, owner: Option<Id>, live: set<Port>)

  const START: Side := Side(map[], {}, None, {})

  datatype Event =
    | Idle
    | Evict(k: Id, p: Port)
    | Strip(p: Port)               // unforwarded
    | Finish(k: Id, ok: bool)      // committed, or not
    | Admit(k: Id)
    | Insert(k: Id)
    | Drop(k: Id)

  predicate Possible(d: Side, e: Event) {
    match e
    case Evict(k, _) => k !in d.evicted && k !in d.admitted
    case Finish(k, _) => k in d.evicted
    case Admit(k) => k !in d.admitted && k !in d.evicted && d.owner != Some(k)
    case Insert(k) => k in d.admitted
    case Drop(k) => k !in d.evicted
    case _ => true
  }

  function Happen(d: Side, e: Event): Side
    requires Possible(d, e)
  {
    match e
    case Idle => d
    case Evict(k, p) => d.(evicted := d.evicted[k := p], live := d.live - {p})
    case Strip(p) => d.(live := d.live - {p})
    case Finish(k, ok) =>
      d.(evicted := d.evicted - {k}, live := if ok && d.owner.Some? then d.live + {d.evicted[k]} else d.live)
    case Admit(k) => d.(admitted := d.admitted + {k}, owner := None, live := {})
    case Insert(k) => d.(admitted := d.admitted - {k}, owner := Some(k), live := {})
    case Drop(k) =>
      d.(admitted := d.admitted - {k}, owner := if d.owner == Some(k) then None else d.owner,
         live := if d.owner == Some(k) then {} else d.live)
  }

  // ---- The protocol's host ------------------------------------------------------------

  function EvictedIn(busy: map<Reconciliation.Session, Reconciliation.Dispatch>): map<Id, Port> {
    map k | k in busy && busy[k].Evicted? :: busy[k].port
  }

  function OfNet(n: Reconciliation.Net): Side { Side(EvictedIn(n.busy), n.admitted, n.owner, n.live) }

  function NetEvent(n: Reconciliation.Net, step: Reconciliation.Step): Event
    requires Reconciliation.Enabled(n, step)
  {
    match step
    case Act(k, limit) =>
      (match n.busy[k].request
       case Unforward(p) => Strip(p)
       case Forward(p) => if limit then Idle else Evict(k, p))
    case Commit(k, ok) => Finish(k, ok)
    case Admit(k) => Admit(k)
    case Insert(k) => Insert(k)
    case HostDrops(k) => Drop(k)
    case AdminUnforward(p) => Strip(p)
    case _ => Idle
  }

  /** Every step of the protocol is one event of its host. */
  lemma NetStepProjects(n: Reconciliation.Net, step: Reconciliation.Step)
    requires Reconciliation.Consistent(n) && Reconciliation.Enabled(n, step)
    ensures Possible(OfNet(n), NetEvent(n, step))
    ensures OfNet(Reconciliation.Apply(n, step)) == Happen(OfNet(n), NetEvent(n, step))
  {
    hide Reconciliation.PhaseOk, Reconciliation.Sent, Reconciliation.Acked, EvictedIn;
    NetEvictedAfter(n, step);
  }

  lemma NetEvictedAfter(n: Reconciliation.Net, step: Reconciliation.Step)
    requires Reconciliation.ConnectionsOk(n) && Reconciliation.Enabled(n, step)
    ensures var before, after := EvictedIn(n.busy), EvictedIn(Reconciliation.Apply(n, step).busy);
      match NetEvent(n, step)
      case Evict(k, p) => k !in before && k !in n.admitted && after == before[k := p]
      case Finish(k, _) => k in before && before[k] == n.busy[k].port && after == before - {k}
      case Drop(k) => k !in before && after == before
      case Admit(k) => k !in before && after == before
      case _ => after == before
  {
    hide Reconciliation.Sent, Reconciliation.Acked;
  }

  /** And every event that is possible is a step of the protocol, for some container and connections
      around the same host. */
  lemma EventIsNetStep(n: Reconciliation.Net, e: Event) returns (m: Reconciliation.Net, step: Reconciliation.Step)
    requires Reconciliation.Consistent(n) && Possible(OfNet(n), e)
    ensures Reconciliation.Consistent(m) && OfNet(m) == OfNet(n)
    ensures Reconciliation.Enabled(m, step) && NetEvent(m, step) == e
  {
    match e
    case Idle =>
      m := n.(phase := Reconciliation.Disconnected, welcome := false, acks := []);
      step := Reconciliation.Connect(n.session + 1);
    case Strip(p) => m, step := n, Reconciliation.AdminUnforward(p);
    case Finish(k, ok) => m, step := n, Reconciliation.Commit(k, ok);
    case Insert(k) => m, step := n, Reconciliation.Insert(k);
    case Evict(k, p) =>
      m := Around(n, k);
      m := m.(busy := m.busy[k := Reconciliation.Checked(Reconciliation.Forward(p))],
              registering := m.registering - {k});
      step := Reconciliation.Act(k, false);
    case Admit(k) =>
      m := Around(n, k);
      m := m.(registering := m.registering + {k});
      step := Reconciliation.Admit(k);
    case Drop(k) =>
      m := Around(n, k);
      step := Reconciliation.HostDrops(k);
  }

  /** The same host with connection k open and idle and the container disconnected. */
  lemma Around(n: Reconciliation.Net, k: Id) returns (m: Reconciliation.Net)
    requires Reconciliation.Consistent(n) && k !in OfNet(n).evicted
    ensures Reconciliation.Consistent(m) && OfNet(m) == OfNet(n)
    ensures m.phase.Disconnected? && k in m.requests && k !in m.busy
  {
    m := n.(phase := Reconciliation.Disconnected, welcome := false, acks := [],
            session := if k > n.session then k else n.session,
            requests := n.requests[k := []], busy := n.busy - {k});
  }

  // ---- The host of HostRuns --------------------------------------------------------------

  ghost function EvictedOf(tasks: map<Id, HostRuns.Task>, cid: ContainerId): map<Id, Port> {
    map t | t in tasks && tasks[t].cid == cid :: tasks[t].port
  }

  ghost function AdmittedOf(conns: map<Id, HostRuns.Conn>, cid: ContainerId): set<Id> {
    set c | c in conns && HostRuns.Pending(conns[c]) && conns[c].cid == cid
  }

  lemma TaskSet(tasks: map<Id, HostRuns.Task>, t: Id, task: HostRuns.Task, cid: ContainerId)
    requires t in tasks ==> tasks[t].cid == task.cid
    ensures EvictedOf(tasks[t := task], cid)
         == if task.cid == cid then EvictedOf(tasks, cid)[t := task.port] else EvictedOf(tasks, cid)
    ensures t in tasks && task.port == tasks[t].port ==> EvictedOf(tasks[t := task], cid) == EvictedOf(tasks, cid)
  {
  }

  lemma TaskGone(tasks: map<Id, HostRuns.Task>, t: Id, cid: ContainerId)
    requires t in tasks
    ensures EvictedOf(tasks - {t}, cid)
         == if tasks[t].cid == cid then EvictedOf(tasks, cid) - {t} else EvictedOf(tasks, cid)
  {
  }

  lemma ConnSet(conns: map<Id, HostRuns.Conn>, c: Id, conn: HostRuns.Conn, cid: ContainerId)
    requires c in conns ==> conns[c].cid == conn.cid
    ensures AdmittedOf(conns[c := conn], cid)
         == if conn.cid != cid then AdmittedOf(conns, cid)
            else if HostRuns.Pending(conn) then AdmittedOf(conns, cid) + {c} else AdmittedOf(conns, cid) - {c}
    ensures c in conns && conn.cid == cid && HostRuns.Pending(conns[c]) ==> c in AdmittedOf(conns, cid)
  {
  }

  lemma ConnGone(conns: map<Id, HostRuns.Conn>, c: Id, cid: ContainerId)
    requires c in conns
    ensures AdmittedOf(conns - {c}, cid)
         == if conns[c].cid == cid then AdmittedOf(conns, cid) - {c} else AdmittedOf(conns, cid)
  {
  }

  /** The side of container `cid` in a state of `HostRuns`. */
  ghost predicate Shows(s: HostRuns.Sys, cid: ContainerId, d: Side) {
    && d.evicted == EvictedOf(s.tasks, cid) && d.admitted == AdmittedOf(s.conns, cid)
    && (forall c: Id :: d.owner == Some(c) <==> HostEpochs.OwnsState(s, c) && s.conns[c].cid == cid)
    && (d.owner.Some? <==> cid in s.host.containers)
    && d.live == s.host.LivePorts(cid)
  }

  ghost function HostEvent(s: HostRuns.Sys, step: HostRuns.Step, cid: ContainerId): Event
    requires HostRuns.Enabled(s, step)
  {
    match step
    case BeginForward(t, c, port) =>
      if c == cid && EvictForward(s.host, cid, port).1.Proceed? then Evict(t, port) else Idle
    case Search(t, found) => if s.tasks[t].cid == cid && found.None? then Finish(t, false) else Idle
    case BindFails(t) => if s.tasks[t].cid == cid then Finish(t, false) else Idle
    case Commit(t) => if s.tasks[t].cid == cid then Finish(t, true) else Idle
    case Unforward(c, port) => if c == cid then Strip(port) else Idle
    case Admit(c, id) => if id == cid && AdmitRegistration(s.host, cid).1 then Admit(c) else Idle
    case Insert(c) => if s.conns[c].cid == cid then Insert(c) else Idle
    case Abandon(c) => if s.conns[c].cid == cid then Drop(c) else Idle
    case Disconnect(c) => if s.conns[c].cid == cid then Drop(c) else Idle
    case TakeNumber(_) => Idle
  }

  /** Forwards in flight belong to inserted connections of their container. */
  ghost predicate TasksServed(s: HostRuns.Sys) {
    forall t | t in s.tasks :: t in s.conns && s.conns[t].Inserted? && s.conns[t].cid == s.tasks[t].cid
  }

  lemma StepKeepsTasksServed(s: HostRuns.Sys, step: HostRuns.Step)
    requires TasksServed(s) && HostRuns.Enabled(s, step) && !HostOverlap.OutOfOrder(s, step)
    ensures TasksServed(HostRuns.Apply(s, step))
  {
  }

  lemma EventIsPossible(s: HostRuns.Sys, step: HostRuns.Step, cid: ContainerId, d: Side)
    requires Shows(s, cid, d) && TasksServed(s) && HostRuns.Enabled(s, step) && !HostOverlap.OutOfOrder(s, step)
    ensures Possible(d, HostEvent(s, step, cid))
  {
  }

  /** The forwards in flight after a section, and the connections. */
  ghost function TasksLeft(s: HostRuns.Sys, step: HostRuns.Step): map<Id, HostRuns.Task>
    requires HostRuns.Enabled(s, step)
  {
    match step
    case BeginForward(t, c, port) =>
      if EvictForward(s.host, c, port).1.Proceed? then s.tasks[t := HostRuns.Preparing(c, port)] else s.tasks
    case Search(t, found) =>
      if found.Some? then s.tasks[t := HostRuns.Binding(s.tasks[t].cid, s.tasks[t].port, found.value)]
      else s.tasks - {t}
    case BindFails(t) => s.tasks - {t}
    case Commit(t) => s.tasks - {t}
    case _ => s.tasks
  }

  ghost function ConnsLeft(s: HostRuns.Sys, step: HostRuns.Step): map<Id, HostRuns.Conn>
    requires HostRuns.Enabled(s, step)
  {
    match step
    case Admit(c, id) =>
      if AdmitRegistration(s.host, id).1 then s.conns[c := HostRuns.Conn.Admitted(id)] else s.conns
    case TakeNumber(c) => s.conns[c := HostRuns.Numbered(s.conns[c].cid, s.nextRegistration)]
    case Insert(c) => s.conns[c := HostRuns.Inserted(s.conns[c].cid, s.conns[c].registration)]
    case Abandon(c) => s.conns - {c}
    case _ => s.conns
  }

  lemma TasksAfter(s: HostRuns.Sys, step: HostRuns.Step)
    requires HostRuns.Enabled(s, step)
    ensures HostRuns.Apply(s, step).tasks == TasksLeft(s, step)
  {
    hide WithoutForward, CommitForward, ReservePort, ReleasePort, WithoutContainer, AdmitRegistration, Cleanup;
    hide IsFirstFree;
  }

  lemma ConnsAfter(s: HostRuns.Sys, step: HostRuns.Step)
    requires HostRuns.Enabled(s, step)
    ensures HostRuns.Apply(s, step).conns == ConnsLeft(s, step)
  {
    hide WithoutForward, CommitForward, ReservePort, ReleasePort, WithoutContainer, EvictForward, Cleanup, IsFirstFree;
  }

  lemma EvictedAfter(s: HostRuns.Sys, step: HostRuns.Step, cid: ContainerId, d: Side)
    requires Shows(s, cid, d) && HostRuns.Enabled(s, step) && Possible(d, HostEvent(s, step, cid))
    ensures Happen(d, HostEvent(s, step, cid)).evicted == EvictedOf(HostRuns.Apply(s, step).tasks, cid)
  {
    hide HostRuns.Apply, EvictForward, AdmitRegistration, IsFirstFree, EvictedOf, AdmittedOf, HostEpochs.OwnsState;
    TasksAfter(s, step);
    match step
    case BeginForward(t, c, port) => TaskSet(s.tasks, t, HostRuns.Preparing(c, port), cid);
    case Search(t, found) =>
      if found.Some? {
        TaskSet(s.tasks, t, HostRuns.Binding(s.tasks[t].cid, s.tasks[t].port, found.value), cid);
      } else {
        TaskGone(s.tasks, t, cid);
      }
    case BindFails(t) => TaskGone(s.tasks, t, cid);
    case Commit(t) => TaskGone(s.tasks, t, cid);
    case _ =>
  }

  lemma AdmittedAfter(s: HostRuns.Sys, step: HostRuns.Step, cid: ContainerId, d: Side)
    requires Shows(s, cid, d) && HostRuns.Enabled(s, step) && Possible(d, HostEvent(s, step, cid))
    ensures Happen(d, HostEvent(s, step, cid)).admitted == AdmittedOf(HostRuns.Apply(s, step).conns, cid)
  {
    hide HostRuns.Apply, EvictForward, AdmitRegistration, IsFirstFree, EvictedOf, AdmittedOf, HostEpochs.OwnsState;
    ConnsAfter(s, step);
    DropsInserted(s, step, cid);
    match step
    case Admit(c, id) => ConnSet(s.conns, c, HostRuns.Conn.Admitted(id), cid);
    case TakeNumber(c) => ConnSet(s.conns, c, HostRuns.Numbered(s.conns[c].cid, s.nextRegistration), cid);
    case Insert(c) => ConnSet(s.conns, c, HostRuns.Inserted(s.conns[c].cid, s.conns[c].registration), cid);
    case Abandon(c) => ConnGone(s.conns, c, cid);
    case _ =>
  }

  lemma DropsInserted(s: HostRuns.Sys, step: HostRuns.Step, cid: ContainerId)
    requires HostRuns.Enabled(s, step)
    ensures step.Disconnect? ==> step.conn !in AdmittedOf(s.conns, cid)
    ensures step.TakeNumber? && s.conns[step.conn].cid == cid ==> step.conn in AdmittedOf(s.conns, cid)
  {
  }

  /** The step takes the state of `cid` away or replaces it. */
  ghost predicate Resets(s: HostRuns.Sys, step: HostRuns.Step, cid: ContainerId)
    requires HostRuns.Enabled(s, step)
  {
    match step
    case Admit(_, id) => id == cid && AdmitRegistration(s.host, cid).1
    case Insert(c) => s.conns[c].cid == cid
    case Disconnect(c) => s.conns[c].cid == cid && s.host.Owns(cid, s.conns[c].registration)
    case _ => false
  }

  /** The state of `cid` is there as before, under the same registration. */
  ghost predicate SameOwner(h: Host, h': Host, cid: ContainerId) {
    && (cid in h'.containers <==> cid in h.containers)
    && (cid in h.containers ==> h'.containers[cid].registrationId == h.containers[cid].registrationId)
  }

  lemma ForwardsKeepOwner(h: Host, c: ContainerId, port: Port, target: Port, cid: ContainerId)
    ensures SameOwner(h, WithoutForward(h, c, port), cid)
    ensures SameOwner(h, EvictForward(h, c, port).0, cid)
    ensures SameOwner(h, CommitForward(h, c, port, target, target).0, cid)
  {
  }

  lemma PortsKeepOwner(h: Host, c: ContainerId, found: Option<Port>, target: Port, cid: ContainerId)
    ensures SameOwner(h, ReservePort(h, c, found), cid)
    ensures SameOwner(h, ReleasePort(h, target), cid)
  {
  }

  lemma OthersKeepOwner(h: Host, c: ContainerId, registration: nat, cid: ContainerId)
    ensures c != cid || !AdmitRegistration(h, c).1 ==> SameOwner(h, AdmitRegistration(h, c).0, cid)
    ensures c != cid ==> SameOwner(h, InsertRegistration(h, c, registration), cid)
    ensures c != cid || !h.Owns(c, registration) ==> SameOwner(h, Cleanup(h, c, registration).0, cid)
  {
  }

  lemma SectionKept(s: HostRuns.Sys, step: HostRuns.Step, cid: ContainerId)
    requires HostRuns.Enabled(s, step) && !Resets(s, step, cid)
    ensures SameOwner(s.host, HostRuns.Apply(s, step).host, cid)
  {
    hide WithoutForward, EvictForward, CommitForward, ReservePort, ReleasePort, IsFirstFree;
    hide AdmitRegistration, InsertRegistration, Cleanup, SameOwner;
    match step
    case BeginForward(_, c, port) => ForwardsKeepOwner(s.host, c, port, port, cid);
    case Search(t, found) => PortsKeepOwner(s.host, s.tasks[t].cid, found, 0, cid);
    case BindFails(t) => PortsKeepOwner(s.host, cid, None, s.tasks[t].target, cid);
    case Commit(t) => ForwardsKeepOwner(s.host, s.tasks[t].cid, s.tasks[t].port, s.tasks[t].target, cid);
    case Unforward(c, port) => ForwardsKeepOwner(s.host, c, port, port, cid);
    case Admit(_, c) => OthersKeepOwner(s.host, c, 0, cid);
    case Insert(c) => OthersKeepOwner(s.host, s.conns[c].cid, s.conns[c].registration, cid);
    case Disconnect(c) => OthersKeepOwner(s.host, s.conns[c].cid, s.conns[c].registration, cid);
    case _ => NothingKeepsOwner(s.host, cid);
  }

  lemma NothingKeepsOwner(h: Host, cid: ContainerId)
    ensures SameOwner(h, h, cid)
  {
  }

  lemma OtherwiseKept(s: HostRuns.Sys, step: HostRuns.Step, cid: ContainerId)
    requires HostRuns.Enabled(s, step) && !Resets(s, step, cid)
    ensures var s' := HostRuns.Apply(s, step);
      && (cid in s'.host.containers <==> cid in s.host.containers)
      && (forall r :: s'.host.Owns(cid, r) <==> s.host.Owns(cid, r))
  {
    SectionKept(s, step, cid);
    hide HostRuns.Apply, HostRuns.Enabled, Resets;
  }

  lemma OtherwiseOwned(s: HostRuns.Sys, step: HostRuns.Step, cid: ContainerId)
    requires HostRuns.Enabled(s, step) && !Resets(s, step, cid)
    ensures var s' := HostRuns.Apply(s, step);
      forall c: Id :: HostEpochs.OwnsState(s', c) && s'.conns[c].cid == cid
                      <==> HostEpochs.OwnsState(s, c) && s.conns[c].cid == cid
  {
    hide WithoutForward, CommitForward, ReservePort, ReleasePort, WithoutContainer, EvictForward, Cleanup, IsFirstFree;
    OtherwiseKept(s, step, cid);
  }

  lemma OwnerAfter(s: HostRuns.Sys, step: HostRuns.Step, cid: ContainerId, d: Side)
    requires Shows(s, cid, d) && HostEpochs.EpochsUnique(s) && HostRuns.Enabled(s, step)
    requires Possible(d, HostEvent(s, step, cid))
    ensures var (s', d') := (HostRuns.Apply(s, step), Happen(d, HostEvent(s, step, cid)));
      && (forall c: Id :: d'.owner == Some(c) <==> HostEpochs.OwnsState(s', c) && s'.conns[c].cid == cid)
      && (d'.owner.Some? <==> cid in s'.host.containers)
  {
    hide IsFirstFree;
    if Resets(s, step, cid) {
      OwnerReset(s, step, cid, d);
    } else {
      OtherwiseKept(s, step, cid);
      OtherwiseOwned(s, step, cid);
      OwnerKept(s, step, cid, d);
    }
    hide HostRuns.Apply, HostEvent, Happen, HostEpochs.OwnsState, HostEpochs.EpochsUnique;
  }

  lemma OwnerKept(s: HostRuns.Sys, step: HostRuns.Step, cid: ContainerId, d: Side)
    requires Shows(s, cid, d) && HostRuns.Enabled(s, step) && !Resets(s, step, cid)
    requires Possible(d, HostEvent(s, step, cid))
    ensures Happen(d, HostEvent(s, step, cid)).owner == d.owner
  {
    hide EvictForward, AdmitRegistration, IsFirstFree;
  }

  lemma OwnerReset(s: HostRuns.Sys, step: HostRuns.Step, cid: ContainerId, d: Side)
    requires Shows(s, cid, d) && HostEpochs.EpochsUnique(s) && HostRuns.Enabled(s, step)
    requires Possible(d, HostEvent(s, step, cid)) && Resets(s, step, cid)
    ensures var (s', d') := (HostRuns.Apply(s, step), Happen(d, HostEvent(s, step, cid)));
      && (forall c: Id :: d'.owner == Some(c) <==> HostEpochs.OwnsState(s', c) && s'.conns[c].cid == cid)
      && (d'.owner.Some? <==> cid in s'.host.containers)
  {
    hide WithoutForward, CommitForward, ReservePort, ReleasePort, EvictForward, IsFirstFree;
  }

  lemma LiveAfter(s: HostRuns.Sys, step: HostRuns.Step, cid: ContainerId, d: Side)
    requires Shows(s, cid, d) && HostRuns.Enabled(s, step) && Possible(d, HostEvent(s, step, cid))
    ensures Happen(d, HostEvent(s, step, cid)).live == HostRuns.Apply(s, step).host.LivePorts(cid)
  {
    if step.Commit? {
      CommitLive(s, step, cid, d);
    } else {
      hide CommitForward, IsFirstFree;
    }
  }

  lemma CommitLive(s: HostRuns.Sys, step: HostRuns.Step, cid: ContainerId, d: Side)
    requires step.Commit? && Shows(s, cid, d) && HostRuns.Enabled(s, step) && Possible(d, HostEvent(s, step, cid))
    ensures Happen(d, HostEvent(s, step, cid)).live == HostRuns.Apply(s, step).host.LivePorts(cid)
  {
  }

  lemma HostStepProjects(s: HostRuns.Sys, step: HostRuns.Step, cid: ContainerId, d: Side)
    requires Shows(s, cid, d) && HostEpochs.EpochsUnique(s)
    requires HostRuns.Enabled(s, step) && Possible(d, HostEvent(s, step, cid))
    ensures Shows(HostRuns.Apply(s, step), cid, Happen(d, HostEvent(s, step, cid)))
  {
    EvictedAfter(s, step, cid, d);
    AdmittedAfter(s, step, cid, d);
    OwnerAfter(s, step, cid, d);
    LiveAfter(s, step, cid, d);
    hide HostRuns.Apply, HostRuns.Enabled, HostEvent, Happen;
  }

  // ---- Whole runs -----------------------------------------------------------------------------

  predicate IsHistory(d: Side, events: seq<Event>)
    decreases |events|
  {
    events == [] || (Possible(d, events[0]) && IsHistory(Happen(d, events[0]), events[1..]))
  }

  function After(d: Side, events: seq<Event>): Side
    requires IsHistory(d, events)
    decreases |events|
  {
    if events == [] then d else After(Happen(d, events[0]), events[1..])
  }

  ghost function HostEvents(s: HostRuns.Sys, steps: seq<HostRuns.Step>, cid: ContainerId): seq<Event>
    requires HostRuns.IsRun(s, steps)
    decreases |steps|
  {
    if steps == [] then []
    else [HostEvent(s, steps[0], cid)] + HostEvents(HostRuns.Apply(s, steps[0]), steps[1..], cid)
  }

  lemma {:induction false} RunProjects(s: HostRuns.Sys, steps: seq<HostRuns.Step>, cid: ContainerId, d: Side)
    requires HostRuns.IsRun(s, steps) && HostCapacity.Never(s, steps, HostOverlap.OutOfOrder)
    requires Shows(s, cid, d) && TasksServed(s) && HostEpochs.EpochsUnique(s)
    ensures IsHistory(d, HostEvents(s, steps, cid))
    ensures Shows(HostRuns.Run(s, steps), cid, After(d, HostEvents(s, steps, cid)))
    decreases |steps|
  {
    hide Shows, TasksServed, HostEpochs.EpochsUnique, HostRuns.Apply, HostRuns.Enabled, HostOverlap.OutOfOrder;
    hide HostEvent, Happen, Possible;
    if steps != [] {
      var step, e, s' := steps[0], HostEvent(s, steps[0], cid), HostRuns.Apply(s, steps[0]);
      EventIsPossible(s, step, cid, d);
      HostStepProjects(s, step, cid, d);
      StepKeepsTasksServed(s, step);
      HostEpochs.StepKeepsEpochsUnique(s, step);
      RunProjects(s', steps[1..], cid, Happen(d, e));
      assert HostEvents(s, steps, cid)[1..] == HostEvents(s', steps[1..], cid);
    }
  }

  /** Main result: in every run of the host that keeps each connection's order, superseded connections
      included and whatever other containers do meanwhile, what happens to one container id is a history of
      the protocol's host, event by event. */
  lemma HostFollowsProtocol(steps: seq<HostRuns.Step>, cid: ContainerId)
    requires HostRuns.IsRun(HostRuns.INIT, steps) && HostCapacity.Never(HostRuns.INIT, steps, HostOverlap.OutOfOrder)
    ensures var events := HostEvents(HostRuns.INIT, steps, cid);
      IsHistory(START, events) && Shows(HostRuns.Run(HostRuns.INIT, steps), cid, After(START, events))
  {
    RunProjects(HostRuns.INIT, steps, cid, START);
  }
}
