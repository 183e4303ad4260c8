/** The host daemon as a state machine: any number of connections and requests whose lock
    sections interleave freely. */
module HostRuns {
  import opened Wrappers
  import opened PortSearch
  import opened HostForwarding

  type Id = nat

  /** A `handle_forward` call between its lock sections. */
  datatype Task =
    | Preparing(cid: ContainerId, port: Port)                 // evicted, nothing reserved yet
    | Binding(cid: ContainerId, port: Port, target: Port)     // reserved, listener starting

  /** A control connection of a container. */
  datatype Conn =
    | Admitted(cid: ContainerId)                       // past the capacity check
    | Numbered(cid: ContainerId, registration: nat)    // epoch taken, state not yet inserted
    | Inserted(cid: ContainerId, registration: nat)    // serving, or past its disconnect

  /** `host` is behind the mutex; `nextRegistration` is the atomic epoch counter. */
  datatype Sys = Sys(host: Host, tasks: map<Id, Task>, conns: map<Id, Conn>, nextRegistration: nat)

  const INIT: Sys := Sys(Host(map[], map[]), map[], map[], 1)

  datatype Step =
    | BeginForward(task: Id, cid: ContainerId, port: Port)
    | Search(task: Id, found: Option<Port>)
    | BindFails(task: Id)
    | Commit(task: Id)
    | Unforward(cid: ContainerId, port: Port)          // by its container or by an administrator
    | Admit(conn: Id, cid: ContainerId)
    | TakeNumber(conn: Id)
    | Insert(conn: Id)
    | Abandon(conn: Id)                                // the acknowledgement could not be sent
    | Disconnect(conn: Id)

  predicate Pending(c: Conn) { !c.Inserted? }

  ghost predicate Enabled(s: Sys, step: Step) {
    match step
    case BeginForward(t, _, _) => t !in s.tasks
    case Search(t, found) =>
      t in s.tasks && s.tasks[t].Preparing? && IsFirstFree(s.host.used.Keys, s.tasks[t].port, found)
    case BindFails(t) => t in s.tasks && s.tasks[t].Binding?
    case Commit(t) => t in s.tasks && s.tasks[t].Binding?
    case Unforward(_, _) => true
    case Admit(c, _) => c !in s.conns
    case TakeNumber(c) => c in s.conns && s.conns[c].Admitted?
    case Insert(c) => c in s.conns && s.conns[c].Numbered?
    case Abandon(c) => c in s.conns && s.conns[c].Admitted?
    case Disconnect(c) => c in s.conns && s.conns[c].Inserted?
  }

  ghost function Apply(s: Sys, step: Step): Sys
    requires Enabled(s, step)
  {
    match step
    case BeginForward(t, cid, port) =>
      var (h, eviction) := EvictForward(s.host, cid, port);
      s.(host := h, tasks := if eviction.Proceed? then s.tasks[t := Preparing(cid, port)] else s.tasks)
    case Search(t, found) =>
      var task := s.tasks[t];
      s.(host := ReservePort(s.host, task.cid, found),
         tasks := if found.Some? then s.tasks[t := Binding(task.cid, task.port, found.value)] else s.tasks - {t})
    case BindFails(t) =>
      s.(host := ReleasePort(s.host, s.tasks[t].target), tasks := s.tasks - {t})
    case Commit(t) =>
      // The listener binds exactly the nonzero port it was asked for.
      var task := s.tasks[t];
      s.(host := CommitForward(s.host, task.cid, task.port, task.target, task.target).0, tasks := s.tasks - {t})
    case Unforward(cid, port) =>
      s.(host := WithoutForward(s.host, cid, port))
    case Admit(c, cid) =>
      var (h, admitted) := AdmitRegistration(s.host, cid);
      s.(host := h, conns := if admitted then s.conns[c := Admitted(cid)] else s.conns)
    case TakeNumber(c) =>
      s.(conns := s.conns[c := Numbered(s.conns[c].cid, s.nextRegistration)],
         nextRegistration := s.nextRegistration + 1)
    case Insert(c) =>
      var conn := s.conns[c];
      s.(host := InsertRegistration(s.host, conn.cid, conn.registration),
         conns := s.conns[c := Inserted(conn.cid, conn.registration)])
    case Abandon(c) =>
      s.(conns := s.conns - {c})
    case Disconnect(c) =>
      s.(host := Cleanup(s.host, s.conns[c].cid, s.conns[c].registration).0)
  }

  // ---- Runs ----------------------------------------------------------------

  ghost predicate IsRun(s: Sys, steps: seq<Step>)
    decreases |steps|
  {
    steps == [] || (Enabled(s, steps[0]) && IsRun(Apply(s, steps[0]), steps[1..]))
  }

  ghost function Run(s: Sys, steps: seq<Step>): Sys
    requires IsRun(s, steps)
    decreases |steps|
  {
    if steps == [] then s else Run(Apply(s, steps[0]), steps[1..])
  }

  // ---- Who holds a host port -------------------------------------------------

  /** A live forward, or a reservation whose listener is still starting. */
  datatype Holder = Live(cid: ContainerId, port: Port) | InFlight(task: Id)

  ghost predicate Holds(s: Sys, x: Holder, p: Port) {
    match x
    case Live(cid, port) => s.host.Live(cid, port) && s.host.HostPort(cid, port) == p
    case InFlight(t) => t in s.tasks && s.tasks[t].Binding? && s.tasks[t].target == p
  }

  ghost function Owner(s: Sys, x: Holder): ContainerId
    requires x.InFlight? ==> x.task in s.tasks
  {
    match x
    case Live(cid, _) => cid
    case InFlight(t) => s.tasks[t].cid
  }

  /** No two holders share a host port. */
  ghost predicate Distinct(s: Sys) {
    forall x, y, p | Holds(s, x, p) && Holds(s, y, p) :: x == y
  }

  /** Every held host port is in `used_host_ports`, tagged with its owner. */
  ghost predicate Keyed(s: Sys) {
    forall x, p | Holds(s, x, p) :: p in s.host.used && s.host.used[p] == Owner(s, x)
  }

  ghost predicate PortsSafe(s: Sys) { Distinct(s) && Keyed(s) }

  /** x holds p in s' as it did in s, and the key for p has not been touched. */
  ghost predicate Kept(s: Sys, s': Sys, x: Holder, p: Port) {
    Holds(s, x, p) && Holds(s', x, p) && Owner(s', x) == Owner(s, x)
    && (p in s.host.used ==> p in s'.host.used && s'.host.used[p] == s.host.used[p])
  }

  lemma KeptIsSafe(s: Sys, s': Sys)
    requires PortsSafe(s)
    requires forall x, p | Holds(s', x, p) :: Kept(s, s', x, p)
    ensures PortsSafe(s')
  {
    assert forall x, p | Holds(s', x, p) :: Holds(s, x, p);
  }

  /** Freeing the port of a holder that disappears touches no other holder's key. */
  lemma StepKeepsPortsSafe(s: Sys, step: Step)
    requires PortsSafe(s) && Enabled(s, step)
    ensures PortsSafe(Apply(s, step))
  {
    var s' := Apply(s, step);
    match step
    case Search(t, found) =>
      if found.Some? {
        forall x, p | Holds(s', x, p) && x != InFlight(t) ensures Kept(s, s', x, p) && p != found.value {
          assert Holds(s, x, p);
        }
        assert forall x, y, p | Holds(s', x, p) && Holds(s', y, p) :: x == y || x == InFlight(t) || y == InFlight(t);
      } else {
        KeptIsSafe(s, s');
      }
    case BindFails(t) =>
      assert Holds(s, InFlight(t), s.tasks[t].target);
      forall x, p | Holds(s', x, p) ensures Kept(s, s', x, p) {
        assert Holds(s, x, p) && x != InFlight(t);
      }
      KeptIsSafe(s, s');
    case Commit(t) =>
      CommitKeepsPortsSafe(s, t);
    case Disconnect(c) =>
      var (cid, reg) := (s.conns[c].cid, s.conns[c].registration);
      if s.host.Owns(cid, reg) { DropContainerKeeps(s, s', cid); }
      KeptIsSafe(s, s');
    case Admit(c, cid) =>
      if AdmitRegistration(s.host, cid).1 { DropContainerKeeps(s, s', cid); }
      KeptIsSafe(s, s');
    case BeginForward(t, cid, port) =>
      if EvictForward(s.host, cid, port).1.Proceed? { DropForwardKeeps(s, s', cid, port); }
      KeptIsSafe(s, s');
    case Unforward(cid, port) =>
      DropForwardKeeps(s, s', cid, port);
      KeptIsSafe(s, s');
    case _ =>
      forall x, p | Holds(s', x, p) ensures Kept(s, s', x, p) {}
      KeptIsSafe(s, s');
  }

  /** The reservations in flight are the same ones. */
  ghost predicate SameReservations(s: Sys, s': Sys) {
    forall t: Id, p :: (Holds(s', InFlight(t), p) <==> Holds(s, InFlight(t), p))
                       && (Holds(s', InFlight(t), p) ==> s'.tasks[t] == s.tasks[t])
  }

  lemma DropForwardKeeps(s: Sys, s': Sys, cid: ContainerId, port: Port)
    requires PortsSafe(s) && s'.host == WithoutForward(s.host, cid, port) && SameReservations(s, s')
    ensures forall x, p | Holds(s', x, p) :: Kept(s, s', x, p)
  {
    if s.host.Live(cid, port) {
      var freed := s.host.HostPort(cid, port);
      assert Holds(s, Live(cid, port), freed);
      forall x, p | Holds(s', x, p) ensures Kept(s, s', x, p) {
        assert Holds(s, x, p) && x != Live(cid, port);
        assert p != freed;
      }
    }
  }

  lemma DropContainerKeeps(s: Sys, s': Sys, cid: ContainerId)
    requires PortsSafe(s) && s'.host == WithoutContainer(s.host, cid) && SameReservations(s, s')
    ensures forall x, p | Holds(s', x, p) :: Kept(s, s', x, p)
  {
    if cid in s.host.containers {
      var forwards := s.host.containers[cid].forwards;
      forall x, p | Holds(s', x, p) ensures Kept(s, s', x, p) {
        assert Holds(s, x, p);
        forall q | q in forwards ensures forwards[q] != p {
          if forwards[q] == p { assert Holds(s, Live(cid, q), p); }
        }
        assert p !in forwards.Values;
      }
    }
  }

  lemma CommitKeepsPortsSafe(s: Sys, t: Id)
    requires PortsSafe(s) && Enabled(s, Commit(t))
    ensures PortsSafe(Apply(s, Commit(t)))
  {
    var s' := Apply(s, Commit(t));
    var task := s.tasks[t];
    assert Holds(s, InFlight(t), task.target);
    var committed := Live(task.cid, task.port);
    var accepted := task.cid in s.host.containers;
    forall x, p | Holds(s', x, p) && !(accepted && x == committed)
      ensures Kept(s, s', x, p) && p != task.target
    {
      assert Holds(s, x, p) && x != InFlight(t);
    }
    if !accepted {
      KeptIsSafe(s, s');
    } else {
      assert forall p | Holds(s', committed, p) :: p == task.target;
    }
  }

  /** Main result: under every interleaving of lock sections, the host ports of live forwards and
      of reservations in flight are pairwise distinct and each is keyed to its owner. */
  lemma {:induction false} PortsAlwaysSafe(s: Sys, steps: seq<Step>)
    requires PortsSafe(s) && IsRun(s, steps)
    ensures PortsSafe(Run(s, steps))
    decreases |steps|
  {
    if steps != [] {
      StepKeepsPortsSafe(s, steps[0]);
      PortsAlwaysSafe(Apply(s, steps[0]), steps[1..]);
    }
  }
}
