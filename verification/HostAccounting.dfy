/** When `used_host_ports` is exact: which interleavings leak a host port, which cannot, and what
    follows for capacity and allocation. */
module HostAccounting {
  import opened Cardinality
  import opened Wrappers
  import opened PortSearch
  import opened HostCapacity
  import opened HostForwarding
  import opened HostRuns

  ghost predicate Held(s: Sys, p: Port) {
    exists x :: Holds(s, x, p)
  }

  /** Keys of `used_host_ports` that nothing holds: lost until the daemon stops. */
  ghost function Leaked(s: Sys): set<Port> {
    set p | p in s.host.used && !Held(s, p)
  }

  /** `used_host_ports` is exactly the host ports of live forwards and reservations in flight. */
  ghost predicate Accounted(s: Sys) {
    forall p: Port :: p in s.host.used <==> Held(s, p)
  }

  /** The host ports of live forwards that this step overwrites without freeing them. */
  ghost function Overwritten(s: Sys, step: Step): set<Port>
    requires Enabled(s, step)
  {
    match step
    case Commit(t) =>
      var task := s.tasks[t];
      if s.host.Live(task.cid, task.port) then {s.host.HostPort(task.cid, task.port)} else {}
    case Insert(c) =>
      var cid := s.conns[c].cid;
      if cid in s.host.containers then s.host.containers[cid].forwards.Values else {}
    case _ => {}
  }

  lemma DropForwardLeaks(s: Sys, s': Sys, cid: ContainerId, port: Port)
    requires PortsSafe(s) && s'.host == WithoutForward(s.host, cid, port) && SameReservations(s, s')
    ensures Leaked(s') == Leaked(s)
  {
    if s.host.Live(cid, port) {
      var freed := s.host.HostPort(cid, port);
      assert Holds(s, Live(cid, port), freed);
      forall p | p != freed ensures Held(s', p) <==> Held(s, p) {
        forall x ensures Holds(s', x, p) <==> Holds(s, x, p) {}
      }
    } else {
      forall p, x ensures Holds(s', x, p) <==> Holds(s, x, p) {}
    }
  }

  lemma DropContainerLeaks(s: Sys, s': Sys, cid: ContainerId)
    requires PortsSafe(s) && s'.host == WithoutContainer(s.host, cid) && SameReservations(s, s')
    ensures Leaked(s') == Leaked(s)
  {
    if cid in s.host.containers {
      var forwards := s.host.containers[cid].forwards;
      forall p | p in forwards.Values ensures Held(s, p) {
        var q :| q in forwards && forwards[q] == p;
        assert Holds(s, Live(cid, q), p);
      }
      forall p | p !in forwards.Values ensures Held(s', p) <==> Held(s, p) {
        forall x ensures Holds(s', x, p) <==> Holds(s, x, p) {}
      }
    } else {
      forall p, x ensures Holds(s', x, p) <==> Holds(s, x, p) {}
    }
  }

  lemma CommitLeaks(s: Sys, t: Id)
    requires PortsSafe(s) && Enabled(s, Commit(t))
    ensures Leaked(Apply(s, Commit(t))) == Leaked(s) + Overwritten(s, Commit(t))
  {
    var s' := Apply(s, Commit(t));
    var task := s.tasks[t];
    var committed := Live(task.cid, task.port);
    assert Holds(s, InFlight(t), task.target);
    forall p, x | x != committed && x != InFlight(t) ensures Holds(s', x, p) <==> Holds(s, x, p) {}
    assert forall p :: !Holds(s', InFlight(t), p);
    if task.cid in s.host.containers {
      assert Holds(s', committed, task.target);
      assert forall p | Holds(s', committed, p) :: p == task.target;
      if s.host.Live(task.cid, task.port) {
        var lost := s.host.HostPort(task.cid, task.port);
        assert Holds(s, committed, lost);
        assert !Held(s', lost);
      }
      forall p ensures p in Leaked(s') <==> p in Leaked(s) + Overwritten(s, Commit(t)) {
        if Held(s, p) && !Held(s', p) {
          var x :| Holds(s, x, p);
          assert x == committed;
        }
      }
    } else {
      forall p | p != task.target ensures Held(s, p) <==> Held(s', p) {}
    }
  }

  lemma SearchLeaks(s: Sys, t: Id, found: Option<Port>)
    requires PortsSafe(s) && Enabled(s, Search(t, found))
    ensures Leaked(Apply(s, Search(t, found))) == Leaked(s)
  {
    var s' := Apply(s, Search(t, found));
    forall x, p | x != InFlight(t) ensures Holds(s', x, p) <==> Holds(s, x, p) {}
    assert forall p :: !Holds(s, InFlight(t), p);
    if found.Some? {
      assert Holds(s', InFlight(t), found.value);
    }
    forall p: Port | found != Some(p) ensures Held(s', p) <==> Held(s, p) {}
  }

  lemma BindFailsLeaks(s: Sys, t: Id)
    requires PortsSafe(s) && Enabled(s, BindFails(t))
    ensures Leaked(Apply(s, BindFails(t))) == Leaked(s)
  {
    var s' := Apply(s, BindFails(t));
    var target := s.tasks[t].target;
    assert Holds(s, InFlight(t), target);
    forall x, p | x != InFlight(t) ensures Holds(s', x, p) <==> Holds(s, x, p) {}
    forall p | p != target ensures Held(s', p) <==> Held(s, p) {}
  }

  lemma InsertLeaks(s: Sys, c: Id)
    requires PortsSafe(s) && Enabled(s, Insert(c))
    ensures Leaked(Apply(s, Insert(c))) == Leaked(s) + Overwritten(s, Insert(c))
  {
    var s' := Apply(s, Insert(c));
    var cid := s.conns[c].cid;
    var lost := Overwritten(s, Insert(c));
    forall x: Holder, p | !(x.Live? && x.cid == cid) ensures Holds(s', x, p) <==> Holds(s, x, p) {}
    assert forall q, p :: !Holds(s', Live(cid, q), p);
    forall p | p in lost ensures Held(s, p) && !Held(s', p) {
      var forwards := s.host.containers[cid].forwards;
      var q :| q in forwards && forwards[q] == p;
      assert Holds(s, Live(cid, q), p);
    }
    forall p | p !in lost ensures Held(s', p) <==> Held(s, p) {}
  }

  /** Exactly what each step leaks: the ports it overwrites, and a leaked port never comes back. */
  lemma StepLeaks(s: Sys, step: Step)
    requires PortsSafe(s) && Enabled(s, step)
    ensures Leaked(Apply(s, step)) == Leaked(s) + Overwritten(s, step)
  {
    var s' := Apply(s, step);
    match step
    case BeginForward(t, cid, port) =>
      if EvictForward(s.host, cid, port).1.Proceed? { DropForwardLeaks(s, s', cid, port); }
    case Search(t, found) => SearchLeaks(s, t, found);
    case BindFails(t) => BindFailsLeaks(s, t);
    case Commit(t) => CommitLeaks(s, t);
    case Unforward(cid, port) => DropForwardLeaks(s, s', cid, port);
    case Admit(c, cid) =>
      if AdmitRegistration(s.host, cid).1 { DropContainerLeaks(s, s', cid); }
    case Insert(c) => InsertLeaks(s, c);
    case Disconnect(c) =>
      if Cleanup(s.host, s.conns[c].cid, s.conns[c].registration).1 {
        DropContainerLeaks(s, s', s.conns[c].cid);
      } else {
        assert forall x, p :: Holds(s', x, p) <==> Holds(s, x, p);
      }
    case TakeNumber(c) => assert forall x, p :: Holds(s', x, p) <==> Holds(s, x, p);
    case Abandon(c) => assert forall x, p :: Holds(s', x, p) <==> Holds(s, x, p);
  }

  /** Every host port a run overwrote while it was live. */
  ghost function LeakLog(s: Sys, steps: seq<Step>): set<Port>
    requires IsRun(s, steps)
    decreases |steps|
  {
    if steps == [] then {} else Overwritten(s, steps[0]) + LeakLog(Apply(s, steps[0]), steps[1..])
  }

  lemma {:induction false} LeaksAccumulate(s: Sys, steps: seq<Step>)
    requires PortsSafe(s) && IsRun(s, steps)
    ensures Leaked(Run(s, steps)) == Leaked(s) + LeakLog(s, steps)
    decreases |steps|
  {
    if steps != [] {
      StepLeaks(s, steps[0]);
      StepKeepsPortsSafe(s, steps[0]);
      LeaksAccumulate(Apply(s, steps[0]), steps[1..]);
    }
  }

  /** Main result: after any run `used_host_ports` is exact if and only if no step of the run
      overwrote a live forward; what is missing is precisely the overwritten ports. */
  lemma AccountingIsExactIff(steps: seq<Step>)
    requires IsRun(INIT, steps)
    ensures Leaked(Run(INIT, steps)) == LeakLog(INIT, steps)
    ensures Accounted(Run(INIT, steps)) <==> LeakLog(INIT, steps) == {}
  {
    LeaksAccumulate(INIT, steps);
    PortsAlwaysSafe(INIT, steps);
    var s := Run(INIT, steps);
    assert Leaked(INIT) == {};
    assert Accounted(s) <==> Leaked(s) == {} by {
      assert forall p: Port | Held(s, p) :: p in s.host.used;
      if Leaked(s) == {} {
        forall p: Port | p in s.host.used ensures Held(s, p) { assert p !in Leaked(s); }
      }
    }
  }

  // ---- Serial use of each container id --------------------------------------

  /** At most one forward in flight and at most one registration in progress per container id. */
  ghost predicate Serial(s: Sys) {
    && (forall t, t' | t in s.tasks && t' in s.tasks && s.tasks[t].cid == s.tasks[t'].cid :: t == t')
    && (forall c, c' | c in s.conns && c' in s.conns && Pending(s.conns[c]) && Pending(s.conns[c'])
                       && s.conns[c].cid == s.conns[c'].cid :: c == c')
  }

  /** Registrations do not overlap at all. */
  ghost predicate OneRegistration(s: Sys) {
    forall c, c' | c in s.conns && c' in s.conns && Pending(s.conns[c]) && Pending(s.conns[c']) :: c == c'
  }

  /** Nothing stands where a forward in flight or a pending registration will be put. */
  ghost predicate Vacant(s: Sys) {
    && (forall t | t in s.tasks :: !s.host.Live(s.tasks[t].cid, s.tasks[t].port))
    && (forall c | c in s.conns && Pending(s.conns[c]) :: s.conns[c].cid !in s.host.containers)
  }

  lemma VacantOverwritesNothing(s: Sys, step: Step)
    requires Enabled(s, step) && Vacant(s)
    ensures Overwritten(s, step) == {}
  {
  }

  lemma StepKeepsVacant(s: Sys, step: Step)
    requires Enabled(s, step) && Vacant(s) && Serial(s)
    ensures Vacant(Apply(s, step))
  {
  }

  lemma {:induction false} SerialRunsStayVacant(s: Sys, steps: seq<Step>)
    requires IsRun(s, steps) && Always(s, steps, Serial) && Vacant(s)
    ensures LeakLog(s, steps) == {} && Vacant(Run(s, steps))
    decreases |steps|
  {
    if steps != [] {
      VacantOverwritesNothing(s, steps[0]);
      StepKeepsVacant(s, steps[0]);
      SerialRunsStayVacant(Apply(s, steps[0]), steps[1..]);
    }
  }

  /** Main result: when each container id is used serially the books are exact, each port is tagged
      with its owner, and no container exceeds 128 forwards. */
  lemma SerialRunsAreExact(steps: seq<Step>)
    requires IsRun(INIT, steps) && Always(INIT, steps, Serial)
    ensures PortsSafe(Run(INIT, steps)) && Accounted(Run(INIT, steps)) && ForwardsWithin(Run(INIT, steps))
  {
    SerialRunsStayVacant(INIT, steps);
    AccountingIsExactIff(steps);
    PortsAlwaysSafe(INIT, steps);
    var s := Run(INIT, steps);
    forall cid | cid in s.host.containers ensures |s.host.containers[cid].forwards| <= MAX_FORWARDS_PER_CONTAINER {
      SerialIsOneInFlight(cid);
      AlwaysWeaker(INIT, steps, Serial, FewInFlight(cid, 1));
      ForwardsAreBounded(steps, cid, 1);
      assert s.host.LivePorts(cid) == s.host.containers[cid].forwards.Keys;
    }
  }

  lemma SerialIsOneInFlight(cid: ContainerId)
    ensures forall s: Sys | Serial(s) :: FewInFlight(cid, 1)(s)
  {
    forall s: Sys | Serial(s) ensures FewInFlight(cid, 1)(s) {
      AtMostOne(InFlightOf(s, cid));
    }
  }

  /** Registrations that do not overlap keep to 64 containers, whatever the forwards do. */
  lemma SeparateRegistrationsAreBounded(steps: seq<Step>)
    requires IsRun(INIT, steps) && Always(INIT, steps, OneRegistration)
    ensures ContainersWithin(Run(INIT, steps))
  {
    forall s: Sys | OneRegistration(s) ensures FewRegistering(1)(s) {
      AtMostOne(Registering(s));
    }
    AlwaysWeaker(INIT, steps, OneRegistration, FewRegistering(1));
    ContainersAreBounded(steps, 1);
  }

  // ---- Capacity ------------------------------------------------------------

  ghost function LiveHostPorts(containers: map<ContainerId, Container>): set<Port> {
    set cid, q | cid in containers && q in containers[cid].forwards :: containers[cid].forwards[q]
  }

  ghost function TargetOf(s: Sys, t: Id): Port
    requires t in Reserving(s)
  {
    s.tasks[t].target
  }

  ghost function Reserving(s: Sys): set<Id> {
    set t | t in s.tasks && s.tasks[t].Binding?
  }

  lemma {:induction false} ValuesCount<T>(m: map<T, Port>)
    ensures |m.Values| <= |m.Keys|
    decreases m.Keys
  {
    if m.Keys != {} {
      var k :| k in m;
      ValuesCount(m - {k});
      assert m.Values == (m - {k}).Values + {m[k]};
      assert m.Keys == (m - {k}).Keys + {k};
    } else {
      assert m.Values == {};
    }
  }

  lemma LiveHostPortsSplit(containers: map<ContainerId, Container>, cid: ContainerId)
    requires cid in containers
    ensures LiveHostPorts(containers)
         == LiveHostPorts(containers - {cid}) + containers[cid].forwards.Values
  {
    var rest := containers - {cid};
    var mine := containers[cid].forwards.Values;
    forall p | p in LiveHostPorts(containers) ensures p in LiveHostPorts(rest) + mine {
      var c, q :| c in containers && q in containers[c].forwards && containers[c].forwards[q] == p;
      if c != cid { assert c in rest && q in rest[c].forwards; }
    }
    forall p | p in LiveHostPorts(rest) ensures p in LiveHostPorts(containers) {
      var c, q :| c in rest && q in rest[c].forwards && rest[c].forwards[q] == p;
      assert c in containers && q in containers[c].forwards;
    }
  }

  lemma {:induction false} LiveHostPortsBound(containers: map<ContainerId, Container>)
    requires forall cid | cid in containers :: |containers[cid].forwards| <= MAX_FORWARDS_PER_CONTAINER
    ensures |LiveHostPorts(containers)| <= 128 * |containers|
    decreases |containers|
  {
    if containers != map[] {
      var cid :| cid in containers;
      var rest := containers - {cid};
      LiveHostPortsBound(rest);
      var forwards := containers[cid].forwards;
      ValuesCount(forwards);
      LiveHostPortsSplit(containers, cid);
      assert containers.Keys == rest.Keys + {cid};
    } else {
      assert LiveHostPorts(containers) == {};
    }
  }

  predicate InRange(p: Port, n: nat) { 1024 <= p < n }

  ghost function PortsBelow(n: nat): set<Port> {
    set p: Port | InRange(p, n)
  }

  lemma {:induction false} PortsBelowCount(n: nat)
    requires 1024 <= n <= 65536
    ensures |PortsBelow(n)| == n - 1024
  {
    if n > 1024 {
      PortsBelowCount(n - 1);
      assert PortsBelow(n) == PortsBelow(n - 1) + {n - 1};
    } else {
      assert PortsBelow(n) == {};
    }
  }

  lemma UsedIsCovered(s: Sys, targets: map<Id, Port>)
    requires targets == map t | t in Reserving(s) :: TargetOf(s, t)
    ensures s.host.used.Keys <= LiveHostPorts(s.host.containers) + targets.Values + Leaked(s)
  {
    forall p | p in s.host.used.Keys && Held(s, p)
      ensures p in LiveHostPorts(s.host.containers) + targets.Values
    {
      var x :| Holds(s, x, p);
      match x
      case Live(cid, q) => assert s.host.containers[cid].forwards[q] == p;
      case InFlight(t) => assert t in Reserving(s) && targets[t] == p;
    }
  }

  lemma UsedIsSmall(s: Sys)
    requires ForwardsWithin(s) && ContainersWithin(s)
    ensures |s.host.used.Keys| <= 64 * 128 + |Reserving(s)| + |Leaked(s)|
  {
    hide LiveHostPorts, Leaked, Reserving;
    var targets := map t | t in Reserving(s) :: TargetOf(s, t);
    var live, reserved := LiveHostPorts(s.host.containers), targets.Values;
    LiveHostPortsBound(s.host.containers);
    assert targets.Keys == Reserving(s);
    ValuesCount(targets);
    UsedIsCovered(s, targets);
    UnionCount(live, reserved);
    UnionCount(live + reserved, Leaked(s));
    SubsetCount(s.host.used.Keys, live + reserved + Leaked(s));
  }

  /** By pigeonhole a free unprivileged port exists while leaks and reservations in flight number
      fewer than 56,320 = 64,512 - 64 * 128, so the search ends and, for a nonzero port, finds one. */
  lemma AllocationSucceeds(s: Sys, port: Port, found: Option<Port>)
    requires ForwardsWithin(s) && ContainersWithin(s) && |Leaked(s)| + |Reserving(s)| < 56320
    ensures SearchEnds(s.host.used.Keys, port)
    ensures IsFirstFree(s.host.used.Keys, port, found) ==> (found.Some? <==> port != 0)
  {
    UsedIsSmall(s);
    PortsBelowCount(65536);
    if forall q: Port | Unprivileged(q) :: q in s.host.used {
      SubsetCount(PortsBelow(65536), s.host.used.Keys);
      assert false;
    }
  }

  /** The whole story for serial runs: exact books, both caps, and allocation that cannot fail. */
  lemma SerialRunsAllocate(steps: seq<Step>, port: Port, found: Option<Port>)
    requires IsRun(INIT, steps) && Always(INIT, steps, Serial) && Always(INIT, steps, OneRegistration)
    ensures var s := Run(INIT, steps);
      && PortsSafe(s) && Accounted(s) && ContainersWithin(s) && ForwardsWithin(s)
      && (|Reserving(s)| < 56320 ==>
            SearchEnds(s.host.used.Keys, port)
            && (IsFirstFree(s.host.used.Keys, port, found) ==> (found.Some? <==> port != 0)))
      && (s.host.containers == map[] && s.tasks == map[] ==> s.host.used == map[])
  {
    SerialRunsAreExact(steps);
    SeparateRegistrationsAreBounded(steps);
    var s := Run(INIT, steps);
    assert Leaked(s) == {};
    if |Reserving(s)| < 56320 { AllocationSucceeds(s, port, found); }
    if s.host.containers == map[] && s.tasks == map[] {
      forall p: Port ensures p !in s.host.used {
        assert !Held(s, p);
      }
      assert s.host.used.Keys == {};
    }
  }
}
