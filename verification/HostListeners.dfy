/** Listeners of forwards: none is forgotten. Each lock section that takes a forward out hands it to its
    caller, who shuts its listener down outside the lock. */
module HostListeners {
  import opened Wrappers
  import opened PortSearch
  import opened HostForwarding
  import opened HostRuns

  /** A listener that has been started, and the forward it serves. */
  datatype Forward = Forward(cid: ContainerId, port: Port, hostPort: Port)

  ghost function ForwardsOf(h: Host, cid: ContainerId): set<Forward> {
    set port | port in h.LivePorts(cid) :: Forward(cid, port, h.HostPort(cid, port))
  }

  ghost function LiveForwards(h: Host): set<Forward> {
    set cid, port | cid in h.containers && port in h.containers[cid].forwards ::
      Forward(cid, port, h.containers[cid].forwards[port])
  }

  /** The listener that has been bound when a forward is committed. */
  ghost function Started(s: Sys, step: Step): set<Forward>
    requires Enabled(s, step)
  {
    match step
    case Commit(t) => {Forward(s.tasks[t].cid, s.tasks[t].port, s.tasks[t].target)}
    case _ => {}
  }

  /** What the section hands to its caller to be shut down: the forward it replaces or removes, all of a
      container that goes, or its own when the container is gone. */
  ghost function HandedOut(s: Sys, step: Step): set<Forward>
    requires Enabled(s, step)
  {
    match step
    case BeginForward(_, cid, port) =>
      (match EvictForward(s.host, cid, port).1
       case Proceed(Some(hostPort)) => {Forward(cid, port, hostPort)}
       case _ => {})
    case Commit(t) =>
      var task := s.tasks[t];
      if CommitForward(s.host, task.cid, task.port, task.target, task.target).1 then {} else Started(s, step)
    case Unforward(cid, port) =>
      if s.host.Live(cid, port) then {Forward(cid, port, s.host.HostPort(cid, port))} else {}
    case Admit(_, cid) => if AdmitRegistration(s.host, cid).1 then ForwardsOf(s.host, cid) else {}
    case Disconnect(c) =>
      if s.host.Owns(s.conns[c].cid, s.conns[c].registration) then ForwardsOf(s.host, s.conns[c].cid) else {}
    case _ => {}
  }

  /** Live forwards that a commit or an insertion replaces without anybody asking: what holds their listeners
      is dropped with them. */
  ghost function Overwritten(s: Sys, step: Step): set<Forward>
    requires Enabled(s, step)
  {
    match step
    case Commit(t) =>
      var (cid, port) := (s.tasks[t].cid, s.tasks[t].port);
      if s.host.Live(cid, port) then {Forward(cid, port, s.host.HostPort(cid, port))} else {}
    case Insert(c) => ForwardsOf(s.host, s.conns[c].cid)
    case _ => {}
  }

  /** The section adds the listener it starts and lets go of those it hands out or overwrites, no others. */
  ghost predicate Accounts(s: Sys, step: Step)
    requires Enabled(s, step)
  {
    var live, started := LiveForwards(s.host), Started(s, step);
    && HandedOut(s, step) !! Overwritten(s, step) && started !! live
    && HandedOut(s, step) + Overwritten(s, step) <= live + started
    && LiveForwards(Apply(s, step).host) == live + started - HandedOut(s, step) - Overwritten(s, step)
  }

  predicate IsLive(h: Host, f: Forward) { h.Live(f.cid, f.port) && h.HostPort(f.cid, f.port) == f.hostPort }

  lemma LiveAre(h: Host, f: Forward)
    ensures f in LiveForwards(h) <==> IsLive(h, f)
    ensures forall cid :: f in ForwardsOf(h, cid) <==> f.cid == cid && IsLive(h, f)
  {
  }

  /** The second state has the forwards of the first without some and with others. */
  lemma SameForwards(h: Host, h': Host, added: set<Forward>, gone: set<Forward>)
    requires forall f :: IsLive(h', f) <==> (IsLive(h, f) || f in added) && f !in gone
    ensures LiveForwards(h') == LiveForwards(h) + added - gone
  {
    hide LiveForwards, IsLive;
    forall f ensures f in LiveForwards(h') <==> f in LiveForwards(h) + added - gone {
      LiveAre(h, f);
      LiveAre(h', f);
    }
  }

  lemma RemovalAccounts(h: Host, cid: ContainerId, port: Port)
    ensures var gone := if h.Live(cid, port) then {Forward(cid, port, h.HostPort(cid, port))} else {};
      gone <= LiveForwards(h) && LiveForwards(WithoutForward(h, cid, port)) == LiveForwards(h) - gone
  {
    var gone := if h.Live(cid, port) then {Forward(cid, port, h.HostPort(cid, port))} else {};
    SameForwards(h, WithoutForward(h, cid, port), {}, gone);
  }

  lemma ContainerAccounts(h: Host, cid: ContainerId, registration: nat)
    ensures ForwardsOf(h, cid) <= LiveForwards(h)
    ensures LiveForwards(WithoutContainer(h, cid)) == LiveForwards(h) - ForwardsOf(h, cid)
    ensures LiveForwards(InsertRegistration(h, cid, registration)) == LiveForwards(h) - ForwardsOf(h, cid)
  {
    hide LiveForwards, ForwardsOf;
    forall f ensures f in LiveForwards(h) <==> IsLive(h, f)
             ensures f in ForwardsOf(h, cid) <==> f.cid == cid && IsLive(h, f)
    {
      LiveAre(h, f);
    }
    SameForwards(h, WithoutContainer(h, cid), {}, ForwardsOf(h, cid));
    SameForwards(h, InsertRegistration(h, cid, registration), {}, ForwardsOf(h, cid));
  }

  lemma CommitAccounts(s: Sys, t: Id)
    requires PortsSafe(s) && Enabled(s, Commit(t))
    ensures Accounts(s, Commit(t))
  {
    var task, h := s.tasks[t], s.host;
    var started := Forward(task.cid, task.port, task.target);
    assert Holds(s, InFlight(t), task.target);
    LiveAre(h, started);
    if h.Live(task.cid, task.port) {
      assert Holds(s, Live(task.cid, task.port), h.HostPort(task.cid, task.port));
      LiveAre(h, Forward(task.cid, task.port, h.HostPort(task.cid, task.port)));
    }
    SameForwards(h, Apply(s, Commit(t)).host, {started}, HandedOut(s, Commit(t)) + Overwritten(s, Commit(t)));
  }

  lemma QuietAccounts(s: Sys, step: Step)
    requires Enabled(s, step) && (step.Search? || step.BindFails? || step.TakeNumber? || step.Abandon?)
    ensures Accounts(s, step)
  {
    assert Apply(s, step).host.containers == s.host.containers;
  }

  lemma RemovingAccounts(s: Sys, step: Step)
    requires Enabled(s, step) && (step.BeginForward? || step.Unforward?)
    ensures Accounts(s, step)
  {
    hide LiveForwards, WithoutForward;
    RemovalAccounts(s.host, step.cid, step.port);
  }

  lemma ClearingAccounts(s: Sys, step: Step)
    requires Enabled(s, step) && (step.Admit? || step.Insert? || step.Disconnect?)
    ensures Accounts(s, step)
  {
    hide LiveForwards, ForwardsOf, WithoutContainer, InsertRegistration;
    if step.Admit? {
      ContainerAccounts(s.host, step.cid, 0);
    } else {
      var registration := if step.Insert? then s.conns[step.conn].registration else 0;
      ContainerAccounts(s.host, s.conns[step.conn].cid, registration);
    }
  }

  lemma StepHandsOut(s: Sys, step: Step)
    requires PortsSafe(s) && Enabled(s, step)
    ensures Accounts(s, step)
  {
    hide Accounts, PortsSafe, Enabled;
    match step
    case Commit(t) => CommitAccounts(s, t);
    case BeginForward(_, _, _) => RemovingAccounts(s, step);
    case Unforward(_, _) => RemovingAccounts(s, step);
    case Admit(_, _) => ClearingAccounts(s, step);
    case Insert(_) => ClearingAccounts(s, step);
    case Disconnect(_) => ClearingAccounts(s, step);
    case _ => QuietAccounts(s, step);
  }

  // ---- Whole runs ----------------------------------------------------------------------------

  /** How often each listener has been started, handed out or overwritten in a run. */
  datatype Ledger = Ledger(started: multiset<Forward>, handedOut: multiset<Forward>, overwritten: multiset<Forward>)

  ghost function LedgerOf(s: Sys, steps: seq<Step>): Ledger
    requires IsRun(s, steps)
    decreases |steps|
  {
    if steps == [] then Ledger(multiset{}, multiset{}, multiset{})
    else
      var step, rest := steps[0], LedgerOf(Apply(s, steps[0]), steps[1..]);
      Ledger(multiset(Started(s, step)) + rest.started, multiset(HandedOut(s, step)) + rest.handedOut,
             multiset(Overwritten(s, step)) + rest.overwritten)
  }

  lemma SetsAsMultisets(live: set<Forward>, started: set<Forward>, out: set<Forward>, over: set<Forward>)
    requires started !! live && out !! over && out + over <= live + started
    ensures multiset(live) + multiset(started)
         == multiset(live + started - out - over) + multiset(out) + multiset(over)
  {
    forall f ensures (multiset(live) + multiset(started))[f]
                  == (multiset(live + started - out - over) + multiset(out) + multiset(over))[f]
    {
    }
  }

  lemma BalancesAdd<T>(a: multiset<T>, b: multiset<T>, c: multiset<T>, d: multiset<T>, e: multiset<T>,
                       x: multiset<T>, f: multiset<T>, y: multiset<T>, z: multiset<T>)
    requires a + b == c + d + e && c + x == f + y + z
    ensures a + (b + x) == f + (d + y) + (e + z)
  {
    assert a + (b + x) == (a + b) + x == (c + x) + d + e;
  }

  lemma {:induction false} RunBalances(s: Sys, steps: seq<Step>)
    requires PortsSafe(s) && IsRun(s, steps)
    ensures var l := LedgerOf(s, steps);
      multiset(LiveForwards(s.host)) + l.started
      == multiset(LiveForwards(Run(s, steps).host)) + l.handedOut + l.overwritten
    decreases |steps|
  {
    hide PortsSafe, Apply, Enabled, LiveForwards, Started, HandedOut, Overwritten;
    if steps != [] {
      var step := steps[0];
      StepHandsOut(s, step);
      StepKeepsPortsSafe(s, step);
      SetsAsMultisets(LiveForwards(s.host), Started(s, step), HandedOut(s, step), Overwritten(s, step));
      RunBalances(Apply(s, step), steps[1..]);
      var rest := LedgerOf(Apply(s, step), steps[1..]);
      BalancesAdd(multiset(LiveForwards(s.host)), multiset(Started(s, step)),
                  multiset(LiveForwards(Apply(s, step).host)), multiset(HandedOut(s, step)),
                  multiset(Overwritten(s, step)), rest.started,
                  multiset(LiveForwards(Run(s, steps).host)), rest.handedOut, rest.overwritten);
    }
  }

  /** Main result: in every run each listener that has been started is live, has been handed out to be shut
      down exactly once, or was overwritten; and nothing else is ever handed out. */
  lemma EveryListenerIsAccountedFor(steps: seq<Step>)
    requires IsRun(INIT, steps)
    ensures var l := LedgerOf(INIT, steps);
      l.started == multiset(LiveForwards(Run(INIT, steps).host)) + l.handedOut + l.overwritten
  {
    RunBalances(INIT, steps);
    assert LiveForwards(INIT.host) == {};
  }
}
