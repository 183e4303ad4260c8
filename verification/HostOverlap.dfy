/** Runs in which overlapping requests leak a host port, exceed the two limits, or leave a port search
    that never ends. All of them keep the order in which a connection's messages are dispatched. */
module HostOverlap {
  import opened Wrappers
  import opened Cardinality
  import opened Text
  import opened PortSearch
  import opened HostForwarding
  import opened HostRuns
  import opened HostCapacity
  import opened HostAccounting

  /** A step against the order in which a connection dispatches its messages: a connection begins a
      forward only for its own id and with none in flight (its task has the connection's own number), and
      ends only between requests. Whether it still owns the state was checked earlier and may have changed. */
  ghost predicate OutOfOrder(s: Sys, step: Step) {
    match step
    case BeginForward(t, cid, _) => !(t in s.conns && s.conns[t].Inserted? && s.conns[t].cid == cid)
    case Disconnect(c) => c in s.tasks
    case _ => false
  }

  /** The runs below avoid more than that: in them a connection begins a forward only while it owns the
      state, so none of them depends on being superseded after the check. */
  ghost predicate Irregular(s: Sys, step: Step) {
    OutOfOrder(s, step) || (step.BeginForward? && !s.host.Owns(step.cid, s.conns[step.task].registration))
  }

  /** A regular run from the initial state to s through good states only. */
  ghost predicate Reaches(steps: seq<Step>, s: Sys, good: Sys -> bool) {
    IsRun(INIT, steps) && Run(INIT, steps) == s && Never(INIT, steps, Irregular) && Always(INIT, steps, good)
  }

  ghost function Any(): Sys -> bool { (s: Sys) => true }

  lemma {:induction false} RunAppend(s: Sys, steps: seq<Step>, step: Step, good: Sys -> bool)
    requires IsRun(s, steps) && Never(s, steps, Irregular) && Always(s, steps, good)
    requires Enabled(Run(s, steps), step) && !Irregular(Run(s, steps), step) && good(Apply(Run(s, steps), step))
    ensures IsRun(s, steps + [step]) && Run(s, steps + [step]) == Apply(Run(s, steps), step)
    ensures Never(s, steps + [step], Irregular) && Always(s, steps + [step], good)
    decreases |steps|
  {
    hide Enabled, Apply, Irregular;
    if steps == [] {
      assert (steps + [step])[1..] == [];
    } else {
      RunAppend(Apply(s, steps[0]), steps[1..], step, good);
      assert (steps + [step])[1..] == steps[1..] + [step];
    }
  }

  lemma Extend(steps: seq<Step>, s: Sys, step: Step, good: Sys -> bool) returns (steps': seq<Step>, s': Sys)
    requires Reaches(steps, s, good) && Enabled(s, step) && !Irregular(s, step) && good(Apply(s, step))
    ensures Reaches(steps', s', good) && s' == Apply(s, step)
  {
    hide Enabled, Apply, Irregular;
    RunAppend(INIT, steps, step, good);
    steps', s' := steps + [step], Apply(s, step);
  }

  /** A preference nobody uses is the first free port. */
  lemma PreferredIsFirst(used: set<Port>, port: Port)
    requires port != 0 && port !in used
    ensures IsFirstFree(used, port, Some(port))
  {
    assert Candidate(port, 0) == port && AllUsedBefore(used, port, 0);
  }

  /** A connection that owns the state forwards a port nobody uses, from beginning to end. */
  lemma ForwardNext(steps: seq<Step>, s: Sys, c: Id, cid: ContainerId, port: Port, good: Sys -> bool)
    returns (steps': seq<Step>, s': Sys)
    requires Reaches(steps, s, good) && forall x: Sys | x.conns == s.conns && |x.tasks| <= |s.tasks| + 1 :: good(x)
    requires c in s.conns && s.conns[c].Inserted? && s.conns[c].cid == cid && s.host.Owns(cid, s.conns[c].registration)
    requires c !in s.tasks && port != 0 && port !in s.host.used
    requires !s.host.Live(cid, port) && |s.host.LivePorts(cid)| < MAX_FORWARDS_PER_CONTAINER
    ensures Reaches(steps', s', good)
    ensures var state := s.host.containers[cid];
      s' == s.(host := Host(s.host.containers[cid := state.(forwards := state.forwards[port := port])],
                            s.host.used[port := cid]))
  {
    assert EvictForward(s.host, cid, port) == (s.host, Proceed(None)) by { assert !AtLimit(s.host, cid, port); }
    PreferredIsFirst(s.host.used.Keys, port);
    hide Reaches, EvictForward, IsFirstFree;
    steps', s' := Extend(steps, s, BeginForward(c, cid, port), good);
    steps', s' := Extend(steps', s', Search(c, Some(port)), good);
    assert s'.tasks - {c} == s.tasks;
    steps', s' := Extend(steps', s', Commit(c), good);
  }

  const CID: ContainerId := "c"

  // ---- A leaked host port -------------------------------------------------------------

  lemma FirstConnectionRegisters() returns (steps: seq<Step>, s: Sys)
    ensures Reaches(steps, s, Any())
    ensures s == Sys(Host(map[CID := Container(1, map[])], map[]), map[], map[0 := Inserted(CID, 1)], 2)
  {
    steps, s := Start(Any());
    hide Reaches;
    steps, s := Extend(steps, s, Admit(0, CID), Any());
    steps, s := Extend(steps, s, TakeNumber(0), Any());
    steps, s := Extend(steps, s, Insert(0), Any());
  }

  lemma FirstConnectionReserves() returns (steps: seq<Step>, s: Sys)
    ensures Reaches(steps, s, Any())
    ensures s == Sys(Host(map[CID := Container(1, map[])], map[3000 := CID]),
                     map[0 := Binding(CID, 3000, 3000)], map[0 := Inserted(CID, 1)], 2)
  {
    steps, s := FirstConnectionRegisters();
    hide Reaches;
    steps, s := Extend(steps, s, BeginForward(0, CID, 3000), Any());
    PreferredIsFirst({}, 3000);
    assert s.host.used.Keys == {};
    steps, s := Extend(steps, s, Search(0, Some(3000)), Any());
  }

  lemma Start(good: Sys -> bool) returns (steps: seq<Step>, s: Sys)
    requires good(INIT)
    ensures Reaches(steps, s, good) && s == INIT
  {
    steps, s := [], INIT;
  }

  /** A second connection of the same container id supersedes it. */
  lemma SecondConnectionRegisters() returns (steps: seq<Step>, s: Sys)
    ensures Reaches(steps, s, Any())
    ensures s == Sys(Host(map[CID := Container(2, map[])], map[3000 := CID]), map[0 := Binding(CID, 3000, 3000)],
                     map[0 := Inserted(CID, 1), 1 := Inserted(CID, 2)], 3)
  {
    hide Reaches;
    steps, s := FirstConnectionReserves();
    steps, s := Extend(steps, s, Admit(1, CID), Any());
    assert s.host == Host(map[], map[3000 := CID]);
    steps, s := Extend(steps, s, TakeNumber(1), Any());
    steps, s := Extend(steps, s, Insert(1), Any());
  }

  lemma SecondConnectionReserves() returns (steps: seq<Step>, s: Sys)
    ensures Reaches(steps, s, Any())
    ensures s == Sys(Host(map[CID := Container(2, map[])], map[3000 := CID, 3001 := CID]),
                     map[0 := Binding(CID, 3000, 3000), 1 := Binding(CID, 3000, 3001)],
                     map[0 := Inserted(CID, 1), 1 := Inserted(CID, 2)], 3)
  {
    hide Reaches;
    steps, s := SecondConnectionRegisters();
    steps, s := Extend(steps, s, BeginForward(1, CID, 3000), Any());
    assert Candidate(3000, 0) == 3000 && Candidate(3000, 1) == 3001;
    assert IsFirstFree({3000}, 3000, Some(3001)) by { assert AllUsedBefore({3000}, 3000, 1); }
    assert s.host.used.Keys == {3000};
    steps, s := Extend(steps, s, Search(1, Some(3001)), Any());
  }

  /** A connection still starting a listener is superseded by one of the same container id that
      forwards the same port: whichever commits first is overwritten, and its host port stays in
      `used_host_ports` with no forward behind it. */
  lemma OverlappingForwardsLeak() returns (steps: seq<Step>, s: Sys)
    ensures Reaches(steps, s, Any())
    ensures s.tasks == map[] && s.host.HostPortsOf(CID) == {3001} && Leaked(s) == {3000}
  {
    steps, s := SecondConnectionReserves();
    hide Reaches;
    steps, s := Extend(steps, s, Commit(0), Any());
    assert s.host == Host(map[CID := Container(2, map[3000 := 3000])], map[3000 := CID, 3001 := CID]);
    assert PortsSafe(s) by { ReachedIsSafe(steps, s, Any()); }
    assert Leaked(s) == {} by {
      assert Holds(s, Live(CID, 3000), 3000) && Holds(s, InFlight(1), 3001);
    }
    StepLeaks(s, Commit(1));
    steps, s := Extend(steps, s, Commit(1), Any());
    var forwards: map<Port, Port> := s.host.containers[CID].forwards;
    assert forwards == map[3000 := 3001] && forwards[3000] == 3001;
    assert forwards.Values == {3001};
  }

  lemma ReachedIsSafe(steps: seq<Step>, s: Sys, good: Sys -> bool)
    requires Reaches(steps, s, good)
    ensures PortsSafe(s)
  {
    PortsAlwaysSafe(INIT, steps);
  }

  // ---- More than 64 containers -----------------------------------------------------------

  /** Distinct short identifiers. */
  function Name(i: nat): ContainerId { Decimal(i) }

  lemma NamesDiffer(i: nat, j: nat)
    ensures Name(i) == Name(j) <==> i == j
  {
    DecimalDenotes(i);
    DecimalDenotes(j);
  }

  function Below(n: nat): (ids: set<Id>)
    ensures forall j: nat :: j in ids <==> j < n
    ensures |ids| == n
  {
    if n == 0 then {} else Below(n - 1) + {n - 1}
  }

  /** Connections below `inserted` are registered, those from there to `admitted` have passed the
      capacity check only. */
  ghost predicate Staged(s: Sys, inserted: nat, admitted: nat) {
    && inserted <= admitted && s.conns.Keys == Below(admitted)
    && (forall j: nat | j < inserted :: s.conns[j].Inserted?)
    && (forall j: nat | inserted <= j < admitted :: s.conns[j] == Admitted(Name(j)))
    && (forall j: nat :: Name(j) in s.host.containers <==> j < inserted)
    && |s.host.containers| == inserted
    && s.tasks == map[]
  }

  lemma StagedRegistering(s: Sys, inserted: nat, admitted: nat)
    requires Staged(s, inserted, admitted)
    ensures |Registering(s)| == admitted - inserted
  {
    assert Registering(s) == Below(admitted) - Below(inserted);
    assert Below(inserted) <= Below(admitted);
  }

  lemma AdmitNext(steps: seq<Step>, s: Sys, inserted: nat, admitted: nat, k: nat) returns (steps': seq<Step>, s': Sys)
    requires Reaches(steps, s, FewRegistering(k)) && Staged(s, inserted, admitted)
    requires inserted < 64 && admitted - inserted < k
    ensures Reaches(steps', s', FewRegistering(k)) && Staged(s', inserted, admitted + 1)
    ensures s'.host == s.host
  {
    hide Reaches, Staged, Apply, Enabled, Irregular, Registering;
    var step := Admit(admitted, Name(admitted));
    AdmitStaged(s, inserted, admitted);
    StagedRegistering(Apply(s, step), inserted, admitted + 1);
    steps', s' := Extend(steps, s, step, FewRegistering(k));
  }

  lemma AdmitStaged(s: Sys, inserted: nat, admitted: nat)
    requires Staged(s, inserted, admitted) && inserted < 64
    ensures var step := Admit(admitted, Name(admitted));
      Enabled(s, step) && !Irregular(s, step)
      && Staged(Apply(s, step), inserted, admitted + 1) && Apply(s, step).host == s.host
  {
    hide Name, Below;
  }

  lemma InsertNext(steps: seq<Step>, s: Sys, inserted: nat, admitted: nat, k: nat) returns (steps': seq<Step>, s': Sys)
    requires Reaches(steps, s, FewRegistering(k)) && Staged(s, inserted, admitted) && inserted < admitted
    ensures Reaches(steps', s', FewRegistering(k)) && Staged(s', inserted + 1, admitted)
    ensures s'.host == InsertRegistration(s.host, Name(inserted), s.nextRegistration)
    ensures s'.conns == s.conns[inserted := Inserted(Name(inserted), s.nextRegistration)]
  {
    hide Reaches, Staged, Apply, Enabled, Irregular, Registering;
    NumberStaged(s, inserted, admitted);
    StagedRegistering(s, inserted, admitted);
    assert FewRegistering(k)(s) by { ReachedIsGood(steps, s, FewRegistering(k)); }
    steps', s' := Extend(steps, s, TakeNumber(inserted), FewRegistering(k));
    InsertStaged(s, inserted, admitted);
    StagedRegistering(Apply(s', Insert(inserted)), inserted + 1, admitted);
    steps', s' := Extend(steps', s', Insert(inserted), FewRegistering(k));
  }

  lemma NumberStaged(s: Sys, inserted: nat, admitted: nat)
    requires Staged(s, inserted, admitted) && inserted < admitted
    ensures Enabled(s, TakeNumber(inserted)) && !Irregular(s, TakeNumber(inserted))
    ensures Registering(Apply(s, TakeNumber(inserted))) == Registering(s)
  {
    hide Name, Below;
  }

  lemma InsertStaged(s: Sys, inserted: nat, admitted: nat)
    requires Staged(s, inserted, admitted) && inserted < admitted
    ensures Enabled(s, TakeNumber(inserted))
    ensures var s1 := Apply(s, TakeNumber(inserted));
      && Enabled(s1, Insert(inserted)) && !Irregular(s1, Insert(inserted))
      && Staged(Apply(s1, Insert(inserted)), inserted + 1, admitted)
      && Apply(s1, Insert(inserted)).host == InsertRegistration(s.host, Name(inserted), s.nextRegistration)
      && Apply(s1, Insert(inserted)).conns == s.conns[inserted := Inserted(Name(inserted), s.nextRegistration)]
  {
    hide Name, Below, WithoutContainer, WithoutForward, EvictForward, CommitForward, Cleanup, AdmitRegistration,
        IsFirstFree;
    var s2 := Apply(Apply(s, TakeNumber(inserted)), Insert(inserted));
    assert s2.host.containers.Keys == s.host.containers.Keys + {Name(inserted)};
    forall j: nat ensures Name(j) in s2.host.containers <==> j < inserted + 1 {
      NamesDiffer(inserted, j);
    }
  }

  lemma {:induction false} AlwaysAtEnd(s: Sys, steps: seq<Step>, good: Sys -> bool)
    requires IsRun(s, steps) && Always(s, steps, good)
    ensures good(Run(s, steps))
    decreases |steps|
  {
    if steps != [] { AlwaysAtEnd(Apply(s, steps[0]), steps[1..], good); }
  }

  lemma ReachedIsGood(steps: seq<Step>, s: Sys, good: Sys -> bool)
    requires Reaches(steps, s, good)
    ensures good(s)
  {
    AlwaysAtEnd(INIT, steps, good);
  }

  /** The bound of 63 + k containers is reached, for every k: 63 connections register one after the
      other, k more pass the capacity check together, and all k are inserted. */
  lemma OverlappingRegistrationsPassTheLimit(k: nat) returns (steps: seq<Step>, s: Sys)
    requires k > 0
    ensures Reaches(steps, s, FewRegistering(k)) && |s.host.containers| == 63 + k
  {
    hide Reaches, Staged;
    steps, s := StartStaged(k);
    for i := 0 to 63
      invariant Reaches(steps, s, FewRegistering(k)) && Staged(s, i, i)
    {
      steps, s := AdmitNext(steps, s, i, i, k);
      steps, s := InsertNext(steps, s, i, i + 1, k);
    }
    for i := 0 to k
      invariant Reaches(steps, s, FewRegistering(k)) && Staged(s, 63, 63 + i)
    {
      steps, s := AdmitNext(steps, s, 63, 63 + i, k);
    }
    for i := 0 to k
      invariant Reaches(steps, s, FewRegistering(k)) && Staged(s, 63 + i, 63 + k)
    {
      steps, s := InsertNext(steps, s, 63 + i, 63 + k, k);
    }
    StagedContainers(s, 63 + k, 63 + k);
  }

  lemma StartStaged(k: nat) returns (steps: seq<Step>, s: Sys)
    ensures Reaches(steps, s, FewRegistering(k)) && Staged(s, 0, 0) && s == INIT
  {
    assert Registering(INIT) == {} && INIT.conns.Keys == Below(0);
    steps, s := Start(FewRegistering(k));
  }

  lemma StagedContainers(s: Sys, inserted: nat, admitted: nat)
    requires Staged(s, inserted, admitted)
    ensures |s.host.containers| == inserted
  {
  }

  // ---- More than 128 forwards -----------------------------------------------------------

  /** States with at most k forwards in flight are good. */
  ghost predicate AllowsTasks(good: Sys -> bool, k: nat) { forall s: Sys | |s.tasks| <= k :: good(s) }

  lemma InFlightAllowsTasks(cid: ContainerId, k: nat)
    ensures AllowsTasks(FewInFlight(cid, k), k)
  {
    forall s: Sys | |s.tasks| <= k ensures FewInFlight(cid, k)(s) {
      SubsetCount(InFlightOf(s, cid), s.tasks.Keys);
    }
  }

  /** More superseded connections than there are unprivileged ports for. */
  const MANY: nat := 64384

  /** The port the j-th connection to be superseded forwards. */
  function Late(j: nat): Port
    requires j < MANY
  {
    1152 + j
  }

  /** All connections are for one container id. */
  ghost predicate ConnsStacked(conns: map<Id, Conn>, next: nat, n: nat) {
    next == n + 1 && forall j: nat :: (j in conns <==> j < n) && (j < n ==> conns[j] == Inserted(CID, j + 1))
  }

  /** The first m of them have a forward in flight. */
  ghost predicate TasksStacked(tasks: map<Id, Task>, m: nat) {
    && m <= MANY && |tasks| == m
    && forall j: nat :: (j in tasks <==> j < m) && (j < m ==> tasks[j] == Binding(CID, Late(j), Late(j)))
  }

  /** The others below `top` have committed theirs, and the owner the first `served` unprivileged ports. */
  ghost predicate PortsStacked(h: Host, m: nat, top: nat, served: nat) {
    && m <= top <= MANY && served <= 128
    && (forall p: Port | 1024 + served <= p < 1152 || 1152 + top <= p :: p !in h.used && !h.Live(CID, p))
    && (forall p: Port | 1152 <= p < 1152 + m :: !h.Live(CID, p))
    && |h.LivePorts(CID)| == served + (top - m)
  }

  ghost predicate Stacked(s: Sys, n: nat, m: nat, top: nat, served: nat) {
    && ConnsStacked(s.conns, s.nextRegistration, n) && TasksStacked(s.tasks, m)
    && s.host.containers.Keys <= {CID} && (n > 0 ==> s.host.Owns(CID, n))
    && PortsStacked(s.host, m, top, served)
  }

  // One connection after the other registers, with no forwards left to evict.

  lemma AdmissionEmpties(h: Host)
    requires h.containers.Keys <= {CID} && |h.LivePorts(CID)| == 0
    ensures AdmitRegistration(h, CID) == (Host(map[], h.used), true)
  {
    AtMostOne(h.containers.Keys);
    assert |h.containers| == |h.containers.Keys| && h.LivePorts(CID) == {};
    if CID in h.containers {
      assert h.containers - {CID} == map[];
      assert h.containers[CID].forwards.Keys == {};
      assert h.used - h.containers[CID].forwards.Values == h.used;
    } else {
      assert h.containers == map[];
    }
  }

  lemma RegisterStacked(s: Sys, n: nat)
    requires Stacked(s, n, n, n, 0)
    ensures n !in s.conns && s.nextRegistration == n + 1 && |s.tasks| == n
    ensures s.host.containers.Keys <= {CID} && |s.host.LivePorts(CID)| == 0
    ensures Stacked(Sys(Host(map[CID := Container(n + 1, map[])], s.host.used), s.tasks,
                        s.conns[n := Inserted(CID, n + 1)], n + 2), n + 1, n, n, 0)
  {
    hide TasksStacked;
    var h := Host(map[CID := Container(n + 1, map[])], s.host.used);
    assert h.LivePorts(CID) == {};
    assert |s.tasks| == n by { TasksCount(s.tasks, n); }
  }

  lemma TasksCount(tasks: map<Id, Task>, m: nat)
    requires TasksStacked(tasks, m)
    ensures |tasks| == m
  {
  }

  lemma SupersedeNext(steps: seq<Step>, s: Sys, n: nat, k: nat, good: Sys -> bool) returns (steps': seq<Step>, s': Sys)
    requires Reaches(steps, s, good) && AllowsTasks(good, k) && Stacked(s, n, n, n, 0) && n < k
    ensures Reaches(steps', s', good) && Stacked(s', n + 1, n, n, 0)
  {
    RegisterStacked(s, n);
    var s1, s2, s3 := RegisterSteps(s, n);
    hide Reaches, Stacked, Apply, Enabled, Irregular;
    steps', s' := Extend(steps, s, Admit(n, CID), good);
    steps', s' := Extend(steps', s', TakeNumber(n), good);
    steps', s' := Extend(steps', s', Insert(n), good);
  }

  lemma RegisterSteps(s: Sys, n: nat) returns (s1: Sys, s2: Sys, s3: Sys)
    requires n !in s.conns && s.nextRegistration == n + 1
    requires s.host.containers.Keys <= {CID} && |s.host.LivePorts(CID)| == 0
    ensures Enabled(s, Admit(n, CID)) && !Irregular(s, Admit(n, CID)) && s1 == Apply(s, Admit(n, CID))
    ensures Enabled(s1, TakeNumber(n)) && !Irregular(s1, TakeNumber(n)) && s2 == Apply(s1, TakeNumber(n))
    ensures Enabled(s2, Insert(n)) && !Irregular(s2, Insert(n)) && s3 == Apply(s2, Insert(n))
    ensures s1.tasks == s2.tasks == s.tasks
    ensures s3 == Sys(Host(map[CID := Container(n + 1, map[])], s.host.used), s.tasks,
                      s.conns[n := Inserted(CID, n + 1)], n + 2)
  {
    AdmissionEmpties(s.host);
    hide AdmitRegistration, WithoutContainer, WithoutForward, EvictForward, CommitForward, Cleanup, IsFirstFree;
    s1 := Apply(s, Admit(n, CID));
    s2 := Apply(s1, TakeNumber(n));
    s3 := Apply(s2, Insert(n));
    assert s1.conns[n := Numbered(CID, n + 1)][n := Inserted(CID, n + 1)] == s.conns[n := Inserted(CID, n + 1)];
  }

  // It begins a forward of a port nobody uses and reserves it.

  lemma TaskJoins(tasks: map<Id, Task>, m: nat)
    requires TasksStacked(tasks, m) && m < MANY
    ensures m !in tasks && TasksStacked(tasks[m := Binding(CID, Late(m), Late(m))], m + 1)
  {
  }

  lemma ReserveStacked(s: Sys, n: nat)
    requires Stacked(s, n + 1, n, n, 0) && n < MANY
    ensures n in s.conns && s.conns[n] == Inserted(CID, n + 1) && s.host.Owns(CID, n + 1)
    ensures n !in s.tasks && |s.tasks| == n && Late(n) !in s.host.used
    ensures EvictForward(s.host, CID, Late(n)) == (s.host, Proceed(None))
    ensures Stacked(s.(host := s.host.(used := s.host.used[Late(n) := CID]),
                       tasks := s.tasks[n := Binding(CID, Late(n), Late(n))]), n + 1, n + 1, n + 1, 0)
  {
    TaskJoins(s.tasks, n);
    TasksCount(s.tasks, n);
    hide TasksStacked;
    var h := s.host.(used := s.host.used[Late(n) := CID]);
    assert h.LivePorts(CID) == s.host.LivePorts(CID);
    assert |s.host.containers[CID].forwards| == |s.host.LivePorts(CID)|;
  }

  lemma ReserveNext(steps: seq<Step>, s: Sys, n: nat, k: nat, good: Sys -> bool) returns (steps': seq<Step>, s': Sys)
    requires Reaches(steps, s, good) && AllowsTasks(good, k) && Stacked(s, n + 1, n, n, 0) && n < MANY && n < k
    ensures Reaches(steps', s', good) && Stacked(s', n + 1, n + 1, n + 1, 0)
  {
    ReserveStacked(s, n);
    PreferredIsFirst(s.host.used.Keys, Late(n));
    hide Reaches, Stacked, EvictForward, IsFirstFree;
    steps', s' := Extend(steps, s, BeginForward(n, CID, Late(n)), good);
    assert s'.tasks[n := Binding(CID, Late(n), Late(n))] == s.tasks[n := Binding(CID, Late(n), Late(n))];
    steps', s' := Extend(steps', s', Search(n, Some(Late(n))), good);
  }

  // The last connection forwards 128 ports from beginning to end.

  lemma ServeStacked(s: Sys, n: nat, served: nat)
    requires Stacked(s, n + 1, n, n, served) && served < 128
    ensures var port: Port := 1024 + served;
      && n in s.conns && s.conns[n] == Inserted(CID, n + 1) && s.host.Owns(CID, n + 1)
      && n !in s.tasks && |s.tasks| == n && port !in s.host.used
      && !s.host.Live(CID, port) && |s.host.LivePorts(CID)| == served
  {
    TasksCount(s.tasks, n);
  }

  lemma ServedStacked(s: Sys, n: nat, served: nat)
    requires Stacked(s, n + 1, n, n, served) && served < 128
    ensures var port: Port, state := 1024 + served, s.host.containers[CID];
      Stacked(s.(host := Host(s.host.containers[CID := state.(forwards := state.forwards[port := port])],
                              s.host.used[port := CID])), n + 1, n, n, served + 1)
  {
    hide ConnsStacked, TasksStacked;
    var port: Port, state := 1024 + served, s.host.containers[CID];
    var h := Host(s.host.containers[CID := state.(forwards := state.forwards[port := port])], s.host.used[port := CID]);
    assert !s.host.Live(CID, port) && port !in s.host.LivePorts(CID);
    assert h.LivePorts(CID) == s.host.LivePorts(CID) + {port};
    assert forall p :: h.Live(CID, p) <==> p == port || s.host.Live(CID, p);
  }

  lemma ServeNext(steps: seq<Step>, s: Sys, n: nat, served: nat, k: nat, good: Sys -> bool)
    returns (steps': seq<Step>, s': Sys)
    requires Reaches(steps, s, good) && AllowsTasks(good, k) && Stacked(s, n + 1, n, n, served) && served < 128 && n < k
    ensures Reaches(steps', s', good) && Stacked(s', n + 1, n, n, served + 1)
  {
    ServeStacked(s, n, served);
    ServedStacked(s, n, served);
    hide Reaches, Stacked;
    steps', s' := ForwardNext(steps, s, n, CID, 1024 + served, good);
  }

  // The superseded connections commit, the latest first.

  lemma TaskLeaves(tasks: map<Id, Task>, m: nat)
    requires TasksStacked(tasks, m) && m > 0
    ensures m - 1 in tasks && tasks[m - 1] == Binding(CID, Late(m - 1), Late(m - 1))
    ensures TasksStacked(tasks - {m - 1}, m - 1)
  {
    assert tasks.Keys == (tasks - {m - 1}).Keys + {m - 1};
  }

  lemma CommitStacked(s: Sys, n: nat, m: nat, top: nat) returns (s': Sys)
    requires Stacked(s, n, m, top, 128) && m > 0 && n > 0
    ensures Enabled(s, Commit(m - 1)) && !Irregular(s, Commit(m - 1)) && s' == Apply(s, Commit(m - 1))
    ensures |s'.tasks| == m - 1 && Stacked(s', n, m - 1, top, 128)
  {
    TaskLeaves(s.tasks, m);
    TasksCount(s.tasks - {m - 1}, m - 1);
    hide ConnsStacked, TasksStacked;
    s' := Apply(s, Commit(m - 1));
    assert !s.host.Live(CID, Late(m - 1)) && Late(m - 1) !in s.host.LivePorts(CID);
    assert s'.host.LivePorts(CID) == s.host.LivePorts(CID) + {Late(m - 1)};
    assert forall p :: s'.host.Live(CID, p) <==> p == Late(m - 1) || s.host.Live(CID, p);
  }

  lemma SupersedeAll(k: nat, good: Sys -> bool) returns (steps: seq<Step>, s: Sys)
    requires 0 < k <= MANY + 1 && AllowsTasks(good, k)
    ensures Reaches(steps, s, good) && Stacked(s, k, k - 1, k - 1, 0)
  {
    steps, s := StartStacked(k, good);
    hide Reaches, Stacked, AllowsTasks;
    var n := 0;
    while n < k - 1
      invariant n < k && Reaches(steps, s, good) && Stacked(s, n, n, n, 0)
    {
      steps, s := SupersedeNext(steps, s, n, k, good);
      steps, s := ReserveNext(steps, s, n, k, good);
      n := n + 1;
    }
    steps, s := SupersedeNext(steps, s, n, k, good);
  }

  lemma StartStacked(k: nat, good: Sys -> bool) returns (steps: seq<Step>, s: Sys)
    requires AllowsTasks(good, k)
    ensures Reaches(steps, s, good) && Stacked(s, 0, 0, 0, 0)
  {
    assert good(INIT);
    steps, s := Start(good);
    assert s.host.LivePorts(CID) == {};
  }

  /** The bound of 127 + k forwards is reached, for every k the unprivileged ports allow: k - 1
      connections of one container id are superseded with a forward in flight, the last one forwards
      128 ports one after the other, and then the others commit. */
  lemma OverlappingForwardsPassTheLimit(k: nat) returns (steps: seq<Step>, s: Sys)
    requires 0 < k <= MANY + 1
    ensures Reaches(steps, s, FewInFlight(CID, k)) && |s.host.LivePorts(CID)| == 127 + k
  {
    var good := FewInFlight(CID, k);
    InFlightAllowsTasks(CID, k);
    hide Reaches, Stacked, AllowsTasks, FewInFlight;
    steps, s := SupersedeAll(k, good);
    var top: nat := k - 1;
    for i := 0 to 128
      invariant Reaches(steps, s, good) && Stacked(s, k, top, top, i)
    {
      steps, s := ServeNext(steps, s, top, i, k, good);
    }
    var m := top;
    while m > 0
      invariant m <= top && Reaches(steps, s, good) && Stacked(s, k, m, top, 128)
    {
      steps, s := CommitNext(steps, s, k, m, top, good);
      m := m - 1;
    }
    StackedForwards(s, k, top);
  }

  lemma CommitNext(steps: seq<Step>, s: Sys, n: nat, m: nat, top: nat, good: Sys -> bool)
    returns (steps': seq<Step>, s': Sys)
    requires Reaches(steps, s, good) && AllowsTasks(good, n) && Stacked(s, n, m, top, 128) && 0 < m <= n
    ensures Reaches(steps', s', good) && Stacked(s', n, m - 1, top, 128)
  {
    var next := CommitStacked(s, n, m, top);
    hide Reaches, Stacked, Apply, Enabled, Irregular;
    steps', s' := Extend(steps, s, Commit(m - 1), good);
  }

  lemma StackedForwards(s: Sys, n: nat, top: nat)
    requires Stacked(s, n, 0, top, 128)
    ensures |s.host.LivePorts(CID)| == 128 + top
  {
  }

  // ---- A search that never ends ------------------------------------------------------------

  /** Port 80 and all unprivileged ports. */
  const ENOUGH: nat := 64513

  /** The port the j-th container forwards: 80, then every unprivileged one. */
  function Slot(j: nat): Port
    requires j < ENOUGH
  {
    if j == 0 then 80 else 1023 + j
  }

  predicate IsFilled(p: Port, n: nat) { if p == 80 then n > 0 else 1024 <= p < 1023 + n }

  ghost function FilledPorts(n: nat): set<Port> { set p: Port | IsFilled(p, n) }

  lemma FillsOneMore(n: nat)
    requires n < ENOUGH
    ensures FilledPorts(n) + {Slot(n)} == FilledPorts(n + 1) && Slot(n) !in FilledPorts(n)
  {
  }

  /** The first n of all connections are registered and forward one port each. */
  ghost predicate Filled(s: Sys, n: nat) {
    Staged(s, n, ENOUGH + 1) && s.host.used.Keys == FilledPorts(n)
  }

  /** The next connection registers; its container has no forwards. */
  lemma RegisterNext(steps: seq<Step>, s: Sys, n: nat) returns (steps': seq<Step>, s': Sys)
    requires Reaches(steps, s, FewRegistering(ENOUGH + 1)) && Staged(s, n, ENOUGH + 1) && n <= ENOUGH
    ensures Reaches(steps', s', FewRegistering(ENOUGH + 1)) && Staged(s', n + 1, ENOUGH + 1)
    ensures s'.host.used == s.host.used && s'.host.LivePorts(Name(n)) == {}
    ensures n in s'.conns && s'.conns[n].Inserted? && s'.conns[n].cid == Name(n)
    ensures s'.host.Owns(Name(n), s'.conns[n].registration)
  {
    hide Reaches, Staged, Name;
    steps', s' := InsertNext(steps, s, n, ENOUGH + 1, ENOUGH + 1);
  }

  /** A container just registered forwards its first port. */
  lemma ForwardFirst(steps: seq<Step>, s: Sys, n: nat, port: Port) returns (steps': seq<Step>, s': Sys)
    requires Reaches(steps, s, FewRegistering(ENOUGH + 1)) && Staged(s, n + 1, ENOUGH + 1)
    requires n in s.conns && s.conns[n].Inserted? && s.conns[n].cid == Name(n)
    requires s.host.Owns(Name(n), s.conns[n].registration)
    requires s.host.LivePorts(Name(n)) == {} && port != 0 && port !in s.host.used.Keys
    ensures Reaches(steps', s', FewRegistering(ENOUGH + 1)) && Staged(s', n + 1, ENOUGH + 1)
    ensures s'.host.used.Keys == s.host.used.Keys + {port}
  {
    assert s.tasks == map[];
    assert forall x: Sys | x.conns == s.conns :: FewRegistering(ENOUGH + 1)(x) by {
      ReachedIsGood(steps, s, FewRegistering(ENOUGH + 1));
      SameConnsFew(s, ENOUGH + 1);
    }
    assert !s.host.Live(Name(n), port) by { assert port !in s.host.LivePorts(Name(n)); }
    hide Reaches, Staged, Name, FewRegistering;
    steps', s' := ForwardNext(steps, s, n, Name(n), port, FewRegistering(ENOUGH + 1));
    ForwardStaged(s, s', n + 1, ENOUGH + 1, Name(n), port);
  }

  lemma SameConnsFew(s: Sys, k: nat)
    requires FewRegistering(k)(s)
    ensures forall x: Sys | x.conns == s.conns :: FewRegistering(k)(x)
  {
    forall x: Sys | x.conns == s.conns ensures FewRegistering(k)(x) {
      assert Registering(x) == Registering(s);
    }
  }

  lemma ForwardStaged(s: Sys, s': Sys, inserted: nat, admitted: nat, cid: ContainerId, port: Port)
    requires Staged(s, inserted, admitted) && cid in s.host.containers
    requires var state := s.host.containers[cid];
      s' == s.(host := Host(s.host.containers[cid := state.(forwards := state.forwards[port := port])],
                            s.host.used[port := cid]))
    ensures Staged(s', inserted, admitted) && s'.host.used.Keys == s.host.used.Keys + {port}
  {
    hide Name, Below;
    assert s'.host.containers.Keys == s.host.containers.Keys;
  }

  lemma FillNext(steps: seq<Step>, s: Sys, n: nat) returns (steps': seq<Step>, s': Sys)
    requires Reaches(steps, s, FewRegistering(ENOUGH + 1)) && Filled(s, n) && n < ENOUGH
    ensures Reaches(steps', s', FewRegistering(ENOUGH + 1)) && Filled(s', n + 1)
  {
    FillsOneMore(n);
    hide Reaches, Name, FilledPorts, Staged;
    steps', s' := RegisterNext(steps, s, n);
    steps', s' := ForwardFirst(steps', s', n, Slot(n));
  }

  lemma AdmitEnough() returns (steps: seq<Step>, s: Sys)
    ensures Reaches(steps, s, FewRegistering(ENOUGH + 1)) && Filled(s, 0)
  {
    hide Reaches, Staged;
    steps, s := StartStaged(ENOUGH + 1);
    for i := 0 to ENOUGH + 1
      invariant Reaches(steps, s, FewRegistering(ENOUGH + 1)) && Staged(s, 0, i) && s.host.used == map[]
    {
      steps, s := AdmitNext(steps, s, 0, i, ENOUGH + 1);
    }
    assert FilledPorts(0) == {};
  }

  /** A regular run to a search that cannot end: port 80 and every unprivileged port are used, one more
      container asks for port 80, and its search never has a result. */
  lemma SearchCanHang() returns (steps: seq<Step>, s: Sys)
    ensures Reaches(steps, s, FewRegistering(ENOUGH + 1))
    ensures s.tasks == map[ENOUGH := Preparing(Name(ENOUGH), 80)] && !SearchEnds(s.host.used.Keys, 80)
    ensures forall found :: !Enabled(s, Search(ENOUGH, found))
  {
    hide Reaches, Staged, Name;
    steps, s := AdmitEnough();
    for n := 0 to ENOUGH
      invariant Reaches(steps, s, FewRegistering(ENOUGH + 1)) && Filled(s, n)
    {
      steps, s := FillNext(steps, s, n);
    }
    steps, s := RegisterNext(steps, s, ENOUGH);
    ReachedIsGood(steps, s, FewRegistering(ENOUGH + 1));
    SameConnsFew(s, ENOUGH + 1);
    LastRequest(s);
    steps, s := Extend(steps, s, BeginForward(ENOUGH, Name(ENOUGH), 80), FewRegistering(ENOUGH + 1));
  }

  lemma LastRequest(s: Sys)
    requires Staged(s, ENOUGH + 1, ENOUGH + 1) && s.host.used.Keys == FilledPorts(ENOUGH)
    requires s.host.LivePorts(Name(ENOUGH)) == {} && s.conns[ENOUGH].cid == Name(ENOUGH)
    requires s.host.Owns(Name(ENOUGH), s.conns[ENOUGH].registration)
    ensures var step := BeginForward(ENOUGH, Name(ENOUGH), 80);
      && Enabled(s, step) && !Irregular(s, step)
      && var s' := Apply(s, step);
         && s'.conns == s.conns && s'.tasks == map[ENOUGH := Preparing(Name(ENOUGH), 80)]
         && !SearchEnds(s'.host.used.Keys, 80)
         && forall found :: !Enabled(s', Search(ENOUGH, found))
  {
    hide Name;
    assert !s.host.Live(Name(ENOUGH), 80) by { assert 80 !in s.host.LivePorts(Name(ENOUGH)); }
    assert |s.host.containers[Name(ENOUGH)].forwards| == |s.host.LivePorts(Name(ENOUGH))|;
    assert EvictForward(s.host, Name(ENOUGH), 80) == (s.host, Proceed(None));
    assert forall q: Port | Unprivileged(q) :: IsFilled(q, ENOUGH) && q in s.host.used.Keys;
    assert 80 in FilledPorts(ENOUGH);
    assert !SearchEnds(s.host.used.Keys, 80);
    forall found ensures !IsFirstFree(s.host.used.Keys, 80, found) {
      if IsFirstFree(s.host.used.Keys, 80, found) { FoundMeansEnds(s.host.used.Keys, 80, found); }
    }
  }
}
