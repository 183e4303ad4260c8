/** What happens between one container and the host, whatever the other containers do, is a run of the
    two-party protocol. */
module DeploymentProjection {
  import opened Wrappers
  import opened PortSearch
  import opened HostForwarding
  import HostRuns
  import HostEpochs
  import HostProjection
  import Reconciliation
  import opened Deployment

  // ---- One container and the host, as the two-party protocol sees them --------------------

  /** The part of container `cid`. */
  ghost function PartOf<T>(m: map<Id, Held<T>>, cid: ContainerId): map<Id, T> {
    map k | k in m && m[k].cid == cid :: m[k].it
  }

  ghost function ThoseOf(m: map<Id, ContainerId>, cid: ContainerId): set<Id> {
    set k | k in m && m[k] == cid
  }

  lemma PartSet<T>(m: map<Id, Held<T>>, k: Id, v: Held<T>, cid: ContainerId)
    requires k in m ==> m[k].cid == v.cid
    ensures PartOf(m[k := v], cid) == if v.cid == cid then PartOf(m, cid)[k := v.it] else PartOf(m, cid)
  {
  }

  lemma PartGone<T>(m: map<Id, Held<T>>, k: Id, cid: ContainerId)
    ensures PartOf(m - {k}, cid) == PartOf(m, cid) - {k}
  {
  }

  lemma PartHas<T>(m: map<Id, Held<T>>, k: Id, cid: ContainerId)
    ensures k in PartOf(m, cid) <==> k in m && m[k].cid == cid
    ensures k in PartOf(m, cid) ==> PartOf(m, cid)[k] == m[k].it
  {
  }

  function CheckedIn(busy: map<Id, Reconciliation.Dispatch>): map<Id, Request> {
    map k | k in busy && busy[k].Checked? :: busy[k].request
  }

  /** n is what the world looks like from container `cid`. */
  ghost predicate Appears(w: World, cid: ContainerId, n: Reconciliation.Net) {
    && ClientOf(w, cid) == Client(n.phase, n.session, n.welcome, n.forwarded, n.acks)
    && n.requests == PartOf(w.wires, cid) && n.registering == ThoseOf(w.registering, cid)
    && CheckedIn(n.busy) == PartOf(w.checked, cid)
    && HostProjection.Shows(w.host, cid, HostProjection.OfNet(n))
  }

  /** The step of the protocol that a step is for container `cid`, if it is one. */
  ghost function NetStep(w: World, step: Step, cid: ContainerId): Option<Reconciliation.Step>
    requires Enabled(w, step)
  {
    match step
    case Connect(c) => if c == cid then Some(Reconciliation.Connect(w.nextConn)) else None
    case Lose(c) => if c == cid then Some(Reconciliation.Lose) else None
    case Begin(c) => if c == cid then Some(Reconciliation.Begin) else None
    case Resend(c, p) => if c == cid then Some(Reconciliation.Resend(p)) else None
    case SendForward(c, p) => if c == cid then Some(Reconciliation.SendForward(p)) else None
    case SendUnforward(c, p) => if c == cid then Some(Reconciliation.SendUnforward(p)) else None
    case ReceiveAck(c) => if c == cid then Some(Reconciliation.ReceiveAck) else None
    case Truncate(k) => if w.wires[k].cid == cid then Some(Reconciliation.Truncate(k)) else None
    case Close(k) => if w.registering[k] == cid then Some(Reconciliation.HostDrops(k)) else None
    case Check(k) => if w.wires[k].cid == cid then Some(Reconciliation.Check(k)) else None
    case Unforward(k) => if w.checked[k].cid == cid then Some(Reconciliation.Act(k, false)) else None
    case Section(h) => SectionStep(w.host, h, cid)
  }

  ghost function SectionStep(s: HostRuns.Sys, h: HostRuns.Step, cid: ContainerId): Option<Reconciliation.Step>
    requires HostRuns.Enabled(s, h)
  {
    match h
    case BeginForward(t, c, p) =>
      if c == cid then Some(Reconciliation.Act(t, EvictForward(s.host, cid, p).1.TooManyForwards?)) else None
    case Search(t, found) =>
      if s.tasks[t].cid == cid && found.None? then Some(Reconciliation.Commit(t, false)) else None
    case BindFails(t) => if s.tasks[t].cid == cid then Some(Reconciliation.Commit(t, false)) else None
    case Commit(t) => if s.tasks[t].cid == cid then Some(Reconciliation.Commit(t, true)) else None
    case Unforward(c, p) => if c == cid then Some(Reconciliation.AdminUnforward(p)) else None
    case Admit(c, id) =>
      if id != cid then None
      else Some(if AdmitRegistration(s.host, cid).1 then Reconciliation.Admit(c) else Reconciliation.HostDrops(c))
    case TakeNumber(_) => None
    case Insert(c) => if s.conns[c].cid == cid then Some(Reconciliation.Insert(c)) else None
    case Abandon(c) => if s.conns[c].cid == cid then Some(Reconciliation.HostDrops(c)) else None
    case Disconnect(c) => if s.conns[c].cid == cid then Some(Reconciliation.HostDrops(c)) else None
  }

  ghost function Advance(n: Reconciliation.Net, step: Option<Reconciliation.Step>): Reconciliation.Net
    requires step.Some? ==> Reconciliation.Enabled(n, step.value)
  {
    if step.Some? then Reconciliation.Apply(n, step.value) else n
  }

  // ---- A step of the world is at most one step of the protocol -------------------------------

  /** What the protocol's state says about the world. */
  lemma Seen(w: World, cid: ContainerId, n: Reconciliation.Net)
    requires Appears(w, cid, n)
    ensures ClientOf(w, cid) == Client(n.phase, n.session, n.welcome, n.forwarded, n.acks)
    ensures n.requests == PartOf(w.wires, cid) && n.registering == ThoseOf(w.registering, cid)
    ensures CheckedIn(n.busy) == PartOf(w.checked, cid)
    ensures n.admitted == HostProjection.AdmittedOf(w.host.conns, cid)
    ensures n.live == w.host.host.LivePorts(cid) && (n.owner.Some? <==> cid in w.host.host.containers)
    ensures forall k: Id :: n.owner == Some(k) <==> HostEpochs.OwnsState(w.host, k) && w.host.conns[k].cid == cid
  {
  }

  lemma SeenBusy(w: World, cid: ContainerId, n: Reconciliation.Net, k: Id)
    requires Appears(w, cid, n)
    ensures k in n.busy && n.busy[k].Checked? <==> k in w.checked && w.checked[k].cid == cid
    ensures k in n.busy && n.busy[k].Checked? ==> n.busy[k].request == w.checked[k].it
    ensures k in n.busy && n.busy[k].Evicted? <==> k in w.host.tasks && w.host.tasks[k].cid == cid
    ensures k in n.busy && n.busy[k].Evicted? ==> n.busy[k].port == w.host.tasks[k].port
  {
    assert k in CheckedIn(n.busy) <==> k in PartOf(w.checked, cid);
    assert k in HostProjection.EvictedIn(n.busy) <==> k in HostProjection.EvictedOf(w.host.tasks, cid);
  }

  predicate IsForwardSection(h: HostRuns.Step) { h.BeginForward? || h.Search? || h.BindFails? || h.Commit? }

  lemma ForwardStepEnabled(w: World, h: HostRuns.Step, cid: ContainerId, n: Reconciliation.Net)
    requires Appears(w, cid, n) && Enabled(w, Section(h)) && IsForwardSection(h)
    ensures var ns := SectionStep(w.host, h, cid); ns.Some? ==> Reconciliation.Enabled(n, ns.value)
  {
    hide Appears, IsFirstFree, WithoutForward, PartOf, ThoseOf, CheckedIn, ClientOf, HostEpochs.OwnsState;
    hide HostProjection.AdmittedOf;
    Seen(w, cid, n);
    SeenBusy(w, cid, n, h.task);
  }

  lemma ConnectionStepEnabled(w: World, h: HostRuns.Step, cid: ContainerId, n: Reconciliation.Net)
    requires Appears(w, cid, n) && Enabled(w, Section(h)) && !IsForwardSection(h)
    requires StagesOk(w) && DispatchOk(w) && n.admitted <= n.requests.Keys
    ensures var ns := SectionStep(w.host, h, cid); ns.Some? ==> Reconciliation.Enabled(n, ns.value)
  {
    hide Appears, IsFirstFree, AdmitRegistration, CheckedIn, ClientOf, HostEpochs.OwnsState;
    Seen(w, cid, n);
    if h.Admit? || h.Abandon? || h.Disconnect? { SeenBusy(w, cid, n, h.conn); }
  }

  lemma ClientStepEnabled(w: World, step: Step, cid: ContainerId, n: Reconciliation.Net)
    requires Appears(w, cid, n) && Enabled(w, step) && NumbersOk(w) && ClientsOk(w)
    requires !step.Close? && !step.Check? && !step.Unforward? && !step.Section?
    ensures NetStep(w, step, cid).Some? ==> Reconciliation.Enabled(n, NetStep(w, step, cid).value)
  {
    hide Appears;
    Seen(w, cid, n);
  }

  lemma DispatchStepEnabled(w: World, step: Step, cid: ContainerId, n: Reconciliation.Net)
    requires Appears(w, cid, n) && Enabled(w, step) && StagesOk(w) && DispatchOk(w)
    requires step.Close? || step.Check? || step.Unforward?
    ensures NetStep(w, step, cid).Some? ==> Reconciliation.Enabled(n, NetStep(w, step, cid).value)
  {
    hide Appears;
    Seen(w, cid, n);
    SeenBusy(w, cid, n, step.conn);
  }

  lemma NetStepEnabled(w: World, step: Step, cid: ContainerId, n: Reconciliation.Net)
    requires Appears(w, cid, n) && Enabled(w, step) && AllOk(w) && Reconciliation.ConnectionsOk(n)
    ensures NetStep(w, step, cid).Some? ==> Reconciliation.Enabled(n, NetStep(w, step, cid).value)
  {
    hide Appears, NumbersOk, StagesOk, DispatchOk, ClientsOk, Reconciliation.Enabled;
    if step.Section? {
      if IsForwardSection(step.section) {
        ForwardStepEnabled(w, step.section, cid, n);
      } else {
        ConnectionStepEnabled(w, step.section, cid, n);
      }
    } else if step.Close? || step.Check? || step.Unforward? {
      DispatchStepEnabled(w, step, cid, n);
    } else {
      ClientStepEnabled(w, step, cid, n);
    }
  }

  /** The step is one of the container's, or leaves it alone. */
  ghost predicate Follows(w: World, step: Step, cid: ContainerId, n: Reconciliation.Net) {
    && Appears(w, cid, n) && Enabled(w, step)
    && (NetStep(w, step, cid).Some? ==> Reconciliation.Enabled(n, NetStep(w, step, cid).value))
  }

  predicate IsHostStep(step: Step) { step.Truncate? || step.Close? || step.Check? || step.Unforward? }

  ghost predicate ClientSeen(w: World, cid: ContainerId, n: Reconciliation.Net) {
    ClientOf(w, cid) == Client(n.phase, n.session, n.welcome, n.forwarded, n.acks)
  }

  lemma ClientActs(w: World, step: Step, cid: ContainerId, n: Reconciliation.Net)
    requires Follows(w, step, cid, n) && !step.Section? && !IsHostStep(step)
    ensures ClientSeen(Apply(w, step), cid, Advance(n, NetStep(w, step, cid)))
  {
    hide Appears, HostAfter, WiresAfter, RegisteringAfter, CheckedAfter, PartOf, ThoseOf, Acked;
    hide Reconciliation.Sent, Reconciliation.Acked, Reconciliation.Serve, HostEpochs.OwnsState;
    Seen(w, cid, n);
  }

  lemma HostActs(w: World, step: Step, cid: ContainerId, n: Reconciliation.Net)
    requires Follows(w, step, cid, n) && IsHostStep(step)
    ensures ClientSeen(Apply(w, step), cid, Advance(n, NetStep(w, step, cid)))
  {
    hide Appears, HostAfter, WiresAfter, RegisteringAfter, CheckedAfter, PartOf, ThoseOf, Acked;
    hide Reconciliation.Sent, Reconciliation.Acked, HostEpochs.OwnsState;
    Seen(w, cid, n);
  }

  /** What acknowledging does to the acknowledgements of a container. */
  lemma AckSeen(w: World, cid: ContainerId, n: Reconciliation.Net, c: ContainerId, k: Id, a: Ack)
    requires ClientSeen(w, cid, n)
    ensures ClientSeen(w.(clients := Acked(w, c, k, a)), cid,
                       if c == cid then n.(acks := Reconciliation.Acked(n, k, a)) else n)
  {
  }

  lemma ForwardSectionActs(w: World, h: HostRuns.Step, cid: ContainerId, n: Reconciliation.Net)
    requires Follows(w, Section(h), cid, n) && IsForwardSection(h)
    ensures ClientSeen(Apply(w, Section(h)), cid, Advance(n, NetStep(w, Section(h), cid)))
  {
    hide Appears, HostAfter, WiresAfter, RegisteringAfter, CheckedAfter, PartOf, ThoseOf, Acked;
    hide Reconciliation.Sent, Reconciliation.Acked, EvictForward, AdmitRegistration, IsFirstFree;
    hide HostEpochs.OwnsState, HostRuns.Apply;
    Seen(w, cid, n);
    SeenBusy(w, cid, n, h.task);
    match h
    case BeginForward(t, c, p) => AckSeen(w, cid, n, c, t, Reconciliation.ForwardAck(p, false));
    case Commit(t) =>
      var c := w.host.tasks[t].cid;
      AckSeen(w, cid, n, c, t, Reconciliation.ForwardAck(w.host.tasks[t].port, c in w.host.host.containers));
    case Search(t, _) =>
      AckSeen(w, cid, n, w.host.tasks[t].cid, t, Reconciliation.ForwardAck(w.host.tasks[t].port, false));
    case BindFails(t) =>
      AckSeen(w, cid, n, w.host.tasks[t].cid, t, Reconciliation.ForwardAck(w.host.tasks[t].port, false));
  }

  lemma ConnectionSectionActs(w: World, h: HostRuns.Step, cid: ContainerId, n: Reconciliation.Net)
    requires Follows(w, Section(h), cid, n) && !IsForwardSection(h)
    ensures ClientSeen(Apply(w, Section(h)), cid, Advance(n, NetStep(w, Section(h), cid)))
  {
    hide Appears, HostAfter, WiresAfter, RegisteringAfter, CheckedAfter, PartOf, ThoseOf, Acked;
    hide Reconciliation.Sent, Reconciliation.Acked, Reconciliation.Serve, EvictForward, AdmitRegistration, IsFirstFree;
    hide HostEpochs.OwnsState, HostRuns.Apply;
    Seen(w, cid, n);
  }

  /** What a protocol step of the host's side does to the open connections. */
  lemma NetRequestsAfter(n: Reconciliation.Net, step: Reconciliation.Step)
    requires Reconciliation.Enabled(n, step)
    requires step.Truncate? || step.Check? || step.Act? || step.Commit? || step.Admit? || step.Insert?
          || step.HostDrops? || step.AdminUnforward?
    ensures Reconciliation.Apply(n, step).requests
         == match step
            case Truncate(k) => n.requests[k := n.requests[k][..|n.requests[k]| - 1]]
            case Check(k) => if n.owner == Some(k) then n.requests[k := n.requests[k][1..]] else n.requests - {k}
            case HostDrops(k) => n.requests - {k}
            case _ => n.requests
  {
    hide Reconciliation.Acked;
  }

  /** The open connections of a container and what they hold. */
  ghost predicate WiresSeen(w: World, step: Step, cid: ContainerId, n: Reconciliation.Net)
    requires Follows(w, step, cid, n)
  {
    Advance(n, NetStep(w, step, cid)).requests == PartOf(WiresAfter(w, step), cid)
  }

  lemma ClientSends(w: World, step: Step, cid: ContainerId, n: Reconciliation.Net)
    requires Follows(w, step, cid, n) && !step.Section? && !IsHostStep(step) && NumbersOk(w) && ClientsOk(w)
    ensures WiresSeen(w, step, cid, n)
  {
    hide Appears, HostAfter, ClientsAfter, RegisteringAfter, CheckedAfter, PartOf, ThoseOf, Sent;
    hide Reconciliation.Sent, Reconciliation.Serve;
    Seen(w, cid, n);
    match step
    case Connect(c) => PartSet(w.wires, w.nextConn, Held(c, []), cid);
    case Resend(c, p) => SentSeen(w, c, Reconciliation.Forward(p), cid, n);
    case SendForward(c, p) => SentSeen(w, c, Reconciliation.Forward(p), cid, n);
    case SendUnforward(c, p) => SentSeen(w, c, Reconciliation.Unforward(p), cid, n);
    case _ =>
  }

  lemma SentSeen(w: World, c: ContainerId, r: Request, cid: ContainerId, n: Reconciliation.Net)
    requires Appears(w, cid, n) && c in w.clients && ClientsOk(w)
    ensures PartOf(Sent(w, ClientOf(w, c).session, r), cid)
         == if c == cid then Reconciliation.Sent(n, r) else n.requests
  {
    hide PartOf;
    var k := ClientOf(w, c).session;
    PartHas(w.wires, k, cid);
    if k in w.wires { PartSet(w.wires, k, w.wires[k].(it := w.wires[k].it + [r]), cid); }
  }

  lemma CheckTakes(w: World, k: Id, cid: ContainerId, n: Reconciliation.Net)
    requires Follows(w, Check(k), cid, n) && StagesOk(w)
    ensures WiresSeen(w, Check(k), cid, n)
  {
    hide Appears, HostAfter, ClientsAfter, RegisteringAfter, CheckedAfter, PartOf, ClientOf;
    hide HostEpochs.OwnsState, SectionStep, HostRuns.Enabled, Connected, ThoseOf, CheckedIn, Reconciliation.Apply;
    Seen(w, cid, n);
    if w.wires[k].cid == cid { NetRequestsAfter(n, Reconciliation.Check(k)); }
    PartHas(w.wires, k, cid);
    PartGone(w.wires, k, cid);
    PartSet(w.wires, k, w.wires[k].(it := w.wires[k].it[1..]), cid);
  }

  lemma HostTakes(w: World, step: Step, cid: ContainerId, n: Reconciliation.Net)
    requires Follows(w, step, cid, n) && IsHostStep(step) && StagesOk(w)
    ensures WiresSeen(w, step, cid, n)
  {
    hide Appears, HostAfter, ClientsAfter, RegisteringAfter, CheckedAfter, PartOf, ClientOf;
    hide HostEpochs.OwnsState, SectionStep, HostRuns.Enabled, Connected, ThoseOf, CheckedIn, Reconciliation.Apply;
    Seen(w, cid, n);
    if NetStep(w, step, cid).Some? { NetRequestsAfter(n, NetStep(w, step, cid).value); }
    match step
    case Truncate(k) =>
      PartHas(w.wires, k, cid);
      PartSet(w.wires, k, w.wires[k].(it := w.wires[k].it[..|w.wires[k].it| - 1]), cid);
    case Close(k) =>
      PartHas(w.wires, k, cid);
      PartGone(w.wires, k, cid);
    case Check(k) => CheckTakes(w, k, cid, n);
    case Unforward(_) =>
  }

  lemma SectionCloses(w: World, h: HostRuns.Step, cid: ContainerId, n: Reconciliation.Net)
    requires Follows(w, Section(h), cid, n) && StagesOk(w)
    ensures WiresSeen(w, Section(h), cid, n)
  {
    hide Appears, HostAfter, ClientsAfter, RegisteringAfter, CheckedAfter, PartOf, ClientOf;
    hide HostEpochs.OwnsState, EvictForward, AdmitRegistration, IsFirstFree, Reconciliation.Apply;
    Seen(w, cid, n);
    if SectionStep(w.host, h, cid).Some? { NetRequestsAfter(n, SectionStep(w.host, h, cid).value); }
    if h.Admit? || h.Abandon? || h.Disconnect? {
      PartHas(w.wires, h.conn, cid);
      PartGone(w.wires, h.conn, cid);
    }
  }

  lemma WiresStaySeen(w: World, step: Step, cid: ContainerId, n: Reconciliation.Net)
    requires Follows(w, step, cid, n) && AllOk(w)
    ensures WiresSeen(w, step, cid, n)
  {
    hide WiresSeen, Appears, Enabled, NetStep, NumbersOk, StagesOk, ClientsOk, DispatchOk;
    if step.Section? {
      SectionCloses(w, step.section, cid, n);
    } else if IsHostStep(step) {
      HostTakes(w, step, cid, n);
    } else {
      ClientSends(w, step, cid, n);
    }
  }

  lemma NetRegisteringAfter(n: Reconciliation.Net, step: Reconciliation.Step)
    requires Reconciliation.Enabled(n, step)
    ensures Reconciliation.Apply(n, step).registering
         == match step
            case Connect(k) => n.registering + {k}
            case Admit(k) => n.registering - {k}
            case HostDrops(k) => n.registering - {k}
            case _ => n.registering
  {
    hide Reconciliation.Sent, Reconciliation.Acked;
  }

  lemma ThoseAre(m: map<Id, ContainerId>, k: Id, c: ContainerId, cid: ContainerId)
    requires k in m ==> m[k] == c
    ensures ThoseOf(m[k := c], cid) == if c == cid then ThoseOf(m, cid) + {k} else ThoseOf(m, cid)
    ensures ThoseOf(m - {k}, cid) == if c == cid then ThoseOf(m, cid) - {k} else ThoseOf(m, cid)
    ensures k !in m ==> ThoseOf(m, cid) - {k} == ThoseOf(m, cid)
  {
  }

  ghost predicate RegisteringSeen(w: World, step: Step, cid: ContainerId, n: Reconciliation.Net)
    requires Follows(w, step, cid, n)
  {
    Advance(n, NetStep(w, step, cid)).registering == ThoseOf(RegisteringAfter(w, step), cid)
  }

  lemma SectionAdmits(w: World, h: HostRuns.Step, cid: ContainerId, n: Reconciliation.Net)
    requires Follows(w, Section(h), cid, n) && StagesOk(w)
    ensures RegisteringSeen(w, Section(h), cid, n)
  {
    hide Appears, HostAfter, ClientsAfter, WiresAfter, CheckedAfter, PartOf, ClientOf, ThoseOf;
    hide HostEpochs.OwnsState, EvictForward, AdmitRegistration, IsFirstFree, Reconciliation.Apply;
    Seen(w, cid, n);
    if SectionStep(w.host, h, cid).Some? { NetRegisteringAfter(n, SectionStep(w.host, h, cid).value); }
    if h.Admit? {
      ThoseAre(w.registering, h.conn, h.cid, cid);
    } else if h.Abandon? || h.Disconnect? {
      ThoseAre(w.registering, h.conn, cid, cid);
    }
  }

  lemma RegisteringStaysSeen(w: World, step: Step, cid: ContainerId, n: Reconciliation.Net)
    requires Follows(w, step, cid, n) && NumbersOk(w) && StagesOk(w)
    ensures RegisteringSeen(w, step, cid, n)
  {
    hide Appears, HostAfter, ClientsAfter, WiresAfter, CheckedAfter, PartOf, ClientOf, ThoseOf;
    hide HostEpochs.OwnsState, SectionStep, IsFirstFree, Reconciliation.Apply;
    if step.Section? {
      SectionAdmits(w, step.section, cid, n);
    } else {
      Seen(w, cid, n);
      if NetStep(w, step, cid).Some? { NetRegisteringAfter(n, NetStep(w, step, cid).value); }
      if step.Connect? { ThoseAre(w.registering, w.nextConn, step.cid, cid); }
      if step.Close? { ThoseAre(w.registering, step.conn, w.registering[step.conn], cid); }
    }
  }

  /** What a protocol step does to the requests that have been checked. */
  lemma NetCheckedAfter(n: Reconciliation.Net, step: Reconciliation.Step)
    requires Reconciliation.Enabled(n, step)
    ensures CheckedIn(Reconciliation.Apply(n, step).busy)
         == match step
            case Check(k) =>
              if n.owner == Some(k) then CheckedIn(n.busy)[k := n.requests[k][0]] else CheckedIn(n.busy)
            case Act(k, _) => CheckedIn(n.busy) - {k}
            case _ => CheckedIn(n.busy)
  {
    hide Reconciliation.Sent, Reconciliation.Acked;
  }

  ghost predicate CheckedSeen(w: World, step: Step, cid: ContainerId, n: Reconciliation.Net)
    requires Follows(w, step, cid, n)
  {
    CheckedIn(Advance(n, NetStep(w, step, cid)).busy) == PartOf(CheckedAfter(w, step), cid)
  }

  lemma SectionTakesChecked(w: World, h: HostRuns.Step, cid: ContainerId, n: Reconciliation.Net)
    requires Follows(w, Section(h), cid, n)
    ensures CheckedSeen(w, Section(h), cid, n)
  {
    hide Appears, HostAfter, ClientsAfter, WiresAfter, RegisteringAfter, PartOf, ClientOf, CheckedIn;
    hide HostEpochs.OwnsState, EvictForward, AdmitRegistration, IsFirstFree, Reconciliation.Apply;
    Seen(w, cid, n);
    if SectionStep(w.host, h, cid).Some? { NetCheckedAfter(n, SectionStep(w.host, h, cid).value); }
    if h.BeginForward? {
      PartHas(w.checked, h.task, cid);
      PartGone(w.checked, h.task, cid);
    }
  }

  lemma CheckedStaySeen(w: World, step: Step, cid: ContainerId, n: Reconciliation.Net)
    requires Follows(w, step, cid, n) && StagesOk(w)
    ensures CheckedSeen(w, step, cid, n)
  {
    hide Appears, HostAfter, ClientsAfter, WiresAfter, RegisteringAfter, PartOf, ClientOf, CheckedIn;
    hide HostEpochs.OwnsState, SectionStep, IsFirstFree, Reconciliation.Apply;
    if step.Section? {
      SectionTakesChecked(w, step.section, cid, n);
    } else {
      Seen(w, cid, n);
      if NetStep(w, step, cid).Some? { NetCheckedAfter(n, NetStep(w, step, cid).value); }
      if step.Check? {
        PartHas(w.wires, step.conn, cid);
        PartSet(w.checked, step.conn, Held(w.wires[step.conn].cid, w.wires[step.conn].it[0]), cid);
      }
      if step.Unforward? {
        PartHas(w.checked, step.conn, cid);
        PartGone(w.checked, step.conn, cid);
      }
    }
  }

  // ---- The host's side ---------------------------------------------------------------------

  /** The protocol's host does to the container what the section does. */
  lemma EventsAgree(w: World, step: Step, cid: ContainerId, n: Reconciliation.Net)
    requires Follows(w, step, cid, n) && SectionOf(w, step).Some?
    ensures var (h, ns) := (SectionOf(w, step).value, NetStep(w, step, cid));
      HostProjection.HostEvent(w.host, h, cid)
      == if ns.None? || (h.Admit? && ns.value.HostDrops?) then HostProjection.Idle
         else HostProjection.NetEvent(n, ns.value)
  {
    hide Appears, IsFirstFree, AdmitRegistration, HostAfter, HostRuns.Apply;
    if step.Unforward? {
      SeenBusy(w, cid, n, step.conn);
    } else if IsForwardSection(step.section) {
      SeenBusy(w, cid, n, step.section.task);
    }
  }

  /** A connection that ends before it is admitted leaves no trace on the host. */
  lemma UnadmittedLeavesNoTrace(w: World, cid: ContainerId, n: Reconciliation.Net, k: Id)
    requires Appears(w, cid, n) && k in w.registering && StagesOk(w) && Reconciliation.ConnectionsOk(n)
    requires w.registering[k] == cid && HostProjection.Possible(HostProjection.OfNet(n), HostProjection.Drop(k))
    ensures HostProjection.Happen(HostProjection.OfNet(n), HostProjection.Drop(k)) == HostProjection.OfNet(n)
  {
    Seen(w, cid, n);
  }

  lemma IdleChangesNothing(d: HostProjection.Side)
    ensures HostProjection.Possible(d, HostProjection.Idle) && HostProjection.Happen(d, HostProjection.Idle) == d
  {
  }

  /** A step without a lock section changes nothing the protocol's host knows. */
  lemma QuietOnHost(w: World, step: Step, cid: ContainerId, n: Reconciliation.Net)
    requires Follows(w, step, cid, n) && StagesOk(w) && Reconciliation.Consistent(n)
    requires SectionOf(w, step).None? && NetStep(w, step, cid).Some?
    requires HostProjection.Possible(HostProjection.OfNet(n), HostProjection.NetEvent(n, NetStep(w, step, cid).value))
    ensures HostProjection.Happen(HostProjection.OfNet(n), HostProjection.NetEvent(n, NetStep(w, step, cid).value))
         == HostProjection.OfNet(n)
  {
    hide Appears, HostProjection.OfNet, HostProjection.Possible, HostProjection.Happen, StagesOk;
    hide Reconciliation.PhaseOk;
    IdleChangesNothing(HostProjection.OfNet(n));
    if step.Close? { UnadmittedLeavesNoTrace(w, cid, n, step.conn); }
  }

  lemma HostStaysSeen(w: World, step: Step, cid: ContainerId, n: Reconciliation.Net)
    requires Follows(w, step, cid, n) && StagesOk(w) && HostEpochs.EpochsUnique(w.host)
    requires Reconciliation.Consistent(n)
    ensures HostProjection.Shows(HostAfter(w, step), cid, HostProjection.OfNet(Advance(n, NetStep(w, step, cid))))
  {
    hide Reconciliation.Apply, HostRuns.Apply, HostProjection.Shows, HostProjection.OfNet, HostProjection.Happen;
    hide HostProjection.HostEvent, HostProjection.Possible, HostEpochs.EpochsUnique, StagesOk, AdmitRegistration;
    var d, ns := HostProjection.OfNet(n), NetStep(w, step, cid);
    IdleChangesNothing(d);
    if ns.Some? { HostProjection.NetStepProjects(n, ns.value); }
    if SectionOf(w, step).Some? {
      var h := SectionOf(w, step).value;
      EventsAgree(w, step, cid, n);
      HostProjection.HostStepProjects(w.host, h, cid, d);
      if h.Admit? && ns.Some? && ns.value.HostDrops? { UnadmittedLeavesNoTrace(w, cid, n, h.conn); }
    } else if ns.Some? {
      QuietOnHost(w, step, cid, n);
    }
  }

  // ---- Whole runs -------------------------------------------------------------------------

  lemma StepStaysSeen(w: World, step: Step, cid: ContainerId, n: Reconciliation.Net)
    requires AllOk(w) && Appears(w, cid, n) && Reconciliation.Consistent(n) && Enabled(w, step)
    ensures Follows(w, step, cid, n) && Appears(Apply(w, step), cid, Advance(n, NetStep(w, step, cid)))
  {
    hide Enabled, NumbersOk, StagesOk, DispatchOk, ClientsOk, HostEpochs.EpochsUnique, NetStep, Advance;
    hide HostAfter, ClientsAfter, WiresAfter, RegisteringAfter, CheckedAfter, CheckedIn, PartOf, ThoseOf;
    NetStepEnabled(w, step, cid, n);
    ClientStaysSeen(w, step, cid, n);
    WiresStaySeen(w, step, cid, n);
    RegisteringStaysSeen(w, step, cid, n);
    CheckedStaySeen(w, step, cid, n);
    HostStaysSeen(w, step, cid, n);
  }

  lemma ClientStaysSeen(w: World, step: Step, cid: ContainerId, n: Reconciliation.Net)
    requires Follows(w, step, cid, n)
    ensures ClientSeen(Apply(w, step), cid, Advance(n, NetStep(w, step, cid)))
  {
    hide Apply, Appears, Enabled, NetStep, ClientSeen, Advance;
    if step.Section? {
      if IsForwardSection(step.section) {
        ForwardSectionActs(w, step.section, cid, n);
      } else {
        ConnectionSectionActs(w, step.section, cid, n);
      }
    } else if IsHostStep(step) {
      HostActs(w, step, cid, n);
    } else {
      ClientActs(w, step, cid, n);
    }
  }

  /** What happens between container `cid` and the host in a run. */
  ghost function Trace(w: World, steps: seq<Step>, cid: ContainerId): seq<Reconciliation.Step>
    requires IsRun(w, steps)
    decreases |steps|
  {
    if steps == [] then []
    else
      var rest := Trace(Apply(w, steps[0]), steps[1..], cid);
      match NetStep(w, steps[0], cid) case Some(step) => [step] + rest case None => rest
  }

  lemma {:induction false} RunStaysSeen(w: World, steps: seq<Step>, cid: ContainerId, n: Reconciliation.Net)
    requires IsRun(w, steps) && AllOk(w) && Appears(w, cid, n) && Reconciliation.Consistent(n)
    ensures AllOk(Run(w, steps)) && Reconciliation.IsRun(n, Trace(w, steps, cid))
    ensures Appears(Run(w, steps), cid, Reconciliation.Run(n, Trace(w, steps, cid)))
    decreases |steps|
  {
    hide AllOk, Appears, Reconciliation.Consistent, Apply, Enabled, NetStep, Reconciliation.Apply;
    hide Reconciliation.Enabled;
    if steps != [] {
      var ns := NetStep(w, steps[0], cid);
      StepKeepsAllOk(w, steps[0]);
      StepStaysSeen(w, steps[0], cid, n);
      if ns.Some? { Reconciliation.StepKeepsConsistent(n, ns.value); }
      RunStaysSeen(Apply(w, steps[0]), steps[1..], cid, Advance(n, ns));
      var rest := Trace(Apply(w, steps[0]), steps[1..], cid);
      if ns.Some? { assert ([ns.value] + rest)[1..] == rest; }
    }
  }

  lemma StartAppears(cid: ContainerId)
    ensures AllOk(INIT) && Appears(INIT, cid, Reconciliation.INIT) && Reconciliation.Consistent(Reconciliation.INIT)
    ensures HostRuns.PortsSafe(INIT.host)
  {
  }

  /** Main result: in every run of the host with any number of containers, whatever the others do and
      whatever is lost, what happens between one container and the host is a run of the protocol. */
  lemma EveryContainerFollowsProtocol(steps: seq<Step>, cid: ContainerId)
    requires IsRun(INIT, steps)
    ensures AllOk(Run(INIT, steps)) && Reconciliation.IsRun(Reconciliation.INIT, Trace(INIT, steps, cid))
    ensures Appears(Run(INIT, steps), cid, Reconciliation.Run(Reconciliation.INIT, Trace(INIT, steps, cid)))
  {
    StartAppears(cid);
    RunStaysSeen(INIT, steps, cid, Reconciliation.INIT);
  }
}
