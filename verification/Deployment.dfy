/** The host daemon and all the container daemons together: any number of containers that lose and
    reopen their control connections, and any number of connections the host still deals with. What one
    container and the host do with each other is then a run of the two-party protocol. */
module Deployment {
  import opened Wrappers
  import opened PortSearch
  import opened HostForwarding
  import HostRuns
  import HostEpochs
  import HostProjection
  import Reconciliation

  type Id = nat
  type Request = Reconciliation.Request
  type Ack = Reconciliation.Ack

  /** The daemon of one container. */
  datatype Client = Client(
    phase: Reconciliation.Phase,
    session: Id,                   // its latest connection
    welcome: bool,                 // a RegisterAck is on its way
    forwarded: set<Port>,
    acks: seq<Ack>                 // on their way, latest connection
  )

  const NEW_CLIENT: Client := Client(Reconciliation.Disconnected, 0, false, {}, [])

  /** What the host holds for a connection of container `cid`. */
  datatype Held<T> = Held(cid: ContainerId, it: T)

  datatype World = World(
    host: HostRuns.Sys,
    clients: map<ContainerId, Client>,
    wires: map<Id, Held<seq<Request>>>,    // open connections with the requests not yet taken from them
    registering: map<Id, ContainerId>,     // those not yet admitted
    checked: map<Id, Held<Request>>,       // requests taken from connections found to own the state
    nextConn: Id
  )

  const INIT: World := World(HostRuns.INIT, map[], map[], map[], map[], 1)

  datatype Step =
    | Connect(cid: ContainerId)
    | Lose(cid: ContainerId)
    | Begin(cid: ContainerId)
    | Resend(cid: ContainerId, port: Port)
    | SendForward(cid: ContainerId, port: Port)
    | SendUnforward(cid: ContainerId, port: Port)
    | ReceiveAck(cid: ContainerId)
    | Truncate(conn: Id)                    // bytes of a lost connection never arrive
    | Close(conn: Id)                       // it ends before it is admitted
    | Check(conn: Id)                       // the host takes a request and checks its registration
    | Unforward(conn: Id)                   // ... and unforwards
    | Section(section: HostRuns.Step)       // any other lock section; `Unforward` by an administrator

  function ClientOf(w: World, cid: ContainerId): Client {
    if cid in w.clients then w.clients[cid] else NEW_CLIENT
  }

  predicate Connected(c: Client) { c.phase.Reforwarding? || c.phase.InSession? }

  ghost predicate Enabled(w: World, step: Step) {
    match step
    case Connect(cid) => ClientOf(w, cid).phase.Disconnected?
    case Lose(cid) => !ClientOf(w, cid).phase.Disconnected?
    case Begin(cid) => ClientOf(w, cid).phase.Registering? && ClientOf(w, cid).welcome
    case Resend(cid, p) => ClientOf(w, cid).phase.Reforwarding? && p in ClientOf(w, cid).phase.todo
    case SendForward(cid, p) => ClientOf(w, cid).phase.InSession? && p !in ClientOf(w, cid).forwarded
    case SendUnforward(cid, p) => ClientOf(w, cid).phase.InSession? && p in ClientOf(w, cid).forwarded
    case ReceiveAck(cid) => ClientOf(w, cid).phase.InSession? && ClientOf(w, cid).acks != []
    case Truncate(k) =>
      k in w.wires && w.wires[k].it != []
      && !(Connected(ClientOf(w, w.wires[k].cid)) && k == ClientOf(w, w.wires[k].cid).session)
    case Close(k) => k in w.registering
    case Check(k) =>
      k in w.wires && HostEpochs.IsInserted(w.host, k) && k !in w.checked && k !in w.host.tasks
      && w.wires[k].it != []
    case Unforward(k) => k in w.checked && w.checked[k].it.Unforward?
    case Section(h) =>
      && HostRuns.Enabled(w.host, h)
      && match h
         case BeginForward(t, cid, p) =>
           t in w.checked && w.checked[t] == Held(cid, Reconciliation.Forward(p))
         case Admit(c, cid) => c in w.registering && w.registering[c] == cid
         case Disconnect(c) => c in w.wires && c !in w.checked && c !in w.host.tasks
         case _ => true
  }

  /** A request reaches the connection if the host still has it open. */
  function Sent(w: World, k: Id, r: Request): map<Id, Held<seq<Request>>> {
    if k in w.wires then w.wires[k := w.wires[k].(it := w.wires[k].it + [r])] else w.wires
  }

  /** An acknowledgement is read only by the session it belongs to. */
  function Acked(w: World, cid: ContainerId, k: Id, a: Ack): map<ContainerId, Client> {
    var c := ClientOf(w, cid);
    if Connected(c) && k == c.session then w.clients[cid := c.(acks := c.acks + [a])] else w.clients
  }

  /** The host's lock section in a step, if there is one that changes its state. */
  ghost function SectionOf(w: World, step: Step): Option<HostRuns.Step>
    requires Enabled(w, step)
  {
    match step
    case Unforward(k) => Some(HostRuns.Unforward(w.checked[k].cid, w.checked[k].it.port))
    case Section(h) => Some(h)
    case _ => None
  }

  ghost function HostAfter(w: World, step: Step): HostRuns.Sys
    requires Enabled(w, step)
  {
    match SectionOf(w, step)
    case Some(h) => HostRuns.Apply(w.host, h)
    case None => w.host
  }

  ghost function ClientsAfter(w: World, step: Step): map<ContainerId, Client>
    requires Enabled(w, step)
  {
    match step
    case Connect(cid) => w.clients[cid := ClientOf(w, cid).(phase := Reconciliation.Registering, session := w.nextConn)]
    case Lose(cid) =>
      w.clients[cid := ClientOf(w, cid).(phase := Reconciliation.Disconnected, welcome := false, acks := [])]
    case Begin(cid) =>
      var c := ClientOf(w, cid);
      w.clients[cid := c.(phase := if c.forwarded == {} then Reconciliation.InSession
                                   else Reconciliation.Reforwarding(c.forwarded), welcome := false)]
    case Resend(cid, p) =>
      var c := ClientOf(w, cid);
      w.clients[cid := c.(phase := if c.phase.todo == {p} then Reconciliation.InSession
                                   else Reconciliation.Reforwarding(c.phase.todo - {p}))]
    case SendForward(cid, p) => w.clients[cid := ClientOf(w, cid).(forwarded := ClientOf(w, cid).forwarded + {p})]
    case SendUnforward(cid, p) => w.clients[cid := ClientOf(w, cid).(forwarded := ClientOf(w, cid).forwarded - {p})]
    case ReceiveAck(cid) =>
      var c := ClientOf(w, cid);
      w.clients[cid := c.(acks := c.acks[1..],
                          forwarded := if c.acks[0].success then c.forwarded else c.forwarded - {c.acks[0].port})]
    case Section(BeginForward(t, cid, p)) =>
      if EvictForward(w.host.host, cid, p).1.Proceed? then w.clients
      else Acked(w, cid, t, Reconciliation.ForwardAck(p, false))
    case Section(Search(t, None)) =>
      Acked(w, w.host.tasks[t].cid, t, Reconciliation.ForwardAck(w.host.tasks[t].port, false))
    case Section(BindFails(t)) =>
      Acked(w, w.host.tasks[t].cid, t, Reconciliation.ForwardAck(w.host.tasks[t].port, false))
    case Section(Commit(t)) =>
      var cid := w.host.tasks[t].cid;
      Acked(w, cid, t, Reconciliation.ForwardAck(w.host.tasks[t].port, cid in w.host.host.containers))
    case Section(Admit(k, cid)) =>
      var c := ClientOf(w, cid);
      if AdmitRegistration(w.host.host, cid).1
      then w.clients[cid := c.(welcome := c.welcome || (c.phase.Registering? && k == c.session))]
      else w.clients
    case _ => w.clients
  }

  ghost function WiresAfter(w: World, step: Step): map<Id, Held<seq<Request>>>
    requires Enabled(w, step)
  {
    match step
    case Connect(cid) => w.wires[w.nextConn := Held(cid, [])]
    case Resend(cid, p) => Sent(w, ClientOf(w, cid).session, Reconciliation.Forward(p))
    case SendForward(cid, p) => Sent(w, ClientOf(w, cid).session, Reconciliation.Forward(p))
    case SendUnforward(cid, p) => Sent(w, ClientOf(w, cid).session, Reconciliation.Unforward(p))
    case Truncate(k) => w.wires[k := w.wires[k].(it := w.wires[k].it[..|w.wires[k].it| - 1])]
    case Close(k) => w.wires - {k}
    case Check(k) =>
      // A superseded connection is closed.
      if HostEpochs.OwnsState(w.host, k) then w.wires[k := w.wires[k].(it := w.wires[k].it[1..])]
      else w.wires - {k}
    case Section(Admit(k, cid)) => if AdmitRegistration(w.host.host, cid).1 then w.wires else w.wires - {k}
    case Section(Abandon(k)) => w.wires - {k}
    case Section(Disconnect(k)) => w.wires - {k}
    case _ => w.wires
  }

  ghost function RegisteringAfter(w: World, step: Step): map<Id, ContainerId>
    requires Enabled(w, step)
  {
    match step
    case Connect(cid) => w.registering[w.nextConn := cid]
    case Close(k) => w.registering - {k}
    case Section(Admit(k, _)) => w.registering - {k}
    case _ => w.registering
  }

  ghost function CheckedAfter(w: World, step: Step): map<Id, Held<Request>>
    requires Enabled(w, step)
  {
    match step
    case Check(k) =>
      if HostEpochs.OwnsState(w.host, k) then w.checked[k := Held(w.wires[k].cid, w.wires[k].it[0])] else w.checked
    case Unforward(k) => w.checked - {k}
    case Section(BeginForward(k, _, _)) => w.checked - {k}
    case _ => w.checked
  }

  ghost function Apply(w: World, step: Step): World
    requires Enabled(w, step)
  {
    World(HostAfter(w, step), ClientsAfter(w, step), WiresAfter(w, step), RegisteringAfter(w, step),
          CheckedAfter(w, step), if step.Connect? then w.nextConn + 1 else w.nextConn)
  }

  ghost predicate IsRun(w: World, steps: seq<Step>)
    decreases |steps|
  {
    steps == [] || (Enabled(w, steps[0]) && IsRun(Apply(w, steps[0]), steps[1..]))
  }

  ghost function Run(w: World, steps: seq<Step>): World
    requires IsRun(w, steps)
    decreases |steps|
  {
    if steps == [] then w else Run(Apply(w, steps[0]), steps[1..])
  }

  // ---- What holds of every state ------------------------------------------------------

  /** Connections are numbered once. */
  ghost predicate NumbersOk(w: World) {
    && 0 < w.nextConn
    && (forall k | k in w.wires :: 0 < k < w.nextConn)
    && (forall k | k in w.host.conns :: k < w.nextConn)
  }

  /** They belong to one container each and are in one stage only. */
  ghost predicate StagesOk(w: World) {
    && (forall k | k in w.registering ::
          k in w.wires && w.registering[k] == w.wires[k].cid && k !in w.host.conns)
    && (forall k | k in w.wires && k !in w.registering :: k in w.host.conns && w.host.conns[k].cid == w.wires[k].cid)
  }

  ghost predicate DispatchOk(w: World) {
    && (forall k | k in w.checked ::
          k in w.wires && HostEpochs.IsInserted(w.host, k) && w.host.conns[k].cid == w.checked[k].cid
          && k !in w.host.tasks)
    && (forall t | t in w.host.tasks ::
          t in w.wires && HostEpochs.IsInserted(w.host, t) && w.host.conns[t].cid == w.host.tasks[t].cid)
  }

  ghost predicate ClientsOk(w: World) {
    forall cid | cid in w.clients ::
      && w.clients[cid].session < w.nextConn
      && (w.clients[cid].phase.Reforwarding? ==> w.clients[cid].phase.todo != {})
      && (w.clients[cid].session in w.wires ==> w.wires[w.clients[cid].session].cid == cid)
  }

  ghost predicate AllOk(w: World) {
    NumbersOk(w) && StagesOk(w) && DispatchOk(w) && ClientsOk(w) && HostEpochs.EpochsUnique(w.host)
  }

  /** What a section does to the requests in flight and to the connections. */
  lemma SectionsAfter(w: World, step: Step)
    requires Enabled(w, step)
    ensures SectionOf(w, step).None? ==> HostAfter(w, step) == w.host
    ensures step.Unforward? ==> HostAfter(w, step).tasks == w.host.tasks && HostAfter(w, step).conns == w.host.conns
    ensures step.Section? ==>
      && HostAfter(w, step).tasks == HostProjection.TasksLeft(w.host, step.section)
      && HostAfter(w, step).conns == HostProjection.ConnsLeft(w.host, step.section)
  {
    hide HostRuns.Apply, EvictForward, AdmitRegistration, IsFirstFree;
    var h := SectionOf(w, step);
    if h.Some? {
      HostProjection.TasksAfter(w.host, h.value);
      HostProjection.ConnsAfter(w.host, h.value);
    }
  }

  lemma StepKeepsNumbersOk(w: World, step: Step)
    requires NumbersOk(w) && StagesOk(w) && Enabled(w, step)
    ensures NumbersOk(Apply(w, step))
  {
    hide HostAfter, ClientsAfter, CheckedAfter, RegisteringAfter, DispatchOk, ClientsOk, HostEpochs.EpochsUnique;
    hide HostEpochs.OwnsState, EvictForward, AdmitRegistration, IsFirstFree;
    SectionsAfter(w, step);
  }

  lemma SectionKeepsStagesOk(w: World, h: HostRuns.Step)
    requires StagesOk(w) && Enabled(w, Section(h))
    ensures StagesOk(Apply(w, Section(h)))
  {
    hide HostAfter, ClientsAfter, CheckedAfter, HostEpochs.OwnsState, EvictForward, AdmitRegistration, IsFirstFree;
    SectionsAfter(w, Section(h));
  }

  lemma StepKeepsStagesOk(w: World, step: Step)
    requires NumbersOk(w) && StagesOk(w) && DispatchOk(w) && Enabled(w, step)
    ensures StagesOk(Apply(w, step))
  {
    hide HostAfter, ClientsAfter, CheckedAfter, HostEpochs.OwnsState, IsFirstFree;
    if step.Section? {
      SectionKeepsStagesOk(w, step.section);
    } else {
      SectionsAfter(w, step);
    }
  }

  /** A connection in the middle of a request is not closed. */
  lemma BusyStaysOpen(w: World, step: Step, k: Id)
    requires NumbersOk(w) && StagesOk(w) && DispatchOk(w) && Enabled(w, step) && (k in w.checked || k in w.host.tasks)
    ensures k in WiresAfter(w, step) && WiresAfter(w, step)[k].cid == w.wires[k].cid
  {
    hide ClientsOk, HostEpochs.EpochsUnique, HostEpochs.OwnsState, EvictForward, AdmitRegistration, IsFirstFree;
  }

  lemma InsertedStays(w: World, step: Step, k: Id)
    requires Enabled(w, step) && HostEpochs.IsInserted(w.host, k)
    ensures HostEpochs.IsInserted(HostAfter(w, step), k) && HostAfter(w, step).conns[k].cid == w.host.conns[k].cid
  {
    hide HostAfter, EvictForward, AdmitRegistration, IsFirstFree;
    SectionsAfter(w, step);
  }

  lemma CheckedStayOk(w: World, step: Step, k: Id)
    requires NumbersOk(w) && StagesOk(w) && DispatchOk(w) && Enabled(w, step) && k in CheckedAfter(w, step)
    ensures var (w', c) := (Apply(w, step), CheckedAfter(w, step)[k]);
      && k in w'.wires && HostEpochs.IsInserted(w'.host, k) && w'.host.conns[k].cid == c.cid && k !in w'.host.tasks
  {
    hide HostAfter, ClientsAfter, ClientsOk, HostEpochs.EpochsUnique, EvictForward, AdmitRegistration, IsFirstFree;
    hide RegisteringAfter;
    SectionsAfter(w, step);
    InsertedStays(w, step, k);
    if k in w.checked { BusyStaysOpen(w, step, k); }
  }

  lemma TasksStayOk(w: World, step: Step, t: Id)
    requires NumbersOk(w) && StagesOk(w) && DispatchOk(w) && Enabled(w, step) && t in HostAfter(w, step).tasks
    ensures var w' := Apply(w, step);
      && t in w'.wires && HostEpochs.IsInserted(w'.host, t) && w'.host.conns[t].cid == w'.host.tasks[t].cid
  {
    hide HostAfter, ClientsAfter, WiresAfter, CheckedAfter, RegisteringAfter, ClientsOk, HostEpochs.EpochsUnique;
    hide EvictForward, AdmitRegistration, IsFirstFree;
    SectionsAfter(w, step);
    assert t in w.checked || t in w.host.tasks;
    BusyStaysOpen(w, step, t);
    InsertedStays(w, step, t);
  }

  lemma StepKeepsDispatchOk(w: World, step: Step)
    requires AllOk(w) && Enabled(w, step)
    ensures DispatchOk(Apply(w, step))
  {
    hide HostAfter, ClientsAfter, WiresAfter, CheckedAfter, RegisteringAfter, Enabled, NumbersOk, StagesOk;
    var w' := Apply(w, step);
    forall k | k in w'.checked
      ensures k in w'.wires && HostEpochs.IsInserted(w'.host, k) && w'.host.conns[k].cid == w'.checked[k].cid
      ensures k !in w'.host.tasks
    {
      CheckedStayOk(w, step, k);
    }
    forall t | t in w'.host.tasks
      ensures t in w'.wires && HostEpochs.IsInserted(w'.host, t) && w'.host.conns[t].cid == w'.host.tasks[t].cid
    {
      TasksStayOk(w, step, t);
    }
  }

  lemma SessionsAfter(w: World, step: Step, c: ContainerId)
    requires Enabled(w, step) && c in ClientsAfter(w, step)
    requires ClientOf(w, c).phase.Reforwarding? ==> ClientOf(w, c).phase.todo != {}
    ensures ClientsAfter(w, step)[c].session
         == if step == Connect(c) then w.nextConn else ClientOf(w, c).session
    ensures ClientsAfter(w, step)[c].phase.Reforwarding? ==> ClientsAfter(w, step)[c].phase.todo != {}
  {
    hide EvictForward, AdmitRegistration, IsFirstFree, HostEpochs.OwnsState;
  }

  lemma OpenAfter(w: World, step: Step, k: Id)
    requires Enabled(w, step) && k in WiresAfter(w, step)
    ensures !(step.Connect? && k == w.nextConn) ==> k in w.wires && WiresAfter(w, step)[k].cid == w.wires[k].cid
    ensures step.Connect? && k == w.nextConn ==> WiresAfter(w, step)[k].cid == step.cid
  {
    hide EvictForward, AdmitRegistration, IsFirstFree, HostEpochs.OwnsState, ClientOf;
  }

  lemma StepKeepsClientsOk(w: World, step: Step)
    requires NumbersOk(w) && ClientsOk(w) && Enabled(w, step)
    ensures ClientsOk(Apply(w, step))
  {
    hide HostAfter, ClientsAfter, WiresAfter, CheckedAfter, RegisteringAfter, Enabled;
    var w' := Apply(w, step);
    forall c | c in w'.clients
      ensures w'.clients[c].session < w'.nextConn
      ensures w'.clients[c].phase.Reforwarding? ==> w'.clients[c].phase.todo != {}
      ensures w'.clients[c].session in w'.wires ==> w'.wires[w'.clients[c].session].cid == c
    {
      SessionsAfter(w, step, c);
      if w'.clients[c].session in w'.wires { OpenAfter(w, step, w'.clients[c].session); }
    }
  }

  lemma StepKeepsAllOk(w: World, step: Step)
    requires AllOk(w) && Enabled(w, step)
    ensures AllOk(Apply(w, step))
  {
    hide NumbersOk, StagesOk, DispatchOk, ClientsOk, HostEpochs.EpochsUnique, HostRuns.Apply;
    StepKeepsNumbersOk(w, step);
    StepKeepsStagesOk(w, step);
    StepKeepsDispatchOk(w, step);
    StepKeepsClientsOk(w, step);
    var h := SectionOf(w, step);
    if h.Some? { HostEpochs.StepKeepsEpochsUnique(w.host, h.value); }
  }
}
