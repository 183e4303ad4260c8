/** The container daemon's forwarded ports against the host's live forwards: two parties joined by
    FIFO channels that can break at any moment (`src/container/mod.rs`, `src/host/mod.rs`).

    A session is one control connection. The host may still be working through old connections when
    a new one registers: it admits a connection, evicting the state of others, in one lock section and
    inserts its registration in a later one, in any order among connections; and it checks that a
    request's registration owns the state in one section and acts in later ones. */
module Reconciliation {
  import opened Wrappers
  import opened PortSearch

  type Session = nat

  datatype Request = Forward(port: Port) | Unforward(port: Port)
  datatype Ack = ForwardAck(port: Port, success: bool)

  /** Where the container daemon is in its reconnect loop. */
  datatype Phase = Disconnected | Registering | Reforwarding(todo: set<Port>) | InSession

  /** The request a connection of the host is dispatching: its registration has been checked, or the
      old forward of the port has been evicted and the listener is starting. */
  datatype Dispatch = Checked(request: Request) | Evicted(port: Port)

  datatype Net = Net(
    phase: Phase,
    session: Session,                       // the container's latest session
    welcome: bool,                          // its RegisterAck is on its way
    forwarded: set<Port>,                   // survives reconnects
    acks: seq<Ack>,                         // on their way to the container, latest session
    requests: map<Session, seq<Request>>,   // connections open on the host, with what they still hold
    busy: map<Session, Dispatch>,           // those in the middle of a request
    registering: set<Session>,              // not yet admitted
    admitted: set<Session>,                 // past the eviction of old state, not yet inserted
    owner: Option<Session>,                 // the registration the host's state belongs to
    live: set<Port>                         // its live forwards
  )

  const INIT: Net := Net(Disconnected, 0, false, {}, [], map[], map[], {}, {}, None, {})

  datatype Step =
    | Lose                            // the container loses its connection
    | Truncate(k: Session)            // bytes of a lost connection never arrive
    | Connect(k: Session)             // a new connection, asking to register
    | Admit(k: Session)               // the host evicts the container's state and acknowledges
    | Insert(k: Session)              // the host inserts the registration
    | Begin                           // the container reads the acknowledgement
    | Resend(p: Port)                 // re-forward after reconnecting
    | SendForward(p: Port)            // a scan found a new port
    | SendUnforward(p: Port)          // a scan missed a port
    | ReceiveAck
    | Check(k: Session)               // the host takes a request and checks its registration
    | Act(k: Session, limit: bool)    // unforward, or evict and go on, or refuse at the limit
    | Commit(k: Session, ok: bool)    // the listener bound, or did not
    | HostDrops(k: Session)           // the host's side of connection k ends
    | AdminUnforward(p: Port)

  predicate Connected(n: Net) { n.phase.Reforwarding? || n.phase.InSession? }

  predicate Enabled(n: Net, step: Step) {
    match step
    case Lose => !n.phase.Disconnected?
    case Truncate(k) => k in n.requests && n.requests[k] != [] && !(Connected(n) && k == n.session)
    case Connect(k) => n.phase.Disconnected? && k > n.session
    case Admit(k) => k in n.registering
    case Begin => n.phase.Registering? && n.welcome
    case Insert(k) => k in n.admitted
    case Resend(p) => n.phase.Reforwarding? && p in n.phase.todo
    case SendForward(p) => n.phase.InSession? && p !in n.forwarded
    case SendUnforward(p) => n.phase.InSession? && p in n.forwarded
    case ReceiveAck => n.phase.InSession? && n.acks != []
    case Check(k) =>
      k in n.requests && k !in n.registering && k !in n.admitted && k !in n.busy && n.requests[k] != []
    case Act(k, limit) =>
      && k in n.busy && n.busy[k].Checked?
      && (limit ==> n.owner.Some? && n.busy[k].request.Forward? && n.busy[k].request.port !in n.live)
    case Commit(k, _) => k in n.busy && n.busy[k].Evicted?
    case HostDrops(k) => k in n.requests && k !in n.busy
    case AdminUnforward(_) => true
  }

  /** The request reaches the connection if the host still has it open. */
  function Sent(n: Net, r: Request): map<Session, seq<Request>> {
    if n.session in n.requests then n.requests[n.session := n.requests[n.session] + [r]] else n.requests
  }

  /** An acknowledgement is read only by the session it belongs to. */
  function Acked(n: Net, k: Session, a: Ack): seq<Ack> {
    if Connected(n) && k == n.session then n.acks + [a] else n.acks
  }

  /** The sections of one dispatch. */
  function Serve(n: Net, step: Step): Net
    requires Enabled(n, step) && (step.Check? || step.Act? || step.Commit?)
  {
    var k := step.k;
    match step
    case Check(_) =>
      if n.owner != Some(k) then n.(requests := n.requests - {k})   // superseded: the connection is closed
      else n.(requests := n.requests[k := n.requests[k][1..]], busy := n.busy[k := Checked(n.requests[k][0])])
    case Act(_, limit) =>
      (match n.busy[k].request
       case Unforward(p) => n.(busy := n.busy - {k}, live := n.live - {p})
       case Forward(p) =>
         if limit then n.(busy := n.busy - {k}, acks := Acked(n, k, ForwardAck(p, false)))
         else n.(busy := n.busy[k := Evicted(p)], live := n.live - {p}))
    case Commit(_, ok) =>
      // Without an owner the container's state is gone and the listener is shut down again.
      var p, done := n.busy[k].port, ok && n.owner.Some?;
      n.(busy := n.busy - {k}, live := if done then n.live + {p} else n.live, acks := Acked(n, k, ForwardAck(p, done)))
  }

  function Apply(n: Net, step: Step): Net
    requires Enabled(n, step)
  {
    match step
    case Lose => n.(phase := Disconnected, welcome := false, acks := [])
    case Truncate(k) => n.(requests := n.requests[k := n.requests[k][..|n.requests[k]| - 1]])
    case Connect(k) =>
      n.(phase := Registering, session := k, requests := n.requests[k := []], registering := n.registering + {k})
    case Admit(k) =>
      n.(registering := n.registering - {k}, admitted := n.admitted + {k}, owner := None, live := {},
         welcome := n.welcome || (n.phase.Registering? && k == n.session))
    case Begin =>
      n.(phase := if n.forwarded == {} then InSession else Reforwarding(n.forwarded), welcome := false)
    case Insert(k) => n.(admitted := n.admitted - {k}, owner := Some(k), live := {})
    case Resend(p) =>
      n.(requests := Sent(n, Forward(p)),
         phase := if n.phase.todo == {p} then InSession else Reforwarding(n.phase.todo - {p}))
    case SendForward(p) => n.(requests := Sent(n, Forward(p)), forwarded := n.forwarded + {p})
    case SendUnforward(p) => n.(requests := Sent(n, Unforward(p)), forwarded := n.forwarded - {p})
    case ReceiveAck =>
      n.(acks := n.acks[1..],
         forwarded := if n.acks[0].success then n.forwarded else n.forwarded - {n.acks[0].port})
    case HostDrops(k) =>
      n.(requests := n.requests - {k}, registering := n.registering - {k}, admitted := n.admitted - {k},
         owner := if n.owner == Some(k) then None else n.owner,
         live := if n.owner == Some(k) then {} else n.live)
    case AdminUnforward(p) => n.(live := n.live - {p})
    case _ => Serve(n, step)
  }

  predicate IsRun(n: Net, steps: seq<Step>)
    decreases |steps|
  {
    steps == [] || (Enabled(n, steps[0]) && IsRun(Apply(n, steps[0]), steps[1..]))
  }

  function Run(n: Net, steps: seq<Step>): Net
    requires IsRun(n, steps)
    decreases |steps|
  {
    if steps == [] then n else Run(Apply(n, steps[0]), steps[1..])
  }

  // ---- What the host will make of the requests still queued --------------------

  /** The last request about p. */
  function LastAbout(q: seq<Request>, p: Port): Option<Request> {
    if q == [] then None
    else if q[|q| - 1].port == p then Some(q[|q| - 1])
    else LastAbout(q[..|q| - 1], p)
  }

  lemma LastAboutAppend(q: seq<Request>, r: Request, p: Port)
    ensures LastAbout(q + [r], p) == if r.port == p then Some(r) else LastAbout(q, p)
  {
    assert (q + [r])[..|q|] == q;
  }

  lemma {:induction false} LastAboutPop(q: seq<Request>, p: Port)
    requires q != []
    ensures LastAbout(q, p) == if LastAbout(q[1..], p).Some? then LastAbout(q[1..], p)
                               else if q[0].port == p then Some(q[0]) else None
  {
    if |q| > 1 {
      LastAboutPop(q[..|q| - 1], p);
      assert q[..|q| - 1][1..] == q[1..][..|q[1..]| - 1];
    }
  }

  /** The container knows, or is about to know, that it has been registered. */
  predicate Greeted(n: Net) { Connected(n) || n.welcome }

  /** ... and its session is, or is about to be, the one the host serves. */
  predicate Attached(n: Net) {
    Greeted(n) && (n.session in n.admitted || n.owner == Some(n.session))
  }

  /** What the host still has to do for the session: the request in hand, then those it holds. */
  function Queue(n: Net): seq<Request> {
    (if n.session in n.busy then [InHand(n.busy[n.session])] else [])
    + (if n.session in n.requests then n.requests[n.session] else [])
  }

  function InHand(d: Dispatch): Request {
    match d case Checked(r) => r case Evicted(p) => Forward(p)
  }

  function LiveNow(n: Net): set<Port> {
    if n.owner == Some(n.session) then n.live else {}
  }

  /** p is live, or will be once the queue is served, unless a Forward is rejected meanwhile. */
  predicate Expected(n: Net, p: Port) {
    match LastAbout(Queue(n), p)
    case Some(r) => r.Forward?
    case None => p in LiveNow(n)
  }

  function Todo(n: Net): set<Port> {
    match n.phase
    case Reforwarding(todo) => todo
    case Registering => n.forwarded
    case _ => {}
  }

  predicate Consistent(n: Net) { ConnectionsOk(n) && PhaseOk(n) }

  /** Every connection the host deals with is open and in one stage only. */
  predicate ConnectionsOk(n: Net) {
    && n.registering + n.admitted + n.busy.Keys <= n.requests.Keys
    && n.registering !! n.admitted && n.busy.Keys !! n.registering + n.admitted
    && (forall k | k in n.requests :: k <= n.session)
    && (n.owner.Some? ==> n.owner.value in n.requests && n.owner.value !in n.registering + n.admitted)
    && (n.owner.None? ==> n.live == {})
  }

  predicate PhaseOk(n: Net) {
    && Todo(n) <= n.forwarded
    && (Greeted(n) ==> n.session !in n.registering)
    && (n.welcome ==> n.phase.Registering?)
    && (n.phase.Disconnected? || n.phase.Registering? ==> n.acks == [])
    && (n.phase.Registering? ==> Queue(n) == [])
  }

  lemma StepKeepsConsistent(n: Net, step: Step)
    requires Consistent(n) && Enabled(n, step)
    ensures Consistent(Apply(n, step))
  {
    StepKeepsConnectionsOk(n, step);
    StepKeepsPhaseOk(n, step);
    hide Apply, ConnectionsOk, PhaseOk;
  }

  lemma StepKeepsConnectionsOk(n: Net, step: Step)
    requires ConnectionsOk(n) && Enabled(n, step)
    ensures ConnectionsOk(Apply(n, step))
  {
  }

  lemma StepKeepsPhaseOk(n: Net, step: Step)
    requires ConnectionsOk(n) && PhaseOk(n) && Enabled(n, step)
    ensures PhaseOk(Apply(n, step))
  {
  }

  lemma {:induction false} RunStaysConsistent(n: Net, steps: seq<Step>)
    requires Consistent(n) && IsRun(n, steps)
    ensures Consistent(Run(n, steps))
    decreases |steps|
  {
    hide Consistent, Apply, Enabled;
    if steps != [] {
      StepKeepsConsistent(n, steps[0]);
      RunStaysConsistent(Apply(n, steps[0]), steps[1..]);
    }
  }

  // ---- How one step changes what is expected ----------------------------------------

  /** A section of another connection, or an administrator, takes away a live port that no request of
      the session is about. */
  predicate Strips(n: Net, step: Step, p: Port) {
    && p in LiveNow(n) && LastAbout(Queue(n), p).None?
    && (step == AdminUnforward(p)
        || (step.Act? && step.k != n.session && !step.limit && Enabled(n, step) && n.busy[step.k].request.port == p))
  }

  /** A section of another connection makes a port live that no request of the session is about. */
  predicate Plants(n: Net, step: Step, p: Port) {
    && n.owner == Some(n.session) && LastAbout(Queue(n), p).None?
    && step.Commit? && step.k != n.session && step.ok && Enabled(n, step) && n.busy[step.k].port == p
  }

  /** The host refuses the session's Forward of p in hand, so a rejection is sent. */
  predicate Rejects(n: Net, step: Step, p: Port) {
    && ((step.Act? && step.limit) || (step.Commit? && !step.ok)) && step.k == n.session && Enabled(n, step)
    && InHand(n.busy[n.session]) == Forward(p)
  }

  /** ... and that was the last hope of p being live. */
  predicate Disappoints(n: Net, step: Step, p: Port) {
    Rejects(n, step, p) && p !in n.live && LastAbout(Queue(n)[1..], p).None?
  }

  lemma SendAppends(n: Net, step: Step, r: Request)
    requires Consistent(n) && Attached(n) && Enabled(n, step)
    requires (step.SendUnforward? && r == Unforward(step.p))
        || ((step.Resend? || step.SendForward?) && r == Forward(step.p))
    ensures var n' := Apply(n, step);
      Attached(n') && Queue(n') == Queue(n) + [r] && LiveNow(n') == LiveNow(n) && n'.acks == n.acks
  {
    assert n.session in n.requests;
    var head := if n.session in n.busy then [InHand(n.busy[n.session])] else [];
    assert head + (n.requests[n.session] + [r]) == (head + n.requests[n.session]) + [r];
  }

  lemma SendExpects(n: Net, step: Step, p: Port)
    requires Consistent(n) && Attached(n) && Enabled(n, step)
        && (step.Resend? || step.SendForward? || step.SendUnforward?)
    ensures Expected(Apply(n, step), p) == if step.p == p then !step.SendUnforward? else Expected(n, p)
  {
    var r := if step.SendUnforward? then Unforward(step.p) else Forward(step.p);
    SendAppends(n, step, r);
    LastAboutAppend(Queue(n), r, p);
  }

  /** A section of the session's own dispatch takes the head off the queue or leaves the queue alone. */
  lemma OwnSection(n: Net, step: Step)
    requires Consistent(n) && Attached(n) && Enabled(n, step)
    requires (step.Check? || step.Act? || step.Commit?) && step.k == n.session
    ensures var n' := Apply(n, step);
      && n.owner == Some(n.session) == n'.owner && Queue(n) != []
      && (step.Check? ==> Queue(n') == Queue(n) && n'.live == n.live && n'.acks == n.acks)
      && (!step.Check? ==> n.session in n.busy && Queue(n)[0] == InHand(n.busy[n.session]))
      && ((step.Act? && n'.session in n'.busy) ==>
            Queue(n') == Queue(n) && n'.live == n.live - {Queue(n)[0].port} && n'.acks == n.acks)
      && ((step.Commit? || (step.Act? && n'.session !in n'.busy)) ==> Queue(n') == Queue(n)[1..])
  {
  }

  lemma OwnSectionExpects(n: Net, step: Step, p: Port)
    requires Consistent(n) && Attached(n) && Enabled(n, step)
    requires (step.Check? || step.Act? || step.Commit?) && step.k == n.session
    ensures Expected(Apply(n, step), p) == (Expected(n, p) && !Disappoints(n, step, p))
  {
    OwnSection(n, step);
    LastAboutPop(Queue(n), p);
    hide Queue, Consistent;
  }

  /** Nothing the session is waiting for is touched by another connection's section, by an
      administrator or by the connections coming and going, but for what it strips or plants. */
  lemma OtherExpects(n: Net, step: Step, p: Port)
    requires Consistent(n) && Attached(n) && Enabled(n, step) && Attached(Apply(n, step))
    requires !(step.Resend? || step.SendForward? || step.SendUnforward?)
    requires (step.Check? || step.Act? || step.Commit?) ==> step.k != n.session
    ensures Expected(Apply(n, step), p) == ((Expected(n, p) && !Strips(n, step, p)) || Plants(n, step, p))
  {
    assert Queue(Apply(n, step)) == Queue(n);
  }

  lemma ExpectationEvolves(n: Net, step: Step, p: Port)
    requires Consistent(n) && Attached(n) && Enabled(n, step) && Attached(Apply(n, step))
    ensures Expected(Apply(n, step), p)
         == if step == Resend(p) || step == SendForward(p) || Plants(n, step, p) then true
            else if step == SendUnforward(p) || Strips(n, step, p) || Disappoints(n, step, p) then false
            else Expected(n, p)
  {
    hide Queue, Consistent, Serve;
    if step.Resend? || step.SendForward? || step.SendUnforward? {
      SendExpects(n, step, p);
    } else if (step.Check? || step.Act? || step.Commit?) && step.k == n.session {
      OwnSectionExpects(n, step, p);
      assert !Strips(n, step, p) && !Plants(n, step, p);
    } else {
      OtherExpects(n, step, p);
    }
  }

  // ---- Ports the container believes forwarded but the host has lost ------------------

  /** Not live, nothing on the way to make it live, and no rejection to tell the container. */
  predicate Missing(n: Net, p: Port) {
    Attached(n) && p in n.forwarded && p !in Todo(n) && !Expected(n, p) && ForwardAck(p, false) !in n.acks
  }

  /** A port the container relies on is stripped. */
  predicate Loses(n: Net, step: Step, p: Port) {
    Attached(n) && p in n.forwarded && p !in Todo(n) && ForwardAck(p, false) !in n.acks && Strips(n, step, p)
  }

  /** Exactly how missing ports come and go while the two sides stay attached. */
  lemma MissingEvolves(n: Net, step: Step, p: Port)
    requires Consistent(n) && Enabled(n, step) && Attached(Apply(n, step))
    ensures Missing(Apply(n, step), p)
       <==> (Missing(n, p) && step != SendUnforward(p) && !Plants(n, step, p) && !Rejects(n, step, p))
            || Loses(n, step, p)
  {
    hide Queue, Expected, Strips, Plants;
    if Attached(n) {
      ExpectationEvolves(n, step, p);
      RejectionsEvolve(n, step, p);
      Exclusive(n, step, p);
    } else {
      OnlyAdmissionAttaches(n, step);
    }
  }

  lemma RejectionsEvolve(n: Net, step: Step, p: Port)
    requires Consistent(n) && Attached(n) && Enabled(n, step) && Attached(Apply(n, step))
    ensures var a := ForwardAck(p, false);
      a in Apply(n, step).acks <==> Rejects(n, step, p) || a in (if step.ReceiveAck? then n.acks[1..] else n.acks)
  {
  }

  lemma OnlyAdmissionAttaches(n: Net, step: Step)
    requires Consistent(n) && !Attached(n) && Enabled(n, step) && Attached(Apply(n, step))
    ensures var n' := Apply(n, step);
      && step == Admit(n.session) && Queue(n') == [] && n'.acks == [] && n'.owner == None
      && Todo(n') == n'.forwarded == n.forwarded
  {
  }

  lemma Exclusive(n: Net, step: Step, p: Port)
    ensures Strips(n, step, p) ==> step.AdminUnforward? || (step.Act? && step.k != n.session)
    ensures Plants(n, step, p) ==> step.Commit? && step.k != n.session
  {
  }

  // ---- Ports live on the host that the container has forgotten ------------------------

  predicate Divergent(n: Net, p: Port) {
    Attached(n) && p !in n.forwarded && Expected(n, p)
  }

  /** The container reads the rejection of an earlier Forward for a port it has since added again. */
  predicate StaleRejection(n: Net, step: Step, p: Port) {
    step.ReceiveAck? && Enabled(n, step) && Attached(n)
    && n.acks[0] == ForwardAck(p, false) && p in n.forwarded && Expected(n, p)
  }

  /** A new Forward for p, the rejection of the last one queued, or the port being stripped. */
  predicate Cures(n: Net, step: Step, p: Port) {
    step == SendForward(p) || Disappoints(n, step, p) || Strips(n, step, p)
  }

  /** Exactly how divergence comes and goes while the two sides stay attached. */
  lemma DivergenceEvolves(n: Net, step: Step, p: Port)
    requires Consistent(n) && Enabled(n, step) && Attached(Apply(n, step))
    ensures Divergent(Apply(n, step), p)
       <==> ((Divergent(n, p) && !Cures(n, step, p)) || StaleRejection(n, step, p)
             || (p !in n.forwarded && Plants(n, step, p)))
  {
    hide Queue, Strips, Plants, Disappoints;
    Exclusive(n, step, p);
    if Attached(n) {
      ExpectationEvolves(n, step, p);
      DisappointsInHand(n, step, p);
    } else {
      OnlyAdmissionAttaches(n, step);
    }
  }

  lemma DisappointsInHand(n: Net, step: Step, p: Port)
    ensures Disappoints(n, step, p) ==> (step.Act? || step.Commit?) && step.k == n.session
  {
  }

  // ---- Whole runs -----------------------------------------------------------------------

  /** No step of the run takes a port away that the container relies on. */
  ghost predicate NeverLoses(n: Net, steps: seq<Step>)
    requires IsRun(n, steps)
    decreases |steps|
  {
    steps == [] || ((forall p :: !Loses(n, steps[0], p)) && NeverLoses(Apply(n, steps[0]), steps[1..]))
  }

  /** No rejection is read too late, and no other connection makes a port live that the container does
      not forward. */
  ghost predicate NeverDiverts(n: Net, steps: seq<Step>)
    requires IsRun(n, steps)
    decreases |steps|
  {
    steps == []
    || ((forall p :: !StaleRejection(n, steps[0], p) && (p in n.forwarded || !Plants(n, steps[0], p)))
        && NeverDiverts(Apply(n, steps[0]), steps[1..]))
  }

  lemma {:induction false} NeverLosesNeverMisses(n: Net, steps: seq<Step>, p: Port)
    requires Consistent(n) && !Missing(n, p) && IsRun(n, steps) && NeverLoses(n, steps)
    ensures Consistent(Run(n, steps)) && !Missing(Run(n, steps), p)
    decreases |steps|
  {
    hide Consistent, Missing, Loses, Apply, Enabled;
    if steps != [] {
      StepKeepsConsistent(n, steps[0]);
      if Attached(Apply(n, steps[0])) {
        MissingEvolves(n, steps[0], p);
      } else {
        NotAttachedIsNeither(Apply(n, steps[0]), p);
      }
      NeverLosesNeverMisses(Apply(n, steps[0]), steps[1..], p);
    }
  }

  lemma NotAttachedIsNeither(n: Net, p: Port)
    requires !Attached(n)
    ensures !Missing(n, p) && !Divergent(n, p)
  {
  }

  lemma {:induction false} NeverDivertsNeverDiverges(n: Net, steps: seq<Step>, p: Port)
    requires Consistent(n) && !Divergent(n, p) && IsRun(n, steps) && NeverDiverts(n, steps)
    ensures !Divergent(Run(n, steps), p)
    decreases |steps|
  {
    hide Consistent, Divergent, StaleRejection, Plants, Apply, Enabled;
    if steps != [] {
      StepKeepsConsistent(n, steps[0]);
      if Attached(Apply(n, steps[0])) {
        DivergenceEvolves(n, steps[0], p);
      } else {
        NotAttachedIsNeither(Apply(n, steps[0]), p);
      }
      NeverDivertsNeverDiverges(Apply(n, steps[0]), steps[1..], p);
    }
  }

  // ---- Sessions that lose their registration --------------------------------------------

  /** The session's connection is open on both sides. */
  predicate Open(n: Net) { Greeted(n) && n.session in n.requests }

  /** ... but the host serves another registration, or none. */
  predicate Orphaned(n: Net) { Open(n) && !Attached(n) }

  /** Another connection, admitted or inserted late, takes the state away from the session. */
  predicate Orphans(n: Net, step: Step) {
    n.owner == Some(n.session) && (step.Admit? || step.Insert?) && step.k != n.session
  }

  /** Exactly how an open session comes to be orphaned; it then stays so while it is open. */
  lemma OrphanedEvolves(n: Net, step: Step)
    requires Consistent(n) && Enabled(n, step) && Open(Apply(n, step))
    ensures Orphaned(Apply(n, step)) <==> Orphaned(n) || Orphans(n, step)
  {
  }

  predicate NeverOrphans(n: Net, steps: seq<Step>)
    requires IsRun(n, steps)
    decreases |steps|
  {
    steps == [] || (!Orphans(n, steps[0]) && NeverOrphans(Apply(n, steps[0]), steps[1..]))
  }

  lemma {:induction false} NeverOrphansStaysAttached(n: Net, steps: seq<Step>)
    requires Consistent(n) && !Orphaned(n) && IsRun(n, steps) && NeverOrphans(n, steps)
    ensures Consistent(Run(n, steps)) && !Orphaned(Run(n, steps))
    decreases |steps|
  {
    hide Consistent, Orphaned, Orphans, Apply, Enabled;
    if steps != [] {
      StepKeepsConsistent(n, steps[0]);
      if Open(Apply(n, steps[0])) {
        OrphanedEvolves(n, steps[0]);
      } else {
        ClosedIsNotOrphaned(Apply(n, steps[0]));
      }
      NeverOrphansStaysAttached(Apply(n, steps[0]), steps[1..]);
    }
  }

  lemma ClosedIsNotOrphaned(n: Net)
    requires !Open(n)
    ensures !Orphaned(n)
  {
  }

  // ---- At rest ----------------------------------------------------------------------------

  /** The container is in a session whose connection the host has open and past registration, no request
      is waiting or in hand, and no acknowledgement is on its way. */
  predicate Quiescent(n: Net) {
    && n.phase.InSession? && n.session in n.requests && n.session !in n.admitted
    && Queue(n) == [] && n.acks == []
  }

  lemma RestIsServed(steps: seq<Step>)
    requires IsRun(INIT, steps) && NeverOrphans(INIT, steps) && Quiescent(Run(INIT, steps))
    ensures Run(INIT, steps).owner == Some(Run(INIT, steps).session)
  {
    NeverOrphansStaysAttached(INIT, steps);
  }

  /** Main result: after any run with any disconnects and rejections in which no late registration
      orphans the session and no other connection's section and no administrator takes a relied-on
      port away, whenever the two sides are at rest, every port the container holds is live. */
  lemma ForwardedPortsAreLive(steps: seq<Step>)
    requires IsRun(INIT, steps) && NeverOrphans(INIT, steps) && NeverLoses(INIT, steps)
    requires Quiescent(Run(INIT, steps))
    ensures Run(INIT, steps).forwarded <= Run(INIT, steps).live
  {
    RestIsServed(steps);
    var n := Run(INIT, steps);
    forall p | p in n.forwarded ensures p in n.live {
      NeverLosesNeverMisses(INIT, steps, p);
    }
  }

  /** Main result: if moreover no rejection is read too late and no other connection makes a forgotten
      port live, the two sides agree exactly at rest. */
  lemma SidesAgree(steps: seq<Step>)
    requires IsRun(INIT, steps) && NeverOrphans(INIT, steps) && NeverLoses(INIT, steps) && NeverDiverts(INIT, steps)
    requires Quiescent(Run(INIT, steps))
    ensures Run(INIT, steps).forwarded == Run(INIT, steps).live
  {
    ForwardedPortsAreLive(steps);
    RestIsServed(steps);
    var n := Run(INIT, steps);
    forall p | p in n.live ensures p in n.forwarded {
      NeverDivertsNeverDiverges(INIT, steps, p);
      assert Expected(n, p);
    }
  }

  // ---- When only owners act ---------------------------------------------------------------

  /** A connection that no longer owns the state is between its check and its section, or an
      administrator unforwards. */
  predicate Intrudes(n: Net, step: Step) {
    match step
    case Act(k, _) => n.owner.Some? && n.owner != Some(k)
    case Commit(k, _) => n.owner.Some? && n.owner != Some(k)
    case AdminUnforward(_) => true
    case _ => false
  }

  predicate OwnersOnly(n: Net, steps: seq<Step>)
    requires IsRun(n, steps)
    decreases |steps|
  {
    steps == [] || (!Intrudes(n, steps[0]) && OwnersOnly(Apply(n, steps[0]), steps[1..]))
  }

  lemma {:induction false} OwnersOnlyNeverLoses(n: Net, steps: seq<Step>)
    requires IsRun(n, steps) && OwnersOnly(n, steps)
    ensures NeverLoses(n, steps)
    decreases |steps|
  {
    if steps != [] {
      assert forall p :: !Loses(n, steps[0], p);
      OwnersOnlyNeverLoses(Apply(n, steps[0]), steps[1..]);
    }
  }

  predicate IsRejection(step: Step) { (step.Act? && step.limit) || (step.Commit? && !step.ok) }

  predicate RejectsNothing(steps: seq<Step>) { forall i | 0 <= i < |steps| :: !IsRejection(steps[i]) }

  lemma {:induction false} UnrejectedNeverDiverts(n: Net, steps: seq<Step>)
    requires Consistent(n) && IsRun(n, steps) && OwnersOnly(n, steps) && RejectsNothing(steps)
    requires Attached(n) ==> forall a | a in n.acks :: a.success
    ensures NeverDiverts(n, steps)
    decreases |steps|
  {
    if steps != [] {
      var n' := Apply(n, steps[0]);
      assert forall p :: !StaleRejection(n, steps[0], p) && !Plants(n, steps[0], p);
      StepKeepsConsistent(n, steps[0]);
      AcksStaySuccesses(n, steps[0]);
      assert RejectsNothing(steps[1..]);
      UnrejectedNeverDiverts(n', steps[1..]);
    }
  }

  lemma AcksStaySuccesses(n: Net, step: Step)
    requires Consistent(n) && Enabled(n, step) && !IsRejection(step)
    requires Attached(n) ==> forall a | a in n.acks :: a.success
    ensures Attached(Apply(n, step)) ==> forall a | a in Apply(n, step).acks :: a.success
  {
    if Attached(Apply(n, step)) {
      if Attached(n) {
        forall a | a in Apply(n, step).acks ensures a.success {
          if !a.success { RejectionsEvolve(n, step, a.port); }
        }
      } else {
        OnlyAdmissionAttaches(n, step);
      }
    }
  }

  /** Main result: if no late registration orphans the session, no superseded connection is between its
      check and its section, nothing is unforwarded by an administrator and the host rejects no
      Forward, the two sides agree exactly at rest, after any disconnects. */
  lemma UnrejectedSidesAgree(steps: seq<Step>)
    requires IsRun(INIT, steps) && NeverOrphans(INIT, steps) && OwnersOnly(INIT, steps) && RejectsNothing(steps)
    requires Quiescent(Run(INIT, steps))
    ensures Run(INIT, steps).forwarded == Run(INIT, steps).live
  {
    OwnersOnlyNeverLoses(INIT, steps);
    UnrejectedNeverDiverts(INIT, steps);
    SidesAgree(steps);
  }

  // ---- Concrete runs --------------------------------------------------------------------------

  /** A run in which only owners act and nothing is rejected. */
  ghost predicate Peaceful(steps: seq<Step>) {
    IsRun(INIT, steps) && OwnersOnly(INIT, steps) && RejectsNothing(steps)
  }

  lemma {:induction false} RunAppend(n: Net, steps: seq<Step>, step: Step)
    requires IsRun(n, steps) && Enabled(Run(n, steps), step)
    ensures IsRun(n, steps + [step]) && Run(n, steps + [step]) == Apply(Run(n, steps), step)
    ensures OwnersOnly(n, steps) && !Intrudes(Run(n, steps), step) ==> OwnersOnly(n, steps + [step])
    decreases |steps|
  {
    hide Enabled, Apply, Intrudes;
    if steps == [] {
      assert (steps + [step])[1..] == [];
    } else {
      RunAppend(Apply(n, steps[0]), steps[1..], step);
      assert (steps + [step])[1..] == steps[1..] + [step];
    }
  }

  lemma Extend(steps: seq<Step>, n: Net, step: Step) returns (steps': seq<Step>, n': Net)
    requires IsRun(INIT, steps) && n == Run(INIT, steps) && Enabled(n, step)
    ensures IsRun(INIT, steps') && n' == Run(INIT, steps') && n' == Apply(n, step)
    ensures Peaceful(steps) && !Intrudes(n, step) && !IsRejection(step) ==> Peaceful(steps')
  {
    RunAppend(INIT, steps, step);
    steps', n' := steps + [step], Apply(n, step);
  }

  /** One request from check to commit. */
  lemma ServeForward(steps: seq<Step>, n: Net, k: Session, p: Port, ok: bool) returns (steps': seq<Step>, n': Net)
    requires IsRun(INIT, steps) && n == Run(INIT, steps)
    requires n.owner == Some(k) && k in n.requests && k !in n.registering && k !in n.admitted && k !in n.busy
    requires n.requests[k] != [] && n.requests[k][0] == Forward(p)
    ensures IsRun(INIT, steps') && n' == Run(INIT, steps')
    ensures n' == n.(requests := n.requests[k := n.requests[k][1..]],
                     live := if ok then n.live + {p} else n.live - {p}, acks := Acked(n, k, ForwardAck(p, ok)))
    ensures Peaceful(steps) && ok ==> Peaceful(steps')
  {
    hide IsRun, Run, Peaceful;
    steps', n' := Extend(steps, n, Check(k));
    steps', n' := Extend(steps', n', Act(k, false));
    steps', n' := Extend(steps', n', Commit(k, ok));
    assert n'.busy == n.busy;
    assert (n.live - {p}) + {p} == n.live + {p};
  }

  lemma StartOfRun() returns (steps: seq<Step>, n: Net)
    ensures IsRun(INIT, steps) && n == Run(INIT, steps) && n == INIT && Peaceful(steps)
  {
    steps, n := [], INIT;
  }

  /** The container registers and nothing comes in between. */
  lemma Registers(steps: seq<Step>, n: Net) returns (steps': seq<Step>, n': Net)
    requires IsRun(INIT, steps) && n == Run(INIT, steps) && n.phase.Disconnected?
    requires n.session + 1 !in n.registering && n.session + 1 !in n.admitted
    ensures IsRun(INIT, steps') && n' == Run(INIT, steps')
    ensures var k := n.session + 1;
      n' == n.(phase := if n.forwarded == {} then InSession else Reforwarding(n.forwarded), welcome := false,
               session := k, requests := n.requests[k := []], owner := Some(k), live := {})
    ensures Peaceful(steps) ==> Peaceful(steps')
  {
    hide IsRun, Run, Peaceful;
    var k := n.session + 1;
    steps', n' := Extend(steps, n, Connect(n.session + 1));
    steps', n' := Extend(steps', n', Admit(k));
    assert n'.registering == n.registering;
    steps', n' := Extend(steps', n', Begin);
    steps', n' := Extend(steps', n', Insert(k));
    assert n'.admitted == n.admitted;
  }

  lemma FirstForwardRejected() returns (steps: seq<Step>, n: Net)
    ensures IsRun(INIT, steps) && n == Run(INIT, steps)
    ensures n == Net(InSession, 1, false, {8080}, [ForwardAck(8080, false)], map[1 := []], map[], {}, {}, Some(1), {})
  {
    steps, n := StartOfRun();
    hide IsRun, Run;
    steps, n := Registers(steps, n);
    steps, n := Extend(steps, n, SendForward(8080));
    steps, n := ServeForward(steps, n, 1, 8080, false);
  }

  lemma ClosedAndReopened() returns (steps: seq<Step>, n: Net)
    ensures IsRun(INIT, steps) && n == Run(INIT, steps)
    ensures n == Net(InSession, 1, false, {8080}, [ForwardAck(8080, false), ForwardAck(8080, true)],
                     map[1 := []], map[], {}, {}, Some(1), {8080})
  {
    steps, n := FirstForwardRejected();
    hide IsRun, Run;
    steps, n := Extend(steps, n, SendUnforward(8080));
    steps, n := Extend(steps, n, SendForward(8080));
    assert n.requests[1] == [Unforward(8080), Forward(8080)];
    steps, n := Extend(steps, n, Check(1));
    steps, n := Extend(steps, n, Act(1, false));
    steps, n := ServeForward(steps, n, 1, 8080, true);
  }

  /** Rejections read too late cannot be ruled out: a port closed and reopened before the rejection of
      its first Forward is read ends up live on the host, at rest, and unknown to the container. */
  lemma StaleRejectionDiverges() returns (steps: seq<Step>)
    ensures IsRun(INIT, steps) && Quiescent(Run(INIT, steps))
    ensures Run(INIT, steps).forwarded == {} && Run(INIT, steps).live == {8080}
  {
    var n;
    steps, n := ClosedAndReopened();
    hide IsRun, Run;
    steps, n := Extend(steps, n, ReceiveAck);
    steps, n := Extend(steps, n, ReceiveAck);
  }

  lemma FirstForwardChecked() returns (steps: seq<Step>, n: Net)
    ensures IsRun(INIT, steps) && n == Run(INIT, steps)
    ensures n == Net(Disconnected, 1, false, {3000}, [], map[1 := []], map[1 := Checked(Forward(3000))],
                     {}, {}, Some(1), {})
  {
    steps, n := StartOfRun();
    hide IsRun, Run;
    steps, n := Registers(steps, n);
    steps, n := Extend(steps, n, SendForward(3000));
    steps, n := Extend(steps, n, Check(1));
    steps, n := Extend(steps, n, Lose);
  }

  /** Session 1 is superseded with a Forward checked but not acted on, and session 2 has the port live
      again. */
  lemma SupersededInBetween() returns (steps: seq<Step>, n: Net)
    ensures IsRun(INIT, steps) && n == Run(INIT, steps)
    ensures n == Net(InSession, 2, false, {3000}, [ForwardAck(3000, true)], map[1 := [], 2 := []],
                     map[1 := Checked(Forward(3000))], {}, {}, Some(2), {3000})
  {
    steps, n := FirstForwardChecked();
    hide IsRun, Run;
    steps, n := Registers(steps, n);
    steps, n := Extend(steps, n, Resend(3000));
    steps, n := ServeForward(steps, n, 2, 3000, true);
  }

  /** Superseded connections cannot be ruled out either: the old dispatch evicts the port its successor
      has made live and then fails to bind, so that at rest a port the container holds is not live. */
  lemma SupersededDispatchLoses() returns (steps: seq<Step>)
    ensures IsRun(INIT, steps) && Quiescent(Run(INIT, steps))
    ensures Run(INIT, steps).forwarded == {3000} && Run(INIT, steps).live == {}
  {
    var n;
    steps, n := SupersededInBetween();
    hide IsRun, Run;
    steps, n := Extend(steps, n, Act(1, false));
    steps, n := Extend(steps, n, Commit(1, false));
    steps, n := Extend(steps, n, ReceiveAck);
  }

  /** ... or it succeeds after the successor has unforwarded the port, which then is live and unknown. */
  lemma SupersededDispatchPlants() returns (steps: seq<Step>)
    ensures IsRun(INIT, steps) && Quiescent(Run(INIT, steps))
    ensures Run(INIT, steps).forwarded == {} && Run(INIT, steps).live == {3000}
  {
    var n;
    steps, n := SupersededInBetween();
    hide IsRun, Run;
    steps, n := Extend(steps, n, ReceiveAck);
    steps, n := Extend(steps, n, SendUnforward(3000));
    steps, n := Extend(steps, n, Check(2));
    steps, n := Extend(steps, n, Act(2, false));
    steps, n := Extend(steps, n, Act(1, false));
    steps, n := Extend(steps, n, Commit(1, true));
  }

  /** The container has given up connection 1, which the host has yet to admit or, with `admit`, to
      insert. */
  lemma GivenUp(admit: bool) returns (steps: seq<Step>, n: Net)
    ensures IsRun(INIT, steps) && n == Run(INIT, steps) && Peaceful(steps)
    ensures n == Net(Disconnected, 1, false, {}, [], map[1 := []], map[],
                     if admit then {} else {1}, if admit then {1} else {}, None, {})
  {
    steps, n := StartOfRun();
    hide IsRun, Run, Peaceful;
    steps, n := Extend(steps, n, Connect(n.session + 1));
    if admit { steps, n := Extend(steps, n, Admit(1)); }
    steps, n := Extend(steps, n, Lose);
  }

  /** Session 2 is at rest with a live port, and connection 1 has got as far as `admit` says. */
  lemma OvertakenAtRest(admit: bool) returns (steps: seq<Step>, n: Net)
    ensures IsRun(INIT, steps) && n == Run(INIT, steps)
    ensures n == Net(InSession, 2, false, {3000}, [], map[1 := [], 2 := []], map[],
                     if admit then {} else {1}, if admit then {1} else {}, Some(2), {3000})
    ensures Peaceful(steps)
  {
    steps, n := GivenUp(admit);
    hide IsRun, Run, Peaceful;
    steps, n := Registers(steps, n);
    steps, n := Extend(steps, n, SendForward(3000));
    steps, n := ServeForward(steps, n, 2, 3000, true);
    steps, n := Extend(steps, n, ReceiveAck);
  }

  /** Late registrations cannot be ruled out: an older connection of the container, long given up, is
      inserted over the one that serves it (or, without `admit`, evicts its state). Only owners have acted
      and nothing was rejected, and the session is open, at rest, with its port no longer live. */
  lemma LateRegistrationOrphans(admit: bool) returns (steps: seq<Step>)
    ensures IsRun(INIT, steps) && Peaceful(steps) && Quiescent(Run(INIT, steps))
    ensures Run(INIT, steps).forwarded == {3000} && Run(INIT, steps).live == {} && Orphaned(Run(INIT, steps))
  {
    var n;
    steps, n := OvertakenAtRest(admit);
    hide IsRun, Run, Peaceful;
    steps, n := Extend(steps, n, if admit then Insert(1) else Admit(1));
  }
}
