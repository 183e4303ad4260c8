/** The host daemon's shared state and the lock sections that change it (`src/host/mod.rs`).

    `Host` is the value guarded by the mutex. Each pure function below is the
    effect of one lock acquisition; class `HostState` performs it in place. */
module HostForwarding {
  import opened Wrappers
  import opened PortSearch

  type ContainerId = string

  const MAX_CONTAINERS: nat := 64
  const MAX_FORWARDS_PER_CONTAINER: nat := 128

  /** A registered container: its epoch and its live forwards, container port to host port. */
  datatype Container = Container(registrationId: nat, forwards: map<Port, Port>)

  datatype Host = Host(containers: map<ContainerId, Container>, used: map<Port, ContainerId>) {
    predicate Live(cid: ContainerId, port: Port) {
      cid in containers && port in containers[cid].forwards
    }

    function HostPort(cid: ContainerId, port: Port): Port
      requires Live(cid, port)
    {
      containers[cid].forwards[port]
    }

    /** The container ports forwarded for `cid`. */
    function LivePorts(cid: ContainerId): set<Port> {
      if cid in containers then containers[cid].forwards.Keys else {}
    }

    /** The host ports those forwards are bound to. */
    ghost function HostPortsOf(cid: ContainerId): set<Port> {
      if cid in containers then containers[cid].forwards.Values else {}
    }

    /** `registration` owns the state kept under `cid`. */
    predicate Owns(cid: ContainerId, registration: nat) {
      cid in containers && containers[cid].registrationId == registration
    }
  }

  // ---- Effects of the lock sections --------------------------------------

  datatype Eviction = TooManyForwards | Proceed(previous: Option<Port>)

  /** The live forward of (cid, port), if any, is dropped and its host port freed. */
  function WithoutForward(h: Host, cid: ContainerId, port: Port): Host {
    if h.Live(cid, port) then
      var c := h.containers[cid];
      Host(h.containers[cid := c.(forwards := c.forwards - {port})], h.used - {c.forwards[port]})
    else h
  }

  /** The container holds 128 forwards and this port is not one of them. */
  predicate AtLimit(h: Host, cid: ContainerId, port: Port) {
    cid in h.containers && port !in h.containers[cid].forwards
    && |h.containers[cid].forwards| >= MAX_FORWARDS_PER_CONTAINER
  }

  /** First section of `handle_forward`. */
  function EvictForward(h: Host, cid: ContainerId, port: Port): (Host, Eviction) {
    if AtLimit(h, cid, port) then
      (h, TooManyForwards)
    else
      (WithoutForward(h, cid, port), Proceed(if h.Live(cid, port) then Some(h.HostPort(cid, port)) else None))
  }

  /** Second section of `handle_forward`, once the search has answered. */
  function ReservePort(h: Host, cid: ContainerId, found: Option<Port>): Host {
    if found.Some? then h.(used := h.used[found.value := cid]) else h
  }

  /** Third section of `handle_forward` when the listener could not bind. */
  function ReleasePort(h: Host, target: Port): Host {
    h.(used := h.used - {target})
  }

  /** Third section of `handle_forward` when the listener bound `bound`. */
  function CommitForward(h: Host, cid: ContainerId, port: Port, target: Port, bound: Port): (Host, bool) {
    if cid in h.containers then
      var c := h.containers[cid];
      (Host(h.containers[cid := c.(forwards := c.forwards[port := bound])],
            if bound != target then (h.used - {target})[bound := cid] else h.used), true)
    else
      (h.(used := h.used - {bound}), false)
  }

  /** The container's state is dropped and the host ports of its forwards freed. */
  function WithoutContainer(h: Host, cid: ContainerId): Host {
    if cid in h.containers then
      Host(h.containers - {cid}, h.used - h.containers[cid].forwards.Values)
    else h
  }

  /** First section of the Register branch: capacity check and eviction of stale state. */
  function AdmitRegistration(h: Host, cid: ContainerId): (Host, bool) {
    if cid !in h.containers && |h.containers| >= MAX_CONTAINERS then (h, false)
    else (WithoutContainer(h, cid), true)
  }

  /** Second section of the Register branch. */
  function InsertRegistration(h: Host, cid: ContainerId, registration: nat): Host {
    h.(containers := h.containers[cid := Container(registration, map[])])
  }

  /** `cleanup_container`: only the registration that owns the state removes it. */
  function Cleanup(h: Host, cid: ContainerId, registration: nat): (Host, bool) {
    if h.Owns(cid, registration) then (WithoutContainer(h, cid), true) else (h, false)
  }

  // ---- The state in place --------------------------------------------------

  datatype ForwardError = TooMany | NoAvailablePorts | ContainerGone | Listener

  /** What `start_listener` answers. */
  datatype Bind = Bound(port: Port) | BindFailed

  class HostState {
    var containers: map<ContainerId, Container>
    var usedHostPorts: map<Port, ContainerId>

    ghost function View(): Host
      reads this
    {
      Host(containers, usedHostPorts)
    }

    constructor ()
      ensures View() == Host(map[], map[])
    {
      containers, usedHostPorts := map[], map[];
    }

    /** Frees the host port of every forward in turn. */
    method FreePorts(forwards: map<Port, Port>)
      modifies this`usedHostPorts
      ensures usedHostPorts == old(usedHostPorts) - forwards.Values
    {
      var rest := forwards;
      while rest != map[]
        invariant forall p | p in rest :: p in forwards && rest[p] == forwards[p]
        invariant forall p | p in forwards && p !in rest :: forwards[p] !in usedHostPorts
        invariant forall q | q in old(usedHostPorts) && q !in usedHostPorts :: q in forwards.Values
        invariant forall q | q in usedHostPorts :: q in old(usedHostPorts) && usedHostPorts[q] == old(usedHostPorts)[q]
        decreases |rest|
      {
        var p :| p in rest;
        usedHostPorts := usedHostPorts - {rest[p]};
        rest := rest - {p};
      }
    }

    /** Capacity check, then an existing forward for this port is taken out, to be shut down by the caller. */
    method EvictExisting(cid: ContainerId, port: Port) returns (r: Eviction)
      modifies this
      ensures (View(), r) == EvictForward(old(View()), cid, port)
      ensures r.TooManyForwards? <==> |old(View()).LivePorts(cid)| >= 128 && port !in old(View()).LivePorts(cid)
      ensures r.Proceed? ==> !View().Live(cid, port) && (r.previous.Some? <==> old(View()).Live(cid, port))
      ensures r.Proceed? && r.previous.Some? ==>
        r.previous.value == old(View()).HostPort(cid, port) && r.previous.value !in usedHostPorts
    {
      r := Proceed(None);
      if cid in containers {
        var c := containers[cid];
        if |c.forwards| >= MAX_FORWARDS_PER_CONTAINER && port !in c.forwards {
          return TooManyForwards;
        }
        if port in c.forwards {
          containers := containers[cid := c.(forwards := c.forwards - {port})];
          usedHostPorts := usedHostPorts - {c.forwards[port]};
          r := Proceed(Some(c.forwards[port]));
        }
      }
    }

    /** Finds a free host port and reserves it under the same lock. */
    method Reserve(cid: ContainerId, port: Port) returns (found: Option<Port>)
      requires SearchEnds(usedHostPorts.Keys, port)
      modifies this
      ensures IsFirstFree(old(usedHostPorts).Keys, port, found)
      ensures View() == ReservePort(old(View()), cid, found)
    {
      found := FindAvailablePort(usedHostPorts, port);
      if found.Some? {
        usedHostPorts := usedHostPorts[found.value := cid];
      }
    }

    /** The section after the listener answered. */
    method Finish(cid: ContainerId, port: Port, target: Port, bind: Bind) returns (r: Result<Port, ForwardError>)
      modifies this
      ensures bind.BindFailed? ==> View() == ReleasePort(old(View()), target) && r == Err(Listener)
      ensures bind.Bound? ==>
        var (after, live) := CommitForward(old(View()), cid, port, target, bind.port);
        View() == after && r == if live then Ok(bind.port) else Err(ContainerGone)
      ensures r.Ok? ==> View().Live(cid, port) && View().HostPort(cid, port) == r.value == bind.port
      ensures r.Ok? && r.value != target ==>
        target !in usedHostPorts && r.value in usedHostPorts && usedHostPorts[r.value] == cid
      ensures r.Ok? && r.value == target ==> usedHostPorts == old(usedHostPorts)
      ensures r.Err? ==>
        containers == old(containers) && (if bind.Bound? then bind.port else target) !in usedHostPorts
    {
      match bind {
        case BindFailed =>
          usedHostPorts := usedHostPorts - {target};
          return Err(Listener);
        case Bound(hostPort) =>
          if cid in containers {
            var c := containers[cid];
            containers := containers[cid := c.(forwards := c.forwards[port := hostPort])];
            if hostPort != target {
              usedHostPorts := usedHostPorts - {target};
              usedHostPorts := usedHostPorts[hostPort := cid];
            }
          } else {
            usedHostPorts := usedHostPorts - {hostPort};
            return Err(ContainerGone);
          }
          return Ok(hostPort);
      }
    }

    /** `handle_forward` when nothing else takes the lock in between. */
    method HandleForward(cid: ContainerId, port: Port, bindFails: bool)
      returns (r: Result<Port, ForwardError>, shut: Option<Port>)
      requires !AtLimit(View(), cid, port) ==> SearchEnds(WithoutForward(View(), cid, port).used.Keys, port)
      modifies this
      ensures ForwardOutcome(old(View()), View(), cid, port, r)
      ensures r == Err(TooMany) <==> AtLimit(old(View()), cid, port)
      ensures shut == if old(View()).Live(cid, port) then Some(old(View()).HostPort(cid, port)) else None
      ensures !AtLimit(old(View()), cid, port) ==>
        var free := old(WithoutForward(View(), cid, port)).used.Keys;
        && (r == Err(NoAvailablePorts) <==> IsFirstFree(free, port, None))
        && (r == Err(Listener) <==> bindFails && !IsFirstFree(free, port, None))
        && (r == Err(ContainerGone) ==> cid !in old(containers))
        && (r.Ok? ==> cid in old(containers) && IsFirstFree(free, port, Some(r.value)))
    {
      hide WithoutForward, ReservePort, ReleasePort, CommitForward, IsFirstFree, ForwardOutcome;
      ghost var h := View();
      ghost var free := WithoutForward(h, cid, port).used.Keys;
      var eviction := EvictExisting(cid, port);
      if eviction.TooManyForwards? {
        RejectedOutcome(h, cid, port);
        return Err(TooMany), None;
      }
      // The old listener is shut down here, outside the lock.
      shut := eviction.previous;
      var target := Reserve(cid, port);
      if IsFirstFree(free, port, None) { FirstFreeIsUnique(free, port, None, target); }
      SearchOutcome(h, cid, port, target);
      if target.None? {
        return Err(NoAvailablePorts), shut;
      }
      // The listener binds the port it is asked for: a search never returns port 0.
      r := Finish(cid, port, target.value, if bindFails then BindFailed else Bound(target.value));
    }

    /** `handle_unforward`: the forward of one container. The host port of what is taken out is handed back. */
    method HandleUnforward(cid: ContainerId, port: Port) returns (removed: Option<Port>)
      modifies this
      ensures View() == WithoutForward(old(View()), cid, port)
      ensures removed == if old(View()).Live(cid, port) then Some(old(View()).HostPort(cid, port)) else None
    {
      removed := None;
      if cid in containers && port in containers[cid].forwards {
        var c := containers[cid];
        containers := containers[cid := c.(forwards := c.forwards - {port})];
        usedHostPorts := usedHostPorts - {c.forwards[port]};
        removed := Some(c.forwards[port]);
      }
    }

    /** `handle_unforward_global`: whichever container forwards the port. */
    method HandleUnforwardGlobal(port: Port) returns (owner: Option<ContainerId>, removed: Option<Port>)
      modifies this
      ensures owner.Some? ==>
        old(View()).Live(owner.value, port) && View() == WithoutForward(old(View()), owner.value, port)
      ensures removed == if owner.Some? then Some(old(View()).HostPort(owner.value, port)) else None
      ensures owner.None? ==>
        View() == old(View()) && forall cid :: !old(View()).Live(cid, port)
    {
      owner, removed := None, None;
      if cid :| cid in containers && port in containers[cid].forwards {
        removed := HandleUnforward(cid, port);
        owner := Some(cid);
      }
    }

    /** The first Register section: old state is evicted together with the capacity check, and its forwards are
        handed back to be shut down. */
    method Admit(cid: ContainerId) returns (admitted: bool, oldForwards: map<Port, Port>)
      modifies this
      ensures (View(), admitted) == AdmitRegistration(old(View()), cid)
      ensures oldForwards == if cid in old(containers) then old(containers)[cid].forwards else map[]
    {
      var stale := if cid in containers then Some(containers[cid]) else None;
      containers := containers - {cid};
      oldForwards := if stale.Some? then stale.value.forwards else map[];
      if stale.None? && |containers| >= MAX_CONTAINERS {
        assert containers == old(containers);
        return false, oldForwards;
      }
      if stale.Some? {
        FreePorts(oldForwards);
      }
      return true, oldForwards;
    }

    /** The second Register section. */
    method Insert(cid: ContainerId, registration: nat)
      modifies this
      ensures View() == InsertRegistration(old(View()), cid, registration)
    {
      containers := containers[cid := Container(registration, map[])];
    }

    /** `cleanup_container`. The forwards of the state that goes are handed back to be shut down. */
    method CleanupContainer(cid: ContainerId, registration: nat) returns (torn: Option<map<Port, Port>>)
      modifies this
      ensures (View(), torn.Some?) == Cleanup(old(View()), cid, registration)
      ensures torn.Some? ==> cid in old(containers) && torn.value == old(containers)[cid].forwards
    {
      if cid !in containers || containers[cid].registrationId != registration {
        return None;
      }
      var c := containers[cid];
      containers := containers - {cid};
      FreePorts(c.forwards);
      return Some(c.forwards);
    }
  }

  /** What one undisturbed `handle_forward` may do: on success the port is live on a host port
      nobody had, on failure it is not live; nothing else about the forwards changes. */
  ghost predicate ForwardOutcome(h: Host, h': Host, cid: ContainerId, port: Port, r: Result<Port, ForwardError>) {
    && h'.containers.Keys == h.containers.Keys
    && (forall c | c in h.containers && c != cid :: h'.containers[c] == h.containers[c])
    && (forall q | q != port :: h'.Live(cid, q) <==> h.Live(cid, q))
    && (forall q | q != port && h.Live(cid, q) :: h'.HostPort(cid, q) == h.HostPort(cid, q))
    && (cid in h.containers ==> h'.containers[cid].registrationId == h.containers[cid].registrationId)
    && match r
       case Ok(hostPort) =>
         h'.Live(cid, port) && h'.HostPort(cid, port) == hostPort
         && hostPort in h'.used && h'.used[hostPort] == cid
         && h'.used == WithoutForward(h, cid, port).used[hostPort := cid]
         && hostPort !in WithoutForward(h, cid, port).used
       case Err(e) =>
         !h'.Live(cid, port) && h'.used == WithoutForward(h, cid, port).used
  }

  lemma RejectedOutcome(h: Host, cid: ContainerId, port: Port)
    requires AtLimit(h, cid, port)
    ensures ForwardOutcome(h, h, cid, port, Err(TooMany))
  {
  }

  /** The three ways on from the search, as values. */
  lemma SearchOutcome(h: Host, cid: ContainerId, port: Port, found: Option<Port>)
    requires IsFirstFree(WithoutForward(h, cid, port).used.Keys, port, found)
    ensures var reserved := ReservePort(WithoutForward(h, cid, port), cid, found);
      if found.None? then ForwardOutcome(h, reserved, cid, port, Err(NoAvailablePorts))
      else
        && ForwardOutcome(h, ReleasePort(reserved, found.value), cid, port, Err(Listener))
        && var (after, live) := CommitForward(reserved, cid, port, found.value, found.value);
           && (live <==> cid in h.containers)
           && ForwardOutcome(h, after, cid, port, if live then Ok(found.value) else Err(ContainerGone))
  {
  }
}
