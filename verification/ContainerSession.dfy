/** The container daemon's session loop in place, and its place in the two-party protocol
    (`re_forward_ports` and `run_session` in `src/container/mod.rs`). */
module ContainerSession {
  import opened Wrappers
  import opened PortSearch
  import opened Reconciliation
  import HostForwarding

  /** What a scan recorded about a listening port. */
  datatype Listening = Listening(processName: Option<string>, pid: Option<nat>)

  function Ports(sent: seq<Request>): set<Port> {
    set r | r in sent :: r.port
  }

  ghost predicate NoRepeats(sent: seq<Request>) {
    forall i, j | 0 <= i < j < |sent| :: sent[i] != sent[j]
  }

  /** One Forward for each of some ports not in `before`. */
  ghost predicate Announces(before: set<Port>, sent: seq<Request>) {
    NoRepeats(sent) && forall r | r in sent :: r.Forward? && r.port !in before
  }

  /** One Unforward for each of some ports in `before`. */
  ghost predicate Withdraws(before: set<Port>, sent: seq<Request>) {
    NoRepeats(sent) && forall r | r in sent :: r.Unforward? && r.port in before
  }

  /** Ports keep the record they had; new ones take the scan's. */
  ghost predicate Recorded(before: map<Port, Listening>, current: map<Port, Listening>, after: map<Port, Listening>) {
    forall p | p in after ::
      if p in before then after[p] == before[p] else p in current && after[p] == current[p]
  }

  lemma AppendRequest(before: set<Port>, sent: seq<Request>, r: Request)
    ensures Ports(sent + [r]) == Ports(sent) + {r.port}
    ensures Announces(before, sent) && r.Forward? && r.port !in before + Ports(sent) ==> Announces(before, sent + [r])
    ensures Withdraws(before, sent) && r.Unforward? && r.port in before - Ports(sent) ==> Withdraws(before, sent + [r])
  {
  }

  lemma NothingSent(before: set<Port>)
    ensures Ports([]) == {} && Announces(before, []) && Withdraws(before, [])
  {
  }

  class Session {
    var forwarded: map<Port, Listening>
    var outbox: seq<Request>       // written to the control connection
    var sendable: nat              // writes that succeed before the connection breaks

    constructor (initial: map<Port, Listening>, sendable: nat)
      ensures forwarded == initial && outbox == [] && this.sendable == sendable
    {
      forwarded, outbox, this.sendable := initial, [], sendable;
    }

    method Send(r: Request) returns (ok: bool)
      modifies this`outbox, this`sendable
      ensures ok <==> old(sendable) > 0
      ensures outbox == if ok then old(outbox) + [r] else old(outbox)
      ensures sendable == if ok then old(sendable) - 1 else 0
    {
      ok := sendable > 0;
      if ok {
        outbox, sendable := outbox + [r], sendable - 1;
      }
    }

    /** Forward for each listening port not yet forwarded. */
    method SendNew(current: map<Port, Listening>) returns (ok: bool, ghost sent: seq<Request>)
      modifies this
      ensures outbox == old(outbox) + sent
      ensures Announces(old(forwarded).Keys, sent) && Ports(sent) <= current.Keys
      ensures forwarded.Keys == old(forwarded).Keys + Ports(sent) && Recorded(old(forwarded), current, forwarded)
      ensures if ok then current.Keys <= forwarded.Keys else sendable == 0
    {
      hide Announces, Ports;
      var rest := current.Keys;
      sent := [];
      ghost var before := forwarded.Keys;
      NothingSent(before);
      while rest != {}
        invariant rest <= current.Keys <= forwarded.Keys + rest
        invariant outbox == old(outbox) + sent
        invariant Announces(old(forwarded).Keys, sent) && Ports(sent) <= current.Keys
        invariant forwarded.Keys == old(forwarded).Keys + Ports(sent) && Recorded(old(forwarded), current, forwarded)
      {
        var p :| p in rest;
        if p !in forwarded {
          var written := Send(Forward(p));
          if !written {
            return false, sent;
          }
          AppendRequest(before, sent, Forward(p));
          sent := sent + [Forward(p)];
          forwarded := forwarded[p := current[p]];
        }
        rest := rest - {p};
      }
      return true, sent;
    }

    /** Unforward for each forwarded port that no longer listens. */
    method SendRemoved(current: set<Port>) returns (ok: bool, ghost sent: seq<Request>)
      modifies this
      ensures outbox == old(outbox) + sent
      ensures Withdraws(old(forwarded).Keys, sent) && Ports(sent) !! current
      ensures forwarded == old(forwarded) - Ports(sent)
      ensures if ok then forwarded.Keys <= current else sendable == 0
    {
      hide Withdraws, Ports;
      var removed := forwarded.Keys - current;
      sent := [];
      ghost var before := forwarded.Keys;
      NothingSent(before);
      while removed != {}
        invariant removed <= forwarded.Keys - current && forwarded.Keys <= current + removed
        invariant outbox == old(outbox) + sent
        invariant Withdraws(old(forwarded).Keys, sent) && Ports(sent) !! current
        invariant forwarded == old(forwarded) - Ports(sent)
      {
        var p :| p in removed;
        var written := Send(Unforward(p));
        if !written {
          return false, sent;
        }
        AppendRequest(before, sent, Unforward(p));
        sent := sent + [Unforward(p)];
        forwarded := forwarded - {p};
        removed := removed - {p};
      }
      return true, sent;
    }

    /** One scan cycle: the Forwards, then, if all were written, the Unforwards. A broken connection
        ends it with exactly what was written recorded. */
    method ScanCycle(current: map<Port, Listening>)
      returns (ok: bool, ghost announced: seq<Request>, ghost withdrawn: seq<Request>)
      modifies this
      ensures outbox == old(outbox) + announced + withdrawn
      ensures Announces(old(forwarded).Keys, announced) && Ports(announced) <= current.Keys
      ensures Withdraws(old(forwarded).Keys, withdrawn) && Ports(withdrawn) !! current.Keys
      ensures withdrawn != [] ==> current.Keys <= old(forwarded).Keys + Ports(announced)
      ensures forwarded.Keys == old(forwarded).Keys + Ports(announced) - Ports(withdrawn)
      ensures Recorded(old(forwarded), current, forwarded)
      ensures if ok then forwarded.Keys == current.Keys else sendable == 0
    {
      withdrawn := [];
      ok, announced := SendNew(current);
      if ok {
        ok, withdrawn := SendRemoved(current.Keys);
      }
    }

    /** `re_forward_ports`: every port of the previous session once, in some order. */
    method ReForward() returns (failed: bool, ghost sent: seq<Request>)
      modifies this`outbox, this`sendable
      ensures outbox == old(outbox) + sent
      ensures Announces({}, sent)
      ensures if failed then sendable == 0 && Ports(sent) <= forwarded.Keys else Ports(sent) == forwarded.Keys
    {
      hide Announces, Ports;
      var rest := forwarded.Keys;
      sent := [];
      NothingSent({});
      while rest != {}
        invariant outbox == old(outbox) + sent
        invariant Announces({}, sent)
        invariant Ports(sent) + rest == forwarded.Keys && Ports(sent) !! rest
      {
        var p :| p in rest;
        var written := Send(Forward(p));
        if !written {
          return true, sent;
        }
        AppendRequest({}, sent, Forward(p));
        sent := sent + [Forward(p)];
        rest := rest - {p};
      }
      return false, sent;
    }

    /** The ForwardAck arm of the session loop. */
    method OnForwardAck(port: Port, success: bool)
      modifies this`forwarded
      ensures forwarded == if success then old(forwarded) else old(forwarded) - {port}
    {
      if !success {
        forwarded := forwarded - {port};
      }
    }
  }

  // ---- The loop performs steps of the protocol ------------------------------------

  function ScanStep(r: Request): Step {
    if r.Forward? then SendForward(r.port) else SendUnforward(r.port)
  }

  function ScanSteps(sent: seq<Request>): seq<Step>
    ensures |ScanSteps(sent)| == |sent|
  {
    if sent == [] then [] else [ScanStep(sent[0])] + ScanSteps(sent[1..])
  }

  /** The state once `sent` has been written and `after` recorded. */
  function Written(n: Net, sent: seq<Request>, after: set<Port>): Net {
    n.(forwarded := after,
       requests :=
         if n.session in n.requests then n.requests[n.session := n.requests[n.session] + sent] else n.requests)
  }

  lemma {:induction false} AnnouncingIsARun(n: Net, sent: seq<Request>)
    requires n.phase.InSession? && Announces(n.forwarded, sent)
    ensures IsRun(n, ScanSteps(sent))
    ensures Run(n, ScanSteps(sent)) == Written(n, sent, n.forwarded + Ports(sent))
    decreases |sent|
  {
    if sent == [] {
      assert Written(n, sent, n.forwarded + Ports(sent)) == n by { WrittenNothing(n, sent); }
    } else {
      var n' := Apply(n, ScanStep(sent[0]));
      assert Ports(sent) == {sent[0].port} + Ports(sent[1..]);
      AnnouncingIsARun(n', sent[1..]);
      WrittenTwice(n, sent, n.forwarded);
      assert n'.forwarded + Ports(sent[1..]) == n.forwarded + Ports(sent);
    }
  }

  lemma {:induction false} WithdrawingIsARun(n: Net, sent: seq<Request>)
    requires n.phase.InSession? && Withdraws(n.forwarded, sent)
    ensures IsRun(n, ScanSteps(sent))
    ensures Run(n, ScanSteps(sent)) == Written(n, sent, n.forwarded - Ports(sent))
    decreases |sent|
  {
    if sent == [] {
      assert Written(n, sent, n.forwarded - Ports(sent)) == n by { WrittenNothing(n, sent); }
    } else {
      var n' := Apply(n, ScanStep(sent[0]));
      assert Ports(sent) == {sent[0].port} + Ports(sent[1..]);
      WithdrawingIsARun(n', sent[1..]);
      WrittenTwice(n, sent, n.forwarded);
      assert n'.forwarded - Ports(sent[1..]) == n.forwarded - Ports(sent);
    }
  }

  lemma WrittenTwice(n: Net, sent: seq<Request>, after: set<Port>)
    requires sent != []
    ensures Written(Written(n, [sent[0]], after), sent[1..], after) == Written(n, sent, after)
    ensures Written(n, [sent[0]], n.forwarded).requests == Sent(n, sent[0])
  {
    if n.session in n.requests {
      assert n.requests[n.session] + [sent[0]] + sent[1..] == n.requests[n.session] + sent;
    }
  }

  lemma WrittenNothing(n: Net, sent: seq<Request>)
    requires sent == []
    ensures Written(n, sent, n.forwarded) == n && Ports(sent) == {}
  {
    if n.session in n.requests {
      assert n.requests[n.session] + sent == n.requests[n.session];
      assert n.requests[n.session := n.requests[n.session]] == n.requests;
    }
  }

  lemma {:induction false} RunConcat(n: Net, steps: seq<Step>, steps': seq<Step>)
    requires IsRun(n, steps) && IsRun(Run(n, steps), steps')
    ensures IsRun(n, steps + steps') && Run(n, steps + steps') == Run(Run(n, steps), steps')
    decreases |steps|
  {
    if steps == [] {
      assert steps + steps' == steps';
    } else {
      RunConcat(Apply(n, steps[0]), steps[1..], steps');
      assert (steps + steps')[1..] == steps[1..] + steps';
    }
  }

  /** What a scan cycle writes is a run of the protocol, whichever order its sets were walked in. */
  lemma ScanIsARun(n: Net, announced: seq<Request>, withdrawn: seq<Request>) returns (steps: seq<Step>)
    requires n.phase.InSession?
    requires Announces(n.forwarded, announced) && Withdraws(n.forwarded, withdrawn)
    ensures IsRun(n, steps)
    ensures Run(n, steps) == Written(n, announced + withdrawn, n.forwarded + Ports(announced) - Ports(withdrawn))
  {
    var middle := Written(n, announced, n.forwarded + Ports(announced));
    AnnouncingIsARun(n, announced);
    WithdrawingIsARun(middle, withdrawn);
    RunConcat(n, ScanSteps(announced), ScanSteps(withdrawn));
    steps := ScanSteps(announced) + ScanSteps(withdrawn);
    if n.session in n.requests {
      assert n.requests[n.session] + announced + withdrawn == n.requests[n.session] + (announced + withdrawn);
    }
  }

  function ResendSteps(sent: seq<Request>): seq<Step>
    ensures |ResendSteps(sent)| == |sent|
  {
    if sent == [] then [] else [Resend(sent[0].port)] + ResendSteps(sent[1..])
  }

  /** What `re_forward_ports` writes is a run of the protocol; if it fails part way, the ports not
      yet sent are still to do when the connection is given up. */
  lemma {:induction false} ReForwardIsARun(n: Net, sent: seq<Request>)
    requires n.phase.Reforwarding?
    requires Announces({}, sent) && Ports(sent) <= n.phase.todo && n.phase.todo != {}
    ensures IsRun(n, ResendSteps(sent))
    ensures var left := n.phase.todo - Ports(sent);
      Run(n, ResendSteps(sent))
          == Written(n, sent, n.forwarded).(phase := if left == {} then InSession else Reforwarding(left))
    decreases |sent|
  {
    if sent == [] {
      WrittenNothing(n, sent);
      assert n.phase.todo - Ports(sent) == n.phase.todo;
    } else {
      var n' := Apply(n, Resend(sent[0].port));
      assert Ports(sent) == {sent[0].port} + Ports(sent[1..]);
      assert n.phase.todo - Ports(sent) == (n.phase.todo - {sent[0].port}) - Ports(sent[1..]);
      WrittenTwice(n, sent, n.forwarded);
      assert Ports(sent[1..]) <= n.phase.todo - {sent[0].port};
      assert sent[1..] == [] || sent[1].port in Ports(sent[1..]);
      if n'.phase.Reforwarding? {
        ReForwardIsARun(n', sent[1..]);
      } else {
        WrittenNothing(n', sent[1..]);
      }
    }
  }

  lemma WrittenIsQueued(n: Net, sent: seq<Request>, after: set<Port>)
    requires n.session in n.requests
    ensures Queue(Written(n, sent, after)) == Queue(n) + sent
  {
    var head := if n.session in n.busy then [InHand(n.busy[n.session])] else [];
    assert head + (n.requests[n.session] + sent) == (head + n.requests[n.session]) + sent;
  }

  lemma {:induction false} LastAboutConcat(q: seq<Request>, sent: seq<Request>, p: Port)
    ensures LastAbout(q + sent, p) == if p in Ports(sent) then LastAbout(sent, p) else LastAbout(q, p)
    ensures LastAbout(sent, p).Some? ==> LastAbout(sent, p).value in sent && LastAbout(sent, p).value.port == p
    ensures p in Ports(sent) ==> LastAbout(sent, p).Some?
    decreases |sent|
  {
    if sent == [] {
      assert q + sent == q;
    } else {
      var init, last := sent[..|sent| - 1], sent[|sent| - 1];
      assert q + sent == (q + init) + [last] && sent == init + [last];
      LastAboutAppend(q + init, last, p);
      LastAboutConcat(q, init, p);
      assert Ports(sent) == Ports(init) + {last.port};
    }
  }

  /** Main result: a completed scan cures exactly the divergences about ports that are listening;
      a forgotten port that no longer listens stays live on the host. */
  lemma ScanCuresListeningPorts(n: Net, announced: seq<Request>, withdrawn: seq<Request>, current: set<Port>, p: Port)
    returns (steps: seq<Step>)
    requires Consistent(n) && Attached(n) && n.phase.InSession?
    requires Announces(n.forwarded, announced) && Withdraws(n.forwarded, withdrawn)
    requires n.forwarded + Ports(announced) - Ports(withdrawn) == current
    ensures IsRun(n, steps) && Run(n, steps).forwarded == current
    ensures Divergent(Run(n, steps), p) <==> Divergent(n, p) && p !in current
  {
    steps := ScanIsARun(n, announced, withdrawn);
    WrittenIsQueued(n, announced + withdrawn, current);
    LastAboutConcat(Queue(n), announced + withdrawn, p);
    LastAboutConcat(announced, withdrawn, p);
    assert Ports(announced + withdrawn) == Ports(announced) + Ports(withdrawn);
  }

  /** The first section of a forward in the protocol is what the host's lock section does to one
      container's ports. */
  lemma EvictionMatches(h: HostForwarding.Host, cid: HostForwarding.ContainerId, port: Port)
    ensures var (h', r) := HostForwarding.EvictForward(h, cid, port);
      if r.TooManyForwards? then cid in h.containers && h' == h && port !in h.LivePorts(cid)
      else h'.LivePorts(cid) == h.LivePorts(cid) - {port}
  {
    UnforwardMatches(h, cid, port);
    hide HostForwarding.WithoutForward;
  }

  /** ... reserving and releasing a host port touch no live forward, */
  lemma ReservationMatches(h: HostForwarding.Host, cid: HostForwarding.ContainerId, target: Port)
    ensures HostForwarding.ReservePort(h, cid, Some(target)).LivePorts(cid) == h.LivePorts(cid)
    ensures HostForwarding.ReleasePort(h, target).LivePorts(cid) == h.LivePorts(cid)
  {
  }

  /** ... the last section makes the port live exactly when the container's state is still there, */
  lemma CommitMatches(h: HostForwarding.Host, cid: HostForwarding.ContainerId, port: Port, target: Port)
    ensures var (h', committed) := HostForwarding.CommitForward(h, cid, port, target, target);
      && (committed <==> cid in h.containers)
      && h'.LivePorts(cid) == if committed then h.LivePorts(cid) + {port} else h.LivePorts(cid)
  {
  }

  /** ... and so are unforwarding, registering and cleaning up. */
  lemma UnforwardMatches(h: HostForwarding.Host, cid: HostForwarding.ContainerId, port: Port)
    ensures HostForwarding.WithoutForward(h, cid, port).LivePorts(cid) == h.LivePorts(cid) - {port}
  {
    assert h.Live(cid, port) <==> port in h.LivePorts(cid);
  }

  lemma RegistrationSectionsMatch(h: HostForwarding.Host, cid: HostForwarding.ContainerId, registration: nat)
    ensures HostForwarding.AdmitRegistration(h, cid).1
        ==> HostForwarding.AdmitRegistration(h, cid).0.LivePorts(cid) == {}
    ensures HostForwarding.InsertRegistration(h, cid, registration).LivePorts(cid) == {}
    ensures HostForwarding.Cleanup(h, cid, registration).0.LivePorts(cid)
         == if h.Owns(cid, registration) then {} else h.LivePorts(cid)
  {
  }
}
