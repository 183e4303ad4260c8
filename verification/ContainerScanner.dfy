/** Scanning a container for listening ports and the processes that own them
    (`src/container/scanner.rs`). */
module ContainerScanning {
  import opened Cardinality
  import opened Wrappers
  import opened PortSearch

  type Inode = nat
  type Pid = nat
  type Uid = nat

  /** A `LISTEN` line of `/proc/net/tcp` or `tcp6`. */
  datatype ListeningSocket = ListeningSocket(port: Port, uid: Uid, inode: Inode)

  /** An entry of `/proc`: its name as a pid, if it is one; its fd directory, if readable, with the
      inode of each fd that is a readable socket link; and its `comm`, if readable. */
  datatype Process = Process(pid: Option<Pid>, fds: Option<seq<Option<Inode>>>, comm: Option<string>)

  datatype Owner = Owner(name: string, pid: Pid)

  // ---- Process names ------------------------------------------------------------

  /** Unicode `White_Space`. */
  predicate IsWhite(c: char) {
    var n := c as int;
    9 <= n <= 13 || n == 0x20 || n == 0x85 || n == 0xA0 || n == 0x1680 || 0x2000 <= n <= 0x200A
    || n == 0x2028 || n == 0x2029 || n == 0x202F || n == 0x205F || n == 0x3000
  }

  /** The 25 characters with that property. */
  lemma WhiteCharactersAre(c: char)
    ensures IsWhite(c)
       <==> c as int in {9, 10, 11, 12, 13, 32, 133, 160, 5760, 8192, 8193, 8194, 8195, 8196, 8197, 8198, 8199, 8200,
                         8201, 8202, 8232, 8233, 8239, 8287, 12288}
  {
  }

  predicate AllWhite(s: string) { forall c | c in s :: IsWhite(c) }

  /** s is r between white space. */
  predicate IsPadded(s: string, a: string, r: string, b: string) { s == a + r + b && AllWhite(a) && AllWhite(b) }

  ghost predicate IsWithin(s: string, r: string) { exists a, b :: IsPadded(s, a, r, b) }

  predicate NoWhiteEnds(r: string) { r != "" ==> !IsWhite(r[0]) && !IsWhite(r[|r| - 1]) }

  function Trim(s: string): (r: string)
    ensures NoWhiteEnds(r) && IsWithin(s, r)
  {
    if s == "" then
      assert IsPadded(s, "", "", "");
      ""
    else if IsWhite(s[0]) then
      var r := Trim(s[1..]);
      PadLeft(s, r);
      r
    else if IsWhite(s[|s| - 1]) then
      var r := Trim(s[..|s| - 1]);
      PadRight(s, r);
      r
    else
      assert IsPadded(s, "", s, "");
      s
  }

  lemma PadLeft(s: string, r: string)
    requires s != "" && IsWhite(s[0]) && IsWithin(s[1..], r)
    ensures IsWithin(s, r)
  {
    var a, b :| IsPadded(s[1..], a, r, b);
    assert IsPadded(s, [s[0]] + a, r, b);
  }

  lemma PadRight(s: string, r: string)
    requires s != "" && IsWhite(s[|s| - 1]) && IsWithin(s[..|s| - 1], r)
    ensures IsWithin(s, r)
  {
    var a, b :| IsPadded(s[..|s| - 1], a, r, b);
    assert s == a + r + (b + [s[|s| - 1]]);
    assert IsPadded(s, a, r, b + [s[|s| - 1]]);
  }

  /** That leaves trimming no choice: a text without white ends, put between any white space, is what
      trimming gives back. */
  lemma TrimGivesBack(s: string, a: string, r: string, b: string)
    requires IsPadded(s, a, r, b) && NoWhiteEnds(r)
    ensures Trim(s) == r
  {
    var t := Trim(s);
    var a', b' :| IsPadded(s, a', t, b');
    WhiteIffEmpty(s, a, r, b);
    WhiteIffEmpty(s, a', t, b');
    if r != "" && t != "" {
      PaddingIsFixed(s, a, r, b, a', t, b');
      PaddingIsFixed(s, a', t, b', a, r, b);
      assert r == s[|a|..|a| + |r|] && t == s[|a'|..|a'| + |t|];
    }
  }

  lemma WhiteIffEmpty(s: string, a: string, r: string, b: string)
    requires IsPadded(s, a, r, b) && NoWhiteEnds(r)
    ensures AllWhite(s) <==> r == ""
  {
    assert forall c :: c in s <==> c in a || c in r || c in b;
    if r != "" { assert r[0] in r; }
  }

  lemma PaddingIsFixed(s: string, a: string, r: string, b: string, a': string, t: string, b': string)
    requires IsPadded(s, a, r, b) && IsPadded(s, a', t, b') && r != "" && t != "" && NoWhiteEnds(r) && NoWhiteEnds(t)
    ensures |a| <= |a'| && |b| <= |b'|
  {
    assert forall i | 0 <= i < |a| :: s[i] == a[i] && IsWhite(a[i]);
    assert forall i | |s| - |b| <= i < |s| :: s[i] == b[i - (|s| - |b|)] && IsWhite(s[i]);
    assert s[|a'|] == t[0] && s[|a'| + |t| - 1] == t[|t| - 1];
  }

  /** A name ends in the newline the kernel adds. */
  lemma CommIsTheName(name: string)
    requires NoWhiteEnds(name)
    ensures NameOf(Some(name + "\n")) == name
  {
    assert IsPadded(name + "\n", "", name, "\n");
    TrimGivesBack(name + "\n", "", name, "\n");
  }

  function NameOf(comm: Option<string>): string {
    match comm case None => "" case Some(text) => Trim(text)
  }

  // ---- One walk --------------------------------------------------------------------

  /** The process is readable and has the socket open. */
  predicate Owns(p: Process, inode: Inode) {
    p.pid.Some? && p.fds.Some? && Some(inode) in p.fds.value
  }

  /** The first process of the walk that has the socket open: a full walk for one inode. */
  function OwnerOf(processes: seq<Process>, inode: Inode): Option<Owner> {
    if processes == [] then None
    else if Owns(processes[0], inode) then Some(Owner(NameOf(processes[0].comm), processes[0].pid.value))
    else OwnerOf(processes[1..], inode)
  }

  lemma {:induction false} OwnerIsFirst(processes: seq<Process>, inode: Inode)
    ensures match OwnerOf(processes, inode)
            case None => forall p | p in processes :: !Owns(p, inode)
            case Some(owner) =>
              exists k :: 0 <= k < |processes| && Owns(processes[k], inode)
                && (forall j | 0 <= j < k :: !Owns(processes[j], inode))
                && owner == Owner(NameOf(processes[k].comm), processes[k].pid.value)
  {
    if processes != [] {
      assert processes == [processes[0]] + processes[1..];
      if Owns(processes[0], inode) {
      } else {
        OwnerIsFirst(processes[1..], inode);
        if OwnerOf(processes, inode).Some? {
          var k :| 0 <= k < |processes| - 1 && Owns(processes[1..][k], inode)
            && (forall j | 0 <= j < k :: !Owns(processes[1..][j], inode))
            && OwnerOf(processes, inode).value == Owner(NameOf(processes[1..][k].comm), processes[1..][k].pid.value);
          assert forall j | 0 <= j < k + 1 :: j > 0 ==> processes[j] == processes[1..][j - 1];
          assert Owns(processes[k + 1], inode);
        }
      }
    }
  }

  /** The table holds, for each wanted inode that some process has open, its first owner. */
  ghost predicate Resolves(found: map<Inode, Owner>, processes: seq<Process>, wanted: set<Inode>) {
    && (forall n | n in found :: n in wanted && OwnerOf(processes, n) == Some(found[n]))
    && (forall n | n in wanted && OwnerOf(processes, n).Some? :: n in found)
  }

  lemma {:induction false} OwnerAppend(processes: seq<Process>, p: Process, inode: Inode)
    ensures OwnerOf(processes + [p], inode)
         == if OwnerOf(processes, inode).Some? then OwnerOf(processes, inode)
            else if Owns(p, inode) then Some(Owner(NameOf(p.comm), p.pid.value)) else None
  {
    if processes == [] {
      assert [] + [p] == [p] && [p][1..] == [];
    } else {
      assert (processes + [p])[1..] == processes[1..] + [p];
      OwnerAppend(processes[1..], p, inode);
    }
  }

  /** Once every wanted inode is found, the rest of the walk changes nothing. */
  lemma {:induction false} OwnerStays(processes: seq<Process>, rest: seq<Process>, inode: Inode)
    requires OwnerOf(processes, inode).Some?
    ensures OwnerOf(processes + rest, inode) == OwnerOf(processes, inode)
  {
    assert (processes + rest)[1..] == processes[1..] + rest;
    if !Owns(processes[0], inode) { OwnerStays(processes[1..], rest, inode); }
  }

  /** What the walk adds to `found` at one process, having read the first fds. */
  ghost predicate AddsOwned(before: map<Inode, Owner>, found: map<Inode, Owner>, p: Process,
                            fds: seq<Option<Inode>>, wanted: set<Inode>)
    requires p.pid.Some?
  {
    && (forall n | n in before :: n in found && found[n] == before[n])
    && (forall n | n in found && n !in before ::
          n in wanted && Some(n) in fds && found[n] == Owner(NameOf(p.comm), p.pid.value))
    && (forall n | n in wanted && Some(n) in fds :: n in found)
  }

  lemma NothingAdded(before: map<Inode, Owner>, p: Process, wanted: set<Inode>)
    requires p.pid.Some?
    ensures AddsOwned(before, before, p, [], wanted)
  {
  }

  lemma AddsMore(before: map<Inode, Owner>, found: map<Inode, Owner>, p: Process,
                 fds: seq<Option<Inode>>, j: nat, wanted: set<Inode>)
    requires p.pid.Some? && j < |fds| && AddsOwned(before, found, p, fds[..j], wanted)
    ensures var added := fds[j].Some? && fds[j].value in wanted && fds[j].value !in found;
      AddsOwned(before, if added then found[fds[j].value := Owner(NameOf(p.comm), p.pid.value)] else found,
                p, fds[..j + 1], wanted)
  {
    hide NameOf;
    assert fds[..j + 1] == fds[..j] + [fds[j]];
  }

  method ResolveInodes(procDir: Option<seq<Process>>, wanted: set<Inode>) returns (found: map<Inode, Owner>)
    ensures Resolves(found, if procDir.Some? then procDir.value else [], wanted)
  {
    hide NameOf, Resolves, AddsOwned;
    found := map[];
    NothingResolves(wanted);
    if procDir.None? {
      return;
    }
    var processes := procDir.value;
    var i: nat := 0;
    while i < |processes|
      invariant i <= |processes| && Resolves(found, processes[..i], wanted)
    {
      if |found| == |wanted| {
        break;
      }
      var p := processes[i];
      ghost var before := found;
      if p.pid.Some? && p.fds.Some? {
        var fds := p.fds.value;
        var name: Option<string> := None;
        NothingAdded(before, p, wanted);
        for j := 0 to |fds|
          invariant AddsOwned(before, found, p, fds[..j], wanted)
          invariant name == None || name == Some(NameOf(p.comm))
        {
          AddsMore(before, found, p, fds, j, wanted);
          if fds[j].Some? && fds[j].value in wanted && fds[j].value !in found {
            if name.None? {
              name := Some(NameOf(p.comm));
            }
            found := found[fds[j].value := Owner(name.value, p.pid.value)];
          }
        }
        assert fds[..|fds|] == fds;
      }
      ProcessResolves(before, found, processes, i, wanted);
      i := i + 1;
    }
    WalkEnds(found, processes, i, wanted);
  }

  lemma NothingResolves(wanted: set<Inode>)
    ensures Resolves(map[], [], wanted)
  {
  }

  lemma ProcessResolves(before: map<Inode, Owner>, found: map<Inode, Owner>, processes: seq<Process>,
                        i: nat, wanted: set<Inode>)
    requires i < |processes| && Resolves(before, processes[..i], wanted)
    requires if processes[i].pid.Some? && processes[i].fds.Some?
             then AddsOwned(before, found, processes[i], processes[i].fds.value, wanted) else found == before
    ensures Resolves(found, processes[..i + 1], wanted)
  {
    hide NameOf, OwnerOf;
    assert processes[..i + 1] == processes[..i] + [processes[i]];
    forall n ensures (n in found ==> n in wanted && OwnerOf(processes[..i + 1], n) == Some(found[n]))
                  && (n in wanted && OwnerOf(processes[..i + 1], n).Some? ==> n in found)
    {
      OwnerAppend(processes[..i], processes[i], n);
    }
  }

  lemma WalkEnds(found: map<Inode, Owner>, processes: seq<Process>, i: nat, wanted: set<Inode>)
    requires i <= |processes| && Resolves(found, processes[..i], wanted)
    requires i == |processes| || |found| == |wanted|
    ensures Resolves(found, processes, wanted)
  {
    hide OwnerOf;
    assert processes[..i] + processes[i..] == processes;
    if i < |processes| {
      SameCount(found.Keys, wanted);
    } else {
      assert processes[..i] == processes;
    }
    forall n | n in found ensures OwnerOf(processes, n) == Some(found[n]) {
      OwnerStays(processes[..i], processes[i..], n);
    }
  }

  // ---- The scan ----------------------------------------------------------------------

  datatype ListeningPort = ListeningPort(port: Port, processName: Option<string>, pid: Option<Pid>)

  datatype ScanError = ReadFile

  /** The first socket of each port that is not excluded, in the order of the files. */
  function Reported(sockets: seq<ListeningSocket>, exclude: set<Port>): seq<ListeningSocket> {
    if sockets == [] then []
    else if sockets[0].port in exclude then Reported(sockets[1..], exclude)
    else [sockets[0]] + Reported(sockets[1..], exclude + {sockets[0].port})
  }

  function Lines(file: Option<seq<ListeningSocket>>): seq<ListeningSocket> {
    match file case None => [] case Some(sockets) => sockets
  }

  /** Names are looked for when the port has none yet and the socket's owner can be read. */
  predicate WantsName(s: ListeningSocket, resolved: set<Port>, euid: Option<Uid>) {
    s.port !in resolved && (euid.None? || euid.value == 0 || euid.value == s.uid)
  }

  function Wanted(sockets: seq<ListeningSocket>, resolved: set<Port>, euid: Option<Uid>): set<Inode> {
    set s | s in sockets && WantsName(s, resolved, euid) :: s.inode
  }

  /** How a socket is reported, given the owners that were asked for. */
  function Report(s: ListeningSocket, wanted: set<Inode>, processes: seq<Process>): ListeningPort {
    var owner := if s.inode in wanted then OwnerOf(processes, s.inode) else None;
    match owner
    case None => ListeningPort(s.port, None, None)
    case Some(Owner(name, pid)) => ListeningPort(s.port, if name == "" then None else Some(name), Some(pid))
  }

  ghost predicate Reports(ports: seq<ListeningPort>, sockets: seq<ListeningSocket>, wanted: set<Inode>,
                          processes: seq<Process>)
  {
    |ports| == |sockets| && forall i | 0 <= i < |sockets| :: ports[i] == Report(sockets[i], wanted, processes)
  }

  method ScanListeningPorts(tcp: Option<seq<ListeningSocket>>, tcp6: Option<seq<ListeningSocket>>,
                            procDir: Option<seq<Process>>, euid: Option<Uid>,
                            exclude: set<Port>, resolved: set<Port>)
    returns (r: Result<seq<ListeningPort>, ScanError>)
    ensures r.Err? <==> tcp.None? && tcp6.None?
    ensures r.Ok? ==>
      var sockets := Reported(Lines(tcp) + Lines(tcp6), exclude);
      Reports(r.value, sockets, Wanted(sockets, resolved, euid), if procDir.Some? then procDir.value else [])
  {
    if tcp.None? && tcp6.None? {
      return Err(ReadFile);
    }
    var sockets := FirstOfEachPort(Lines(tcp) + Lines(tcp6), exclude);
    var wanted := Wanted(sockets, resolved, euid);
    var found: map<Inode, Owner> := map[];
    if wanted != {} {
      found := ResolveInodes(procDir, wanted);
    }
    var ports := Describe(sockets, found, wanted, if procDir.Some? then procDir.value else []);
    return Ok(ports);
  }

  method FirstOfEachPort(all: seq<ListeningSocket>, exclude: set<Port>) returns (sockets: seq<ListeningSocket>)
    ensures sockets == Reported(all, exclude)
  {
    var seen: set<Port> := {};
    sockets := [];
    assert all[0..] == all && exclude + seen == exclude;
    for i := 0 to |all|
      invariant sockets + Reported(all[i..], exclude + seen) == Reported(all, exclude)
    {
      var s := all[i];
      assert all[i..][1..] == all[i + 1..];
      if s.port !in exclude && s.port !in seen {
        assert (exclude + seen) + {s.port} == exclude + (seen + {s.port});
        seen, sockets := seen + {s.port}, sockets + [s];
      }
    }
  }

  method Describe(sockets: seq<ListeningSocket>, found: map<Inode, Owner>, ghost wanted: set<Inode>,
                  ghost processes: seq<Process>)
    returns (ports: seq<ListeningPort>)
    requires Resolves(found, processes, wanted)
    ensures Reports(ports, sockets, wanted, processes)
  {
    ports := [];
    for i := 0 to |sockets|
      invariant Reports(ports, sockets[..i], wanted, processes)
    {
      var s := sockets[i];
      if s.inode in found {
        var owner := found[s.inode];
        ports := ports + [ListeningPort(s.port, if owner.name == "" then None else Some(owner.name), Some(owner.pid))];
      } else {
        ports := ports + [ListeningPort(s.port, None, None)];
      }
    }
    assert sockets[..|sockets|] == sockets;
  }

  predicate HasPort(sockets: seq<ListeningSocket>, port: Port) {
    exists k :: 0 <= k < |sockets| && sockets[k].port == port
  }

  ghost predicate IsFirstOfPort(sockets: seq<ListeningSocket>, s: ListeningSocket) {
    exists k :: 0 <= k < |sockets| && sockets[k] == s && !HasPort(sockets[..k], s.port)
  }

  lemma FirstShifts(s0: ListeningSocket, rest: seq<ListeningSocket>, s: ListeningSocket)
    requires IsFirstOfPort(rest, s) && s.port != s0.port
    ensures IsFirstOfPort([s0] + rest, s)
  {
    var k :| 0 <= k < |rest| && rest[k] == s && !HasPort(rest[..k], s.port);
    var all := [s0] + rest;
    var prefix := all[..k + 1];
    assert all[k + 1] == s;
    forall j | 0 <= j < k + 1 ensures prefix[j].port != s.port {
      assert j > 0 ==> prefix[j] == rest[..k][j - 1];
    }
  }

  /** The reported sockets have distinct ports; a port is among them exactly when a socket listens on
      it and it is not excluded; and each is the first of its port. */
  lemma {:induction false} ReportedIsFirstOfEach(sockets: seq<ListeningSocket>, exclude: set<Port>)
    ensures var r := Reported(sockets, exclude);
      && (forall i, j | 0 <= i < j < |r| :: r[i].port != r[j].port)
      && (forall s | s in r :: s.port !in exclude && IsFirstOfPort(sockets, s))
      && (forall port: Port :: HasPort(r, port) <==> HasPort(sockets, port) && port !in exclude)
  {
    if sockets != [] {
      var s0, rest, r := sockets[0], sockets[1..], Reported(sockets, exclude);
      assert sockets == [s0] + rest;
      var exclude' := if s0.port in exclude then exclude else exclude + {s0.port};
      var r' := Reported(rest, exclude');
      ReportedIsFirstOfEach(rest, exclude');
      forall s | s in r' ensures IsFirstOfPort(sockets, s) { FirstShifts(s0, rest, s); }
      assert s0.port !in exclude ==> sockets[0] == s0 && !HasPort(sockets[..0], s0.port);
      forall port: Port ensures HasPort(r, port) <==> HasPort(sockets, port) && port !in exclude {
        PortShifts(s0, rest, port);
        PortShifts(s0, r', port);
        assert HasPort(r', port) <==> HasPort(rest, port) && port !in exclude';
      }
    }
  }

  lemma PortShifts(s0: ListeningSocket, rest: seq<ListeningSocket>, port: Port)
    ensures HasPort([s0] + rest, port) <==> s0.port == port || HasPort(rest, port)
  {
    var all := [s0] + rest;
    assert all[0] == s0;
    if k :| 0 <= k < |rest| && rest[k].port == port { assert all[k + 1].port == port; }
    if k :| 0 <= k < |all| && all[k].port == port && k > 0 { assert rest[k - 1].port == port; }
  }

  /** For whom names are looked for: for every port without one yet when the scan runs as root or cannot tell
      who it is, otherwise for those whose sockets belong to the user it runs as; and for no other port. */
  lemma NamesAreForOwnSockets(sockets: seq<ListeningSocket>, ports: seq<ListeningPort>, resolved: set<Port>,
                              euid: Option<Uid>, processes: seq<Process>, i: nat)
    requires Reports(ports, sockets, Wanted(sockets, resolved, euid), processes) && i < |sockets|
    ensures (euid == None || euid == Some(0) || euid == Some(sockets[i].uid)) && sockets[i].port !in resolved ==>
      (ports[i].pid.Some? <==> exists p :: p in processes && Owns(p, sockets[i].inode))
    ensures ports[i].pid.Some? ==>
      (exists s :: s in sockets && s.inode == sockets[i].inode && s.port !in resolved
                   && (euid == None || euid == Some(0) || euid == Some(s.uid)))
  {
    assert sockets[i] in sockets;
    OwnerIsFirst(processes, sockets[i].inode);
    if k :| 0 <= k < |processes| && Owns(processes[k], sockets[i].inode) { assert processes[k] in processes; }
  }

  /** Main result: a scan reports exactly the ports some socket listens on that are not excluded, once
      each and in the order they first appear, so two scans of the same tables report the same ports
      whatever is already resolved, whoever asks and whichever processes run. A port whose name is
      wanted comes with the pid and name of the first owner a full walk for its inode finds. */
  lemma ScansAgreeOnPorts(sockets: seq<ListeningSocket>, exclude: set<Port>,
                          ports: seq<ListeningPort>, resolved: set<Port>, euid: Option<Uid>, processes: seq<Process>,
                          ports': seq<ListeningPort>, resolved': set<Port>, euid': Option<Uid>,
                          processes': seq<Process>)
    requires var r := Reported(sockets, exclude);
      && Reports(ports, r, Wanted(r, resolved, euid), processes)
      && Reports(ports', r, Wanted(r, resolved', euid'), processes')
    ensures |ports| == |ports'| && forall i | 0 <= i < |ports| :: ports[i].port == ports'[i].port
    ensures forall port: Port ::
      (exists i :: 0 <= i < |ports| && ports[i].port == port) <==> HasPort(sockets, port) && port !in exclude
    ensures forall i, j | 0 <= i < j < |ports| :: ports[i].port != ports[j].port
    ensures var r := Reported(sockets, exclude);
      forall i | 0 <= i < |r| && WantsName(r[i], resolved, euid) ::
        match OwnerOf(processes, r[i].inode)
        case None => ports[i].pid == None && ports[i].processName == None
        case Some(owner) =>
          ports[i].pid == Some(owner.pid)
          && (ports[i].processName == None <==> owner.name == "")
          && (ports[i].processName.Some? ==> ports[i].processName.value == owner.name)
  {
    hide OwnerOf, IsFirstOfPort, WantsName;
    ReportedIsFirstOfEach(sockets, exclude);
    var r := Reported(sockets, exclude);
    forall port: Port
      ensures (exists i :: 0 <= i < |ports| && ports[i].port == port) <==> HasPort(sockets, port) && port !in exclude
    {
      assert HasPort(r, port) <==> HasPort(sockets, port) && port !in exclude;
      if i :| 0 <= i < |ports| && ports[i].port == port { assert r[i].port == port; }
      if i :| 0 <= i < |r| && r[i].port == port { assert ports[i].port == port; }
    }
    forall i | 0 <= i < |r| && WantsName(r[i], resolved, euid) ensures r[i].inode in Wanted(r, resolved, euid) {
      assert r[i] in r;
    }
  }
}
