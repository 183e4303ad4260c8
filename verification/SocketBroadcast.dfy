/** Keeping every container's mirror sockets equal to the host's forwarded sockets: the table update
    and broadcast of `run_socket_scanner`, the sends to a new container (`src/host/mod.rs`) and the
    container's handling of both messages (`src/container/mod.rs`). */
module SocketBroadcasting {
  import opened Wrappers
  import opened SocketScanning

  datatype Message = Forward(info: Info) | Unforward(id: SocketId)

  /** `HostState::socket_forwards`, and a container's `mirror_sockets`. */
  type Table = map<SocketId, Info>

  const QUEUE_CAPACITY: nat := 64

  /** What handling one message does to the mirrors. */
  function Take(t: Table, m: Message): Table {
    match m
    case Forward(info) => t[info.id := info]
    case Unforward(id) => t - {id}
  }

  function Replay(t: Table, messages: seq<Message>): Table
    decreases |messages|
  {
    if messages == [] then t else Replay(Take(t, messages[0]), messages[1..])
  }

  /** What is broadcast after a scan: all new sockets, then all removed ones. */
  function Broadcast(newlyFound: seq<Info>, removed: seq<Info>): seq<Message> {
    seq(|newlyFound|, i requires 0 <= i < |newlyFound| => Forward(newlyFound[i]))
    + seq(|removed|, i requires 0 <= i < |removed| => Unforward(removed[i].id))
  }

  ghost predicate Keyed(t: Table) { forall id | id in t :: t[id].id == id }

  /** A message for every entry of the table, in some order. */
  ghost predicate IsListing(messages: seq<Message>, t: Table) {
    && (forall m | m in messages :: m.Forward? && m.info.id in t && t[m.info.id] == m.info)
    && (forall id | id in t :: Forward(t[id]) in messages)
  }

  // ---- The state behind the mutex, and the outbound queues -------------------------

  type LinkId = nat

  /** What `try_send` leaves in a queue that is not drained meanwhile: messages past the capacity are
      dropped. */
  function Fill(queue: seq<Message>, messages: seq<Message>): seq<Message>
    decreases |messages|
  {
    if messages == [] then queue
    else Fill(if |queue| < QUEUE_CAPACITY then queue + [messages[0]] else queue, messages[1..])
  }

  class SocketForwards {
    var socketForwards: Table
    var queues: map<LinkId, seq<Message>>

    constructor ()
      ensures socketForwards == map[] && queues == map[]
    {
      socketForwards, queues := map[], map[];
    }

    /** The lock section after a scan. */
    method Update(newlyFound: seq<Info>, removed: seq<Info>)
      modifies this`socketForwards
      ensures socketForwards == Replay(old(socketForwards), Broadcast(newlyFound, removed))
    {
      ghost var start, all := socketForwards, Broadcast(newlyFound, removed);
      for i := 0 to |newlyFound|
        invariant socketForwards == Replay(start, all[..i])
      {
        ReplayOneMore(start, all, i);
        socketForwards := socketForwards[newlyFound[i].id := newlyFound[i]];
      }
      for i := 0 to |removed|
        invariant socketForwards == Replay(start, all[..|newlyFound| + i])
      {
        ReplayOneMore(start, all, |newlyFound| + i);
        socketForwards := socketForwards - {removed[i].id};
      }
      assert all[..|newlyFound| + |removed|] == all;
    }

    /** The lock section that lists the existing forwards for a newly registered container. */
    method Existing() returns (messages: seq<Message>)
      requires Keyed(socketForwards)
      ensures IsListing(messages, socketForwards)
    {
      messages := [];
      var remaining := socketForwards.Keys;
      while remaining != {}
        invariant remaining <= socketForwards.Keys
        invariant IsListing(messages, socketForwards - remaining)
        decreases remaining
      {
        var id :| id in remaining;
        var before := messages;
        messages := messages + [Forward(socketForwards[id])];
        forall k | k in socketForwards - (remaining - {id}) ensures Forward(socketForwards[k]) in messages {
          assert k != id ==> k in socketForwards - remaining;
        }
        remaining := remaining - {id};
      }
      assert socketForwards - {} == socketForwards;
    }

    /** The broadcast after a scan, to the senders collected while the lock was held. */
    method SendAll(newlyFound: seq<Info>, removed: seq<Info>, senders: set<LinkId>)
      requires senders <= queues.Keys
      modifies this`queues
      ensures queues.Keys == old(queues.Keys)
      ensures forall tx | tx in senders :: queues[tx] == Fill(old(queues)[tx], Broadcast(newlyFound, removed))
      ensures forall tx | tx in queues && tx !in senders :: queues[tx] == old(queues)[tx]
    {
      ghost var before, all := queues, Broadcast(newlyFound, removed);
      for i := 0 to |newlyFound|
        invariant Sent(before, queues, senders, all[..i])
      {
        SendOne(Forward(newlyFound[i]), senders);
        FillOneMore(before, senders, all, i);
      }
      for i := 0 to |removed|
        invariant Sent(before, queues, senders, all[..|newlyFound| + i])
      {
        SendOne(Unforward(removed[i].id), senders);
        FillOneMore(before, senders, all, |newlyFound| + i);
      }
      assert all[..|newlyFound| + |removed|] == all;
    }

    method SendOne(m: Message, senders: set<LinkId>)
      requires senders <= queues.Keys
      modifies this`queues
      ensures Sent(old(queues), queues, senders, [m])
    {
      ghost var before := queues;
      var remaining := senders;
      while remaining != {}
        invariant remaining <= senders && Sent(before, queues, senders - remaining, [m])
        decreases remaining
      {
        var tx :| tx in remaining;
        assert Fill(before[tx], [m]) == if |queues[tx]| < QUEUE_CAPACITY then queues[tx] + [m] else queues[tx];
        if |queues[tx]| < QUEUE_CAPACITY {
          queues := queues[tx := queues[tx] + [m]];
        }
        remaining := remaining - {tx};
      }
    }
  }

  /** The messages were tried on these senders and no others. */
  ghost predicate Sent(before: map<LinkId, seq<Message>>, queues: map<LinkId, seq<Message>>,
                       senders: set<LinkId>, messages: seq<Message>)
  {
    && queues.Keys == before.Keys
    && (forall tx | tx in senders && tx in before :: queues[tx] == Fill(before[tx], messages))
    && (forall tx | tx in before && tx !in senders :: queues[tx] == before[tx])
  }

  lemma FillOneMore(before: map<LinkId, seq<Message>>, senders: set<LinkId>, messages: seq<Message>, i: nat)
    requires i < |messages|
    ensures forall tx | tx in before ::
      Fill(before[tx], messages[..i + 1]) == Fill(Fill(before[tx], messages[..i]), [messages[i]])
  {
    assert messages[..i + 1] == messages[..i] + [messages[i]];
    forall tx | tx in before
      ensures Fill(before[tx], messages[..i + 1]) == Fill(Fill(before[tx], messages[..i]), [messages[i]])
    {
      FillAppend(before[tx], messages[..i], [messages[i]]);
    }
  }

  lemma {:induction false} FillAppend(queue: seq<Message>, a: seq<Message>, b: seq<Message>)
    ensures Fill(queue, a + b) == Fill(Fill(queue, a), b)
    decreases |a|
  {
    if a == [] {
      assert a + b == b;
    } else {
      assert (a + b)[1..] == a[1..] + b;
      FillAppend(if |queue| < QUEUE_CAPACITY then queue + [a[0]] else queue, a[1..], b);
    }
  }

  /** `try_send` keeps what fits: exactly the messages past the capacity are lost. */
  lemma {:induction false} FillKeepsWhatFits(queue: seq<Message>, messages: seq<Message>)
    requires |queue| <= 64
    ensures Fill(queue, messages)
         == queue + messages[..if |queue| + |messages| <= 64 then |messages| else 64 - |queue|]
    decreases |messages|
  {
    if messages != [] {
      FillKeepsWhatFits(if |queue| < QUEUE_CAPACITY then queue + [messages[0]] else queue, messages[1..]);
    }
  }

  /** What making a mirror comes to: it is bound, or given up before its path is touched, or given up
      after the file there has been removed. */
  datatype Making = Created | Refused | Spoiled

  /** The mirrors of one container session and the socket files they listen on. */
  class MirrorSockets {
    var mirrors: Table
    var files: Files

    constructor ()
      ensures mirrors == map[] && files == map[]
    {
      mirrors, files := map[], map[];
    }

    /** Handles a socket message; `made` says what making a mirror socket comes to. */
    method Handle(m: Message, made: Making)
      modifies this`mirrors, this`files
      ensures mirrors == Handled(old(mirrors), m, made)
      ensures files == HandledFiles(old(mirrors), old(files), m, made)
    {
      match m
      case Forward(info) =>
        if !made.Refused? { files := files - {info.target}; }
        if made.Created? {
          files := files[info.target := info.id];
          mirrors := mirrors[info.id := info];
        }
      case Unforward(id) =>
        if id in mirrors {
          files := files - {mirrors[id].target};
          mirrors := mirrors - {id};
        } else {
          assert mirrors - {id} == mirrors;
        }
    }
  }

  // ---- Replaying, one socket at a time ------------------------------------------------

  function Lookup(t: Table, id: SocketId): Option<Info> { if id in t then Some(t[id]) else None }

  function EffectOne(v: Option<Info>, id: SocketId, m: Message): Option<Info> {
    match m
    case Forward(info) => if info.id == id then Some(info) else v
    case Unforward(other) => if other == id then None else v
  }

  /** What a list of messages makes of one socket. */
  function Effect(v: Option<Info>, id: SocketId, messages: seq<Message>): Option<Info>
    decreases |messages|
  {
    if messages == [] then v else Effect(EffectOne(v, id, messages[0]), id, messages[1..])
  }

  predicate About(m: Message, id: SocketId) {
    match m case Forward(info) => info.id == id case Unforward(other) => other == id
  }

  lemma {:induction false} ReplayEffect(t: Table, messages: seq<Message>, id: SocketId)
    ensures Lookup(Replay(t, messages), id) == Effect(Lookup(t, id), id, messages)
    decreases |messages|
  {
    if messages != [] { ReplayEffect(Take(t, messages[0]), messages[1..], id); }
  }

  /** Once a message is about a socket, what was there before no longer matters. */
  lemma {:induction false} EffectForgets(v: Option<Info>, w: Option<Info>, id: SocketId, messages: seq<Message>)
    ensures if exists m :: m in messages && About(m, id) then Effect(v, id, messages) == Effect(w, id, messages)
            else Effect(v, id, messages) == v && Effect(w, id, messages) == w
    decreases |messages|
  {
    if messages != [] {
      var rest := messages[1..];
      assert messages == [messages[0]] + rest;
      assert forall m :: m in messages <==> m == messages[0] || m in rest;
      assert (exists m :: m in messages && About(m, id))
          <==> About(messages[0], id) || (exists m :: m in rest && About(m, id));
      EffectForgets(EffectOne(v, id, messages[0]), EffectOne(w, id, messages[0]), id, rest);
    }
  }

  lemma {:induction false} EffectAppend(v: Option<Info>, id: SocketId, a: seq<Message>, b: seq<Message>)
    ensures Effect(v, id, a + b) == Effect(Effect(v, id, a), id, b)
    decreases |a|
  {
    if a == [] {
      assert a + b == b;
    } else {
      assert (a + b)[1..] == a[1..] + b;
      EffectAppend(EffectOne(v, id, a[0]), id, a[1..], b);
    }
  }

  lemma SameTables(t: Table, u: Table)
    requires forall id :: Lookup(t, id) == Lookup(u, id)
    ensures t == u
  {
    forall id ensures id in t <==> id in u { assert Lookup(t, id) == Lookup(u, id); }
    forall id | id in t ensures t[id] == u[id] { assert Lookup(t, id) == Lookup(u, id); }
  }

  lemma {:induction false} ReplayAppend(t: Table, a: seq<Message>, b: seq<Message>)
    ensures Replay(t, a + b) == Replay(Replay(t, a), b)
    decreases |a|
  {
    if a == [] {
      assert a + b == b;
    } else {
      assert (a + b)[1..] == a[1..] + b;
      ReplayAppend(Take(t, a[0]), a[1..], b);
    }
  }

  lemma ReplayOneMore(t: Table, messages: seq<Message>, i: nat)
    requires i < |messages|
    ensures Replay(t, messages[..i + 1]) == Take(Replay(t, messages[..i]), messages[i])
  {
    assert messages[..i + 1] == messages[..i] + [messages[i]];
    ReplayAppend(t, messages[..i], [messages[i]]);
    assert Replay(Replay(t, messages[..i]), [messages[i]]) == Take(Replay(t, messages[..i]), messages[i]);
  }

  /** Listing a table and replaying the list from nothing gives the table back, whatever the order. */
  lemma ListingRebuilds(messages: seq<Message>, t: Table)
    requires Keyed(t) && IsListing(messages, t)
    ensures Replay(map[], messages) == t
  {
    forall id ensures Lookup(Replay(map[], messages), id) == Lookup(t, id) {
      ReplayEffect(map[], messages, id);
      ListingEffect(messages, t, id);
      EffectForgets(None, Lookup(t, id), id, messages);
      if id in t { assert Forward(t[id]) in messages && About(Forward(t[id]), id); }
    }
    SameTables(Replay(map[], messages), t);
  }

  lemma {:induction false} ListingEffect(messages: seq<Message>, t: Table, id: SocketId)
    requires forall m | m in messages :: m.Forward? && m.info.id in t && t[m.info.id] == m.info
    ensures Effect(Lookup(t, id), id, messages) == Lookup(t, id)
    decreases |messages|
  {
    if messages != [] {
      assert messages[0] in messages;
      ListingEffect(messages[1..], t, id);
    }
  }

  /** A list that changes nothing still changes nothing after the table has moved on, if what moved it
      is replayed behind it. */
  lemma StaleListIsHarmless(t: Table, stale: seq<Message>, news: seq<Message>)
    requires Replay(t, stale) == t
    ensures Replay(Replay(t, news), stale + news) == Replay(t, news)
  {
    var t' := Replay(t, news);
    forall id ensures Lookup(Replay(t', stale + news), id) == Lookup(t', id) {
      var v, v' := Lookup(t, id), Lookup(t', id);
      ReplayEffect(t', stale + news, id);
      ReplayEffect(t, news, id);
      ReplayEffect(t, stale, id);
      EffectAppend(v', id, stale, news);
      EffectForgets(v, v', id, stale);
      EffectForgets(v, Effect(v', id, stale), id, news);
    }
    SameTables(Replay(t', stale + news), t');
  }

  // ---- The socket files ---------------------------------------------------------------

  /** The mirror socket file at a path belongs to the mirror that was bound there last. */
  type Files = map<Path, SocketId>

  /** Creating a mirror replaces whatever file is at its path; removing one deletes whatever file is at
      its path. */
  function TakeFiles(mirrors: Table, files: Files, m: Message): Files {
    match m
    case Forward(info) => files[info.target := info.id]
    case Unforward(id) => if id in mirrors then files - {mirrors[id].target} else files
  }

  /** What one message makes of a session's mirrors and of its files. */
  function Handled(mirrors: Table, m: Message, made: Making): Table {
    if m.Forward? && !made.Created? then mirrors else Take(mirrors, m)
  }

  function HandledFiles(mirrors: Table, files: Files, m: Message, made: Making): Files {
    if m.Unforward? || made.Created? then TakeFiles(mirrors, files, m)
    else if made.Spoiled? then files - {m.info.target}
    else files
  }

  /** Every mirror has its file and every file its mirror. */
  ghost predicate FilesMatch(mirrors: Table, files: Files) {
    && (forall id | id in mirrors :: mirrors[id].target in files && files[mirrors[id].target] == id)
    && (forall f | f in files :: files[f] in mirrors && mirrors[files[f]].target == f)
  }

  /** A new socket is to be mirrored where another one's mirror still is. */
  ghost predicate Collides(mirrors: Table, m: Message) {
    m.Forward? && exists id :: id in mirrors && id != m.info.id && mirrors[id].target == m.info.target
  }

  /** Whatever is sent about a socket is the same each time. */
  predicate SameInfo(mirrors: Table, m: Message) {
    m.Forward? && m.info.id in mirrors ==> mirrors[m.info.id] == m.info
  }

  lemma StepMatchesIff(mirrors: Table, files: Files, m: Message)
    requires FilesMatch(mirrors, files) && Keyed(mirrors) && SameInfo(mirrors, m)
    ensures FilesMatch(Take(mirrors, m), TakeFiles(mirrors, files, m)) <==> !Collides(mirrors, m)
  {
    var mirrors', files' := Take(mirrors, m), TakeFiles(mirrors, files, m);
    match m
    case Forward(info) =>
      if Collides(mirrors, m) {
        var id :| id in mirrors && id != info.id && mirrors[id].target == info.target;
        assert mirrors'[id].target in files' && files'[mirrors'[id].target] != id;
      }
    case Unforward(_) =>
  }

  /** Handling the message takes the file of a mirror away: the socket is to be mirrored where another one's
      mirror still is, or its mirror is given up where any mirror still is. */
  ghost predicate Disturbs(mirrors: Table, m: Message, made: Making) {
    (made.Created? && Collides(mirrors, m))
    || (made.Spoiled? && m.Forward? && exists id :: id in mirrors && mirrors[id].target == m.info.target)
  }

  lemma HandlingMatchesIff(mirrors: Table, files: Files, m: Message, made: Making)
    requires FilesMatch(mirrors, files) && Keyed(mirrors) && SameInfo(mirrors, m)
    ensures FilesMatch(Handled(mirrors, m, made), HandledFiles(mirrors, files, m, made))
       <==> !Disturbs(mirrors, m, made)
  {
    if m.Unforward? || made.Created? { StepMatchesIff(mirrors, files, m); }
  }

  ghost predicate AllSameInfo(mirrors: Table, messages: seq<Message>)
    decreases |messages|
  {
    messages == [] || (SameInfo(mirrors, messages[0]) && AllSameInfo(Take(mirrors, messages[0]), messages[1..]))
  }

  /** The files match after every message. */
  ghost predicate FilesKeepMatching(mirrors: Table, files: Files, messages: seq<Message>)
    decreases |messages|
  {
    FilesMatch(mirrors, files)
    && (messages == []
        || FilesKeepMatching(Take(mirrors, messages[0]), TakeFiles(mirrors, files, messages[0]), messages[1..]))
  }

  ghost predicate NoneCollides(mirrors: Table, messages: seq<Message>)
    decreases |messages|
  {
    messages == [] || (!Collides(mirrors, messages[0]) && NoneCollides(Take(mirrors, messages[0]), messages[1..]))
  }

  /** Main result: the mirror socket files stay those of the container's mirrors if and only if no
      socket is forwarded to a path that another mirror still has. */
  lemma {:induction false} FilesMatchIff(mirrors: Table, files: Files, messages: seq<Message>)
    requires FilesMatch(mirrors, files) && Keyed(mirrors) && AllSameInfo(mirrors, messages)
    ensures FilesKeepMatching(mirrors, files, messages) <==> NoneCollides(mirrors, messages)
    decreases |messages|
  {
    if messages != [] {
      var m := messages[0];
      StepMatchesIff(mirrors, files, m);
      if !Collides(mirrors, m) {
        FilesMatchIff(Take(mirrors, m), TakeFiles(mirrors, files, m), messages[1..]);
      }
    }
  }

  lemma {:induction false} UnforwardsNeverCollide(t: Table, removed: seq<Info>)
    ensures NoneCollides(t, Broadcast([], removed))
    decreases |removed|
  {
    if removed != [] {
      var all := Broadcast([], removed);
      assert all[0] == Unforward(removed[0].id) && all[1..] == Broadcast([], removed[1..]);
      UnforwardsNeverCollide(Take(t, all[0]), removed[1..]);
    }
  }

  /** The new sockets are mirrored at paths no other socket of the table or of the scan is. */
  ghost predicate TargetsFree(t: Table, newlyFound: seq<Info>) {
    && (forall i, id | 0 <= i < |newlyFound| && id in t :: newlyFound[i].target != t[id].target)
    && (forall i, j | 0 <= i < j < |newlyFound| :: newlyFound[i].target != newlyFound[j].target)
  }

  /** A broadcast collides unless its new sockets are all mirrored at free paths; removed sockets are
      withdrawn too late to free theirs. */
  lemma {:induction false} ScanCollidesIff(t: Table, newlyFound: seq<Info>, removed: seq<Info>)
    requires forall i | 0 <= i < |newlyFound| :: newlyFound[i].id !in t
    requires forall i, j | 0 <= i < j < |newlyFound| :: newlyFound[i].id != newlyFound[j].id
    ensures NoneCollides(t, Broadcast(newlyFound, removed)) <==> TargetsFree(t, newlyFound)
    decreases |newlyFound|
  {
    if newlyFound == [] {
      UnforwardsNeverCollide(t, removed);
    } else {
      var all, info, rest := Broadcast(newlyFound, removed), newlyFound[0], newlyFound[1..];
      assert all[0] == Forward(info) && all[1..] == Broadcast(rest, removed);
      ScanCollidesIff(t[info.id := info], rest, removed);
      TargetsFreeSplits(t, newlyFound);
    }
  }

  lemma TargetsFreeSplits(t: Table, newlyFound: seq<Info>)
    requires newlyFound != [] && newlyFound[0].id !in t
    ensures var info := newlyFound[0];
      TargetsFree(t, newlyFound)
      <==> (forall id | id in t :: t[id].target != info.target) && TargetsFree(t[info.id := info], newlyFound[1..])
  {
    var info, rest := newlyFound[0], newlyFound[1..];
    var t' := t[info.id := info];
    if (forall id | id in t :: t[id].target != info.target) && TargetsFree(t', rest) {
      forall i, id | 0 <= i < |newlyFound| && id in t ensures newlyFound[i].target != t[id].target {
        if i > 0 { assert newlyFound[i] == rest[i - 1] && t'[id] == t[id]; }
      }
      forall i, j | 0 <= i < j < |newlyFound| ensures newlyFound[i].target != newlyFound[j].target {
        assert newlyFound[j] == rest[j - 1] && info.id in t' && t'[info.id] == info;
        if i > 0 { assert newlyFound[i] == rest[i - 1]; }
      }
    }
    if TargetsFree(t, newlyFound) {
      forall i, id | 0 <= i < |rest| && id in t' ensures rest[i].target != t'[id].target {
        assert rest[i] == newlyFound[i + 1];
      }
      forall i, j | 0 <= i < j < |rest| ensures rest[i].target != rest[j].target {
        assert rest[i] == newlyFound[i + 1] && rest[j] == newlyFound[j + 1];
      }
    }
  }

  /** Broadcasting sockets whose ids are new repeats no earlier info. */
  lemma {:induction false} NewIdsAreSameInfo(t: Table, newlyFound: seq<Info>, removed: seq<Info>)
    requires forall i | 0 <= i < |newlyFound| :: newlyFound[i].id !in t
    requires forall i, j | 0 <= i < j < |newlyFound| :: newlyFound[i].id != newlyFound[j].id
    ensures AllSameInfo(t, Broadcast(newlyFound, removed))
    decreases |newlyFound|, |removed|
  {
    var all := Broadcast(newlyFound, removed);
    if newlyFound != [] {
      assert all[0] == Forward(newlyFound[0]) && all[1..] == Broadcast(newlyFound[1..], removed);
      NewIdsAreSameInfo(Take(t, all[0]), newlyFound[1..], removed);
    } else if removed != [] {
      assert all[0] == Unforward(removed[0].id) && all[1..] == Broadcast([], removed[1..]);
      NewIdsAreSameInfo(Take(t, all[0]), [], removed[1..]);
    }
  }

  /** Main result: as new sockets are sent before removed ones are withdrawn, a container that holds
      the host's table keeps its files through a scan if and only if no new socket shares its container
      path with another new socket or with one known before the scan, even one the scan removes. */
  lemma ScanKeepsFilesIff(t: Table, files: Files, newlyFound: seq<Info>, removed: seq<Info>)
    requires Keyed(t) && FilesMatch(t, files)
    requires forall i | 0 <= i < |newlyFound| :: newlyFound[i].id !in t
    requires forall i, j | 0 <= i < j < |newlyFound| :: newlyFound[i].id != newlyFound[j].id
    ensures FilesKeepMatching(t, files, Broadcast(newlyFound, removed)) <==> TargetsFree(t, newlyFound)
  {
    NewIdsAreSameInfo(t, newlyFound, removed);
    FilesMatchIff(t, files, Broadcast(newlyFound, removed));
    ScanCollidesIff(t, newlyFound, removed);
  }

  /** A socket that reappears in another directory under the same file name: the container keeps the new
      mirror and has no file for it. */
  lemma ReplacedSocketLosesFile(prefix: Path) returns (before: Info, after: Info)
    ensures before == Info(0, "/tmp/a" + "/" + "agent", ContainerPath(Some(prefix), "/tmp/a" + "/" + "agent"))
    ensures after == Info(1, "/tmp/b" + "/" + "agent", ContainerPath(Some(prefix), "/tmp/b" + "/" + "agent"))
    ensures var mirrors, files := map[0 := before], map[before.target := 0];
      var messages := Broadcast([after], [before]);
      && FilesMatch(mirrors, files)
      && Replay(mirrors, messages) == map[1 := after]
      && ReplayFiles(mirrors, files, messages) == map[]
  {
    FileNameIs("/tmp/a", "agent");
    FileNameIs("/tmp/b", "agent");
    hide FileName;
    before := Info(0, "/tmp/a" + "/" + "agent", ContainerPath(Some(prefix), "/tmp/a" + "/" + "agent"));
    after := Info(1, "/tmp/b" + "/" + "agent", ContainerPath(Some(prefix), "/tmp/b" + "/" + "agent"));
    assert before.target == after.target;
    var messages := Broadcast([after], [before]);
    assert messages == [Forward(after), Unforward(0)] && messages[1..] == [Unforward(0)] && messages[1..][1..] == [];
    TwoMessages(map[0 := before], map[before.target := 0], Forward(after), Unforward(0));
  }

  function ReplayFiles(mirrors: Table, files: Files, messages: seq<Message>): Files
    decreases |messages|
  {
    if messages == [] then files
    else ReplayFiles(Take(mirrors, messages[0]), TakeFiles(mirrors, files, messages[0]), messages[1..])
  }

  lemma TwoMessages(mirrors: Table, files: Files, a: Message, b: Message)
    ensures Replay(mirrors, [a, b]) == Take(Take(mirrors, a), b)
    ensures ReplayFiles(mirrors, files, [a, b]) == TakeFiles(Take(mirrors, a), TakeFiles(mirrors, files, a), b)
  {
    assert [a, b][1..] == [b] && [b][1..] == [];
    var mirrors', files' := Take(mirrors, a), TakeFiles(mirrors, files, a);
    assert Replay(mirrors', [b]) == Take(mirrors', b);
    assert ReplayFiles(mirrors', files', [b]) == TakeFiles(mirrors', files', b);
  }
}
