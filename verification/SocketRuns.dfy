/** Socket scans, registrations and the delivery of socket messages, interleaving freely. */
module SocketRuns {
  import opened Wrappers
  import opened SocketScanning
  import opened SocketBroadcasting

  /** A connection that has been registered; `registered` says whether the host's state still holds its
      sender, which an eviction or a later registration takes away. `pending` is what the scanner task
      has yet to `try_send` to it, `queue` its outbound channel, `wire` the control connection, `mirrors`
      the container's table and `files` the mirror socket files it has bound. */
  datatype Link = Link(registered: bool, welcomed: bool, pending: seq<Message>, queue: seq<Message>,
                       wire: seq<Message>, mirrors: Table, files: Files)

  datatype Sys = Sys(known: Known, nextId: SocketId, max: nat, forwards: Table, links: map<LinkId, Link>)

  function Init(max: nat): Sys { Sys(map[], 0, max, map[], map[]) }

  datatype Step =
    | Register(link: LinkId)                          // inserted into the host's state
    | Welcome(link: LinkId, listing: seq<Message>)    // existing forwards sent, under the lock
    | Scan(current: set<Path>, known: Known, nextId: SocketId, newlyFound: seq<Info>, removed: seq<Info>)
    | TrySend(link: LinkId)                           // the scanner task's next `try_send` to this sender
    | Relay(link: LinkId)                             // queue to control connection
    | Receive(link: LinkId, made: Making)             // the container handles a message
    | Replace(link: LinkId)                           // its state evicted or inserted over
    | Close(link: LinkId)                             // disconnected

  ghost predicate Enabled(s: Sys, step: Step) {
    match step
    case Register(l) => l !in s.links
    case Welcome(l, listing) => l in s.links && !s.links[l].welcomed && IsListing(listing, s.forwards)
    case Scan(current, known, nextId, newlyFound, removed) =>
      && (forall l | l in s.links :: s.links[l].pending == [])
      && IsScan(s.known, s.nextId, s.max, current, known, nextId, newlyFound, removed)
    case TrySend(l) => l in s.links && s.links[l].pending != []
    case Relay(l) => l in s.links && s.links[l].welcomed && s.links[l].queue != []
    case Receive(l, _) => l in s.links && s.links[l].wire != []
    case Replace(l) => l in s.links
    case Close(l) => l in s.links
  }

  ghost function Apply(s: Sys, step: Step): Sys
    requires Enabled(s, step)
  {
    match step
    case Register(l) => s.(links := s.links[l := Link(true, false, [], [], [], map[], map[])])
    case Welcome(l, listing) =>
      var k := s.links[l];
      s.(links := s.links[l := k.(welcomed := true, wire := k.wire + listing)])
    case Scan(_, known, nextId, newlyFound, removed) =>
      var news := Broadcast(newlyFound, removed);
      Sys(known, nextId, s.max, Replay(s.forwards, news),
          map l | l in s.links :: if s.links[l].registered then s.links[l].(pending := news) else s.links[l])
    case TrySend(l) =>
      var k := s.links[l];
      s.(links := s.links[l := k.(pending := k.pending[1..], queue := Fill(k.queue, [k.pending[0]]))])
    case Relay(l) =>
      var k := s.links[l];
      s.(links := s.links[l := k.(queue := k.queue[1..], wire := k.wire + [k.queue[0]])])
    case Receive(l, made) =>
      var k := s.links[l];
      s.(links := s.links[l := k.(wire := k.wire[1..], mirrors := Handled(k.mirrors, k.wire[0], made),
                                  files := HandledFiles(k.mirrors, k.files, k.wire[0], made))])
    case Replace(l) => s.(links := s.links[l := s.links[l].(registered := false)])
    case Close(l) => s.(links := s.links - {l})
  }

  ghost predicate IsRun(s: Sys, steps: seq<Step>)
    decreases |steps|
  {
    steps == [] || (Enabled(s, steps[0]) && IsRun(Apply(s, steps[0]), steps[1..]))
  }

  ghost function Run(s: Sys, steps: seq<Step>): Sys
    requires IsRun(s, steps)
    decreases |steps|
  {
    if steps == [] then s else Run(Apply(s, steps[0]), steps[1..])
  }

  /** No `try_send` meets a full queue and every mirror socket can be created. */
  ghost predicate Lossless(s: Sys, step: Step)
    requires Enabled(s, step)
  {
    match step
    case TrySend(l) => |s.links[l].queue| < QUEUE_CAPACITY
    case Receive(l, made) => made.Created?
    case _ => true
  }

  ghost predicate LosslessRun(s: Sys, steps: seq<Step>)
    requires IsRun(s, steps)
    decreases |steps|
  {
    steps == [] || (Lossless(s, steps[0]) && LosslessRun(Apply(s, steps[0]), steps[1..]))
  }

  // ---- The table follows the scanner ----------------------------------------------------

  /** The host's table holds exactly the scanner's known sockets, one to one. */
  ghost predicate Filed(known: Known, forwards: Table) {
    && (forall p | p in known :: known[p].id in forwards && forwards[known[p].id] == known[p])
    && (forall id | id in forwards ::
          forwards[id].id == id && forwards[id].path in known && known[forwards[id].path] == forwards[id])
  }

  ghost predicate ScansOk(s: Sys) {
    ScannerOk(s.known, s.nextId, s.max) && Filed(s.known, s.forwards)
  }

  /** Some info of the list has this id. */
  predicate Names(infos: seq<Info>, id: SocketId) {
    infos != [] && (infos[0].id == id || Names(infos[1..], id))
  }

  lemma {:induction false} NamesMember(infos: seq<Info>, id: SocketId)
    ensures Names(infos, id) <==> exists a :: a in infos && a.id == id
  {
    if infos != [] {
      assert infos == [infos[0]] + infos[1..];
      NamesMember(infos[1..], id);
    }
  }

  /** A scan's news about one socket: added, removed or nothing. */
  ghost predicate IsNews(v: Option<Info>, w: Option<Info>, id: SocketId, newlyFound: seq<Info>, removed: seq<Info>) {
    if Names(removed, id) then w == None
    else if Names(newlyFound, id) then w.Some? && w.value in newlyFound && w.value.id == id
    else w == v
  }

  lemma {:induction false} NewsEffect(v: Option<Info>, id: SocketId, newlyFound: seq<Info>, removed: seq<Info>)
    ensures IsNews(v, Effect(v, id, Broadcast(newlyFound, removed)), id, newlyFound, removed)
    decreases |newlyFound|, |removed|
  {
    var all := Broadcast(newlyFound, removed);
    if newlyFound != [] {
      assert all[0] == Forward(newlyFound[0]) && all[1..] == Broadcast(newlyFound[1..], removed);
      NewsEffect(EffectOne(v, id, all[0]), id, newlyFound[1..], removed);
    } else if removed != [] {
      assert all[0] == Unforward(removed[0].id) && all[1..] == Broadcast([], removed[1..]);
      NewsEffect(EffectOne(v, id, all[0]), id, [], removed[1..]);
    }
  }

  /** The ids of a scan's news: new ones are distinct and differ from every known one. */
  lemma NewsIds(s: Sys, step: Step)
    requires Enabled(s, step) && step.Scan? && ScannerOk(s.known, s.nextId, s.max)
    ensures forall i, j | 0 <= i < j < |step.newlyFound| :: step.newlyFound[i].id != step.newlyFound[j].id
    ensures forall a, b | a in step.newlyFound && b in step.removed :: a.id != b.id
    ensures forall a, p | a in step.newlyFound && p in s.known :: a.id != s.known[p].id
  {
    forall i, j | 0 <= i < j < |step.newlyFound| ensures step.newlyFound[i].id != step.newlyFound[j].id {
      var a, b := step.newlyFound[i], step.newlyFound[j];
      assert a in step.newlyFound && b in step.newlyFound && a.path != b.path;
      assert step.known[a.path] == a && step.known[b.path] == b;
    }
  }

  lemma ScanFiles(s: Sys, step: Step)
    requires Enabled(s, step) && step.Scan? && ScansOk(s)
    ensures ScansOk(Apply(s, step))
  {
    NewsIds(s, step);
    var s', news := Apply(s, step), Broadcast(step.newlyFound, step.removed);
    forall id: SocketId ensures Lookup(s'.forwards, id) == Effect(Lookup(s.forwards, id), id, news) {
      ReplayEffect(s.forwards, news, id);
    }
    forall p | p in s'.known ensures Lookup(s'.forwards, s'.known[p].id) == Some(s'.known[p]) {
      KnownIsFiled(s, step, p);
    }
    forall id | id in s'.forwards
      ensures s'.forwards[id].id == id && s'.forwards[id].path in s'.known
          && s'.known[s'.forwards[id].path] == s'.forwards[id]
    {
      FiledIsKnown(s, step, id);
    }
  }

  lemma KnownIsFiled(s: Sys, step: Step, p: Path)
    requires Enabled(s, step) && step.Scan? && ScansOk(s) && p in step.known
    ensures Effect(Lookup(s.forwards, step.known[p].id), step.known[p].id, Broadcast(step.newlyFound, step.removed))
        == Some(step.known[p])
  {
    hide Broadcast, Effect, Names, IsScan, ScannerOk, Filed;
    var info := step.known[p];
    NewsEffect(Lookup(s.forwards, info.id), info.id, step.newlyFound, step.removed);
    NamesMember(step.newlyFound, info.id);
    NamesMember(step.removed, info.id);
    if p in s.known {
      SurvivorHasNoNews(s, step, p);
    } else {
      NewcomerHasOwnNews(s, step, p);
    }
  }

  lemma SurvivorHasNoNews(s: Sys, step: Step, p: Path)
    requires Enabled(s, step) && step.Scan? && ScansOk(s) && p in step.known && p in s.known
    ensures step.known[p] == s.known[p] && Lookup(s.forwards, s.known[p].id) == Some(s.known[p])
    ensures forall a | a in step.newlyFound + step.removed :: a.id != s.known[p].id
  {
    NewsIds(s, step);
    assert p in s.known - (s.known.Keys - step.current);
    forall b | b in step.removed ensures b.id != s.known[p].id {
      assert b.path in s.known - step.current && s.known[b.path] == b;
    }
  }

  lemma NewcomerHasOwnNews(s: Sys, step: Step, p: Path)
    requires Enabled(s, step) && step.Scan? && ScansOk(s) && p in step.known && p !in s.known
    ensures step.known[p] in step.newlyFound
    ensures forall a | a in step.newlyFound && a.id == step.known[p].id :: a == step.known[p]
    ensures forall b | b in step.removed :: b.id != step.known[p].id
  {
    NewsIds(s, step);
    assert p in step.known - s.known.Keys;
    forall a | a in step.newlyFound && a.id == step.known[p].id ensures a == step.known[p] {
      assert a.path in step.known && step.known[a.path] == a;
    }
  }

  lemma FiledIsKnown(s: Sys, step: Step, id: SocketId)
    requires Enabled(s, step) && step.Scan? && ScansOk(s)
    ensures match Effect(Lookup(s.forwards, id), id, Broadcast(step.newlyFound, step.removed))
            case None => true
            case Some(info) => info.id == id && info.path in step.known && step.known[info.path] == info
  {
    hide Broadcast, Effect, Names;
    var w := Effect(Lookup(s.forwards, id), id, Broadcast(step.newlyFound, step.removed));
    NewsEffect(Lookup(s.forwards, id), id, step.newlyFound, step.removed);
    NamesMember(step.removed, id);
    if w.Some? && !Names(step.newlyFound, id) {
      hide Lists;
      SurvivorIsKnown(s, step, id);
    }
  }

  lemma GoneIsRemoved(s: Sys, step: Step, p: Path)
    requires Enabled(s, step) && step.Scan? && p in s.known && p !in step.current
    ensures s.known[p] in step.removed
  {
    assert p in s.known - step.current;
  }

  lemma SurvivorIsKnown(s: Sys, step: Step, id: SocketId)
    requires Enabled(s, step) && step.Scan? && ScansOk(s)
    requires id in s.forwards && forall b | b in step.removed :: b.id != id
    ensures s.forwards[id].path in step.known && step.known[s.forwards[id].path] == s.forwards[id]
  {
    var path := s.forwards[id].path;
    assert s.known[path] == s.forwards[id];
    if path !in step.current { GoneIsRemoved(s, step, path); }
    assert path in s.known - (s.known.Keys - step.current);
  }

  // ---- Each container follows the table ---------------------------------------------------

  /** Handling everything still on its way brings the container's mirrors to the host's table. Before
      the existing forwards are sent nothing has reached the container, and what waits in its queue
      is already part of the table. */
  ghost predicate Follows(forwards: Table, k: Link) {
    if k.welcomed then Replay(k.mirrors, k.wire + k.queue + k.pending) == forwards
    else k.wire == [] && k.mirrors == map[] && Replay(forwards, k.queue + k.pending) == forwards
  }

  ghost predicate AllFollow(s: Sys) {
    forall l | l in s.links && s.links[l].registered :: Follows(s.forwards, s.links[l])
  }

  lemma WelcomeFollows(s: Sys, l: LinkId, listing: seq<Message>)
    requires Enabled(s, Welcome(l, listing)) && Keyed(s.forwards) && Follows(s.forwards, s.links[l])
    ensures Follows(s.forwards, Apply(s, Welcome(l, listing)).links[l])
  {
    var k := s.links[l];
    ListingRebuilds(listing, s.forwards);
    ReplayAppend(map[], listing, k.queue + k.pending);
    assert (k.wire + listing) + k.queue + k.pending == listing + (k.queue + k.pending);
  }

  lemma ScanFollows(s: Sys, step: Step, l: LinkId)
    requires Enabled(s, step) && step.Scan? && l in s.links && s.links[l].registered && Follows(s.forwards, s.links[l])
    ensures Follows(Apply(s, step).forwards, Apply(s, step).links[l])
  {
    var k, news := s.links[l], Broadcast(step.newlyFound, step.removed);
    if k.welcomed {
      assert k.wire + k.queue + [] == k.wire + k.queue;
      ReplayAppend(k.mirrors, k.wire + k.queue, news);
    } else {
      assert k.queue + [] == k.queue;
      StaleListIsHarmless(s.forwards, k.queue, news);
    }
  }

  lemma MoveFollows(s: Sys, step: Step, l: LinkId, table: Table)
    requires step == TrySend(l) || step == Relay(l) || step == Receive(l, Created)
    requires Enabled(s, step) && Lossless(s, step) && Follows(table, s.links[l])
    ensures Follows(table, Apply(s, step).links[l])
  {
    hide Take;
    var k, k' := s.links[l], Apply(s, step).links[l];
    match step
    case TrySend(_) =>
      assert Fill(k.queue, [k.pending[0]]) == k.queue + [k.pending[0]];
      assert k'.queue + k'.pending == k.queue + k.pending;
      assert k'.wire + k'.queue + k'.pending == k.wire + k.queue + k.pending;
    case Relay(_) =>
      assert k'.wire + k'.queue + k'.pending == k.wire + k.queue + k.pending;
    case Receive(_, _) =>
      var all := k.wire + k.queue + k.pending;
      assert all[0] == k.wire[0] && all[1..] == k'.wire + k'.queue + k'.pending;
  }

  lemma StepFollows(s: Sys, step: Step)
    requires Enabled(s, step) && Lossless(s, step) && Keyed(s.forwards) && AllFollow(s)
    ensures AllFollow(Apply(s, step))
  {
    hide Follows, Replay, IsScan, IsListing;
    var s' := Apply(s, step);
    forall l | l in s'.links && s'.links[l].registered ensures Follows(s'.forwards, s'.links[l]) {
      match step
      case Register(r) => if l == r { NewLinkFollows(s.forwards); }
      case Welcome(r, listing) => if l == r { WelcomeFollows(s, l, listing); }
      case Scan(_, _, _, _, _) => ScanFollows(s, step, l);
      case Replace(_) =>
      case Close(_) =>
      case _ => if l == step.link { MoveFollows(s, step, l, s.forwards); }
    }
  }

  lemma NewLinkFollows(forwards: Table)
    ensures Follows(forwards, Link(true, false, [], [], [], map[], map[]))
  {
  }

  lemma KnownIsKeyed(s: Sys)
    requires ScansOk(s)
    ensures Keyed(s.forwards)
  {
  }

  lemma StepScansOk(s: Sys, step: Step)
    requires Enabled(s, step) && ScansOk(s)
    ensures ScansOk(Apply(s, step))
  {
    if step.Scan? { ScanFiles(s, step); }
  }

  /** After every cycle of every run, lossy or not, the host's table is in one-to-one correspondence
      with the scanner's known sockets, of which there are at most `max`. */
  lemma {:induction false} TableIsAlwaysFiled(s: Sys, steps: seq<Step>)
    requires ScansOk(s) && IsRun(s, steps)
    ensures ScansOk(Run(s, steps))
    decreases |steps|
  {
    if steps != [] {
      StepScansOk(s, steps[0]);
      TableIsAlwaysFiled(Apply(s, steps[0]), steps[1..]);
    }
  }

  lemma {:induction false} RunFollows(s: Sys, steps: seq<Step>)
    requires ScansOk(s) && AllFollow(s) && IsRun(s, steps) && LosslessRun(s, steps)
    ensures ScansOk(Run(s, steps)) && AllFollow(Run(s, steps))
    decreases |steps|
  {
    hide ScansOk, AllFollow;
    if steps != [] {
      KnownIsKeyed(s);
      StepScansOk(s, steps[0]);
      StepFollows(s, steps[0]);
      RunFollows(Apply(s, steps[0]), steps[1..]);
    }
  }

  /** Main result: however registrations, scans, sends and deliveries interleave, handling what is
      still on its way to a welcomed container gives exactly the host's table; so once nothing is on
      its way its mirrors are the host's forwarded sockets, one for each socket the scanner knows. */
  lemma MirrorsConverge(max: nat, steps: seq<Step>, l: LinkId)
    requires IsRun(Init(max), steps) && LosslessRun(Init(max), steps)
    requires l in Run(Init(max), steps).links
    requires Run(Init(max), steps).links[l].registered && Run(Init(max), steps).links[l].welcomed
    ensures var (s, k) := (Run(Init(max), steps), Run(Init(max), steps).links[l]);
      && Replay(k.mirrors, k.wire + k.queue + k.pending) == s.forwards
      && (k.wire == [] && k.queue == [] && k.pending == [] ==> k.mirrors == s.forwards && Filed(s.known, k.mirrors))
  {
    RunFollows(Init(max), steps);
  }

  // ---- Connections that have been replaced --------------------------------------------------

  /** What the container comes to hold by handling all that is on its way. */
  function Destined(k: Link): Table { Replay(k.mirrors, k.wire + k.queue + k.pending) }

  lemma ReplacedStepKeepsDestined(s: Sys, step: Step, l: LinkId)
    requires Enabled(s, step) && Lossless(s, step) && step != Close(l)
    requires l in s.links && s.links[l].welcomed && !s.links[l].registered
    ensures var s' := Apply(s, step);
      l in s'.links && s'.links[l].welcomed && !s'.links[l].registered && Destined(s'.links[l]) == Destined(s.links[l])
  {
    hide Replay;
    if step == TrySend(l) || step == Relay(l) || step == Receive(l, Created) {
      MoveFollows(s, step, l, Destined(s.links[l]));
    }
  }

  lemma {:induction false} ReplacedKeepsDestined(s: Sys, steps: seq<Step>, l: LinkId)
    requires IsRun(s, steps) && LosslessRun(s, steps) && Close(l) !in steps
    requires l in s.links && s.links[l].welcomed && !s.links[l].registered
    ensures var s' := Run(s, steps);
      l in s'.links && s'.links[l].welcomed && Destined(s'.links[l]) == Destined(s.links[l])
    decreases |steps|
  {
    hide Destined, Apply, Enabled, Lossless;
    if steps != [] {
      assert steps[0] in steps && forall step | step in steps[1..] :: step in steps;
      ReplacedStepKeepsDestined(s, steps[0], l);
      ReplacedKeepsDestined(Apply(s, steps[0]), steps[1..], l);
    }
  }

  /** Main result: a connection that is replaced but stays open comes to hold the host's table as it was
      then, and follows the table from there on exactly while that does not change. */
  lemma ReplacedFollowsIff(max: nat, before: seq<Step>, l: LinkId, after: seq<Step>)
    requires IsRun(Init(max), before) && LosslessRun(Init(max), before)
    requires var s := Run(Init(max), before);
      && l in s.links && s.links[l].registered && s.links[l].welcomed
      && IsRun(Apply(s, Replace(l)), after) && LosslessRun(Apply(s, Replace(l)), after) && Close(l) !in after
    ensures var (s, s') := (Run(Init(max), before), Run(Apply(Run(Init(max), before), Replace(l)), after));
      && l in s'.links && Destined(s'.links[l]) == s.forwards
      && (Follows(s'.forwards, s'.links[l]) <==> s'.forwards == s.forwards)
  {
    RunFollows(Init(max), before);
    ReplacedKeepsDestined(Apply(Run(Init(max), before), Replace(l)), after, l);
  }

  /** The message a step sends or handles. */
  ghost function Moved(s: Sys, step: Step): Message
    requires Enabled(s, step) && (step.TrySend? || step.Receive?)
  {
    if step.TrySend? then s.links[step.link].pending[0] else s.links[step.link].wire[0]
  }

  /** The hypothesis is needed: when the only message about a new socket is dropped at a full queue, or
      its mirror cannot be created, what the container comes to hold lacks that socket. */
  lemma LossDiverges(s: Sys, step: Step)
    requires Enabled(s, step) && !Lossless(s, step) && Moved(s, step).Forward?
    requires s.links[step.link].welcomed && Follows(s.forwards, s.links[step.link])
    requires var id, k := Moved(s, step).info.id, Apply(s, step).links[step.link];
      id !in k.mirrors && forall m | m in k.wire + k.queue + k.pending :: !About(m, id)
    ensures Moved(s, step).info.id in Apply(s, step).forwards
    ensures !Follows(Apply(s, step).forwards, Apply(s, step).links[step.link])
  {
    var m, k, k' := Moved(s, step), s.links[step.link], Apply(s, step).links[step.link];
    var id := m.info.id;
    if step.TrySend? {
      assert Fill(k.queue, [m]) == k.queue;
      assert k.wire + k.queue + k.pending == (k.wire + k.queue) + ([m] + k'.pending);
      LostMessage(k.mirrors, k.wire + k.queue, m, k'.pending);
    } else {
      assert k.wire + k.queue + k.pending == [] + ([m] + (k'.wire + k'.queue + k'.pending));
      assert [] + (k'.wire + k'.queue + k'.pending) == k'.wire + k'.queue + k'.pending;
      LostMessage(k.mirrors, [], m, k'.wire + k'.queue + k'.pending);
    }
  }

  lemma LostMessage(t: Table, before: seq<Message>, m: Message, after: seq<Message>)
    requires m.Forward? && m.info.id !in t && forall n | n in before + after :: !About(n, m.info.id)
    ensures m.info.id !in Replay(t, before + after) && m.info.id in Replay(t, before + ([m] + after))
  {
    hide Replay;
    var id := m.info.id;
    assert forall n | n in after :: n in before + after;
    ReplayEffect(t, before + after, id);
    EffectForgets(None, None, id, before + after);
    ReplayEffect(t, before + ([m] + after), id);
    EffectAppend(None, id, before, [m] + after);
    EffectForgets(Some(m.info), None, id, after);
    assert ([m] + after)[1..] == after;
  }

  lemma {:induction false} RunAppend(s: Sys, steps: seq<Step>, step: Step)
    requires IsRun(s, steps) && Enabled(Run(s, steps), step)
    ensures IsRun(s, steps + [step]) && Run(s, steps + [step]) == Apply(Run(s, steps), step)
    decreases |steps|
  {
    hide Enabled, Apply;
    if steps == [] {
      assert (steps + [step])[1..] == [];
    } else {
      RunAppend(Apply(s, steps[0]), steps[1..], step);
      assert (steps + [step])[1..] == steps[1..] + [step];
    }
  }

  lemma Extend(steps: seq<Step>, s: Sys, step: Step) returns (steps': seq<Step>, s': Sys)
    requires IsRun(Init(1), steps) && s == Run(Init(1), steps) && Enabled(s, step)
    ensures IsRun(Init(1), steps') && s' == Run(Init(1), steps') && s' == Apply(s, step)
  {
    RunAppend(Init(1), steps, step);
    steps', s' := steps + [step], Apply(s, step);
  }

  lemma SocketIsFound() returns (steps: seq<Step>, s: Sys, info: Info)
    ensures IsRun(Init(1), steps) && s == Run(Init(1), steps)
    ensures s == Sys(map[info.path := info], 1, 1, map[0 := info],
                     map[0 := Link(true, true, [Forward(info)], [], [], map[], map[])]) && info.id == 0
  {
    info := Info(0, "/tmp/agent", "/tmp/agent");
    steps, s := [], Init(1);
    assert IsRun(Init(1), steps) && s == Run(Init(1), steps);
    hide IsRun, Run;
    steps, s := Extend(steps, s, Register(0));
    assert IsListing([], map[]);
    steps, s := Extend(steps, s, Welcome(0, []));
    OneSocketIsAScan(info);
    assert Broadcast([info], []) == [Forward(info)];
    assert Replay(map[], [Forward(info)]) == map[0 := info] by { assert [Forward(info)][1..] == []; }
    steps, s := Extend(steps, s, Scan({info.path}, map[info.path := info], 1, [info], []));
  }

  lemma OneSocketIsAScan(info: Info)
    requires info.id == 0
    ensures IsScan(map[], 0, 1, {info.path}, map[info.path := info], 1, [info], [])
  {
    var none: Known := map[];
    assert map[info.path := info] - none.Keys == map[info.path := info] && none - {info.path} == none;
  }

  /** A concrete loss: the only mirror cannot be created, and with nothing left on its way the container
      is without the socket the host forwards. */
  lemma UncreatedMirrorIsMissing() returns (steps: seq<Step>, s: Sys)
    ensures IsRun(Init(1), steps) && s == Run(Init(1), steps)
    ensures 0 in s.links && s.links[0] == Link(true, true, [], [], [], map[], map[]) && s.forwards.Keys == {0}
  {
    var info;
    steps, s, info := SocketIsFound();
    hide IsRun, Run;
    steps, s := Extend(steps, s, TrySend(0));
    assert Fill([], [Forward(info)]) == [Forward(info)] by { assert [Forward(info)][1..] == []; }
    steps, s := Extend(steps, s, Relay(0));
    steps, s := Extend(steps, s, Receive(0, Refused));
  }

  // ---- The files over whole runs ------------------------------------------------------------

  /** Every socket these messages forward is in the registry. */
  ghost predicate Drawn(messages: seq<Message>, g: Table) {
    forall m | m in messages && m.Forward? :: m.info.id in g && g[m.info.id] == m.info
  }

  ghost predicate Within(t: Table, g: Table) { forall id | id in t :: id in g && g[id] == t[id] }

  ghost predicate LinkDrawn(k: Link, g: Table) {
    Within(k.mirrors, g) && Drawn(k.wire, g) && Drawn(k.queue, g) && Drawn(k.pending, g)
  }

  /** g has every socket ever found under its id: an id never comes to name another socket. */
  ghost predicate IsRegistry(s: Sys, g: Table) {
    && Keyed(g) && (forall id | id in g :: id < s.nextId)
    && Within(s.forwards, g) && (forall l | l in s.links :: LinkDrawn(s.links[l], g))
  }

  lemma {:induction false} ReplayWithin(t: Table, messages: seq<Message>, g: Table)
    requires Within(t, g) && Drawn(messages, g)
    ensures Within(Replay(t, messages), g)
    decreases |messages|
  {
    if messages != [] {
      assert messages[0] in messages && forall m | m in messages[1..] :: m in messages;
      ReplayWithin(Take(t, messages[0]), messages[1..], g);
    }
  }

  /** A scan enters its new sockets, whose ids are new. */
  lemma {:induction false} Enter(g: Table, found: seq<Info>, low: nat, high: nat) returns (g': Table)
    requires Keyed(g) && low <= high && (forall id | id in g :: id < low)
    requires forall i | 0 <= i < |found| :: low <= found[i].id < high
    requires forall i, j | 0 <= i < j < |found| :: found[i].id != found[j].id
    ensures Keyed(g') && Within(g, g') && (forall id | id in g' :: id < high)
    ensures forall i | 0 <= i < |found| :: found[i].id in g' && g'[found[i].id] == found[i]
    ensures forall id | id in g' && id !in g :: exists i :: 0 <= i < |found| && found[i].id == id
    decreases |found|
  {
    g' := g;
    if found != [] {
      var last := |found| - 1;
      g' := Enter(g, found[..last], low, high);
      g' := g'[found[last].id := found[last]];
    }
  }

  lemma ScanEnters(s: Sys, step: Step, g: Table) returns (g': Table)
    requires Enabled(s, step) && step.Scan? && ScansOk(s) && IsRegistry(s, g)
    ensures Keyed(g') && (forall id | id in g' :: id < step.nextId) && Within(g, g')
    ensures Drawn(Broadcast(step.newlyFound, step.removed), g')
  {
    NewsIds(s, step);
    NewIdsAreInRange(s, step);
    hide Apply, Enabled, ScansOk, Lists, LinkDrawn, Replay;
    g' := Enter(g, step.newlyFound, s.nextId, step.nextId);
  }

  lemma NewIdsAreInRange(s: Sys, step: Step)
    requires Enabled(s, step) && step.Scan?
    ensures s.nextId <= step.nextId
    ensures forall i | 0 <= i < |step.newlyFound| :: s.nextId <= step.newlyFound[i].id < step.nextId
  {
  }

  lemma WithinTrans(a: Table, b: Table, c: Table)
    requires Within(a, b) && Within(b, c)
    ensures Within(a, c)
  {
  }

  lemma LinkStaysDrawn(s: Sys, step: Step, l: LinkId, g: Table)
    requires Enabled(s, step) && !step.Scan? && IsRegistry(s, g) && l in Apply(s, step).links
    ensures LinkDrawn(Apply(s, step).links[l], g)
  {
    hide Replay, IsScan;
    if l in s.links && step.TrySend? && step.link == l {
      var k := s.links[l];
      assert Fill(k.queue, [k.pending[0]])
          == if |k.queue| < QUEUE_CAPACITY then k.queue + [k.pending[0]] else k.queue
        by { assert [k.pending[0]][1..] == []; }
    }
  }

  lemma StepKeepsRegistry(s: Sys, step: Step, g: Table) returns (g': Table)
    requires Enabled(s, step) && ScansOk(s) && IsRegistry(s, g)
    ensures IsRegistry(Apply(s, step), g')
  {
    g' := g;
    if step.Scan? {
      g' := ScanEnters(s, step, g);
      WithinTrans(s.forwards, g, g');
      ReplayWithin(s.forwards, Broadcast(step.newlyFound, step.removed), g');
      forall l | l in s.links ensures LinkDrawn(Apply(s, step).links[l], g') {
        LinkWidens(s.links[l], g, g');
      }
    } else {
      forall l | l in Apply(s, step).links ensures LinkDrawn(Apply(s, step).links[l], g) {
        LinkStaysDrawn(s, step, l, g);
      }
    }
  }

  lemma LinkWidens(k: Link, g: Table, g': Table)
    requires LinkDrawn(k, g) && Within(g, g')
    ensures LinkDrawn(k, g')
  {
  }

  ghost predicate LinkFilesMatch(s: Sys, l: LinkId) {
    l in s.links ==> FilesMatch(s.links[l].mirrors, s.links[l].files)
  }

  /** In every state of the run the files of the link's container are those of its mirrors. */
  ghost predicate FilesAlwaysMatch(s: Sys, steps: seq<Step>, l: LinkId)
    requires IsRun(s, steps)
    decreases |steps|
  {
    LinkFilesMatch(s, l) && (steps == [] || FilesAlwaysMatch(Apply(s, steps[0]), steps[1..], l))
  }

  ghost predicate NeverDisturbed(s: Sys, steps: seq<Step>, l: LinkId)
    requires IsRun(s, steps)
    decreases |steps|
  {
    steps == [] || (!DisturbsLink(s, steps[0], l) && NeverDisturbed(Apply(s, steps[0]), steps[1..], l))
  }

  ghost predicate DisturbsLink(s: Sys, step: Step, l: LinkId)
    requires Enabled(s, step)
  {
    step.Receive? && step.link == l && Disturbs(s.links[l].mirrors, s.links[l].wire[0], step.made)
  }

  lemma StepFilesMatchIff(s: Sys, step: Step, l: LinkId, g: Table)
    requires Enabled(s, step) && IsRegistry(s, g) && LinkFilesMatch(s, l)
    ensures LinkFilesMatch(Apply(s, step), l) <==> !DisturbsLink(s, step, l)
  {
    if step.Receive? && step.link == l {
      var k := s.links[l];
      assert k.wire[0] in k.wire;
      HandlingMatchesIff(k.mirrors, k.files, k.wire[0], step.made);
    }
  }

  lemma {:induction false} RunFilesMatchIff(s: Sys, steps: seq<Step>, l: LinkId, g: Table)
    requires IsRun(s, steps) && ScansOk(s) && IsRegistry(s, g) && LinkFilesMatch(s, l)
    ensures FilesAlwaysMatch(s, steps, l) <==> NeverDisturbed(s, steps, l)
    decreases |steps|
  {
    hide ScansOk, IsRegistry, LinkFilesMatch, DisturbsLink, Apply, Enabled;
    if steps != [] {
      StepFilesMatchIff(s, steps[0], l, g);
      StepScansOk(s, steps[0]);
      var g' := StepKeepsRegistry(s, steps[0], g);
      if !DisturbsLink(s, steps[0], l) { RunFilesMatchIff(Apply(s, steps[0]), steps[1..], l, g'); }
    }
  }

  /** Main result: over any run, lossy or not, with any scans, registrations and failures to make mirrors, the
      socket files of a container stay those of its mirrors if and only if none of the messages it handles
      is for a path whose file another mirror still has. */
  lemma FilesAlwaysMatchIff(max: nat, steps: seq<Step>, l: LinkId)
    requires IsRun(Init(max), steps)
    ensures FilesAlwaysMatch(Init(max), steps, l) <==> NeverDisturbed(Init(max), steps, l)
  {
    RunFilesMatchIff(Init(max), steps, l, map[]);
  }

  // ---- What is always possible ------------------------------------------------------------------

  predicate IsOwn(step: Step, l: LinkId) {
    step == TrySend(l) || step == Relay(l) || step == Receive(l, Created)
  }

  predicate Quiet(k: Link) { k.wire == [] && k.queue == [] && k.pending == [] }

  /** What is on its way to a welcomed container can be delivered without loss: what is on the wire first, then
      what is queued, then what is pending. */
  lemma {:induction false} LinkReachesRest(s: Sys, l: LinkId) returns (steps: seq<Step>)
    requires l in s.links && s.links[l].welcomed
    ensures IsRun(s, steps) && LosslessRun(s, steps) && forall i | 0 <= i < |steps| :: IsOwn(steps[i], l)
    ensures var s' := Run(s, steps);
      && l in s'.links && s'.links[l].welcomed && Quiet(s'.links[l])
      && s'.forwards == s.forwards && s'.links[l].registered == s.links[l].registered
    decreases 3 * |if l in s.links then s.links[l].pending else []|
            + 2 * |if l in s.links then s.links[l].queue else []|
            + |if l in s.links then s.links[l].wire else []|
  {
    hide Handled, HandledFiles;
    var k := s.links[l];
    if Quiet(k) {
      steps := [];
    } else {
      var step := if k.wire != [] then Receive(l, Created) else if k.queue != [] then Relay(l) else TrySend(l);
      if step.TrySend? {
        assert Fill(k.queue, [k.pending[0]]) == [k.pending[0]] by { assert [k.pending[0]][1..] == []; }
      }
      var rest := LinkReachesRest(Apply(s, step), l);
      steps := [step] + rest;
      assert steps[1..] == rest;
    }
  }

  /** Main result: from every state of a lossless run what is on its way to a registered and welcomed container can
      be delivered by itself, and its mirrors are then the host's forwarded sockets. */
  lemma MirrorsCatchUp(max: nat, before: seq<Step>, l: LinkId) returns (after: seq<Step>)
    requires IsRun(Init(max), before) && LosslessRun(Init(max), before)
    requires var s := Run(Init(max), before); l in s.links && s.links[l].registered && s.links[l].welcomed
    ensures var s := Run(Init(max), before);
      && IsRun(s, after) && forall i | 0 <= i < |after| :: IsOwn(after[i], l)
    ensures var s' := Run(Run(Init(max), before), after);
      && l in s'.links && Quiet(s'.links[l])
      && s'.links[l].mirrors == s'.forwards == Run(Init(max), before).forwards
  {
    hide Apply, Enabled;
    RunFollows(Init(max), before);
    var s := Run(Init(max), before);
    after := LinkReachesRest(s, l);
    RunFollows(s, after);
  }

  /** The forwards that exist can always be listed. */
  lemma {:induction false} ListingExists(t: Table) returns (messages: seq<Message>)
    requires Keyed(t)
    ensures IsListing(messages, t)
    decreases |t|
  {
    if t == map[] {
      messages := [];
    } else {
      var id :| id in t;
      var rest := ListingExists(t - {id});
      messages := [Forward(t[id])] + rest;
      forall m | m in messages ensures m.Forward? && m.info.id in t && t[m.info.id] == m.info {
        assert m == Forward(t[id]) || m in rest;
      }
      forall j | j in t ensures Forward(t[j]) in messages {
        if j != id { assert Forward((t - {id})[j]) in rest; }
      }
    }
  }

  ghost function Busy(s: Sys): set<LinkId> { set l | l in s.links && s.links[l].pending != [] }

  lemma {:induction false} PendingGoesOut(s: Sys, l: LinkId) returns (steps: seq<Step>)
    requires l in s.links
    ensures IsRun(s, steps)
    ensures var s' := Run(s, steps);
      && s' == s.(links := s'.links) && s'.links.Keys == s.links.Keys && s'.links[l].pending == []
      && (forall j | j in s.links && j != l :: s'.links[j] == s.links[j])
    decreases |if l in s.links then s.links[l].pending else []|
  {
    hide Fill;
    if s.links[l].pending == [] {
      steps := [];
    } else {
      var rest := PendingGoesOut(Apply(s, TrySend(l)), l);
      steps := [TrySend(l)] + rest;
      assert steps[1..] == rest;
    }
  }

  lemma {:induction false} AllPendingGoesOut(s: Sys) returns (steps: seq<Step>)
    ensures IsRun(s, steps)
    ensures var s' := Run(s, steps); s' == s.(links := s'.links) && Busy(s') == {}
    decreases |Busy(s)|
  {
    if Busy(s) == {} {
      steps := [];
    } else {
      var l :| l in Busy(s);
      var first := PendingGoesOut(s, l);
      var s1 := Run(s, first);
      assert Busy(s1) == Busy(s) - {l};
      var rest := AllPendingGoesOut(s1);
      steps := first + rest;
      RunsJoin(s, first, rest);
    }
  }

  lemma {:induction false} RunsJoin(s: Sys, a: seq<Step>, b: seq<Step>)
    requires IsRun(s, a) && IsRun(Run(s, a), b)
    ensures IsRun(s, a + b) && Run(s, a + b) == Run(Run(s, a), b)
    decreases |a|
  {
    hide Enabled, Apply;
    if a == [] {
      assert a + b == b;
    } else {
      RunsJoin(Apply(s, a[0]), a[1..], b);
      assert (a + b)[1..] == a[1..] + b;
    }
  }

  /** In every state the next scan, with any outcome scanning can have, is some sends away. */
  lemma NextScanIsPossible(s: Sys, current: set<Path>, known: Known, nextId: SocketId,
                           newlyFound: seq<Info>, removed: seq<Info>)
    returns (sends: seq<Step>)
    requires IsScan(s.known, s.nextId, s.max, current, known, nextId, newlyFound, removed)
    ensures IsRun(s, sends) && Enabled(Run(s, sends), Scan(current, known, nextId, newlyFound, removed))
  {
    hide IsScan;
    sends := AllPendingGoesOut(s);
    assert forall j | j in Run(s, sends).links :: j !in Busy(Run(s, sends));
  }

  lemma TwoSteps(s: Sys, a: Step, b: Step)
    requires Enabled(s, a) && Enabled(Apply(s, a), b)
    ensures IsRun(s, [a, b]) && Run(s, [a, b]) == Apply(Apply(s, a), b)
  {
    hide Enabled, Apply;
    assert [a, b][1..] == [b] && [b][1..] == [];
    assert IsRun(Apply(s, a), [b]) && Run(Apply(s, a), [b]) == Apply(Apply(s, a), b);
  }

  /** A new connection can register and be sent what exists; any connection can be replaced, which leaves it
      what it has, and be closed, which leaves nothing of it. */
  lemma ConnectionsComeAndGo(s: Sys, l: LinkId) returns (listing: seq<Message>)
    requires Keyed(s.forwards)
    ensures l !in s.links ==>
      var steps := [Register(l), Welcome(l, listing)];
      IsRun(s, steps) && Run(s, steps) == s.(links := s.links[l := Link(true, true, [], [], listing, map[], map[])])
    ensures l in s.links ==>
      && IsRun(s, [Replace(l)]) && Run(s, [Replace(l)]) == s.(links := s.links[l := s.links[l].(registered := false)])
      && IsRun(s, [Close(l)]) && Run(s, [Close(l)]) == s.(links := s.links - {l})
  {
    hide IsListing;
    listing := ListingExists(s.forwards);
    assert [Replace(l)][1..] == [] && [Close(l)][1..] == [];
    if l !in s.links {
      TwoSteps(s, Register(l), Welcome(l, listing));
      assert [] + listing == listing;
    }
  }
}
