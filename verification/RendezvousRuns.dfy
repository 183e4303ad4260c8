/** Every interleaving of registering, resolving, cancelling, timing out and giving up. Connection
    ids need not be fresh: a container chooses its own for socket connections. */
module RendezvousRuns {
  import opened Cardinality
  import opened Wrappers
  import opened Rendezvous

  /** A data connection in `resolve_pending_with_grace` (`grace` 0 is `resolve_pending`). */
  datatype Phase =
    | Polling(wake: nat)               // next lock section no earlier than `wake`
    | Holding(chan: Chan)              // sender in hand, not yet used
    | Delivered(chan: Chan)
    | Refused(chan: Chan)              // the receiver was gone
    | Lost                             // never found its sender

  /** `polls` counts the times it has taken the lock, `last` is when it last did, or when it arrived. */
  datatype Resolver = Resolver(connId: ConnId, start: nat, grace: nat, polls: nat, last: nat, phase: Phase)

  /** The resolver's key identifies its data stream. */
  datatype Sys = Sys(table: Table, resolvers: map<Data, Resolver>, now: nat)

  const INIT: Sys := Sys(Table(map[], map[], 0), map[], 0)

  datatype Step =
    | RegisterConn(id: ConnId)
    | Arrive(r: Data, id: ConnId, grace: nat)
    | Poll(r: Data)
    | Deliver(r: Data)
    | CancelConn(id: ConnId)
    | Await(c: Chan)
    | Drop(c: Chan)
    | Tick(ms: nat)

  predicate Enabled(s: Sys, step: Step) {
    match step
    case RegisterConn(_) => true
    case Arrive(r, _, _) => r !in s.resolvers
    case Poll(r) => r in s.resolvers && s.resolvers[r].phase.Polling? && s.resolvers[r].phase.wake <= s.now
    case Deliver(r) => r in s.resolvers && s.resolvers[r].phase.Holding?
        && s.resolvers[r].phase.chan in s.table.channels
    case CancelConn(_) => true
    case Await(c) => c in s.table.channels && s.table.channels[c].receiver.Waiting? && !s.table.channels[c].slot.Empty?
    case Drop(c) => c in s.table.channels && s.table.channels[c].receiver.Waiting?
    case Tick(_) => true
  }

  function Apply(s: Sys, step: Step): Sys
    requires Enabled(s, step)
  {
    match step
    case RegisterConn(id) => s.(table := Register(s.table, id).0)
    case Arrive(r, id, grace) => s.(resolvers := s.resolvers[r := Resolver(id, s.now, grace, 0, s.now, Polling(s.now))])
    case Poll(r) =>
      var res := s.resolvers[r];
      var (t, tx) := Take(s.table, res.connId);
      var phase :=
        if tx.Some? then Holding(tx.value)
        else if s.now >= res.start + res.grace then Lost
        else Polling(s.now + EARLY_DATA_RETRY_INTERVAL);
      Sys(t, s.resolvers[r := res.(phase := phase, polls := res.polls + 1, last := s.now)], s.now)
    case Deliver(r) =>
      var res := s.resolvers[r];
      var (t, ok) := Send(s.table, res.phase.chan, r);
      Sys(t, s.resolvers[r := res.(phase := if ok then Delivered(res.phase.chan) else Refused(res.phase.chan))], s.now)
    case CancelConn(id) => s.(table := Cancel(s.table, id))
    case Await(c) => s.(table := Receive(s.table, c))
    case Drop(c) => s.(table := GiveUp(s.table, c))
    case Tick(ms) => s.(now := s.now + ms)
  }

  predicate IsRun(s: Sys, steps: seq<Step>)
    decreases |steps|
  {
    steps == [] || (Enabled(s, steps[0]) && IsRun(Apply(s, steps[0]), steps[1..]))
  }

  function Run(s: Sys, steps: seq<Step>): Sys
    requires IsRun(s, steps)
    decreases |steps|
  {
    if steps == [] then s else Run(Apply(s, steps[0]), steps[1..])
  }

  // ---- Invariants ----------------------------------------------------------------

  predicate InMap(t: Table, c: Chan) {
    c in t.channels && t.channels[c].connId in t.pending && t.pending[t.channels[c].connId] == c
  }

  predicate InHand(s: Sys, c: Chan, r: Data) {
    r in s.resolvers && s.resolvers[r].phase == Holding(c)
  }

  /** A map entry is a sender not yet used, registered under its own id. */
  predicate EntryOk(t: Table, id: ConnId)
    requires id in t.pending
  {
    var c := t.pending[id];
    c in t.channels && t.channels[c].connId == id && t.channels[c].slot.Empty?
  }

  predicate ChannelOk(t: Table, c: Chan)
    requires c in t.channels
  {
    c < t.nextChan && (t.channels[c].receiver.Got? ==> t.channels[c].slot == Full(t.channels[c].receiver.data))
  }

  ghost predicate TableOk(t: Table) {
    && (forall id | id in t.pending :: EntryOk(t, id))
    && (forall c | c in t.channels :: ChannelOk(t, c))
    && |t.pending| <= MAX_PENDING
  }

  /** Senders in hand: unused, out of the map, one resolver each, under the resolver's id. */
  ghost predicate HandsOk(s: Sys) {
    && (forall r, c | InHand(s, c, r) ::
          c in s.table.channels && s.table.channels[c].slot.Empty? && !InMap(s.table, c)
          && s.table.channels[c].connId == s.resolvers[r].connId)
    && (forall r, r', c | InHand(s, c, r) && InHand(s, c, r') :: r == r')
  }

  /** No unused sender is forgotten. */
  ghost predicate NoneForgotten(s: Sys) {
    forall c | c in s.table.channels && s.table.channels[c].slot.Empty? ::
      InMap(s.table, c) || exists r :: InHand(s, c, r)
  }

  /** Whatever lies in a channel was delivered there by its own data connection. */
  ghost predicate DeliveriesOk(s: Sys) {
    forall c | c in s.table.channels && s.table.channels[c].slot.Full? ::
      var d := s.table.channels[c].slot.data;
      d in s.resolvers && s.resolvers[d].phase == Delivered(c) && s.resolvers[d].connId == s.table.channels[c].connId
  }

  /** Retries are spaced out, and a data connection is given up only after its grace period. */
  ghost predicate TimesOk(s: Sys) {
    forall r | r in s.resolvers ::
      var res := s.resolvers[r];
      && res.start <= res.last <= s.now
      && (res.phase.Polling? ==> res.last <= res.phase.wake <= res.last + 10)
      && (res.phase.Polling? ==>
            res.phase.wake >= res.start + EARLY_DATA_RETRY_INTERVAL * res.polls
            && (res.polls > 0 ==> EARLY_DATA_RETRY_INTERVAL * (res.polls - 1) < res.grace))
      && (res.polls > 1 ==> EARLY_DATA_RETRY_INTERVAL * (res.polls - 2) < res.grace)
      && (res.phase.Lost? ==> res.start + res.grace <= s.now)
  }

  ghost predicate Ok(s: Sys) {
    TableOk(s.table) && HandsOk(s) && NoneForgotten(s) && DeliveriesOk(s) && TimesOk(s)
  }

  lemma PruningKeepsEntries(t: Table)
    requires TableOk(t)
    ensures TableOk(AfterPruning(t))
    ensures AfterPruning(t).channels.Keys == t.channels.Keys
    ensures forall c | c in t.channels ::
      var ch, ch' := t.channels[c], AfterPruning(t).channels[c];
      ch'.connId == ch.connId && ch'.receiver == ch.receiver
      && ch'.slot == (if InMap(t, c) && !InMap(AfterPruning(t), c) then Closed else ch.slot)
      && (InMap(AfterPruning(t), c) <==> InMap(t, c) && (|t.pending| >= MAX_PENDING ==> !ch.receiver.Gone?))
  {
    var p := Pruned(t);
    assert p.Keys <= t.pending.Keys;
    SubsetCount(p.Keys, t.pending.Keys);
    forall c | c in t.channels
      ensures c in t.pending.Values - p.Values <==> InMap(t, c) && !InMap(AfterPruning(t), c)
    {
    }
  }

  /** c keeps its id and receiver; its slot changes only by its sender being dropped from the map. */
  predicate DropsAt(t: Table, t': Table, c: Chan)
    requires c in t.channels
  {
    && c in t'.channels
    && t'.channels[c].connId == t.channels[c].connId
    && t'.channels[c].receiver == t.channels[c].receiver
    && t'.channels[c].slot == (if InMap(t, c) && !InMap(t', c) then Closed else t.channels[c].slot)
    && (InMap(t', c) ==> InMap(t, c))
  }

  /** A table operation that only ever drops senders of `t` and leaves its receivers alone. */
  ghost predicate OnlyDrops(t: Table, t': Table) {
    forall c | c in t.channels :: DropsAt(t, t', c)
  }

  lemma PruneOutcome(t: Table)
    requires TableOk(t)
    ensures var p := AfterPruning(t);
      && TableOk(p) && OnlyDrops(t, p) && p.channels.Keys == t.channels.Keys && p.nextChan == t.nextChan
      && (|p.pending| >= MAX_PENDING ==> p == t)
      && (|p.pending| >= MAX_PENDING
          <==> |t.pending| == MAX_PENDING && forall i | i in t.pending :: !IsClosed(t, t.pending[i]))
  {
    var p := AfterPruning(t);
    PruningKeepsEntries(t);
    if |t.pending| >= MAX_PENDING {
      SubsetCount(p.pending.Keys, t.pending.Keys);
      if |p.pending| >= MAX_PENDING {
        SameCount(p.pending.Keys, t.pending.Keys);
        assert p.pending == t.pending;
        assert DropSenders(t.channels, t.pending.Values - p.pending.Values) == t.channels;
      } else {
        assert (forall i | i in t.pending :: !IsClosed(t, t.pending[i])) ==> p.pending == t.pending;
      }
    }
  }

  lemma InsertLeavesOthers(t: Table, id: ConnId, c: Chan)
    requires TableOk(t) && c in t.channels
    ensures DropsAt(t, InsertNew(t, id), c)
    ensures var t' := InsertNew(t, id);
      (InMap(t', c) <==> InMap(t, c) && t.channels[c].connId != id)
      && t'.channels[c]
          == (if InMap(t, c) && t.channels[c].connId == id then t.channels[c].(slot := Closed) else t.channels[c])
  {
    assert ChannelOk(t, c);
    assert c != t.nextChan;
  }

  lemma InsertKeepsTableOk(t: Table, id: ConnId)
    requires TableOk(t) && |t.pending| < MAX_PENDING
    ensures TableOk(InsertNew(t, id))
  {
    var t' := InsertNew(t, id);
    assert t'.pending.Keys == t.pending.Keys + {id};
    forall i | i in t'.pending ensures EntryOk(t', i) {
      if i != id {
        assert EntryOk(t, i);
        InsertLeavesOthers(t, id, t.pending[i]);
      }
    }
    forall c | c in t'.channels ensures ChannelOk(t', c) {
      if c != t.nextChan {
        assert ChannelOk(t, c);
        InsertLeavesOthers(t, id, c);
      }
    }
  }

  lemma InsertOutcome(t: Table, id: ConnId)
    requires TableOk(t) && |t.pending| < MAX_PENDING
    ensures var t', c := InsertNew(t, id), t.nextChan;
      TableOk(t') && OnlyDrops(t, t') && c !in t.channels
  {
    InsertKeepsTableOk(t, id);
    forall c | c in t.channels ensures DropsAt(t, InsertNew(t, id), c) && c != t.nextChan {
      assert ChannelOk(t, c);
      InsertLeavesOthers(t, id, c);
    }
  }

  lemma InsertAdds(t: Table, id: ConnId)
    ensures var t', c := InsertNew(t, id), t.nextChan;
      t'.channels.Keys == t.channels.Keys + {c} && t'.channels[c] == Channel(id, Empty, Waiting) && InMap(t', c)
  {
  }

  lemma OnlyDropsTwice(t: Table, p: Table, t': Table)
    requires OnlyDrops(t, p) && OnlyDrops(p, t')
    ensures OnlyDrops(t, t')
  {
  }

  lemma RegisterUnfolds(t: Table, id: ConnId)
    ensures var p := AfterPruning(t);
      Register(t, id) == if |p.pending| >= MAX_PENDING then (p, None) else (InsertNew(p, id), Some(p.nextChan))
  {
    hide AfterPruning, InsertNew;
  }

  /** Main result on capacity: a registration is refused exactly when all 1024 entries belong to
      receivers that are still open; otherwise a new open channel is registered under the id. */
  lemma RegisterOutcome(t: Table, id: ConnId)
    requires TableOk(t)
    ensures var (t', rx) := Register(t, id);
      && TableOk(t') && OnlyDrops(t, t')
      && (rx.None?
          <==> |t.pending| == 1024 && forall i | i in t.pending :: !t.channels[t.pending[i]].receiver.Gone?)
      && (rx.None? ==> t' == t)
      && (rx.Some? ==> rx.value !in t.channels && t'.channels.Keys == t.channels.Keys + {rx.value}
                       && t'.channels[rx.value] == Channel(id, Empty, Waiting) && InMap(t', rx.value))
  {
    var p := AfterPruning(t);
    PruneOutcome(t);
    RegisterUnfolds(t, id);
    hide Register, AfterPruning, InsertNew, TableOk, OnlyDrops, IsClosed, InMap;
    if |p.pending| < MAX_PENDING {
      InsertOutcome(p, id);
      InsertAdds(p, id);
      OnlyDropsTwice(t, p, InsertNew(p, id));
    }
  }

  lemma CancelOutcome(t: Table, id: ConnId)
    requires TableOk(t)
    ensures TableOk(Cancel(t, id)) && OnlyDrops(t, Cancel(t, id)) && Cancel(t, id).channels.Keys == t.channels.Keys
  {
    if id in t.pending {
      SubsetCount((t.pending - {id}).Keys, t.pending.Keys);
    }
  }

  /** Dropping senders disturbs no resolver and forgets no receiver. */
  lemma DropsKeepOk(s: Sys, t': Table)
    requires Ok(s) && TableOk(t') && OnlyDrops(s.table, t')
    requires forall c | c in t'.channels && c !in s.table.channels :: InMap(t', c) && t'.channels[c].slot.Empty?
    ensures Ok(s.(table := t'))
  {
    var s' := s.(table := t');
    forall r, c ensures InHand(s', c, r) <==> InHand(s, c, r) {}
  }

  lemma PollFindsKeepsOk(s: Sys, r: Data)
    requires Ok(s) && Enabled(s, Poll(r)) && s.resolvers[r].connId in s.table.pending
    ensures Ok(Apply(s, Poll(r)))
  {
    var s' := Apply(s, Poll(r));
    var id := s.resolvers[r].connId;
    var taken := s.table.pending[id];
    assert InMap(s.table, taken);
    forall r', c ensures InHand(s', c, r') <==> if r' == r then c == taken else InHand(s, c, r') {}
    forall c ensures InMap(s'.table, c) <==> InMap(s.table, c) && c != taken {}
    SubsetCount(s'.table.pending.Keys, s.table.pending.Keys);
    assert TableOk(s'.table);
    assert NoneForgotten(s') by {
      assert InHand(s', taken, r);
      forall c, r' | InHand(s, c, r') ensures InHand(s', c, r') {}
    }
  }

  lemma PollMissesKeepsOk(s: Sys, r: Data)
    requires Ok(s) && Enabled(s, Poll(r)) && s.resolvers[r].connId !in s.table.pending
    ensures Ok(Apply(s, Poll(r)))
  {
    var s' := Apply(s, Poll(r));
    assert s'.table == s.table;
    forall r', c ensures InHand(s', c, r') <==> InHand(s, c, r') {}
  }

  lemma DeliverHands(s: Sys, r: Data)
    requires Ok(s) && Enabled(s, Deliver(r))
    ensures var s', c := Apply(s, Deliver(r)), s.resolvers[r].phase.chan;
      && InHand(s, c, r)
      && (forall r', c' :: InHand(s', c', r') <==> r' != r && InHand(s, c', r'))
      && (forall c' :: InMap(s'.table, c') <==> InMap(s.table, c'))
  {
    hide Ok;
    forall r', c' ensures InHand(Apply(s, Deliver(r)), c', r') <==> r' != r && InHand(s, c', r') {}
  }

  lemma DeliverKeepsTableOk(s: Sys, r: Data)
    requires Ok(s) && Enabled(s, Deliver(r))
    ensures TableOk(Apply(s, Deliver(r)).table) && TimesOk(Apply(s, Deliver(r)))
  {
    assert InHand(s, s.resolvers[r].phase.chan, r);
  }

  lemma DeliverKeepsHandsOk(s: Sys, r: Data)
    requires Ok(s) && Enabled(s, Deliver(r))
    ensures HandsOk(Apply(s, Deliver(r))) && NoneForgotten(Apply(s, Deliver(r)))
  {
    DeliverHands(s, r);
    hide InMap, InHand;
  }

  lemma DeliverKeepsDeliveriesOk(s: Sys, r: Data)
    requires Ok(s) && Enabled(s, Deliver(r))
    ensures DeliveriesOk(Apply(s, Deliver(r)))
  {
    assert InHand(s, s.resolvers[r].phase.chan, r);
    hide TableOk, NoneForgotten, TimesOk, InMap;
  }

  lemma DeliverKeepsOk(s: Sys, r: Data)
    requires Ok(s) && Enabled(s, Deliver(r))
    ensures Ok(Apply(s, Deliver(r)))
  {
    DeliverKeepsTableOk(s, r);
    DeliverKeepsHandsOk(s, r);
    DeliverKeepsDeliveriesOk(s, r);
    hide Apply, Enabled, TableOk, HandsOk, NoneForgotten, DeliveriesOk, TimesOk;
  }

  lemma ReceiverKeepsOk(s: Sys, c: Chan, receiver: Receiver)
    requires Ok(s) && c in s.table.channels
    requires receiver.Got? ==> s.table.channels[c].slot == Full(receiver.data)
    ensures Ok(s.(table := s.table.(channels := s.table.channels[c := s.table.channels[c].(receiver := receiver)])))
  {
    var t := s.table;
    var t' := t.(channels := t.channels[c := t.channels[c].(receiver := receiver)]);
    var s' := s.(table := t');
    forall r, c' ensures InHand(s', c', r) <==> InHand(s, c', r) {}
    forall c' ensures InMap(t', c') <==> InMap(t, c') {}
    assert TableOk(t') by {
      forall id | id in t'.pending ensures EntryOk(t', id) { assert EntryOk(t, id); }
      forall c' | c' in t'.channels ensures ChannelOk(t', c') { assert ChannelOk(t, c'); }
    }
  }

  lemma StepKeepsOk(s: Sys, step: Step)
    requires Ok(s) && Enabled(s, step)
    ensures Ok(Apply(s, step))
  {
    match step
    case RegisterConn(id) =>
      RegisterOutcome(s.table, id);
      DropsKeepOk(s, Register(s.table, id).0);
    case CancelConn(id) =>
      CancelOutcome(s.table, id);
      DropsKeepOk(s, Cancel(s.table, id));
    case Poll(r) =>
      if s.resolvers[r].connId in s.table.pending { PollFindsKeepsOk(s, r); } else { PollMissesKeepsOk(s, r); }
    case Deliver(r) => DeliverKeepsOk(s, r);
    case Await(c) =>
      var slot := s.table.channels[c].slot;
      ReceiverKeepsOk(s, c, if slot.Full? then Got(slot.data) else Gone);
    case Drop(c) => ReceiverKeepsOk(s, c, Gone);
    case Arrive(r, id, grace) =>
      var s' := Apply(s, step);
      forall r', c ensures InHand(s', c, r') <==> InHand(s, c, r') {}
    case Tick(_) =>
      var s' := Apply(s, step);
      forall r', c ensures InHand(s', c, r') <==> InHand(s, c, r') {}
  }

  lemma {:induction false} RunKeepsOk(s: Sys, steps: seq<Step>)
    requires Ok(s) && IsRun(s, steps)
    ensures Ok(Run(s, steps))
    decreases |steps|
  {
    if steps != [] {
      StepKeepsOk(s, steps[0]);
      RunKeepsOk(Apply(s, steps[0]), steps[1..]);
    }
  }

  /** Main result: in every run a data stream reaches at most one receiver, and only one that was
      registered under its connection id; a receiver still waiting has its sender in the map or in a
      resolver's hands, or its channel is already filled or closed; the map never exceeds 1024. */
  lemma RendezvousIsSafe(steps: seq<Step>)
    requires IsRun(INIT, steps)
    ensures var s := Run(INIT, steps);
      && (forall c | c in s.table.channels && s.table.channels[c].receiver.Got? ::
            var d := s.table.channels[c].receiver.data;
            d in s.resolvers && s.resolvers[d].connId == s.table.channels[c].connId)
      && (forall c, c' | c in s.table.channels && c' in s.table.channels
                         && s.table.channels[c].receiver.Got? && s.table.channels[c'].receiver.Got?
                         && s.table.channels[c].receiver.data == s.table.channels[c'].receiver.data :: c == c')
      && (forall c | c in s.table.channels && s.table.channels[c].receiver.Waiting? ::
            InMap(s.table, c) || (exists r :: InHand(s, c, r)) || !s.table.channels[c].slot.Empty?)
      && |s.table.pending| <= 1024
  {
    RunKeepsOk(INIT, steps);
  }

  // ---- Arrival order --------------------------------------------------------------

  /** Nothing in the step takes id's registration away from c or from resolver r. */
  predicate Undisturbed(s: Sys, step: Step, id: ConnId, c: Chan, r: Data) {
    match step
    case RegisterConn(id') => id' != id
    case CancelConn(id') => id' != id
    case Poll(r') => r' == r || (r' in s.resolvers && s.resolvers[r'].connId != id)
    case Drop(c') => c' != c
    case _ => true
  }

  ghost predicate UndisturbedRun(s: Sys, steps: seq<Step>, id: ConnId, c: Chan, r: Data)
    requires IsRun(s, steps)
    decreases |steps|
  {
    steps == [] || (Undisturbed(s, steps[0], id, c, r) && UndisturbedRun(Apply(s, steps[0]), steps[1..], id, c, r))
  }

  /** The rendezvous of c and r is still ahead, under way, or done. */
  ghost predicate OnCourse(s: Sys, id: ConnId, c: Chan, r: Data) {
    && r in s.resolvers && s.resolvers[r].connId == id
    && c in s.table.channels && s.table.channels[c].connId == id && !s.table.channels[c].receiver.Gone?
    && match s.resolvers[r].phase
       case Polling(_) => id in s.table.pending && s.table.pending[id] == c
       case Holding(c') => c' == c
       case Delivered(c') => c' == c && s.table.channels[c].slot == Full(r)
       case _ => false
  }

  lemma DropsKeepCourse(s: Sys, t': Table, id: ConnId, c: Chan, r: Data)
    requires Ok(s) && OnCourse(s, id, c, r) && OnlyDrops(s.table, t')
    requires id in s.table.pending && s.table.pending[id] == c ==> id in t'.pending && t'.pending[id] == c
    ensures OnCourse(s.(table := t'), id, c, r)
  {
    if s.resolvers[r].phase.Holding? { assert InHand(s, c, r); }
  }

  lemma OthersStayRegistered(t: Table, id: ConnId, id': ConnId, c: Chan)
    requires TableOk(t) && id != id' && InMap(t, c) && t.channels[c].connId == id && !t.channels[c].receiver.Gone?
    ensures InMap(Register(t, id').0, c) && InMap(Cancel(t, id'), c)
  {
    var p := AfterPruning(t);
    PruneOutcome(t);
    PruningKeepsEntries(t);
    assert InMap(p, c) && p.channels[c].connId == id;
    InsertLeavesOthers(p, id', c);
  }

  lemma PollKeepsCourse(s: Sys, r': Data, id: ConnId, c: Chan, r: Data)
    requires Ok(s) && Enabled(s, Poll(r')) && Undisturbed(s, Poll(r'), id, c, r) && OnCourse(s, id, c, r)
    ensures OnCourse(Apply(s, Poll(r')), id, c, r)
  {
    hide Ok, InMap, InHand;
  }

  lemma DeliverKeepsCourse(s: Sys, r': Data, id: ConnId, c: Chan, r: Data)
    requires HandsOk(s) && Enabled(s, Deliver(r')) && OnCourse(s, id, c, r)
    ensures OnCourse(Apply(s, Deliver(r')), id, c, r)
  {
    assert InHand(s, s.resolvers[r'].phase.chan, r');
    assert s.resolvers[r].phase.Holding? ==> InHand(s, c, r);
  }

  lemma ReceiverKeepsCourse(s: Sys, step: Step, id: ConnId, c: Chan, r: Data)
    requires TableOk(s.table) && HandsOk(s) && Enabled(s, step) && OnCourse(s, id, c, r)
    requires step.Await? || (step.Drop? && step.c != c)
    ensures OnCourse(Apply(s, step), id, c, r)
  {
    assert s.resolvers[r].phase.Holding? ==> InHand(s, c, r);
  }

  lemma OthersKeepCourse(s: Sys, step: Step, id: ConnId, c: Chan, r: Data)
    requires Enabled(s, step) && OnCourse(s, id, c, r) && (step.Arrive? || step.Tick?)
    ensures OnCourse(Apply(s, step), id, c, r)
  {
  }

  lemma StepKeepsCourse(s: Sys, step: Step, id: ConnId, c: Chan, r: Data)
    requires Ok(s) && Enabled(s, step) && Undisturbed(s, step, id, c, r) && OnCourse(s, id, c, r)
    ensures OnCourse(Apply(s, step), id, c, r)
  {
    match step
    case RegisterConn(id') => RegisterKeepsCourse(s, id', id, c, r);
    case CancelConn(id') => CancelKeepsCourse(s, id', id, c, r);
    case Poll(r') => PollKeepsCourse(s, r', id, c, r);
    case Deliver(r') => DeliverKeepsCourse(s, r', id, c, r);
    case Await(_) => ReceiverKeepsCourse(s, step, id, c, r);
    case Drop(_) => ReceiverKeepsCourse(s, step, id, c, r);
    case _ => OthersKeepCourse(s, step, id, c, r);
  }

  lemma RegisterKeepsCourse(s: Sys, id': ConnId, id: ConnId, c: Chan, r: Data)
    requires Ok(s) && id' != id && OnCourse(s, id, c, r)
    ensures OnCourse(Apply(s, RegisterConn(id')), id, c, r)
  {
    RegisterOutcome(s.table, id');
    if InMap(s.table, c) { OthersStayRegistered(s.table, id, id', c); }
    hide Register;
    DropsKeepCourse(s, Register(s.table, id').0, id, c, r);
  }

  lemma CancelKeepsCourse(s: Sys, id': ConnId, id: ConnId, c: Chan, r: Data)
    requires Ok(s) && id' != id && OnCourse(s, id, c, r)
    ensures OnCourse(Apply(s, CancelConn(id')), id, c, r)
  {
    CancelOutcome(s.table, id');
    if InMap(s.table, c) { OthersStayRegistered(s.table, id, id', c); }
    hide Cancel;
    DropsKeepCourse(s, Cancel(s.table, id'), id, c, r);
  }

  lemma {:induction false} RunKeepsCourse(s: Sys, steps: seq<Step>, id: ConnId, c: Chan, r: Data)
    requires Ok(s) && IsRun(s, steps) && UndisturbedRun(s, steps, id, c, r) && OnCourse(s, id, c, r)
    ensures OnCourse(Run(s, steps), id, c, r)
    decreases |steps|
  {
    if steps != [] {
      StepKeepsOk(s, steps[0]);
      StepKeepsCourse(s, steps[0], id, c, r);
      RunKeepsCourse(Apply(s, steps[0]), steps[1..], id, c, r);
    }
  }

  /** Main result: arrival order does not matter. If a registration for r's id exists while r still has
      a poll to make, whichever of the two came first, then however an undisturbed run goes on, r is
      never lost: when it has finished, that receiver's channel holds its stream. */
  lemma ArrivalOrderDoesNotMatter(before: seq<Step>, after: seq<Step>, id: ConnId, r: Data)
    requires IsRun(INIT, before)
    requires var s := Run(INIT, before);
      id in s.table.pending && !IsClosed(s.table, s.table.pending[id])
      && r in s.resolvers && s.resolvers[r].connId == id && s.resolvers[r].phase.Polling?
      && IsRun(s, after) && UndisturbedRun(s, after, id, s.table.pending[id], r)
    ensures var c, s' := Run(INIT, before).table.pending[id], Run(Run(INIT, before), after);
      && r in s'.resolvers && c in s'.table.channels
      && (s'.resolvers[r].phase.Polling? || s'.resolvers[r].phase == Holding(c)
          || s'.resolvers[r].phase == Delivered(c))
      && (s'.resolvers[r].phase.Delivered? ==> s'.table.channels[c].slot == Full(r))
  {
    RunKeepsOk(INIT, before);
    var s := Run(INIT, before);
    RunKeepsCourse(s, after, id, s.table.pending[id], r);
  }

  /** A data connection that has not found its sender looks again within ten milliseconds of its last look. */
  lemma NextPollIsSoon(steps: seq<Step>, r: Data)
    requires IsRun(INIT, steps) && r in Run(INIT, steps).resolvers && Run(INIT, steps).resolvers[r].phase.Polling?
    ensures var s := Run(INIT, steps);
      s.resolvers[r].phase.wake <= s.resolvers[r].last + 10 <= s.now + 10
  {
    RunKeepsOk(INIT, steps);
  }

  /** r is not kept waiting: no time passes beyond the moment its next poll is due, or while it has the
      sender in hand. */
  predicate Prompt(s: Sys, step: Step, r: Data) {
    step.Tick? && r in s.resolvers ==>
      match s.resolvers[r].phase
      case Polling(wake) => s.now + step.ms <= wake
      case Holding(_) => step.ms == 0
      case _ => true
  }

  predicate PromptRun(s: Sys, steps: seq<Step>, r: Data)
    requires IsRun(s, steps)
    decreases |steps|
  {
    steps == [] || (Prompt(s, steps[0], r) && PromptRun(Apply(s, steps[0]), steps[1..], r))
  }

  /** r's business is over by `limit`. */
  predicate InTime(s: Sys, r: Data, limit: nat) {
    r in s.resolvers
    && match s.resolvers[r].phase
       case Polling(wake) => wake <= limit && s.now <= limit
       case Holding(_) => s.now <= limit
       case _ => true
  }

  lemma StepStaysInTime(s: Sys, step: Step, id: ConnId, c: Chan, r: Data, limit: nat)
    requires Enabled(s, step) && OnCourse(s, id, c, r) && Prompt(s, step, r) && InTime(s, r, limit)
    ensures InTime(Apply(s, step), r, limit)
  {
    hide Register, Cancel, Send, Receive, GiveUp;
  }

  lemma {:induction false} RunStaysInTime(s: Sys, steps: seq<Step>, id: ConnId, c: Chan, r: Data, limit: nat)
    requires Ok(s) && IsRun(s, steps) && UndisturbedRun(s, steps, id, c, r) && OnCourse(s, id, c, r)
    requires PromptRun(s, steps, r) && InTime(s, r, limit)
    ensures InTime(Run(s, steps), r, limit)
    decreases |steps|
  {
    hide Ok, Apply, Enabled, OnCourse, Prompt, InTime, Undisturbed;
    if steps != [] {
      StepKeepsOk(s, steps[0]);
      StepKeepsCourse(s, steps[0], id, c, r);
      StepStaysInTime(s, steps[0], id, c, r, limit);
      RunStaysInTime(Apply(s, steps[0]), steps[1..], id, c, r, limit);
    }
  }

  /** Main result: a stream that came early is delivered within ten milliseconds of the registration it was
      waiting for, however the run goes on, if nothing takes the registration away and its own polls are
      not delayed. It is still waiting if its grace period has not passed. */
  lemma EarlyDataIsOnTime(before: seq<Step>, after: seq<Step>, id: ConnId, r: Data)
    requires IsRun(INIT, before)
    requires var s := Run(INIT, before);
      id in s.table.pending && !IsClosed(s.table, s.table.pending[id]) && r in s.resolvers
      && var res := s.resolvers[r];
         && res.connId == id && (res.phase.Polling? || (res.phase.Lost? && s.now < res.start + res.grace))
         && IsRun(s, after) && UndisturbedRun(s, after, id, s.table.pending[id], r) && PromptRun(s, after, r)
    ensures var (s, s') := (Run(INIT, before), Run(Run(INIT, before), after));
      s'.now > s.now + 10 ==>
        var c := s.table.pending[id];
        && r in s'.resolvers && s'.resolvers[r].phase == Delivered(c)
        && c in s'.table.channels && s'.table.channels[c].slot == Full(r)
  {
    RunKeepsOk(INIT, before);
    var s := Run(INIT, before);
    assert s.resolvers[r].phase.Polling?;
    NextPollIsSoon(before, r);
    RunStaysInTime(s, after, id, s.table.pending[id], r, s.now + 10);
    ArrivalOrderDoesNotMatter(before, after, id, r);
  }

  function Until(s: Sys, time: nat): Step { Tick(if time <= s.now then 0 else time - s.now) }

  /** ... and it can always finish: at its next poll, at most ten milliseconds away, r gets the sender, and
      the receiver its stream. */
  lemma PollingDelivers(before: seq<Step>, c: Chan, r: Data)
    requires IsRun(INIT, before)
    requires var s := Run(INIT, before);
      InMap(s.table, c) && s.table.channels[c].receiver.Waiting?
      && r in s.resolvers && s.resolvers[r].connId == s.table.channels[c].connId && s.resolvers[r].phase.Polling?
    ensures var s := Run(INIT, before);
      var steps := [Until(s, s.resolvers[r].phase.wake), Poll(r), Deliver(r), Await(c)];
      IsRun(s, steps) && HasGot(Run(s, steps), c, r) && Run(s, steps).now <= s.now + 10
  {
    RunKeepsOk(INIT, before);
    NextPollIsSoon(before, r);
    var s := Run(INIT, before);
    assert EntryOk(s.table, s.resolvers[r].connId);
    var wake := s.resolvers[r].phase.wake;
    var wait := Until(s, wake);
    hide IsRun, Run, Ok, Apply, Enabled;
    var s1 := Ticks(s, wait.ms);
    var s2 := PollTakes(s1, c, r);
    var s3 := DeliverFills(s2, c, r);
    var s4 := AwaitGets(s3, c, r);
    EndOfRun(s4);
    OneThen(s3, Await(c), []);
    OneThen(s2, Deliver(r), [Await(c)]);
    OneThen(s1, Poll(r), [Deliver(r), Await(c)]);
    OneThen(s, wait, [Poll(r), Deliver(r), Await(c)]);
  }

  lemma EndOfRun(s: Sys)
    ensures IsRun(s, []) && Run(s, []) == s
  {
  }

  lemma OneThen(s: Sys, step: Step, rest: seq<Step>)
    requires Enabled(s, step) && IsRun(Apply(s, step), rest)
    ensures IsRun(s, [step] + rest) && Run(s, [step] + rest) == Run(Apply(s, step), rest)
  {
    hide Apply, Enabled;
    assert ([step] + rest)[1..] == rest;
  }

  lemma Ticks(s: Sys, ms: nat) returns (s': Sys)
    ensures Enabled(s, Tick(ms)) && s' == Apply(s, Tick(ms)) == s.(now := s.now + ms)
  {
    s' := s.(now := s.now + ms);
  }

  lemma PollTakes(s: Sys, c: Chan, r: Data) returns (s': Sys)
    requires InMap(s.table, c) && r in s.resolvers && s.resolvers[r].connId == s.table.channels[c].connId
    requires s.resolvers[r].phase.Polling? && s.resolvers[r].phase.wake <= s.now
    ensures Enabled(s, Poll(r)) && s' == Apply(s, Poll(r))
    ensures InHand(s', c, r) && s'.table.channels == s.table.channels && s'.now == s.now
  {
    s' := Apply(s, Poll(r));
  }

  lemma DeliverFills(s: Sys, c: Chan, r: Data) returns (s': Sys)
    requires InHand(s, c, r) && c in s.table.channels && s.table.channels[c].receiver.Waiting?
    ensures Enabled(s, Deliver(r)) && s' == Apply(s, Deliver(r))
    ensures c in s'.table.channels && s'.table.channels[c] == s.table.channels[c].(slot := Full(r))
    ensures s'.now == s.now
  {
    s' := Apply(s, Deliver(r));
  }

  lemma AwaitGets(s: Sys, c: Chan, r: Data) returns (s': Sys)
    requires c in s.table.channels && s.table.channels[c].receiver.Waiting? && s.table.channels[c].slot == Full(r)
    ensures Enabled(s, Await(c)) && s' == Apply(s, Await(c)) && HasGot(s', c, r) && s'.now == s.now
  {
    s' := Apply(s, Await(c));
  }

  predicate HasGot(s: Sys, c: Chan, r: Data) {
    c in s.table.channels && s.table.channels[c].receiver == Got(r)
  }

  /** The retry loop is bounded: whatever becomes of it, a data connection takes the lock at most once
      more than its grace period holds retry intervals, counting a last partial one: once without
      grace, 101 times with the second that `ConnectReady` gets. */
  lemma PollsAreBounded(steps: seq<Step>, r: Data)
    requires IsRun(INIT, steps) && r in Run(INIT, steps).resolvers
    ensures var res := Run(INIT, steps).resolvers[r];
      res.polls <= (res.grace + EARLY_DATA_RETRY_INTERVAL - 1) / EARLY_DATA_RETRY_INTERVAL + 1
  {
    RunKeepsOk(INIT, steps);
  }

  /** How often r takes the lock in a run. */
  function PollCount(steps: seq<Step>, r: Data): nat {
    if steps == [] then 0
    else (if steps[|steps| - 1] == Poll(r) then 1 else 0) + PollCount(steps[..|steps| - 1], r)
  }

  lemma {:induction false} RunPrefix(s: Sys, steps: seq<Step>)
    requires IsRun(s, steps) && steps != []
    ensures var (before, last) := (steps[..|steps| - 1], steps[|steps| - 1]);
      IsRun(s, before) && Enabled(Run(s, before), last) && Run(s, steps) == Apply(Run(s, before), last)
    decreases |steps|
  {
    hide Enabled, Apply;
    if |steps| > 1 {
      RunPrefix(Apply(s, steps[0]), steps[1..]);
      assert steps[1..][..|steps| - 2] == steps[..|steps| - 1][1..];
    } else {
      assert steps[1..] == [] && steps[..0] == [];
    }
  }

  /** `polls` is that number. */
  lemma {:induction false} PollsAreCounted(steps: seq<Step>, r: Data)
    requires IsRun(INIT, steps)
    ensures if r in Run(INIT, steps).resolvers then Run(INIT, steps).resolvers[r].polls == PollCount(steps, r)
            else PollCount(steps, r) == 0
    decreases |steps|
  {
    if steps != [] {
      RunPrefix(INIT, steps);
      PollsAreCounted(steps[..|steps| - 1], r);
    }
  }

  /** A receiver ends once: what it got it keeps, and once gone it stays gone. */
  lemma {:induction false} ReceiversEndOnce(s: Sys, steps: seq<Step>, c: Chan)
    requires Ok(s) && IsRun(s, steps) && c in s.table.channels && !s.table.channels[c].receiver.Waiting?
    ensures c in Run(s, steps).table.channels
    ensures Run(s, steps).table.channels[c].receiver == s.table.channels[c].receiver
    decreases |steps|
  {
    hide Ok, Apply, Enabled;
    if steps != [] {
      StepKeepsOk(s, steps[0]);
      ReceiverStays(s, steps[0], c);
      ReceiversEndOnce(Apply(s, steps[0]), steps[1..], c);
    }
  }

  lemma ReceiverStays(s: Sys, step: Step, c: Chan)
    requires Ok(s) && Enabled(s, step) && c in s.table.channels && !s.table.channels[c].receiver.Waiting?
    ensures c in Apply(s, step).table.channels
    ensures Apply(s, step).table.channels[c].receiver == s.table.channels[c].receiver
  {
    hide HandsOk, NoneForgotten, DeliveriesOk, TimesOk, Register, Cancel;
    match step
    case RegisterConn(id) => RegisterOutcome(s.table, id);
    case CancelConn(id) => CancelOutcome(s.table, id);
    case _ =>
  }

  // ---- What is always possible --------------------------------------------------------------------

  /** r has come first and is waiting for id to be registered, which it now is, as c. */
  ghost predicate IsEarly(s: Sys, id: ConnId, c: Chan, r: Data) {
    && Ok(s) && r in s.resolvers && s.resolvers[r].connId == id && s.resolvers[r].phase == Polling(s.now + 10)
    && InMap(s.table, c) && s.table.channels[c].connId == id && s.table.channels[c].receiver.Waiting?
  }

  lemma ArrivesAndWaits(s: Sys, id: ConnId, r: Data) returns (s1: Sys, s2: Sys)
    requires Ok(s) && r !in s.resolvers && id !in s.table.pending
    ensures Enabled(s, Arrive(r, id, 1000)) && s1 == Apply(s, Arrive(r, id, 1000))
    ensures Enabled(s1, Poll(r)) && s2 == Apply(s1, Poll(r)) && Ok(s2)
    ensures s2 == s.(resolvers := s.resolvers[r := Resolver(id, s.now, 1000, 1, s.now, Polling(s.now + 10))])
  {
    hide Ok;
    s1 := Apply(s, Arrive(r, id, 1000));
    s2 := Apply(s1, Poll(r));
    StepKeepsOk(s, Arrive(r, id, 1000));
    StepKeepsOk(s1, Poll(r));
  }

  /** In every reachable state with room a data stream can come before its connection is registered. */
  lemma DataComesEarly(before: seq<Step>, id: ConnId, r: Data) returns (s': Sys)
    requires IsRun(INIT, before)
    requires var s := Run(INIT, before);
      r !in s.resolvers && id !in s.table.pending && |s.table.pending| < 1024
    ensures var (s, steps) := (Run(INIT, before), [Arrive(r, id, 1000), Poll(r), RegisterConn(id)]);
      IsRun(s, steps) && s' == Run(s, steps) && s'.now == s.now && IsEarly(s', id, s.table.nextChan, r)
  {
    hide IsRun, Run, Ok, Register, InsertNew;
    RunKeepsOk(INIT, before);
    var s := Run(INIT, before);
    var s1, s2 := ArrivesAndWaits(s, id, r);
    s' := Apply(s2, RegisterConn(id));
    StepKeepsOk(s2, RegisterConn(id));
    RegistersWithRoom(s.table, id);
    EndOfRun(s');
    OneThen(s2, RegisterConn(id), []);
    assert [RegisterConn(id)] + [] == [RegisterConn(id)];
    OneThen(s1, Poll(r), [RegisterConn(id)]);
    assert [Poll(r)] + [RegisterConn(id)] == [Poll(r), RegisterConn(id)];
    OneThen(s, Arrive(r, id, 1000), [Poll(r), RegisterConn(id)]);
    assert [Arrive(r, id, 1000)] + [Poll(r), RegisterConn(id)] == [Arrive(r, id, 1000), Poll(r), RegisterConn(id)];
  }

  lemma RegistersWithRoom(t: Table, id: ConnId)
    requires |t.pending| < 1024
    ensures Register(t, id) == (InsertNew(t, id), Some(t.nextChan))
    ensures var t' := InsertNew(t, id);
      InMap(t', t.nextChan) && t'.channels[t.nextChan] == Channel(id, Empty, Waiting)
  {
    assert t.pending.Values - t.pending.Values == {};
    assert AfterPruning(t) == t;
  }

  /** Main result: a data stream that came first meets its client: ten milliseconds on it is delivered, by a
      continuation in which nothing is disturbed or delayed; and if the client has left meanwhile it is refused. */
  lemma EarlyDataMeetsItsClient(s: Sys, id: ConnId, c: Chan, r: Data)
    requires IsEarly(s, id, c, r)
    ensures var steps := [Tick(10), Poll(r), Deliver(r), Await(c)];
      && IsRun(s, steps) && UndisturbedRun(s, steps, id, c, r) && PromptRun(s, steps, r)
      && HasGot(Run(s, steps), c, r)
    ensures var steps := [Drop(c), Tick(10), Poll(r), Deliver(r)];
      && IsRun(s, steps) && r in Run(s, steps).resolvers && Run(s, steps).resolvers[r].phase == Refused(c)
  {
    hide IsRun, Run, Ok, UndisturbedRun, PromptRun;
    var s1 := Ticks(s, 10);
    var s2 := PollTakes(s1, c, r);
    var s3 := DeliverFills(s2, c, r);
    var s4 := AwaitGets(s3, c, r);
    EndOfRun(s4);
    OneCalm(s3, Await(c), [], id, c, r);
    assert [Await(c)] + [] == [Await(c)];
    OneCalm(s2, Deliver(r), [Await(c)], id, c, r);
    assert [Deliver(r)] + [Await(c)] == [Deliver(r), Await(c)];
    OneCalm(s1, Poll(r), [Deliver(r), Await(c)], id, c, r);
    assert [Poll(r)] + [Deliver(r), Await(c)] == [Poll(r), Deliver(r), Await(c)];
    OneCalm(s, Tick(10), [Poll(r), Deliver(r), Await(c)], id, c, r);
    assert [Tick(10)] + [Poll(r), Deliver(r), Await(c)] == [Tick(10), Poll(r), Deliver(r), Await(c)];
    LeftIsRefused(s, id, c, r);
  }

  lemma OneCalm(s: Sys, step: Step, rest: seq<Step>, id: ConnId, c: Chan, r: Data)
    requires Enabled(s, step) && Undisturbed(s, step, id, c, r) && Prompt(s, step, r)
    requires IsRun(Apply(s, step), rest)
    requires rest == [] || (UndisturbedRun(Apply(s, step), rest, id, c, r) && PromptRun(Apply(s, step), rest, r))
    ensures IsRun(s, [step] + rest) && Run(s, [step] + rest) == Run(Apply(s, step), rest)
    ensures UndisturbedRun(s, [step] + rest, id, c, r) && PromptRun(s, [step] + rest, r)
  {
    hide Apply, Enabled, Undisturbed, Prompt;
    assert ([step] + rest)[1..] == rest;
  }

  lemma LeftIsRefused(s: Sys, id: ConnId, c: Chan, r: Data)
    requires IsEarly(s, id, c, r)
    ensures var steps := [Drop(c), Tick(10), Poll(r), Deliver(r)];
      && IsRun(s, steps) && r in Run(s, steps).resolvers && Run(s, steps).resolvers[r].phase == Refused(c)
  {
    hide IsRun, Run, Ok;
    var s1 := Apply(s, Drop(c));
    var s2 := Ticks(s1, 10);
    var s3 := PollTakes(s2, c, r);
    var s4 := Apply(s3, Deliver(r));
    EndOfRun(s4);
    OneThen(s3, Deliver(r), []);
    assert [Deliver(r)] + [] == [Deliver(r)];
    OneThen(s2, Poll(r), [Deliver(r)]);
    assert [Poll(r)] + [Deliver(r)] == [Poll(r), Deliver(r)];
    OneThen(s1, Tick(10), [Poll(r), Deliver(r)]);
    assert [Tick(10)] + [Poll(r), Deliver(r)] == [Tick(10), Poll(r), Deliver(r)];
    OneThen(s, Drop(c), [Tick(10), Poll(r), Deliver(r)]);
    assert [Drop(c)] + [Tick(10), Poll(r), Deliver(r)] == [Drop(c), Tick(10), Poll(r), Deliver(r)];
  }
}
