/** Matching client connections with reverse data connections (`src/host/proxy.rs`).

    `Table` is the map of pending connections together with the one-shot channels its senders
    belong to. Pure functions give the effect of each lock section and channel operation; class
    `PendingConnections` performs them in place. */
module Rendezvous {
  import opened Wrappers

  type ConnId = string
  type Chan = nat     // identity of a one-shot channel
  type Data = nat     // identity of a data connection

  const MAX_PENDING: nat := 1024

  /** `Closed`: the sender was dropped without sending. */
  datatype Slot = Empty | Full(data: Data) | Closed

  /** `Gone`: the receiver was dropped, or saw the closed channel. */
  datatype Receiver = Waiting | Got(data: Data) | Gone

  datatype Channel = Channel(connId: ConnId, slot: Slot, receiver: Receiver)

  datatype Table = Table(pending: map<ConnId, Chan>, channels: map<Chan, Channel>, nextChan: Chan)

  // ---- Effects ---------------------------------------------------------------

  /** Senders of these channels are dropped. */
  function DropSenders(channels: map<Chan, Channel>, dropped: set<Chan>): map<Chan, Channel> {
    map c | c in channels ::
      if c in dropped && channels[c].slot.Empty? then channels[c].(slot := Closed) else channels[c]
  }

  predicate IsClosed(t: Table, c: Chan) {
    c in t.channels && t.channels[c].receiver.Gone?
  }

  /** Entries whose receiver has been dropped are removed, but only at capacity. */
  function Pruned(t: Table): map<ConnId, Chan> {
    if |t.pending| >= MAX_PENDING then map id | id in t.pending && !IsClosed(t, t.pending[id]) :: t.pending[id]
    else t.pending
  }

  function AfterPruning(t: Table): Table {
    t.(pending := Pruned(t), channels := DropSenders(t.channels, t.pending.Values - Pruned(t).Values))
  }

  /** A new channel under `id`. A sender already registered there is replaced, which drops it. */
  function InsertNew(t: Table, id: ConnId): Table {
    var channels := if id in t.pending then DropSenders(t.channels, {t.pending[id]}) else t.channels;
    Table(t.pending[id := t.nextChan], channels[t.nextChan := Channel(id, Empty, Waiting)], t.nextChan + 1)
  }

  /** `register_pending`: a new channel, unless the map is full of open receivers. */
  function Register(t: Table, id: ConnId): (Table, Option<Chan>) {
    var p := AfterPruning(t);
    if |p.pending| >= MAX_PENDING then (p, None) else (InsertNew(p, id), Some(p.nextChan))
  }

  /** The lock section of the resolvers: the sender leaves the map. */
  function Take(t: Table, id: ConnId): (Table, Option<Chan>) {
    if id in t.pending then (t.(pending := t.pending - {id}), Some(t.pending[id])) else (t, None)
  }

  /** `tx.send(data)`: fails when the receiver is gone. */
  function Send(t: Table, c: Chan, data: Data): (Table, bool)
    requires c in t.channels
  {
    var open := !t.channels[c].receiver.Gone?;
    (t.(channels := t.channels[c := t.channels[c].(slot := if open then Full(data) else Closed)]), open)
  }

  /** `cancel_pending`. */
  function Cancel(t: Table, id: ConnId): Table {
    if id in t.pending then
      t.(pending := t.pending - {id}, channels := DropSenders(t.channels, {t.pending[id]}))
    else t
  }

  /** The awaiting side sees what the channel holds. */
  function Receive(t: Table, c: Chan): Table
    requires c in t.channels && !t.channels[c].slot.Empty?
  {
    var ch := t.channels[c];
    t.(channels := t.channels[c := ch.(receiver := if ch.slot.Full? then Got(ch.slot.data) else Gone)])
  }

  /** The receiver is dropped: timeout, or the proxy task is force-closed. */
  function GiveUp(t: Table, c: Chan): Table
    requires c in t.channels
  {
    t.(channels := t.channels[c := t.channels[c].(receiver := Gone)])
  }

  // ---- The map in place ---------------------------------------------------------

  /** How `bridge_connection` ends its wait. */
  datatype Outcome = Bridged(data: Data) | ConnectFailed | ConnectTimeout

  class PendingConnections {
    var pending: map<ConnId, Chan>
    var channels: map<Chan, Channel>
    var nextChan: Chan

    ghost function View(): Table
      reads this
    {
      Table(pending, channels, nextChan)
    }

    constructor ()
      ensures View() == Table(map[], map[], 0)
    {
      pending, channels, nextChan := map[], map[], 0;
    }

    /** Dropping a sender closes its channel if nothing was sent. */
    method DropSender(c: Chan)
      modifies this`channels
      ensures channels == DropSenders(old(channels), {c})
    {
      if c in channels && channels[c].slot.Empty? {
        channels := channels[c := channels[c].(slot := Closed)];
      }
      assert channels.Keys == old(channels).Keys;
    }

    method RegisterPending(id: ConnId) returns (rx: Option<Chan>)
      modifies this
      ensures (View(), rx) == Register(old(View()), id)
    {
      if |pending| >= MAX_PENDING {
        var kept := map i | i in pending && !(pending[i] in channels && channels[pending[i]].receiver.Gone?) ::
                      pending[i];
        assert kept == Pruned(View());
        channels := DropSenders(channels, pending.Values - kept.Values);
        pending := kept;
        if |pending| >= MAX_PENDING {
          return None;
        }
      } else {
        assert DropSenders(channels, pending.Values - pending.Values) == channels;
      }
      if id in pending {
        DropSender(pending[id]);
      }
      var c := nextChan;
      channels := channels[c := Channel(id, Empty, Waiting)];
      pending := pending[id := c];
      nextChan := c + 1;
      return Some(c);
    }

    /** The lock section shared by the two resolvers. */
    method TakeSender(id: ConnId) returns (tx: Option<Chan>)
      modifies this
      ensures (View(), tx) == Take(old(View()), id)
    {
      tx := None;
      if id in pending {
        tx := Some(pending[id]);
        pending := pending - {id};
      }
    }

    method SendData(c: Chan, data: Data) returns (delivered: bool)
      requires c in channels
      modifies this
      ensures (View(), delivered) == Send(old(View()), c, data)
    {
      delivered := !channels[c].receiver.Gone?;
      channels := channels[c := channels[c].(slot := if delivered then Full(data) else Closed)];
    }

    /** `resolve_pending`, undisturbed: true exactly when a registered receiver gets the data. */
    method ResolvePending(id: ConnId, data: Data) returns (delivered: bool)
      requires id in pending ==> pending[id] in channels
      modifies this
      ensures id !in old(pending) ==> !delivered && View() == old(View())
      ensures id in old(pending) ==>
        var c := old(pending)[id];
        && id !in pending
        && (delivered <==> !old(channels)[c].receiver.Gone?)
        && c in channels && (delivered ==> channels[c] == old(channels)[c].(slot := Full(data)))
        && (forall c' | c' in old(channels) && c' != c :: c' in channels && channels[c'] == old(channels)[c'])
    {
      var tx := TakeSender(id);
      if tx.None? {
        assert pending == old(pending);
        return false;
      }
      delivered := SendData(tx.value, data);
    }

    method CancelPending(id: ConnId)
      modifies this
      ensures View() == Cancel(old(View()), id)
    {
      if id in pending {
        var c := pending[id];
        pending := pending - {id};
        DropSender(c);
      }
    }

    /** The wait of `bridge_connection`: the channel decides, or the clock does. */
    method AwaitData(id: ConnId, c: Chan, timedOut: bool) returns (r: Outcome)
      requires c in channels && (channels[c].slot.Empty? ==> timedOut)
      modifies this
      ensures r.Bridged? <==> old(channels)[c].slot.Full?
      ensures r.Bridged? ==> r.data == old(channels)[c].slot.data && View() == Receive(old(View()), c)
      ensures r.ConnectFailed? <==> old(channels)[c].slot.Closed?
      ensures !r.Bridged? ==> View() == Cancel(GiveUp(old(View()), c), id)
    {
      var ch := channels[c];
      match ch.slot {
        case Full(data) =>
          channels := channels[c := ch.(receiver := Got(data))];
          return Bridged(data);
        case Closed =>
          channels := channels[c := ch.(receiver := Gone)];
          CancelPending(id);
          return ConnectFailed;
        case Empty =>
          channels := channels[c := ch.(receiver := Gone)];
          CancelPending(id);
          return ConnectTimeout;
      }
    }
  }

  // ---- The retry loop ---------------------------------------------------------------

  const EARLY_DATA_GRACE_PERIOD: nat := 1000
  const EARLY_DATA_RETRY_INTERVAL: nat := 10

  /** When the k-th look at the map takes place, if it comes `lag(k)` later than it could. */
  function LookTime(start: nat, lag: nat -> nat, k: nat): (t: nat)
    ensures t >= start + 10 * k
  {
    if k == 0 then start + lag(0) else LookTime(start, lag, k - 1) + 10 + lag(k)
  }

  lemma LookTimes(start: nat, lag: nat -> nat, k: nat)
    ensures LookTime(start, lag, 0) == start + lag(0)
    ensures LookTime(start, lag, k + 1) == LookTime(start, lag, k) + 10 + lag(k + 1)
  {
  }

  /** `resolve_pending_with_grace`. `present(k)` is what the k-th look at the map finds. It looks at once and
      then every ten milliseconds, until the grace period is over. */
  method ResolveWithGrace(start: nat, lag: nat -> nat, present: nat -> Option<Chan>)
    returns (tx: Option<Chan>, polls: nat, now: nat)
    ensures 1 <= polls <= 101 && now == LookTime(start, lag, polls - 1)
    ensures forall j: nat | j < polls - 1 :: present(j).None? && LookTime(start, lag, j) < start + 1000
    ensures tx == present(polls - 1)
    ensures tx.None? ==> now >= start + 1000
  {
    hide LookTime;
    var deadline := start + EARLY_DATA_GRACE_PERIOD;
    now := start + lag(0);
    polls := 0;
    LookTimes(start, lag, 0);
    while true
      invariant polls <= 100 && now == LookTime(start, lag, polls)
      invariant forall j: nat | j < polls :: present(j).None? && LookTime(start, lag, j) < deadline
      decreases 100 - polls
    {
      LookTimes(start, lag, polls);
      tx := present(polls);
      polls := polls + 1;
      if tx.Some? || now >= deadline {
        return;
      }
      now := now + EARLY_DATA_RETRY_INTERVAL + lag(polls);
    }
  }
}
