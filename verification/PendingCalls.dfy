/**
 Matching responses to calls (agent/client.go, remote/client.go): a table of pending calls, each
 with a channel of one slot; callers, the reader, timeouts and hang-ups interleave arbitrarily. The
 agent client and the remote client share this code; only the remote one can be closed without
 draining.
 */
module PendingCalls {
  import opened Common

  const UNAVAILABLE: Bytes := [117, 110, 97, 118, 97, 105, 108, 97, 98, 108, 101]

  /** The part of a frame a caller looks at. */
  datatype Reply = Reply(seqno: nat, status: Bytes, extra: Bytes)

  /** Channel i was made by the i-th call; the call's sequence number is i + 1. */
  datatype Table = Table(pending: map<nat, nat>, closed: bool, chans: seq<seq<Reply>>)

  predicate Kept(t: Table) {
    forall s :: s in t.pending ==> s > 0 && t.pending[s] == s - 1 < |t.chans|
  }

  // ------------------------------------------------------------- Critical sections

  function Register(t: Table, seqno: nat, chan: nat): (Table, bool) {
    if t.closed then (t, false) else (t.(pending := t.pending[seqno := chan]), true)
  }

  function Withdraw(t: Table, seqno: nat): Table {
    t.(pending := t.pending - {seqno})
  }

  function TakeResponse(t: Table, reply: Reply): (Table, Option<nat>) {
    (t.(pending := t.pending - {reply.seqno}), if reply.seqno in t.pending then Some(t.pending[reply.seqno]) else None)
  }

  function Push(t: Table, chan: nat, reply: Reply): Table
    requires chan < |t.chans|
  {
    t.(chans := t.chans[chan := t.chans[chan] + [reply]])
  }

  function WakeUp(t: Table, chan: nat, status: Bytes): seq<Reply> {
    if chan + 1 in t.pending then [Reply(chan + 1, status, [])] else []
  }

  /** Close the table, waking every pending call with its own sequence number. */
  function Drain(t: Table, status: Bytes): Table {
    Table(map[], true, seq(|t.chans|, i requires 0 <= i < |t.chans| => t.chans[i] + WakeUp(t, i, status)))
  }

  /** A channel part way through a drain: its call has been woken once it is out of the table. */
  function Woken(t: Table, left: map<nat, nat>, chan: nat, status: Bytes): seq<Reply>
    requires chan < |t.chans|
  {
    t.chans[chan] + if chan + 1 in left then [] else WakeUp(t, chan, status)
  }

  lemma WakesOne(t: Table, left: map<nat, nat>, seqno: nat, chan: nat, status: Bytes)
    requires Kept(t) && seqno in left && seqno in t.pending && t.pending[seqno] == chan
    ensures chan < |t.chans|
            && Woken(t, left - {seqno}, chan, status) == Woken(t, left, chan, status) + [Reply(seqno, status, [])]
    ensures forall i :: 0 <= i < |t.chans| && i != chan ==>
            Woken(t, left - {seqno}, i, status) == Woken(t, left, i, status)
  {
  }

  lemma AllLeft(t: Table, status: Bytes)
    ensures forall i :: 0 <= i < |t.chans| ==> Woken(t, t.pending, i, status) == t.chans[i]
  {
  }

  lemma NoneLeft(t: Table, status: Bytes)
    ensures forall i :: 0 <= i < |t.chans| ==> Woken(t, map[], i, status) == Drain(t, status).chans[i]
  {
  }

  class Client {
    var pending: map<nat, nat>
    var closed: bool
    var chans: seq<seq<Reply>>

    function State(): Table
      reads this
    {
      Table(pending, closed, chans)
    }

    /** Every entry is the channel its own call made. */
    predicate Valid()
      reads this
    {
      Kept(State())
    }

    constructor ()
      ensures Valid() && State() == Table(map[], false, [])
    {
      pending, closed, chans := map[], false, [];
    }

    method Enter(seqno: nat, chan: nat) returns (ok: bool)
      requires Valid() && seqno == chan + 1 && chan < |chans|
      modifies this
      ensures Valid() && (State(), ok) == Register(old(State()), seqno, chan)
    {
      if closed {
        return false;
      }
      pending := pending[seqno := chan];
      ok := true;
    }

    method Leave(seqno: nat)
      requires Valid()
      modifies this
      ensures Valid() && State() == Withdraw(old(State()), seqno)
    {
      pending := pending - {seqno};
    }

    method Match(reply: Reply) returns (chan: Option<nat>)
      requires Valid()
      modifies this
      ensures Valid() && (State(), chan) == TakeResponse(old(State()), reply)
    {
      chan := if reply.seqno in pending then Some(pending[reply.seqno]) else None;
      pending := pending - {reply.seqno};
    }

    /** The loop of failAll and Hangup, whatever order the map is ranged over. */
    method WakeAll(status: Bytes)
      requires Valid()
      modifies this
      ensures Valid() && State() == Drain(old(State()), status)
    {
      hide Woken;
      AllLeft(State(), status);
      closed := true;
      while pending.Keys != {}
        invariant closed && Kept(State()) && |chans| == |old(chans)|
        invariant pending.Keys <= old(pending).Keys
        invariant forall s :: s in pending ==> pending[s] == old(pending)[s]
        invariant forall i :: 0 <= i < |chans| ==> chans[i] == Woken(old(State()), pending, i, status)
        decreases |pending.Keys|
      {
        var s :| s in pending.Keys;
        var chan := pending[s];
        WakesOne(old(State()), pending, s, chan, status);
        chans := chans[chan := chans[chan] + [Reply(s, status, [])]];
        pending := pending - {s};
      }
      assert pending == map[];
      NoneLeft(old(State()), status);
      assert chans == Drain(old(State()), status).chans;
    }
  }

  // ---------------------------------------------------------------------- Steps

  datatype Outcome = Got(reply: Reply) | Failed(error: Error)

  /** A call: numbered; in the table; waiting in its select; about to withdraw; returned. */
  datatype Phase = Numbered | Registered | Waiting | Leaving(error: Error) | Returned(outcome: Outcome)

  /** The reader is in Recv, or holds a response it has looked up and not yet delivered, or is gone. */
  datatype Reader = Receiving | Delivering(reply: Reply, chan: Option<nat>) | Exited

  /** arrived and hung record every response read and every status a drain has used. */
  datatype System = System(table: Table, calls: seq<Phase>, reader: Reader, drained: bool,
                           arrived: set<Reply>, hung: set<Bytes>)

  const START: System := System(Table(map[], false, []), [], Receiving, false, {}, {})

  datatype Action =
    | Begin
    | Enroll(i: nat)
    | Send(i: nat, result: Option<Error>)
    | TimeOut(i: nat, error: Error)
    | Retire(i: nat)
    | Take(i: nat)
    | ReadResponse(reply: Reply)
    | Deliver
    | FailAll
    | Hangup(status: Bytes)
    | CloseOnly

  predicate Enabled(s: System, a: Action) {
    match a
    case Begin => true
    case Enroll(i) => i < |s.calls| && s.calls[i].Numbered?
    case Send(i, _) => i < |s.calls| && s.calls[i].Registered?
    case TimeOut(i, _) => i < |s.calls| && s.calls[i].Waiting?
    case Retire(i) => i < |s.calls| && s.calls[i].Leaving?
    case Take(i) => i < |s.calls| && i < |s.table.chans| && s.calls[i].Waiting? && s.table.chans[i] != []
    case ReadResponse(_) => s.reader.Receiving?
    case Deliver => s.reader.Delivering? && (s.reader.chan.Some? ==> s.reader.chan.value < |s.table.chans|)
    case FailAll => s.reader.Receiving?
    case Hangup(_) => true
    case CloseOnly => true
  }

  function DrainStep(s: System, status: Bytes): System {
    s.(table := Drain(s.table, status), drained := true, hung := s.hung + {status})
  }

  function Do(s: System, a: Action): System
    requires Enabled(s, a)
  {
    match a
    case Begin => s.(table := s.table.(chans := s.table.chans + [[]]), calls := s.calls + [Numbered])
    case Enroll(i) =>
      var (t, ok) := Register(s.table, i + 1, i);
      s.(table := t, calls := s.calls[i := if ok then Registered else Returned(Failed(Unavailable))])
    case Send(i, result) => s.(calls := s.calls[i := if result.None? then Waiting else Leaving(result.value)])
    case TimeOut(i, error) => s.(calls := s.calls[i := Leaving(error)])
    case Retire(i) => s.(table := Withdraw(s.table, i + 1), calls := s.calls[i := Returned(Failed(s.calls[i].error))])
    case Take(i) =>
      var chan := s.table.chans[i];
      s.(table := s.table.(chans := s.table.chans[i := chan[1..]]), calls := s.calls[i := Returned(Got(chan[0]))])
    case ReadResponse(reply) =>
      var (t, chan) := TakeResponse(s.table, reply);
      s.(table := t, reader := Delivering(reply, chan), arrived := s.arrived + {reply})
    case Deliver =>
      var t := if s.reader.chan.Some? then Push(s.table, s.reader.chan.value, s.reader.reply) else s.table;
      s.(table := t, reader := Receiving)
    case FailAll => DrainStep(s, UNAVAILABLE).(reader := Exited)
    case Hangup(status) => DrainStep(s, status)
    case CloseOnly => s.(table := s.table.(closed := true))
  }

  // ------------------------------------------------------------------ Invariants

  predicate Live(p: Phase) {
    p.Registered? || p.Waiting? || p.Leaving?
  }

  predicate HeldBy(r: Reader, chan: nat) {
    r.Delivering? && r.chan == Some(chan)
  }

  /** A reply is the call's own: read from the connection, or made by a drain. */
  ghost predicate Genuine(s: System, i: nat, reply: Reply) {
    reply.seqno == i + 1 && (reply in s.arrived || (reply.status in s.hung && reply.extra == []))
  }

  /** One token per call: its table entry, or the reply in the reader's hands, or the reply in its channel. */
  ghost predicate TokenOk(s: System, i: nat)
    requires i < |s.calls| == |s.table.chans|
  {
    && |s.table.chans[i]| <= 1
    && (s.table.chans[i] != [] ==>
          Genuine(s, i, s.table.chans[i][0]) && i + 1 !in s.table.pending && !HeldBy(s.reader, i))
    && (HeldBy(s.reader, i) ==> Genuine(s, i, s.reader.reply) && i + 1 !in s.table.pending)
    && (match s.calls[i]
        case Numbered => i + 1 !in s.table.pending && s.table.chans[i] == [] && !HeldBy(s.reader, i)
        case Returned(outcome) =>
          && i + 1 !in s.table.pending
          && (outcome.Got? ==> Genuine(s, i, outcome.reply) && s.table.chans[i] == [] && !HeldBy(s.reader, i))
        case _ => i + 1 in s.table.pending || HeldBy(s.reader, i) || s.table.chans[i] != [])
  }

  ghost predicate Inv(s: System) {
    && Kept(s.table) && |s.calls| == |s.table.chans|
    && (s.reader.Delivering? && s.reader.chan.Some? ==> s.reader.chan.value < |s.calls|)
    && (s.drained ==> s.table.closed && s.table.pending == map[])
    && forall i :: 0 <= i < |s.calls| ==> TokenOk(s, i)
  }

  lemma StartInv()
    ensures Inv(START)
  {
  }

  /** A step that leaves a call's phase, its channel, its entry and the reader alone leaves its token alone. */
  lemma SameToken(s: System, t: System, i: nat)
    requires i < |s.calls| == |s.table.chans| && i < |t.calls| == |t.table.chans| && TokenOk(s, i)
    requires t.calls[i] == s.calls[i] && t.table.chans[i] == s.table.chans[i]
    requires (i + 1 in t.table.pending <==> i + 1 in s.table.pending) && (HeldBy(t.reader, i) <==> HeldBy(s.reader, i))
    requires HeldBy(t.reader, i) ==> t.reader == s.reader
    requires s.arrived <= t.arrived && s.hung <= t.hung
    ensures TokenOk(t, i)
  {
  }

  lemma CallerKeeps(s: System, a: Action, i: nat)
    requires Inv(s) && Enabled(s, a) && i < |Do(s, a).calls| && |Do(s, a).calls| == |Do(s, a).table.chans|
    requires a.Begin? || a.Enroll? || a.Send? || a.TimeOut? || a.Retire? || a.Take?
    ensures TokenOk(Do(s, a), i)
  {
    assert i < |s.calls| ==> TokenOk(s, i);
    if i < |s.calls| && (a.Begin? || i != a.i) {
      hide Inv, TokenOk;
      SameToken(s, Do(s, a), i);
    }
  }

  lemma ReaderKeeps(s: System, a: Action, i: nat)
    requires Inv(s) && Enabled(s, a) && i < |s.calls|
    requires a.ReadResponse? || a.Deliver? || a.CloseOnly?
    ensures |Do(s, a).table.chans| == |s.calls| && TokenOk(Do(s, a), i)
  {
    assert TokenOk(s, i);
  }

  lemma DrainKeeps(s: System, status: Bytes, i: nat)
    requires Inv(s) && i < |s.calls|
    ensures TokenOk(DrainStep(s, status), i)
  {
    assert TokenOk(s, i);
  }

  /** Every step keeps every call's token, whoever takes it. */
  lemma TokenKeeps(s: System, a: Action, i: nat)
    requires Inv(s) && Enabled(s, a) && i < |Do(s, a).calls| && |Do(s, a).calls| == |Do(s, a).table.chans|
    ensures TokenOk(Do(s, a), i)
  {
    hide Inv, TokenOk;
    match a {
      case ReadResponse(_) => ReaderKeeps(s, a, i);
      case Deliver => ReaderKeeps(s, a, i);
      case CloseOnly => ReaderKeeps(s, a, i);
      case Hangup(status) => DrainKeeps(s, status, i);
      case FailAll =>
        DrainKeeps(s, UNAVAILABLE, i);
        SameToken(DrainStep(s, UNAVAILABLE), Do(s, a), i);
      case _ => CallerKeeps(s, a, i);
    }
  }

  lemma StepKeeps(s: System, a: Action)
    requires Inv(s) && Enabled(s, a)
    ensures Inv(Do(s, a))
  {
    hide TokenOk;
    var t := Do(s, a);
    assert Kept(t.table);
    forall i | 0 <= i < |t.calls| ensures TokenOk(t, i) {
      TokenKeeps(s, a, i);
    }
  }

  predicate CanRun(s: System, actions: seq<Action>)
    decreases |actions|
  {
    actions == [] || (Enabled(s, actions[0]) && CanRun(Do(s, actions[0]), actions[1..]))
  }

  function Run(s: System, actions: seq<Action>): System
    requires CanRun(s, actions)
    decreases |actions|
  {
    if actions == [] then s else Run(Do(s, actions[0]), actions[1..])
  }

  lemma {:induction false} RunKeeps(s: System, actions: seq<Action>)
    requires Inv(s) && CanRun(s, actions)
    ensures Inv(Run(s, actions))
    decreases |actions|
  {
    hide Inv, Enabled, Do;
    if actions != [] {
      StepKeeps(s, actions[0]);
      RunKeeps(Do(s, actions[0]), actions[1..]);
    }
  }

  // -------------------------------------------------------------------- Results

  /**
   No send ever blocks: in every reachable state the channel the reader is about to fill, and every
   channel a drain under the lock would fill, is empty. No call is ever given a second reply.
   */
  lemma NoSendBlocks(actions: seq<Action>)
    requires CanRun(START, actions)
    ensures var s := Run(START, actions);
            && |s.calls| == |s.table.chans|
            && (s.reader.Delivering? && s.reader.chan.Some? ==>
                  s.reader.chan.value < |s.calls| && s.table.chans[s.reader.chan.value] == [])
            && (forall n :: n in s.table.pending ==>
                  n > 0 && s.table.pending[n] == n - 1 < |s.calls| && s.table.chans[n - 1] == [])
            && forall i :: 0 <= i < |s.calls| && s.calls[i].Returned? && s.calls[i].outcome.Got? ==>
                 s.table.chans[i] == [] && i + 1 !in s.table.pending && !HeldBy(s.reader, i)
  {
    hide CanRun, Run, Genuine;
    StartInv();
    RunKeeps(START, actions);
    var s := Run(START, actions);
    forall n | n in s.table.pending
      ensures n > 0 && s.table.pending[n] == n - 1 < |s.calls| && s.table.chans[n - 1] == []
    {
      assert TokenOk(s, n - 1);
    }
    if s.reader.Delivering? && s.reader.chan.Some? {
      assert TokenOk(s, s.reader.chan.value);
    }
    forall i | 0 <= i < |s.calls| && s.calls[i].Returned? && s.calls[i].outcome.Got?
      ensures s.table.chans[i] == [] && i + 1 !in s.table.pending && !HeldBy(s.reader, i)
    {
      assert TokenOk(s, i);
    }
  }

  /** A call only ever returns a reply carrying its own number: one that was read, or a drain's status. */
  lemma OwnReply(actions: seq<Action>, i: nat)
    requires CanRun(START, actions) && i < |Run(START, actions).calls|
    requires Run(START, actions).calls[i].Returned? && Run(START, actions).calls[i].outcome.Got?
    ensures var s := Run(START, actions); Genuine(s, i, s.calls[i].outcome.reply)
  {
    hide CanRun, Run, Genuine;
    StartInv();
    RunKeeps(START, actions);
    assert TokenOk(Run(START, actions), i);
  }

  /**
   In every reachable state a response that is read belongs to a call exactly if that one is live and
   unanswered; it is then delivered to this call, which can return it, and to no other. Any other
   response reaches nobody.
   */
  lemma ReachesItsCall(actions: seq<Action>, reply: Reply)
    requires CanRun(START, actions) && Run(START, actions).reader.Receiving?
    ensures var s := Run(START, actions);
            var held := Do(s, ReadResponse(reply));
            && Enabled(held, Deliver)
            && var i, done := reply.seqno - 1, Do(held, Deliver);
               && |s.calls| == |s.table.chans| == |done.table.chans| && done.calls == s.calls
               && (reply.seqno in s.table.pending <==>
                   0 <= i < |s.calls| && Live(s.calls[i]) && s.table.chans[i] == [])
               && (reply.seqno !in s.table.pending ==> done.table.chans == s.table.chans)
               && (reply.seqno in s.table.pending ==>
                     && done.table.chans == s.table.chans[i := [reply]] && reply.seqno !in done.table.pending
                     && (s.calls[i].Waiting? ==>
                           Enabled(done, Take(i)) && Do(done, Take(i)).calls[i] == Returned(Got(reply))))
  {
    hide CanRun, Run, Genuine;
    StartInv();
    RunKeeps(START, actions);
    var s := Run(START, actions);
    if 0 <= reply.seqno - 1 < |s.calls| {
      assert TokenOk(s, reply.seqno - 1);
      assert [] + [reply] == [reply];
    }
  }

  predicate Closes(a: Action) {
    a.FailAll? || a.Hangup? || a.CloseOnly?
  }

  lemma {:induction false} ClosedSince(s: System, actions: seq<Action>)
    requires CanRun(s, actions)
    ensures Run(s, actions).table.closed <==> s.table.closed || exists k :: 0 <= k < |actions| && Closes(actions[k])
    decreases |actions|
  {
    hide Drain, Push, Closes;
    if actions != [] {
      ClosesNow(s, actions[0]);
      ClosedSince(Do(s, actions[0]), actions[1..]);
      ClosesSometime(actions);
    }
  }

  lemma ClosesNow(s: System, a: Action)
    requires Enabled(s, a)
    ensures Do(s, a).table.closed <==> s.table.closed || Closes(a)
  {
  }

  lemma ClosesSometime(actions: seq<Action>)
    requires actions != []
    ensures (exists k :: 0 <= k < |actions| && Closes(actions[k])) <==>
            Closes(actions[0]) || exists k :: 0 <= k < |actions[1..]| && Closes(actions[1..][k])
  {
    hide Closes;
    if k :| 0 <= k < |actions| && Closes(actions[k]) {
      assert k > 0 ==> actions[1..][k - 1] == actions[k];
    }
    if k :| 0 <= k < |actions[1..]| && Closes(actions[1..][k]) {
      assert actions[k + 1] == actions[1..][k];
    }
  }

  /** A call gets into the table exactly if nothing has closed it before, and is told unavailable otherwise. */
  lemma EntersIff(actions: seq<Action>, i: nat)
    requires CanRun(START, actions) && Enabled(Run(START, actions), Enroll(i))
    ensures var s := Run(START, actions);
            var t, closed := Do(s, Enroll(i)), exists k :: 0 <= k < |actions| && Closes(actions[k]);
            && (!closed ==> t.calls[i] == Registered && i + 1 in t.table.pending && t.table.pending[i + 1] == i)
            && (closed ==> t.calls[i] == Returned(Failed(Unavailable)) && t.table == s.table)
  {
    hide CanRun, Run;
    ClosedSince(START, actions);
  }

  /** Once drained, for good: the table stays empty and closed, so no later call gets in. */
  lemma {:induction false} DrainedForGood(s: System, actions: seq<Action>)
    requires Inv(s) && s.drained && CanRun(s, actions)
    ensures var t := Run(s, actions); t.drained && t.table.closed && t.table.pending == map[]
    decreases |actions|
  {
    hide Enabled, TokenOk, Kept, Drain, Push;
    if actions != [] {
      StepKeeps(s, actions[0]);
      DrainedForGood(Do(s, actions[0]), actions[1..]);
    }
  }

  /** And every call that was in the table has been woken: it can return on its own, or is on the way out. */
  lemma DrainedWakes(s: System, i: nat)
    requires Inv(s) && s.drained && i < |s.calls| && Live(s.calls[i])
    ensures s.table.chans[i] != []
            || (HeldBy(s.reader, i) && Enabled(s, Deliver) && Do(s, Deliver).table.chans[i] != [])
    ensures s.calls[i].Waiting? && s.table.chans[i] != [] ==> Enabled(s, Take(i))
    ensures s.calls[i].Leaving? ==> Enabled(s, Retire(i))
  {
    hide Genuine;
    assert TokenOk(s, i);
  }
}
