/**
 The per-connection dispatcher (remote/server.go): at most 128 operations at once, arrival order
 within one key, independence between keys. Every operation waits on the done channel of the one
 before it; every channel operation and every stretch of code under the connection's mutex is one
 step, and steps of any number of operations interleave arbitrarily.
 */
module Dispatch {
  import opened Common

  const MAX_CONNECTION_OPERATIONS: nat := 128

  /** "$host" */
  const HOST: Bytes := [36, 104, 111, 115, 116]

  datatype Kind = Request | Response | Pty | Watch

  /** Ended is the handler's return; then the deferred calls close done, release the slot, drop the tail. */
  datatype Phase = Waiting | Running | Ended | Done | Released | Gone

  /**
   grant is the frame's. gaveUp records that the operation stopped waiting because of a cancel: its
   handler never runs.
   */
  datatype Op = Op(grant: Bytes, key: Bytes, previous: Option<nat>, phase: Phase, gaveUp: bool)

  /** The reader is between frames, or holds a slot for a frame it has not yet queued. */
  datatype Reader = Between | Slotted(grant: Bytes, key: Bytes)

  /** What the connection keeps: the slots taken, and the newest operation of each key. */
  datatype Table = Table(inflight: nat, tails: map<Bytes, nat>, closed: bool)

  datatype Outcome = Ignored | ReplyBusy | CloseSession | Admitted(key: Bytes)

  /** When handlers began and ended, in the order it happened. */
  datatype Mark = Begin(key: Bytes, id: nat) | End(key: Bytes, id: nat)

  datatype System = System(table: Table, cancelled: bool, reader: Reader, ops: seq<Op>, trace: seq<Mark>)

  // ------------------------------------------------------------- Critical sections

  function KeyOf(grant: Bytes): Bytes {
    if grant == [] then HOST else grant
  }

  function Admit(t: Table, kind: Kind, grant: Bytes): (Table, Outcome) {
    if kind != Request && kind != Pty then (t, Ignored)
    else if t.inflight >= MAX_CONNECTION_OPERATIONS then (t, if kind == Request then ReplyBusy else CloseSession)
    else (t.(inflight := t.inflight + 1), Admitted(KeyOf(grant)))
  }

  function Release(t: Table): Table {
    t.(inflight := if t.inflight > 0 then t.inflight - 1 else 0)
  }

  /** Replace the key's tail by the new operation, and hand out the old one to wait for. */
  function Queue(t: Table, key: Bytes, id: nat): (Table, Result<Option<nat>, Error>) {
    if t.closed then (Release(t), Failure(Closed))
    else (t.(tails := t.tails[key := id]), Success(if key in t.tails then Some(t.tails[key]) else None))
  }

  function DropTail(t: Table, key: Bytes, id: nat): Table {
    if key in t.tails && t.tails[key] == id then t.(tails := t.tails - {key}) else t
  }

  class Connection {
    var inflight: nat
    var tails: map<Bytes, nat>
    var closed: bool

    function State(): Table
      reads this
    {
      Table(inflight, tails, closed)
    }

    /** The slots are a channel of that capacity. */
    predicate Valid()
      reads this
    {
      inflight <= MAX_CONNECTION_OPERATIONS
    }

    constructor ()
      ensures Valid() && State() == Table(0, map[], false)
    {
      inflight, tails, closed := 0, map[], false;
    }

    method AdmitFrame(kind: Kind, grant: Bytes) returns (outcome: Outcome)
      requires Valid()
      modifies this
      ensures Valid() && (State(), outcome) == Admit(old(State()), kind, grant)
    {
      if kind != Request && kind != Pty {
        return Ignored;
      }
      if inflight == MAX_CONNECTION_OPERATIONS {
        return if kind == Request then ReplyBusy else CloseSession;
      }
      inflight := inflight + 1;
      var key := grant;
      if key == [] {
        key := HOST;
      }
      return Admitted(key);
    }

    method QueueFrame(key: Bytes, id: nat) returns (r: Result<Option<nat>, Error>)
      requires Valid() && inflight > 0
      modifies this
      ensures Valid() && (State(), r) == Queue(old(State()), key, id)
    {
      if closed {
        inflight := inflight - 1;
        return Failure(Closed);
      }
      r := Success(if key in tails then Some(tails[key]) else None);
      tails := tails[key := id];
    }

    method Drop(key: Bytes, id: nat)
      requires Valid()
      modifies this
      ensures Valid() && State() == DropTail(old(State()), key, id)
    {
      if key in tails && tails[key] == id {
        tails := tails - {key};
      }
    }
  }

  // ---------------------------------------------------------------------- Steps

  datatype Action =
    | Arrive(kind: Kind, grant: Bytes)
    | Enqueue
    | Wake(id: nat)
    | GiveUp(id: nat)
    | Finish(id: nat)
    | CloseDone(id: nat)
    | FreeSlot(id: nat)
    | Forget(id: nat)
    | Cancel
    | MarkClosed

  /** A step of one operation's own goroutine. */
  predicate OfOperation(a: Action) {
    !a.Arrive? && !a.Enqueue? && !a.Cancel? && !a.MarkClosed?
  }

  predicate IsDone(p: Phase) {
    p.Done? || p.Released? || p.Gone?
  }

  predicate At(s: System, id: nat, phase: Phase) {
    id < |s.ops| && s.ops[id].phase == phase
  }

  /** The channel this operation waits for is closed, or there is none. */
  predicate Ready(s: System, id: nat)
    requires id < |s.ops|
  {
    var previous := s.ops[id].previous;
    previous.None? || (previous.value < |s.ops| && IsDone(s.ops[previous.value].phase))
  }

  predicate Enabled(s: System, a: Action) {
    match a
    case Arrive(_, _) => s.reader.Between?
    case Enqueue => s.reader.Slotted?
    case Wake(id) => At(s, id, Waiting) && Ready(s, id)
    case GiveUp(id) => At(s, id, Waiting) && s.cancelled
    case Finish(id) => At(s, id, Running)
    case CloseDone(id) => At(s, id, Ended)
    case FreeSlot(id) => At(s, id, Done)
    case Forget(id) => At(s, id, Released)
    case Cancel => true
    case MarkClosed => s.cancelled
  }

  function Move(s: System, id: nat, phase: Phase): System
    requires id < |s.ops|
  {
    s.(ops := s.ops[id := s.ops[id].(phase := phase)])
  }

  function Abandon(s: System, id: nat): System
    requires id < |s.ops|
  {
    s.(ops := s.ops[id := s.ops[id].(phase := Ended, gaveUp := true)])
  }

  function Do(s: System, a: Action): System
    requires Enabled(s, a)
  {
    match a
    case Arrive(kind, grant) =>
      var (t, outcome) := Admit(s.table, kind, grant);
      if outcome.Admitted? then s.(table := t, reader := Slotted(grant, outcome.key)) else s
    case Enqueue =>
      var (t, r) := Queue(s.table, s.reader.key, |s.ops|);
      var s1 := s.(table := t, reader := Between);
      if r.Success? then s1.(ops := s.ops + [Op(s.reader.grant, s.reader.key, r.value, Waiting, false)]) else s1
    case Wake(id) => Move(s, id, Running).(trace := s.trace + [Begin(s.ops[id].key, id)])
    case GiveUp(id) => Abandon(s, id)
    case Finish(id) => Move(s, id, Ended).(trace := s.trace + [End(s.ops[id].key, id)])
    case CloseDone(id) => Move(s, id, Done)
    case FreeSlot(id) => Move(s, id, Released).(table := Release(s.table))
    case Forget(id) => Move(s, id, Gone).(table := DropTail(s.table, s.ops[id].key, id))
    case Cancel => s.(cancelled := true)
    case MarkClosed => s.(table := s.table.(closed := true))
  }

  const START: System := System(Table(0, map[], false), false, Between, [], [])

  // ------------------------------------------------------------------- Counting

  function SlotOf(op: Op): nat {
    if op.phase.Released? || op.phase.Gone? then 0 else 1
  }

  /** Operations that have not released their slot. */
  function Unreleased(ops: seq<Op>): nat {
    if ops == [] then 0 else Unreleased(ops[..|ops| - 1]) + SlotOf(ops[|ops| - 1])
  }

  lemma {:induction false} UnreleasedUpdate(ops: seq<Op>, id: nat, op: Op)
    requires id < |ops|
    ensures Unreleased(ops[id := op]) + SlotOf(ops[id]) == Unreleased(ops) + SlotOf(op)
  {
    var n := |ops| - 1;
    if id < n {
      UnreleasedUpdate(ops[..n], id, op);
      assert ops[id := op][..n] == ops[..n][id := op];
    } else {
      assert ops[id := op][..n] == ops[..n];
    }
  }

  lemma UnreleasedSnoc(ops: seq<Op>, op: Op)
    ensures Unreleased(ops + [op]) == Unreleased(ops) + SlotOf(op)
  {
    assert (ops + [op])[..|ops|] == ops;
  }

  // ------------------------------------------------------------------ Invariants

  /** Two frames belong together: the same grant, or one names none and the other the host itself. */
  predicate SameGrant(a: Bytes, b: Bytes) {
    a == b || (a == [] && b == HOST) || (a == HOST && b == [])
  }

  /** Every key is that of the grant its frame named, in the marks as well. */
  ghost predicate Keyed(s: System) {
    && (forall i :: 0 <= i < |s.ops| ==> s.ops[i].key == KeyOf(s.ops[i].grant))
    && (s.reader.Slotted? ==> s.reader.key == KeyOf(s.reader.grant))
    && forall mark :: mark in s.trace ==> mark.id < |s.ops| && s.ops[mark.id].key == mark.key
  }

  /** Every slot taken belongs to an unreleased operation or to the reader. */
  ghost predicate SlotsOk(s: System) {
    s.table.inflight == Unreleased(s.ops) + (if s.reader.Slotted? then 1 else 0) <= MAX_CONNECTION_OPERATIONS
  }

  /** A tail names an operation of its key that has not yet been forgotten. */
  ghost predicate TailsOk(s: System) {
    forall key :: key in s.table.tails ==>
      s.table.tails[key] < |s.ops| && s.ops[s.table.tails[key]].key == key && !s.ops[s.table.tails[key]].phase.Gone?
  }

  ghost predicate LinksOk(s: System) {
    && (forall i :: 0 <= i < |s.ops| && s.ops[i].previous.Some? ==>
          s.ops[i].previous.value < i && s.ops[s.ops[i].previous.value].key == s.ops[i].key)
    && forall i :: 0 <= i < |s.ops| && s.ops[i].gaveUp ==>
         s.cancelled && !s.ops[i].phase.Waiting? && !s.ops[i].phase.Running?
  }

  /** The handler has been entered. */
  predicate Begun(op: Op) {
    !op.gaveUp && !op.phase.Waiting?
  }

  /** Nothing of its key has given up before this operation. */
  ghost predicate CleanBefore(ops: seq<Op>, j: nat)
    requires j < |ops|
  {
    forall i :: 0 <= i < j && ops[i].key == ops[j].key ==> !ops[i].gaveUp
  }

  ghost predicate CleanKey(ops: seq<Op>, key: Bytes) {
    forall i :: 0 <= i < |ops| && ops[i].key == key ==> !ops[i].gaveUp
  }

  /** Behind no give-up, a handler that was entered has everything before it, of its key, done. */
  ghost predicate InOrder(s: System) {
    forall i, j :: 0 <= i < j < |s.ops| && s.ops[i].key == s.ops[j].key && Begun(s.ops[j]) && CleanBefore(s.ops, j) ==>
      IsDone(s.ops[i].phase)
  }

  /** An operation waits for the newest one before it, and behind no give-up for none only when all of them are done. */
  ghost predicate ChainOk(s: System) {
    forall i, j :: 0 <= i < j < |s.ops| && s.ops[i].key == s.ops[j].key ==> WaitsFor(s.ops, i, j)
  }

  ghost predicate WaitsFor(ops: seq<Op>, i: nat, j: nat)
    requires i < j < |ops|
  {
    if ops[j].previous.Some? then i <= ops[j].previous.value
    else CleanBefore(ops, j) ==> IsDone(ops[i].phase)
  }

  /** The tail is the newest of its key; a key without tail and without give-up has nothing unfinished. */
  ghost predicate NewestOk(s: System) {
    forall i :: 0 <= i < |s.ops| ==>
      if s.ops[i].key in s.table.tails then i <= s.table.tails[s.ops[i].key]
      else CleanKey(s.ops, s.ops[i].key) ==> IsDone(s.ops[i].phase)
  }

  /** No handler of this key has been entered behind an operation that gave up. */
  ghost predicate Orderly(ops: seq<Op>, key: Bytes) {
    forall i, j :: 0 <= i < j < |ops| && ops[i].key == key == ops[j].key && ops[i].gaveUp ==> !Begun(ops[j])
  }

  function MarkOf(op: Op, id: nat, key: Bytes): seq<Mark> {
    if op.key != key || !Begun(op) then []
    else if op.phase.Running? then [Begin(key, id)]
    else [Begin(key, id), End(key, id)]
  }

  /** The marks of one key that the operations' phases account for, in arrival order. */
  function Flow(ops: seq<Op>, key: Bytes): seq<Mark> {
    if ops == [] then [] else Flow(ops[..|ops| - 1], key) + MarkOf(ops[|ops| - 1], |ops| - 1, key)
  }

  function Project(trace: seq<Mark>, key: Bytes): seq<Mark> {
    if trace == [] then []
    else
      var last := trace[|trace| - 1];
      Project(trace[..|trace| - 1], key) + if last.key == key then [last] else []
  }

  ghost predicate Traced(s: System) {
    forall key :: Orderly(s.ops, key) ==> Project(s.trace, key) == Flow(s.ops, key)
  }

  /** The begin marks are those of the handlers that were entered. */
  ghost predicate Marked(s: System) {
    && (forall i :: 0 <= i < |s.ops| && Begun(s.ops[i]) ==> Begin(s.ops[i].key, i) in s.trace)
    && forall mark :: mark in s.trace && mark.Begin? ==>
         mark.id < |s.ops| && s.ops[mark.id].key == mark.key && Begun(s.ops[mark.id])
  }

  ghost predicate Queued(s: System) {
    InOrder(s) && ChainOk(s) && NewestOk(s)
  }

  ghost predicate Ordered(s: System) {
    Queued(s) && Traced(s) && Marked(s)
  }

  ghost predicate Inv(s: System) {
    SlotsOk(s) && TailsOk(s) && LinksOk(s) && Ordered(s) && Keyed(s)
  }

  // ------------------------------------------------------------------- Preserved

  lemma MoveSlots(s: System, id: nat, phase: Phase)
    requires SlotsOk(s) && id < |s.ops|
    requires s.ops[id].phase.Done? || !phase.Released?
    requires !phase.Gone? || s.ops[id].phase.Released?
    requires !s.ops[id].phase.Gone? && (s.ops[id].phase.Released? ==> phase.Gone?)
    ensures SlotsOk(if phase.Released? then Move(s, id, phase).(table := Release(s.table)) else Move(s, id, phase))
  {
    UnreleasedUpdate(s.ops, id, s.ops[id].(phase := phase));
  }

  lemma SlotsEnqueue(s: System)
    requires SlotsOk(s) && s.reader.Slotted?
    ensures SlotsOk(Do(s, Enqueue))
  {
    if !s.table.closed {
      UnreleasedSnoc(s.ops, Do(s, Enqueue).ops[|s.ops|]);
    }
  }

  lemma SlotsGiveUp(s: System, id: nat)
    requires SlotsOk(s) && At(s, id, Waiting)
    ensures SlotsOk(Abandon(s, id))
  {
    UnreleasedUpdate(s.ops, id, s.ops[id].(phase := Ended, gaveUp := true));
  }

  lemma SlotsSame(s: System, t: System)
    requires SlotsOk(s) && t.ops == s.ops && t.table.inflight == s.table.inflight && t.reader == s.reader
    ensures SlotsOk(t)
  {
  }

  lemma SlotsArrive(s: System, kind: Kind, grant: Bytes)
    requires SlotsOk(s) && Enabled(s, Arrive(kind, grant))
    ensures SlotsOk(Do(s, Arrive(kind, grant)))
  {
    hide Unreleased;
  }

  lemma SlotsKeep(s: System, a: Action)
    requires SlotsOk(s) && Enabled(s, a)
    ensures SlotsOk(Do(s, a))
  {
    hide SlotsOk;
    match a {
      case Arrive(kind, grant) => SlotsArrive(s, kind, grant);
      case Enqueue => SlotsEnqueue(s);
      case Wake(id) => MoveSlots(s, id, Running); SlotsSame(Move(s, id, Running), Do(s, a));
      case GiveUp(id) => SlotsGiveUp(s, id);
      case Finish(id) => MoveSlots(s, id, Ended); SlotsSame(Move(s, id, Ended), Do(s, a));
      case CloseDone(id) => MoveSlots(s, id, Done);
      case FreeSlot(id) => MoveSlots(s, id, Released);
      case Forget(id) => MoveSlots(s, id, Gone); SlotsSame(Move(s, id, Gone), Do(s, a));
      case _ => SlotsSame(s, Do(s, a));
    }
  }

  lemma TailsMove(s: System, id: nat, phase: Phase)
    requires TailsOk(s) && LinksOk(s) && id < |s.ops|
    requires phase.Gone? ==> s.ops[id].key !in s.table.tails || s.table.tails[s.ops[id].key] != id
    requires s.ops[id].gaveUp ==> !phase.Waiting? && !phase.Running?
    ensures TailsOk(Move(s, id, phase)) && LinksOk(Move(s, id, phase))
  {
  }

  lemma TailsEnqueue(s: System)
    requires TailsOk(s) && LinksOk(s) && s.reader.Slotted?
    ensures TailsOk(Do(s, Enqueue)) && LinksOk(Do(s, Enqueue))
  {
    hide Move;
  }

  lemma TailsForget(s: System, id: nat)
    requires TailsOk(s) && LinksOk(s) && At(s, id, Released)
    ensures TailsOk(Do(s, Forget(id))) && LinksOk(Do(s, Forget(id)))
  {
    var dropped := s.(table := DropTail(s.table, s.ops[id].key, id));
    assert TailsOk(dropped) && LinksOk(dropped);
    hide TailsOk, LinksOk;
    TailsMove(dropped, id, Gone);
  }

  lemma StillWaiting(s: System, id: nat)
    requires LinksOk(s) && At(s, id, Waiting)
    ensures !s.ops[id].gaveUp
  {
  }

  lemma TailsGiveUp(s: System, id: nat)
    requires TailsOk(s) && LinksOk(s) && Enabled(s, GiveUp(id))
    ensures TailsOk(Do(s, GiveUp(id))) && LinksOk(Do(s, GiveUp(id)))
  {
  }

  lemma TailsKeep(s: System, a: Action)
    requires TailsOk(s) && LinksOk(s) && Enabled(s, a)
    ensures TailsOk(Do(s, a)) && LinksOk(Do(s, a))
  {
    hide TailsOk, LinksOk;
    match a {
      case Enqueue => TailsEnqueue(s);
      case Forget(id) => TailsForget(s, id);
      case Wake(id) => StillWaiting(s, id); TailsMove(s, id, Running); TailsSame(Move(s, id, Running), Do(s, a));
      case GiveUp(id) => TailsGiveUp(s, id);
      case Finish(id) => TailsMove(s, id, Ended); TailsSame(Move(s, id, Ended), Do(s, a));
      case CloseDone(id) => TailsMove(s, id, Done);
      case FreeSlot(id) => TailsMove(s, id, Released); TailsSame(Move(s, id, Released), Do(s, a));
      case _ => TailsSame(s, Do(s, a));
    }
  }

  lemma TailsSame(s: System, t: System)
    requires TailsOk(s) && LinksOk(s) && t.ops == s.ops && t.table.tails == s.table.tails
             && (s.cancelled ==> t.cancelled)
    ensures TailsOk(t) && LinksOk(t)
  {
  }

  /** Who gave up is all that cleanness depends on. */
  lemma CleanSame(a: seq<Op>, b: seq<Op>)
    requires |a| == |b| && forall i :: 0 <= i < |a| ==> a[i].key == b[i].key && a[i].gaveUp == b[i].gaveUp
    ensures forall j :: 0 <= j < |a| ==> (CleanBefore(a, j) <==> CleanBefore(b, j))
    ensures forall key :: CleanKey(a, key) <==> CleanKey(b, key)
  {
  }

  /** A phase only advances, and behind no give-up leaves Waiting only when everything before it is done. */
  predicate Advances(s: System, id: nat, phase: Phase)
    requires id < |s.ops|
  {
    !phase.Waiting? && (IsDone(s.ops[id].phase) ==> IsDone(phase))
  }

  /** Everything of its key before an operation is done. */
  predicate AllBeforeDone(ops: seq<Op>, id: nat)
    requires id < |ops|
  {
    forall i :: 0 <= i < id && ops[i].key == ops[id].key ==> IsDone(ops[i].phase)
  }

  lemma QueuedMove(s: System, id: nat, phase: Phase)
    requires Queued(s) && id < |s.ops| && Advances(s, id, phase)
    requires CleanBefore(s.ops, id) && !s.ops[id].gaveUp ==> AllBeforeDone(s.ops, id)
    ensures Queued(Move(s, id, phase))
  {
    hide InOrder, ChainOk, NewestOk, CleanBefore, AllBeforeDone, Advances;
    MoveInOrder(s, id, phase);
    MoveChain(s, id, phase);
    MoveNewest(s, id, phase);
  }

  lemma MoveInOrder(s: System, id: nat, phase: Phase)
    requires InOrder(s) && id < |s.ops| && Advances(s, id, phase)
    requires CleanBefore(s.ops, id) && !s.ops[id].gaveUp ==> AllBeforeDone(s.ops, id)
    ensures InOrder(Move(s, id, phase))
  {
    CleanSame(s.ops, Move(s, id, phase).ops);
    hide CleanBefore;
  }

  lemma MoveChain(s: System, id: nat, phase: Phase)
    requires ChainOk(s) && id < |s.ops| && Advances(s, id, phase)
    ensures ChainOk(Move(s, id, phase))
  {
    var t := Move(s, id, phase);
    CleanSame(s.ops, t.ops);
    hide CleanBefore;
    forall i, j | 0 <= i < j < |t.ops| && t.ops[i].key == t.ops[j].key
      ensures WaitsFor(t.ops, i, j)
    {
      assert WaitsFor(s.ops, i, j);
    }
  }

  lemma MoveNewest(s: System, id: nat, phase: Phase)
    requires NewestOk(s) && id < |s.ops| && Advances(s, id, phase)
    ensures NewestOk(Move(s, id, phase))
  {
    CleanSame(s.ops, Move(s, id, phase).ops);
    hide CleanKey;
  }

  lemma QueuedSame(s: System, t: System)
    requires Queued(s) && t.ops == s.ops && t.table.tails == s.table.tails
    ensures Queued(t)
  {
  }

  /** Giving up only makes fewer operations clean. */
  lemma QueuedGiveUp(s: System, id: nat)
    requires Queued(s) && At(s, id, Waiting)
    ensures Queued(Abandon(s, id))
  {
    hide InOrder, ChainOk, NewestOk;
    GiveUpInOrder(s, id);
    GiveUpChain(s, id);
    GiveUpNewest(s, id);
  }

  lemma GiveUpInOrder(s: System, id: nat)
    requires InOrder(s) && At(s, id, Waiting)
    ensures InOrder(Abandon(s, id))
  {
    var t := Abandon(s, id);
    CleanLess(s.ops, t.ops, id);
    hide CleanBefore;
    forall i, j | 0 <= i < j < |t.ops| && t.ops[i].key == t.ops[j].key && Begun(t.ops[j]) && CleanBefore(t.ops, j)
      ensures IsDone(t.ops[i].phase)
    {
      assert i != id && j != id;
    }
  }

  lemma GiveUpChain(s: System, id: nat)
    requires ChainOk(s) && At(s, id, Waiting)
    ensures ChainOk(Abandon(s, id))
  {
    var t := Abandon(s, id);
    CleanLess(s.ops, t.ops, id);
    hide CleanBefore;
    forall i, j | 0 <= i < j < |t.ops| && t.ops[i].key == t.ops[j].key ensures WaitsFor(t.ops, i, j) {
      assert WaitsFor(s.ops, i, j);
      assert i == id ==> !CleanBefore(t.ops, j);
    }
  }

  lemma GiveUpNewest(s: System, id: nat)
    requires NewestOk(s) && At(s, id, Waiting)
    ensures NewestOk(Abandon(s, id))
  {
    CleanLess(s.ops, Abandon(s, id).ops, id);
    hide CleanKey;
  }

  lemma CleanLess(a: seq<Op>, b: seq<Op>, id: nat)
    requires id < |a| == |b| && b == a[id := b[id]] && b[id].key == a[id].key && b[id].gaveUp
    ensures forall j :: 0 <= j < |a| && CleanBefore(b, j) ==> CleanBefore(a, j) && (j <= id || a[j].key != a[id].key)
    ensures forall key :: CleanKey(b, key) ==> CleanKey(a, key) && key != a[id].key
  {
    forall j | 0 <= j < |a| && CleanBefore(b, j) ensures CleanBefore(a, j) && (j <= id || a[j].key != a[id].key) {
      forall i | 0 <= i < j && a[i].key == a[j].key ensures !a[i].gaveUp {
        assert b[i].key == b[j].key;
      }
    }
    forall key | CleanKey(b, key) ensures CleanKey(a, key) && key != a[id].key {
      forall i | 0 <= i < |a| && a[i].key == key ensures !a[i].gaveUp {
        assert b[i].key == key;
      }
    }
  }

  lemma CleanGrown(a: seq<Op>, op: Op)
    ensures var b := a + [op];
            && (forall j :: 0 <= j < |a| ==> (CleanBefore(b, j) <==> CleanBefore(a, j)))
            && (CleanBefore(b, |a|) <==> CleanKey(a, op.key))
            && (forall key :: CleanKey(b, key) ==> CleanKey(a, key))
  {
    var b := a + [op];
    forall j | 0 <= j < |a| ensures CleanBefore(b, j) <==> CleanBefore(a, j) {
      assert forall i :: 0 <= i <= j ==> b[i] == a[i];
    }
    assert b[|a|] == op && forall i :: 0 <= i < |a| ==> b[i] == a[i];
  }

  lemma QueuedEnqueue(s: System)
    requires Queued(s) && TailsOk(s) && s.reader.Slotted?
    ensures Queued(Do(s, Enqueue))
  {
    hide InOrder, ChainOk, NewestOk, CleanBefore, CleanKey;
    var t := Do(s, Enqueue);
    if s.table.closed {
      QueuedSame(s, t);
    } else {
      CleanGrown(s.ops, t.ops[|s.ops|]);
      EnqueueInOrder(s);
      EnqueueChain(s);
      EnqueueNewest(s);
    }
  }

  lemma EnqueueInOrder(s: System)
    requires InOrder(s) && s.reader.Slotted?
    ensures InOrder(Do(s, Enqueue))
  {
    if !s.table.closed {
      CleanGrown(s.ops, Do(s, Enqueue).ops[|s.ops|]);
    }
    hide CleanBefore, CleanKey;
  }

  lemma EnqueueChain(s: System)
    requires ChainOk(s) && NewestOk(s) && s.reader.Slotted?
    ensures ChainOk(Do(s, Enqueue))
  {
    if !s.table.closed {
      CleanGrown(s.ops, Do(s, Enqueue).ops[|s.ops|]);
    }
    hide CleanBefore, CleanKey;
  }

  lemma EnqueueNewest(s: System)
    requires NewestOk(s) && TailsOk(s) && s.reader.Slotted?
    ensures NewestOk(Do(s, Enqueue))
  {
    if !s.table.closed {
      CleanGrown(s.ops, Do(s, Enqueue).ops[|s.ops|]);
    }
    hide CleanBefore, CleanKey;
  }

  lemma KeyThenBefore(ops: seq<Op>, id: nat)
    requires id < |ops| && CleanKey(ops, ops[id].key)
    ensures CleanBefore(ops, id) && !ops[id].gaveUp
  {
  }

  lemma Forgets(s: System, id: nat)
    requires Queued(s) && id < |s.ops| && s.ops[id].phase.Released?
    ensures Queued(s.(table := DropTail(s.table, s.ops[id].key, id)))
  {
    hide CleanBefore, CleanKey;
    var t := s.(table := DropTail(s.table, s.ops[id].key, id));
    assert NewestOk(t) by {
      hide ChainOk;
      forall i | 0 <= i < |t.ops| && t.ops[i].key !in t.table.tails && CleanKey(t.ops, t.ops[i].key)
        ensures IsDone(t.ops[i].phase)
      {
        if t.ops[i].key == s.ops[id].key && t.ops[i].key in s.table.tails {
          KeyThenBefore(s.ops, id);
          assert i <= id;
        }
      }
    }
  }

  lemma EarlierDone(s: System, id: nat)
    requires Queued(s) && LinksOk(s) && id < |s.ops| && CleanBefore(s.ops, id) && !s.ops[id].gaveUp
    requires s.ops[id].phase.Waiting? ==> Ready(s, id)
    ensures forall i :: 0 <= i < id && s.ops[i].key == s.ops[id].key ==> IsDone(s.ops[i].phase)
  {
    hide NewestOk;
    var previous := s.ops[id].previous;
    forall i | 0 <= i < id && s.ops[i].key == s.ops[id].key ensures IsDone(s.ops[i].phase) {
      assert WaitsFor(s.ops, i, id);
      if s.ops[id].phase.Waiting? && previous.Some? {
        assert CleanBefore(s.ops, previous.value);
      }
    }
  }

  lemma EarlierDoneIfClean(s: System, id: nat)
    requires Queued(s) && LinksOk(s) && id < |s.ops|
    requires s.ops[id].phase.Waiting? ==> Ready(s, id)
    ensures CleanBefore(s.ops, id) && !s.ops[id].gaveUp ==> AllBeforeDone(s.ops, id)
  {
    hide Queued, LinksOk, CleanBefore;
    if CleanBefore(s.ops, id) && !s.ops[id].gaveUp {
      EarlierDone(s, id);
    }
  }

  lemma QueuedKeeps(s: System, a: Action)
    requires TailsOk(s) && LinksOk(s) && Queued(s) && Enabled(s, a)
    ensures Queued(Do(s, a))
  {
    hide Queued, TailsOk, LinksOk, CleanBefore;
    if OfOperation(a) && !a.GiveUp? {
      EarlierDoneIfClean(s, a.id);
    }
    match a {
      case Enqueue => QueuedEnqueue(s);
      case Wake(id) => QueuedMove(s, id, Running); QueuedSame(Move(s, id, Running), Do(s, a));
      case GiveUp(id) => QueuedGiveUp(s, id);
      case Finish(id) => QueuedMove(s, id, Ended); QueuedSame(Move(s, id, Ended), Do(s, a));
      case CloseDone(id) => QueuedMove(s, id, Done);
      case FreeSlot(id) => QueuedMove(s, id, Released); QueuedSame(Move(s, id, Released), Do(s, a));
      case Forget(id) =>
        Forgets(s, id);
        QueuedMove(s.(table := DropTail(s.table, s.ops[id].key, id)), id, Gone);
      case _ => QueuedSame(s, Do(s, a));
    }
  }

  // ----------------------------------------------------------------- The trace

  lemma ProjectSnoc(trace: seq<Mark>, mark: Mark, key: Bytes)
    ensures Project(trace + [mark], key) == Project(trace, key) + if mark.key == key then [mark] else []
  {
    assert (trace + [mark])[..|trace|] == trace;
  }

  lemma {:induction false} FlowSame(a: seq<Op>, b: seq<Op>, key: Bytes)
    requires |a| == |b| && forall i :: 0 <= i < |a| ==> MarkOf(a[i], i, key) == MarkOf(b[i], i, key)
    ensures Flow(a, key) == Flow(b, key)
  {
    if a != [] {
      var n := |a| - 1;
      FlowSame(a[..n], b[..n], key);
      assert MarkOf(a[n], n, key) == MarkOf(b[n], n, key);
    }
  }

  /** Operations still waiting have left no mark. */
  lemma {:induction false} FlowUpTo(ops: seq<Op>, id: nat, key: Bytes)
    requires id < |ops| && forall i :: id < i < |ops| ==> MarkOf(ops[i], i, key) == []
    ensures Flow(ops, key) == Flow(ops[..id], key) + MarkOf(ops[id], id, key)
  {
    hide MarkOf;
    var n := |ops| - 1;
    if id < n {
      assert MarkOf(ops[n], n, key) == [];
      FlowUpTo(ops[..n], id, key);
      assert ops[..n][..id] == ops[..id];
    }
  }

  /** In an orderly key nothing behind an unfinished operation has left a mark. */
  lemma LaterUnmarked(s: System, id: nat, key: Bytes)
    requires InOrder(s) && Orderly(s.ops, key) && id < |s.ops| && s.ops[id].key == key && !IsDone(s.ops[id].phase)
    ensures forall k :: id < k < |s.ops| ==> MarkOf(s.ops[k], k, key) == []
  {
    forall k | id < k < |s.ops| ensures MarkOf(s.ops[k], k, key) == [] {
      if s.ops[k].key == key && Begun(s.ops[k]) {
        assert CleanBefore(s.ops, k);
      }
    }
  }

  /** Leaving the queue or ending adds exactly its mark, last of its key. */
  lemma FlowMove(s: System, id: nat, phase: Phase, key: Bytes)
    requires InOrder(s) && Orderly(s.ops, key) && id < |s.ops| && !IsDone(s.ops[id].phase)
    ensures var op := s.ops[id];
            var t := Move(s, id, phase);
            if op.key == key
            then && Flow(s.ops, key) == Flow(s.ops[..id], key) + MarkOf(op, id, key)
                 && Flow(t.ops, key) == Flow(s.ops[..id], key) + MarkOf(op.(phase := phase), id, key)
            else Flow(t.ops, key) == Flow(s.ops, key)
  {
    var t := Move(s, id, phase);
    if s.ops[id].key == key {
      LaterUnmarked(s, id, key);
      hide InOrder, Orderly;
      FlowUpTo(s.ops, id, key);
      FlowUpTo(t.ops, id, key);
      assert t.ops[..id] == s.ops[..id];
    } else {
      FlowSame(s.ops, t.ops, key);
    }
  }

  lemma WakeTraced(s: System, id: nat, key: Bytes)
    requires InOrder(s) && Orderly(s.ops, key) && At(s, id, Waiting) && !s.ops[id].gaveUp
    requires Project(s.trace, key) == Flow(s.ops, key)
    ensures Project(s.trace + [Begin(s.ops[id].key, id)], key) == Flow(Move(s, id, Running).ops, key)
  {
    FlowMove(s, id, Running, key);
    ProjectSnoc(s.trace, Begin(s.ops[id].key, id), key);
    hide InOrder, Orderly, Flow, Project, Move;
    if s.ops[id].key == key {
      assert Flow(s.ops[..id], key) + [] == Flow(s.ops[..id], key);
    }
  }

  lemma FinishTraced(s: System, id: nat, key: Bytes)
    requires InOrder(s) && Orderly(s.ops, key) && At(s, id, Running) && !s.ops[id].gaveUp
    requires Project(s.trace, key) == Flow(s.ops, key)
    ensures Project(s.trace + [End(s.ops[id].key, id)], key) == Flow(Move(s, id, Ended).ops, key)
  {
    hide InOrder, Orderly, Flow, Project;
    FlowMove(s, id, Ended, key);
    ProjectSnoc(s.trace, End(s.ops[id].key, id), key);
    hide Move;
    if s.ops[id].key == key {
      Pair(Flow(s.ops[..id], key), Begin(key, id), End(key, id));
    } else {
      assert Project(s.trace, key) + [] == Project(s.trace, key);
    }
  }

  lemma Pair(before: seq<Mark>, a: Mark, b: Mark)
    ensures before + [a] + [b] == before + [a, b]
  {
  }

  lemma LaterTraced(s: System, id: nat, phase: Phase, key: Bytes)
    requires id < |s.ops| && (s.ops[id].phase.Ended? || IsDone(s.ops[id].phase)) && IsDone(phase)
    ensures Flow(Move(s, id, phase).ops, key) == Flow(s.ops, key)
  {
    FlowSame(s.ops, Move(s, id, phase).ops, key);
  }

  lemma EnqueueTraced(s: System, key: Bytes)
    requires s.reader.Slotted?
    ensures Flow(Do(s, Enqueue).ops, key) == Flow(s.ops, key)
  {
    var t := Do(s, Enqueue);
    if !s.table.closed {
      assert t.ops[..|s.ops|] == s.ops;
    }
  }

  /** Once broken, the order of a key stays broken. */
  lemma OrderlyBefore(s: System, a: Action, key: Bytes)
    requires Enabled(s, a) && Orderly(Do(s, a).ops, key)
    requires forall i :: 0 <= i < |s.ops| && s.ops[i].phase.Waiting? ==> !s.ops[i].gaveUp
    ensures Orderly(s.ops, key)
  {
    var t := Do(s, a);
    forall i, j | 0 <= i < j < |s.ops| && s.ops[i].key == key == s.ops[j].key && s.ops[i].gaveUp
      ensures !Begun(s.ops[j])
    {
      StepAt(s, a, i);
      StepAt(s, a, j);
    }
  }

  lemma StepAt(s: System, a: Action, i: nat)
    requires Enabled(s, a) && i < |s.ops|
    ensures var t := Do(s, a);
            && |s.ops| <= |t.ops| && t.ops[i].key == s.ops[i].key
            && (s.ops[i].gaveUp ==> t.ops[i].gaveUp) && (Begun(s.ops[i]) ==> Begun(t.ops[i]))
  {
  }

  lemma TracedAt(s: System, a: Action, key: Bytes)
    requires InOrder(s) && LinksOk(s) && Enabled(s, a) && Orderly(s.ops, key)
             && Project(s.trace, key) == Flow(s.ops, key)
    ensures Project(Do(s, a).trace, key) == Flow(Do(s, a).ops, key)
  {
    hide InOrder, Orderly, Admit, Release, DropTail, Flow, Project;
    match a {
      case Enqueue => EnqueueTraced(s, key);
      case Wake(id) => WakeTraced(s, id, key);
      case GiveUp(id) => FlowSame(s.ops, Do(s, a).ops, key);
      case Finish(id) => FinishTraced(s, id, key);
      case CloseDone(id) => LaterTraced(s, id, Done, key);
      case FreeSlot(id) => LaterTraced(s, id, Released, key);
      case Forget(id) => LaterTraced(s, id, Gone, key);
      case _ =>
    }
  }

  lemma TracedKeeps(s: System, a: Action)
    requires Queued(s) && LinksOk(s) && Traced(s) && Enabled(s, a)
    ensures Traced(Do(s, a))
  {
    OrderOf(s);
    var t := Do(s, a);
    assert forall i :: 0 <= i < |s.ops| && s.ops[i].phase.Waiting? ==> !s.ops[i].gaveUp;
    hide Do, InOrder, LinksOk, Orderly, Queued;
    forall key | Orderly(t.ops, key) ensures Project(t.trace, key) == Flow(t.ops, key) {
      OrderlyBefore(s, a, key);
      TracedAt(s, a, key);
    }
  }

  lemma MarkedKeeps(s: System, a: Action)
    requires Marked(s) && LinksOk(s) && Enabled(s, a)
    ensures Marked(Do(s, a))
  {
    hide Admit, Release, DropTail;
    var t := Do(s, a);
    assert a.Enqueue? ==> t.trace == s.trace;
    forall i | 0 <= i < |s.ops| ensures t.ops[i].key == s.ops[i].key && (Begun(s.ops[i]) ==> Begun(t.ops[i])) {
      StepAt(s, a, i);
    }
  }

  lemma KeyedKeeps(s: System, a: Action)
    requires Keyed(s) && Enabled(s, a)
    ensures Keyed(Do(s, a))
  {
    hide Release, DropTail, KeyOf;
    assert a.Arrive? && Admit(s.table, a.kind, a.grant).1.Admitted? ==>
        Admit(s.table, a.kind, a.grant).1.key == KeyOf(a.grant);
  }

  lemma StepKeeps(s: System, a: Action)
    requires Inv(s) && Enabled(s, a)
    ensures Inv(Do(s, a))
  {
    hide SlotsOk, TailsOk, LinksOk, Queued, Traced, Marked, Keyed, Do;
    SlotsKeep(s, a);
    TailsKeep(s, a);
    QueuedKeeps(s, a);
    TracedKeeps(s, a);
    MarkedKeeps(s, a);
    KeyedKeeps(s, a);
  }

  lemma OrderOf(s: System)
    requires Queued(s)
    ensures InOrder(s)
  {
  }

  predicate CanRun(s: System, actions: seq<Action>)
    decreases |actions|
  {
    actions == [] || (Enabled(s, actions[0]) && CanRun(Do(s, actions[0]), actions[1..]))
  }

  function Run(s: System, actions: seq<Action>): System
    requires CanRun(s, actions)
    decreases |actions|
  {
    if actions == [] then s else Run(Do(s, actions[0]), actions[1..])
  }

  lemma StartInv()
    ensures Inv(START)
  {
  }

  lemma {:induction false} RunKeeps(s: System, actions: seq<Action>)
    requires Inv(s) && CanRun(s, actions)
    ensures Inv(Run(s, actions))
    decreases |actions|
  {
    hide Inv, Enabled, Do;
    if actions != [] {
      StepKeeps(s, actions[0]);
      RunKeeps(Do(s, actions[0]), actions[1..]);
    }
  }

  // -------------------------------------------------------------- Serial by key

  /** The operations of one key, by arrival. */
  function Arrivals(ops: seq<Op>, key: Bytes): seq<nat> {
    if ops == [] then []
    else Arrivals(ops[..|ops| - 1], key) + if ops[|ops| - 1].key == key then [|ops| - 1] else []
  }

  /** What running these one after another, in this order, looks like. */
  function Serial(ids: seq<nat>, key: Bytes): seq<Mark> {
    if ids == [] then [] else Serial(ids[..|ids| - 1], key) + [Begin(key, ids[|ids| - 1]), End(key, ids[|ids| - 1])]
  }

  /** Its handler has run and its channel is closed. */
  predicate Served(op: Op) {
    IsDone(op.phase) && !op.gaveUp
  }

  predicate AllServed(ops: seq<Op>, key: Bytes) {
    forall i :: 0 <= i < |ops| && ops[i].key == key ==> Served(ops[i])
  }

  predicate StartedInOrder(ops: seq<Op>, key: Bytes) {
    forall i, j :: 0 <= i < j < |ops| && ops[i].key == key == ops[j].key && Begun(ops[j]) ==> Served(ops[i])
  }

  lemma SerialSnoc(ids: seq<nat>, id: nat, key: Bytes)
    ensures Serial(ids + [id], key) == Serial(ids, key) + [Begin(key, id), End(key, id)]
  {
    assert (ids + [id])[..|ids|] == ids;
  }

  lemma {:induction false} FlowIsSerial(ops: seq<Op>, key: Bytes)
    requires StartedInOrder(ops, key)
    ensures Flow(ops, key) <= Serial(Arrivals(ops, key), key)
    ensures AllServed(ops, key) ==> Flow(ops, key) == Serial(Arrivals(ops, key), key)
  {
    if ops != [] {
      var n := |ops| - 1;
      var op := ops[n];
      var rest := ops[..n];
      var ids := Arrivals(rest, key);
      FlowIsSerial(rest, key);
      assert Flow(ops, key) == Flow(rest, key) + MarkOf(op, n, key);
      assert Arrivals(ops, key) == ids + if op.key == key then [n] else [];
      hide Flow, Serial, Arrivals;
      assert AllServed(ops, key) ==> AllServed(rest, key);
      if op.key == key {
        SerialSnoc(ids, n, key);
        assert Begun(op) ==> AllServed(rest, key);
        assert AllServed(ops, key) ==> Served(op);
        Longer(Serial(ids, key), MarkOf(op, n, key), [Begin(key, n), End(key, n)]);
      } else {
        assert Arrivals(ops, key) == ids && Flow(ops, key) == Flow(rest, key);
      }
    }
  }

  lemma Longer(a: seq<Mark>, b: seq<Mark>, c: seq<Mark>)
    requires b <= c
    ensures a + b <= a + c
  {
  }

  lemma OrderlyStarts(s: System, key: Bytes)
    requires InOrder(s) && Orderly(s.ops, key)
    ensures StartedInOrder(s.ops, key)
  {
    forall i, j | 0 <= i < j < |s.ops| && s.ops[i].key == key == s.ops[j].key && Begun(s.ops[j])
      ensures Served(s.ops[i])
    {
      assert CleanBefore(s.ops, j);
    }
  }

  lemma {:induction false} InProject(trace: seq<Mark>, key: Bytes, mark: Mark)
    ensures mark in Project(trace, key) <==> mark in trace && mark.key == key
  {
    if trace != [] {
      InProject(trace[..|trace| - 1], key, mark);
      assert trace == trace[..|trace| - 1] + [trace[|trace| - 1]];
    }
  }

  /** The k-th operation of a serial execution begins at place 2k and ends right after. */
  lemma {:induction false} SerialAt(ids: seq<nat>, key: Bytes, k: nat)
    requires k < |ids|
    ensures |Serial(ids, key)| == 2 * |ids|
    ensures Serial(ids, key)[2 * k] == Begin(key, ids[k]) && Serial(ids, key)[2 * k + 1] == End(key, ids[k])
  {
    var n := |ids| - 1;
    if k < n {
      SerialAt(ids[..n], key, k);
    } else if n > 0 {
      SerialAt(ids[..n], key, 0);
    }
  }

  /** Arrivals lists the operations of the key, oldest first. */
  lemma {:induction false} ArrivalsSorted(ops: seq<Op>, key: Bytes)
    ensures forall a, b :: 0 <= a < b < |Arrivals(ops, key)| ==> Arrivals(ops, key)[a] < Arrivals(ops, key)[b]
    ensures forall a :: 0 <= a < |Arrivals(ops, key)| ==> Arrivals(ops, key)[a] < |ops|
    ensures forall i :: 0 <= i < |ops| && ops[i].key == key ==> i in Arrivals(ops, key)
  {
    if ops != [] {
      var n := |ops| - 1;
      ArrivalsSorted(ops[..n], key);
      forall i | 0 <= i < |ops| && ops[i].key == key ensures i in Arrivals(ops, key) {
        if i < n {
          assert ops[..n][i].key == key;
        } else {
          assert Arrivals(ops, key)[|Arrivals(ops, key)| - 1] == n;
        }
      }
    }
  }

  /** A prefix of a serial execution in which a later operation began has begun every earlier one. */
  lemma BeganBefore(ids: seq<nat>, key: Bytes, marks: seq<Mark>, a: nat, b: nat)
    requires a < b < |ids| && marks <= Serial(ids, key) && Begin(key, ids[b]) in marks
    requires forall x, y :: 0 <= x < y < |ids| ==> ids[x] < ids[y]
    ensures Begin(key, ids[a]) in marks
  {
    var q :| 0 <= q < |marks| && marks[q] == Begin(key, ids[b]);
    var all := Serial(ids, key);
    assert all[q] == marks[q];
    SerialAt(ids, key, a);
    var k := q / 2;
    SerialAt(ids, key, k);
    hide Serial;
    assert 2 * k <= q <= 2 * k + 1 && all[2 * k + 1].End?;
    assert q == 2 * k && ids[k] == ids[b];
    assert k == b;
    assert marks[2 * a] == all[2 * a];
  }

  /** A handler entered behind a give-up leaves a hole that no serial execution has. */
  lemma HoleIsNotSerial(s: System, key: Bytes, i: nat, j: nat)
    requires Marked(s) && i < j < |s.ops| && s.ops[i].key == key == s.ops[j].key && s.ops[i].gaveUp && Begun(s.ops[j])
    ensures !(Project(s.trace, key) <= Serial(Arrivals(s.ops, key), key))
  {
    var ids := Arrivals(s.ops, key);
    ArrivalsSorted(s.ops, key);
    InProject(s.trace, key, Begin(key, i));
    InProject(s.trace, key, Begin(key, j));
    hide Project, Serial, Arrivals;
    var a :| 0 <= a < |ids| && ids[a] == i;
    var b :| 0 <= b < |ids| && ids[b] == j;
    if Project(s.trace, key) <= Serial(ids, key) {
      BeganBefore(ids, key, Project(s.trace, key), a, b);
    }
  }

  /** A key's marks are a serial execution exactly when none of its handlers was entered behind a give-up. */
  lemma KeySerialIff(actions: seq<Action>, key: Bytes)
    requires CanRun(START, actions)
    ensures var s := Run(START, actions);
            Project(s.trace, key) <= Serial(Arrivals(s.ops, key), key) <==> Orderly(s.ops, key)
  {
    hide CanRun, Run, SlotsOk, TailsOk, LinksOk, Queued, Marked, Keyed;
    StartInv();
    RunKeeps(START, actions);
    var s := Run(START, actions);
    OrderOf(s);
    hide Inv, InOrder;
    if Orderly(s.ops, key) {
      OrderlyStarts(s, key);
      FlowIsSerial(s.ops, key);
    } else {
      var i, j :| 0 <= i < j < |s.ops| && s.ops[i].key == key == s.ops[j].key && s.ops[i].gaveUp && Begun(s.ops[j]);
      HoleIsNotSerial(s, key, i, j);
    }
  }

  lemma SameKeyIff(a: Bytes, b: Bytes)
    ensures KeyOf(a) == KeyOf(b) <==> SameGrant(a, b)
  {
  }

  /** Over every run, operations share a key exactly when they are of one grant, and wait only for their own grant's. */
  lemma KeysAreGrants(actions: seq<Action>, i: nat, j: nat)
    requires CanRun(START, actions) && i < |Run(START, actions).ops| && j < |Run(START, actions).ops|
    ensures var ops := Run(START, actions).ops;
            && (ops[i].key == ops[j].key <==> SameGrant(ops[i].grant, ops[j].grant))
            && (ops[i].previous.Some? ==>
                  ops[i].previous.value < i && SameGrant(ops[ops[i].previous.value].grant, ops[i].grant))
  {
    hide CanRun, Run, SlotsOk, TailsOk, Ordered, KeyOf, SameGrant;
    StartInv();
    RunKeeps(START, actions);
    var ops := Run(START, actions).ops;
    SameKeyIff(ops[i].grant, ops[j].grant);
    if ops[i].previous.Some? {
      SameKeyIff(ops[ops[i].previous.value].grant, ops[i].grant);
    }
  }

  /** The marks of one grant's operations. */
  function GrantMarks(trace: seq<Mark>, ops: seq<Op>, grant: Bytes): seq<Mark> {
    if trace == [] then []
    else
      var last := trace[|trace| - 1];
      GrantMarks(trace[..|trace| - 1], ops, grant)
      + if last.id < |ops| && SameGrant(ops[last.id].grant, grant) then [last] else []
  }

  /** The operations of one grant, by arrival. */
  function GrantArrivals(ops: seq<Op>, grant: Bytes): seq<nat> {
    if ops == [] then []
    else GrantArrivals(ops[..|ops| - 1], grant) + if SameGrant(ops[|ops| - 1].grant, grant) then [|ops| - 1] else []
  }

  /** No handler of this grant has been entered behind an operation that gave up. */
  ghost predicate GrantOrderly(ops: seq<Op>, grant: Bytes) {
    forall i, j ::
      0 <= i < j < |ops| && SameGrant(ops[i].grant, grant) && SameGrant(ops[j].grant, grant) && ops[i].gaveUp ==>
      !Begun(ops[j])
  }

  lemma {:induction false} MarksOfGrant(trace: seq<Mark>, ops: seq<Op>, grant: Bytes)
    requires forall i :: 0 <= i < |ops| ==> ops[i].key == KeyOf(ops[i].grant)
    requires forall mark :: mark in trace ==> mark.id < |ops| && ops[mark.id].key == mark.key
    ensures GrantMarks(trace, ops, grant) == Project(trace, KeyOf(grant))
  {
    hide KeyOf, SameGrant;
    if trace != [] {
      var n := |trace| - 1;
      MarksOfGrant(trace[..n], ops, grant);
      assert trace[n] in trace;
      SameKeyIff(ops[trace[n].id].grant, grant);
    }
  }

  lemma {:induction false} ArrivalsOfGrant(ops: seq<Op>, grant: Bytes)
    requires forall i :: 0 <= i < |ops| ==> ops[i].key == KeyOf(ops[i].grant)
    ensures GrantArrivals(ops, grant) == Arrivals(ops, KeyOf(grant))
    ensures GrantOrderly(ops, grant) <==> Orderly(ops, KeyOf(grant))
  {
    hide KeyOf, SameGrant;
    forall i | 0 <= i < |ops|
      ensures SameGrant(ops[i].grant, grant) <==> ops[i].key == KeyOf(grant)
    {
      SameKeyIff(ops[i].grant, grant);
    }
    if ops != [] {
      ArrivalsOfGrant(ops[..|ops| - 1], grant);
    }
  }

  /**
   For every run of the dispatcher, cancelled or not: a grant's handlers begin and end one at a time,
   in arrival order, none skipped, exactly as long as none of them is entered behind an operation
   of the same grant that gave up.
   */
  lemma SerialIff(actions: seq<Action>, grant: Bytes)
    requires CanRun(START, actions)
    ensures var s := Run(START, actions);
            GrantMarks(s.trace, s.ops, grant) <= Serial(GrantArrivals(s.ops, grant), KeyOf(grant))
            <==> GrantOrderly(s.ops, grant)
  {
    hide CanRun, Run, SlotsOk, TailsOk, LinksOk, Ordered, KeyOf, Serial, Project, GrantMarks, GrantArrivals, Arrivals;
    hide GrantOrderly, Orderly;
    StartInv();
    RunKeeps(START, actions);
    var s := Run(START, actions);
    MarksOfGrant(s.trace, s.ops, grant);
    ArrivalsOfGrant(s.ops, grant);
    KeySerialIff(actions, KeyOf(grant));
  }

  /** So until the connection is cancelled every grant is served serially. */
  lemma OneAtATime(actions: seq<Action>, grant: Bytes)
    requires CanRun(START, actions) && !Run(START, actions).cancelled
    ensures var s := Run(START, actions);
            GrantMarks(s.trace, s.ops, grant) <= Serial(GrantArrivals(s.ops, grant), KeyOf(grant))
  {
    hide CanRun, Run, SlotsOk, TailsOk, Ordered, Serial, GrantMarks, GrantArrivals, SameGrant, KeyOf, Keyed;
    StartInv();
    RunKeeps(START, actions);
    SerialIff(actions, grant);
  }

  /** At every moment of every run, cancelled or not, at most 128 operations hold a slot. */
  lemma SlotsBounded(actions: seq<Action>)
    requires CanRun(START, actions)
    ensures Unreleased(Run(START, actions).ops) <= Run(START, actions).table.inflight <= MAX_CONNECTION_OPERATIONS
  {
    hide CanRun, Run, TailsOk, LinksOk, Ordered;
    StartInv();
    RunKeeps(START, actions);
  }

  // ------------------------------------------------------------ Never stuck

  /**
   Behind no give-up, a waiting operation may start exactly when every earlier operation of its own
   grant is done, whatever the operations of other grants are doing.
   */
  lemma WakeIff(s: System, id: nat)
    requires Inv(s) && At(s, id, Waiting) && CleanBefore(s.ops, id)
    ensures Enabled(s, Wake(id)) <==>
            forall i :: 0 <= i < id && SameGrant(s.ops[i].grant, s.ops[id].grant) ==> IsDone(s.ops[i].phase)
  {
    hide Traced, Marked, SlotsOk, TailsOk, Queued, CleanBefore, SameGrant, KeyOf;
    SameGrants(s, id);
    if Ready(s, id) {
      EarlierDone(s, id);
    }
  }

  /** Moving an operation of one grant leaves what another grant's operations may do as it was. */
  lemma GrantsIndependent(s: System, a: Action, id: nat)
    requires Inv(s) && Enabled(s, a) && OfOperation(a)
    requires id < |s.ops| && !SameGrant(s.ops[id].grant, s.ops[a.id].grant)
    ensures var t := Do(s, a); t.ops[id] == s.ops[id] && (Ready(t, id) <==> Ready(s, id))
  {
    hide SlotsOk, TailsOk, Ordered, SameGrant, KeyOf;
    SameKeyIff(s.ops[id].grant, s.ops[a.id].grant);
  }

  /** The step that takes one operation further by itself. */
  function Onward(s: System, id: nat): Action
    requires id < |s.ops| && !s.ops[id].phase.Gone?
  {
    match s.ops[id].phase
    case Waiting => if s.cancelled then GiveUp(id) else Wake(id)
    case Running => Finish(id)
    case Ended => CloseDone(id)
    case Done => FreeSlot(id)
    case _ => Forget(id)
  }

  /** The oldest unfinished operation of each grant can always take its next step. */
  lemma OldestCanMove(s: System, id: nat)
    requires Inv(s) && id < |s.ops| && !s.ops[id].phase.Gone?
    requires forall i :: 0 <= i < id && SameGrant(s.ops[i].grant, s.ops[id].grant) ==> IsDone(s.ops[i].phase)
    ensures Enabled(s, Onward(s, id))
  {
    hide SlotsOk, TailsOk, Ordered, SameGrant, KeyOf;
    if s.ops[id].phase.Waiting? && !s.cancelled {
      SameGrants(s, id);
      assert CleanBefore(s.ops, id);
      WakeIff(s, id);
    }
  }

  lemma SameGrants(s: System, id: nat)
    requires Keyed(s) && id < |s.ops|
    ensures forall i :: 0 <= i < |s.ops| ==>
              (SameGrant(s.ops[i].grant, s.ops[id].grant) <==> s.ops[i].key == s.ops[id].key)
  {
  }

  /** So while any operation is left some step is possible: the wait chain cannot deadlock. */
  lemma {:induction false} NeverStuck(s: System, id: nat)
    requires Inv(s) && id < |s.ops| && !s.ops[id].phase.Gone?
    ensures exists i :: 0 <= i <= id && !s.ops[i].phase.Gone? && Enabled(s, Onward(s, i))
    decreases id
  {
    hide Inv;
    if i :| 0 <= i < id && SameGrant(s.ops[i].grant, s.ops[id].grant) && !IsDone(s.ops[i].phase) {
      NeverStuck(s, i);
    } else {
      OldestCanMove(s, id);
    }
  }

  function StepsLeft(op: Op): nat {
    match op.phase
    case Waiting => 5
    case Running => 4
    case Ended => 3
    case Done => 2
    case Released => 1
    case Gone => 0
  }

  function Work(ops: seq<Op>): nat {
    if ops == [] then 0 else Work(ops[..|ops| - 1]) + StepsLeft(ops[|ops| - 1])
  }

  lemma {:induction false} WorkUpdate(ops: seq<Op>, id: nat, op: Op)
    requires id < |ops|
    ensures Work(ops[id := op]) + StepsLeft(ops[id]) == Work(ops) + StepsLeft(op)
  {
    var n := |ops| - 1;
    if id < n {
      WorkUpdate(ops[..n], id, op);
      assert ops[id := op][..n] == ops[..n][id := op];
    } else {
      assert ops[id := op][..n] == ops[..n];
    }
  }

  lemma StepWorks(s: System, a: Action)
    requires Enabled(s, a) && OfOperation(a)
    ensures Work(Do(s, a).ops) < Work(s.ops)
  {
    var t := Do(s, a);
    WorkUpdate(s.ops, a.id, t.ops[a.id]);
  }

  /** With nothing new arriving, operations take only finitely many steps. */
  lemma {:induction false} RunsEnd(s: System, actions: seq<Action>)
    requires CanRun(s, actions) && forall i :: 0 <= i < |actions| ==> OfOperation(actions[i])
    ensures |actions| <= Work(s.ops)
    decreases |actions|
  {
    hide Do, Enabled, Work;
    if actions != [] {
      StepWorks(s, actions[0]);
      RunsEnd(Do(s, actions[0]), actions[1..]);
    }
  }

  lemma {:induction false} AllReleased(ops: seq<Op>)
    requires forall i :: 0 <= i < |ops| ==> ops[i].phase.Gone?
    ensures Unreleased(ops) == 0
  {
    if ops != [] {
      AllReleased(ops[..|ops| - 1]);
    }
  }

  /** And where none is possible any more, every operation is gone, with its slot and its tail. */
  lemma Drained(s: System)
    requires Inv(s) && forall a :: OfOperation(a) ==> !Enabled(s, a)
    ensures forall i :: 0 <= i < |s.ops| ==> s.ops[i].phase.Gone?
    ensures s.table.tails == map[] && s.table.inflight == if s.reader.Slotted? then 1 else 0
  {
    hide LinksOk, Ordered, Enabled;
    forall id | 0 <= id < |s.ops| ensures s.ops[id].phase.Gone? {
      if !s.ops[id].phase.Gone? {
        SomeStep(s, id);
      }
    }
    AllReleased(s.ops);
    NoTails(s);
  }

  lemma SomeStep(s: System, id: nat)
    requires Inv(s) && id < |s.ops| && !s.ops[id].phase.Gone?
    ensures exists a :: OfOperation(a) && Enabled(s, a)
  {
    hide Inv, Enabled;
    NeverStuck(s, id);
    var i :| 0 <= i <= id && !s.ops[i].phase.Gone? && Enabled(s, Onward(s, i));
    assert OfOperation(Onward(s, i));
  }

  lemma NoTails(s: System)
    requires TailsOk(s) && forall i :: 0 <= i < |s.ops| ==> s.ops[i].phase.Gone?
    ensures s.table.tails == map[]
  {
    assert forall key :: key !in s.table.tails;
    assert s.table.tails.Keys == {};
  }

  /** An open connection queues the frame the reader holds, for its grant; a closed one gives the slot back instead. */
  lemma QueuesUnlessClosed(s: System)
    requires Inv(s) && Enabled(s, Enqueue)
    ensures var t := Do(s, Enqueue);
            && t.reader.Between? && t.ops[..|s.ops|] == s.ops
            && (!s.table.closed ==>
                  |t.ops| == |s.ops| + 1 && t.ops[|s.ops|].grant == s.reader.grant && t.ops[|s.ops|].phase.Waiting?
                  && t.table.inflight == s.table.inflight)
            && (s.table.closed ==> t.ops == s.ops && t.table.inflight == s.table.inflight - 1)
  {
    hide TailsOk, LinksOk, Ordered;
  }

  /** Once closed, a connection takes no operation any more. */
  lemma {:induction false} ClosedForGood(s: System, actions: seq<Action>)
    requires s.table.closed && CanRun(s, actions)
    ensures Run(s, actions).table.closed && |Run(s, actions).ops| == |s.ops|
    decreases |actions|
  {
    if actions != [] {
      ClosedForGood(Do(s, actions[0]), actions[1..]);
    }
  }

  /** A frame is refused exactly when 128 slots are taken, and only a request gets an answer. */
  lemma Refusal(s: System, kind: Kind, grant: Bytes)
    requires Inv(s) && Enabled(s, Arrive(kind, grant))
    ensures var outcome := Admit(s.table, kind, grant).1;
            && (outcome.Ignored? <==> kind == Response || kind == Watch)
            && (outcome.ReplyBusy? <==> kind == Request && Unreleased(s.ops) == MAX_CONNECTION_OPERATIONS)
            && (outcome.CloseSession? <==> kind == Pty && Unreleased(s.ops) == MAX_CONNECTION_OPERATIONS)
  {
    hide TailsOk, LinksOk, Ordered;
  }

  predicate TwoRunning(s: System, grant: Bytes) {
    exists i, j ::
      0 <= i < j < |s.ops| && s.ops[i].phase == Running == s.ops[j].phase && s.ops[i].grant == grant == s.ops[j].grant
  }

  lemma {:induction false} Then(s: System, actions: seq<Action>, a: Action)
    requires CanRun(s, actions) && Enabled(Run(s, actions), a)
    ensures CanRun(s, actions + [a]) && Run(s, actions + [a]) == Do(Run(s, actions), a)
    decreases |actions|
  {
    hide Enabled, Do;
    if actions == [] {
      assert [a][1..] == [];
      assert Run(Do(s, a), []) == Do(s, a);
    } else {
      Then(Do(s, actions[0]), actions[1..], a);
      assert (actions + [a])[1..] == actions[1..] + [a];
    }
  }

  /** Some run from the start reaches the state. */
  ghost predicate Reached(s: System) {
    exists actions :: CanRun(START, actions) && Run(START, actions) == s
  }

  lemma Reaches(s: System, a: Action)
    requires Reached(s) && Enabled(s, a)
    ensures Reached(Do(s, a))
  {
    hide CanRun, Run, Enabled, Do;
    var actions :| CanRun(START, actions) && Run(START, actions) == s;
    Then(START, actions, a);
    assert Run(START, actions + [a]) == Do(s, a);
  }

  /** Three operations of one grant, all queued. */
  function ThreeQueued(grant: Bytes): System {
    var key := KeyOf(grant);
    System(Table(3, map[key := 2], false), false, Between,
           [Op(grant, key, None, Waiting, false), Op(grant, key, Some(0), Waiting, false),
            Op(grant, key, Some(1), Waiting, false)], [])
  }

  lemma ReachesQueued(s: System, grant: Bytes)
    requires Reached(s) && s.reader.Between? && s.table.inflight < MAX_CONNECTION_OPERATIONS && !s.table.closed
    ensures var key := KeyOf(grant);
            var tail := if key in s.table.tails then Some(s.table.tails[key]) else None;
            Reached(s.(table := Table(s.table.inflight + 1, s.table.tails[key := |s.ops|], false),
                       ops := s.ops + [Op(grant, key, tail, Waiting, false)]))
  {
    hide Reached, KeyOf;
    Reaches(s, Arrive(Request, grant));
    Reaches(Do(s, Arrive(Request, grant)), Enqueue);
  }

  lemma ReachesThree(grant: Bytes)
    ensures Reached(ThreeQueued(grant))
  {
    var key := KeyOf(grant);
    hide CanRun, Run, KeyOf;
    Nothing();
    assert Reached(START);
    hide Reached;
    ReachesQueued(START, grant);
    var one := System(Table(1, map[key := 0], false), false, Between, [Op(grant, key, None, Waiting, false)], []);
    assert Reached(one);
    ReachesQueued(one, grant);
    var two := System(Table(2, map[key := 1], false), false, Between,
                      one.ops + [Op(grant, key, Some(0), Waiting, false)], []);
    assert Reached(two) by { assert one.table.tails[key := 1] == map[key := 1]; }
    ReachesQueued(two, grant);
    assert two.table.tails[key := 2] == map[key := 2];
    assert two.ops + [Op(grant, key, Some(1), Waiting, false)] == ThreeQueued(grant).ops;
  }

  lemma Nothing()
    ensures CanRun(START, []) && Run(START, []) == START
  {
  }

  /**
   After a cancel the order is off: a waiter that gives up releases its successor while an earlier
   operation of the same grant still runs.
   */
  lemma OverlapAfterCancel(grant: Bytes)
    ensures exists s :: Reached(s) && TwoRunning(s, grant)
  {
    hide KeyOf, Reached;
    var key := KeyOf(grant);
    ReachesThree(grant);
    var s0 := ThreeQueued(grant);
    Reaches(s0, Wake(0));
    var s1 := Do(s0, Wake(0));
    Reaches(s1, Cancel);
    var s2 := Do(s1, Cancel);
    assert s2.cancelled && s2.ops ==
           [Op(grant, key, None, Running, false), Op(grant, key, Some(0), Waiting, false),
            Op(grant, key, Some(1), Waiting, false)];
    Reaches(s2, GiveUp(1));
    var s3 := Do(s2, GiveUp(1));
    assert s3.ops == [Op(grant, key, None, Running, false), Op(grant, key, Some(0), Ended, true),
                      Op(grant, key, Some(1), Waiting, false)];
    Reaches(s3, CloseDone(1));
    var s4 := Do(s3, CloseDone(1));
    assert s4.ops == [Op(grant, key, None, Running, false), Op(grant, key, Some(0), Done, true),
                      Op(grant, key, Some(1), Waiting, false)];
    Reaches(s4, Wake(2));
    var s5 := Do(s4, Wake(2));
    assert s5.ops[0] == Op(grant, key, None, Running, false) && s5.ops[2] == Op(grant, key, Some(1), Running, false);
    assert TwoRunning(s5, grant);
  }
}
