/**
 Whole runs of one in-memory environment: guest changes, caller writes, freeze, thaw and revoke,
 terminals, other watchers, and one consumer that resumes every Watch from its last Cursor
 (memory/memory.go, memory/tree.go). Steps interleave arbitrarily.
 */
module WatchRuns {
  import opened Common
  import opened WatchLog
  import opened MemoryEnv
  import opened Paths
  import Tree
  import Diff

  /** Where the consumer is: between watches, or at one of the three stages of Next. */
  datatype Pc = Idle | Attached(o: nat) | Checked(o: nat) | Holding(o: nat, taken: Option<Event>)

  /**
   archive keeps the whole history of every generation of the log. The consumer was first placed
   after event base of one epoch, and has since received the listed events.
   */
  datatype System = System(env: Env, archive: map<Bytes, seq<Event>>,
                           pc: Pc, last: Bytes, epoch: Bytes, base: nat, received: seq<Event>)

  datatype Action =
    | GuestDoes(change: Change)
    | CallerReplaces(items: seq<Tree.Item>, generation: Bytes)
    | CallerApplies(muts: seq<Tree.Mutation>)
    | Freezes | Thaws | Revokes
    | Closes(o: nat)
    | OthersWatch(after: Bytes)
    | OthersTake(o: nat)
    | OthersDeliver(o: nat, event: Event)
    | Watches | Restarts | Checks | Takes | Delivers | GivesUp | Leaves
    | Attaches
    | Writes(t: nat, bytes: Bytes)
    | Reads(t: nat, room: nat)
    | ClosesTerm(t: nat)

  predicate Owns(pc: Pc, o: nat) {
    !pc.Idle? && pc.o == o
  }

  predicate Enabled(s: System, a: Action) {
    match a
    case GuestDoes(_) => s.env.log.next + 1 < UINT64
    case CallerReplaces(_, generation) => EpochOk(generation) && generation !in s.archive
    case OthersWatch(_) => |s.env.log.events| <= s.env.log.next
    case OthersTake(o) => o < |s.env.obs| && !Owns(s.pc, o)
    case OthersDeliver(o, _) => o < |s.env.obs| && !Owns(s.pc, o)
    case Watches => s.pc.Idle? && |s.env.log.events| <= s.env.log.next
    case Restarts => s.pc.Idle?
    case Checks => s.pc.Attached? && s.pc.o < |s.env.obs|
    case Takes => s.pc.Checked? && s.pc.o < |s.env.obs| && (s.env.obs[s.pc.o].queue != [] || s.env.obs[s.pc.o].closed)
    case Delivers => s.pc.Holding? && s.pc.o < |s.env.obs|
    case GivesUp => s.pc.Checked?
    case Leaves => s.pc.Attached? && s.pc.o < |s.env.obs|
    case Writes(t, _) => t < |s.env.terms|
    case Reads(t, _) => t < |s.env.terms|
    case ClosesTerm(t) => t < |s.env.terms|
    case _ => true
  }

  function WithObs(e: Env, o: nat, obs: Obs): Env
    requires o < |e.obs|
  {
    e.(obs := e.obs[o := obs])
  }

  function WithTerm(e: Env, t: nat, term: Term): Env
    requires t < |e.terms|
  {
    e.(terms := e.terms[t := term])
  }

  function HistoryOf(s: System): seq<Event> {
    if s.env.log.epoch in s.archive then s.archive[s.env.log.epoch] else []
  }

  function GuestStep(s: System, change: Change): System {
    if HostCheck(change).Some? then s
    else
      var (env, err) := Guest(s.env, change);
      if err.Some? then s
      else
        var stamped := Stamp(s.env.log, Plan(s.env.files, change).value.1);
        s.(env := env, archive := s.archive[s.env.log.epoch := HistoryOf(s) + [stamped]])
  }

  function ReplaceStep(s: System, items: seq<Tree.Item>, generation: Bytes): System {
    var (env, err) := CallerReplace(s.env, items, generation);
    if err.Some? then s else s.(env := env, archive := s.archive[generation := []])
  }

  function WatchStep(s: System): System
    requires |s.env.log.events| <= s.env.log.next
  {
    var (env, r) := OpenWatch(s.env, s.last);
    if r.Failure? then s
    else
      var s1 := s.(env := env, pc := Attached(r.value));
      if s.last == [] then s1.(last := Current(s.env.log), epoch := s.env.log.epoch, base := s.env.log.next)
      else s1

  }

  function TakeStep(s: System, o: nat): System
    requires o < |s.env.obs|
  {
    var (obs, taken) := TakeEvent(s.env.obs[o]);
    s.(env := WithObs(s.env, o, obs), pc := Holding(o, taken))
  }

  function DeliverStep(s: System, o: nat, taken: Option<Event>): System
    requires o < |s.env.obs|
  {
    var (obs, r) := Deliver(s.env.obs[o], taken);
    var s1 := s.(env := WithObs(s.env, o, obs), pc := Attached(o), last := obs.cursor);
    if r.Success? then s1.(received := s.received + [r.value]) else s1
  }

  function Do(s: System, a: Action): System
    requires Enabled(s, a)
  {
    match a
    case GuestDoes(change) => GuestStep(s, change)
    case CallerReplaces(items, generation) => ReplaceStep(s, items, generation)
    case CallerApplies(muts) => s.(env := CallerApply(s.env, muts).0)
    case Freezes => s.(env := Freeze(s.env).0)
    case Thaws => s.(env := Thaw(s.env).0)
    case Revokes => s.(env := Revoke(s.env))
    case Closes(o) => s.(env := CloseObs(s.env, o))
    case OthersWatch(after) => s.(env := OpenWatch(s.env, after).0)
    case OthersTake(o) => s.(env := WithObs(s.env, o, TakeEvent(s.env.obs[o]).0))
    case OthersDeliver(o, event) => s.(env := WithObs(s.env, o, Deliver(s.env.obs[o], Some(event)).0))
    case Watches => WatchStep(s)
    case Restarts => s.(last := [], epoch := [], base := 0, received := [])
    case Checks => if s.env.obs[s.pc.o].err.Some? then s else s.(pc := Checked(s.pc.o))
    case Takes => TakeStep(s, s.pc.o)
    case Delivers => DeliverStep(s, s.pc.o, s.pc.taken)
    case GivesUp => s.(pc := Attached(s.pc.o))
    case Leaves => s.(pc := Idle, last := s.env.obs[s.pc.o].cursor)
    case Attaches => s.(env := Attach(s.env).0)
    case Writes(t, bytes) => s.(env := WithTerm(s.env, t, WriteTerm(s.env.terms[t], bytes).0))
    case Reads(t, room) => s.(env := WithTerm(s.env, t, ReadTerm(s.env.terms[t], room).0))
    case ClosesTerm(t) => s.(env := WithTerm(s.env, t, CloseTerm(s.env.terms[t])))
  }

  // ------------------------------------------------------------------ Invariants

  predicate Numbered(epoch: Bytes, history: seq<Event>) {
    && EpochOk(epoch) && |history| < UINT64
    && forall i :: 0 <= i < |history| ==> history[i].cursor == MakeCursor(epoch, i + 1)
  }

  ghost predicate LogOk(env: Env, archive: map<Bytes, seq<Event>>) {
    && env.log.epoch in archive && Window(env.log, archive[env.log.epoch])
    && forall e :: e in archive ==> Numbered(e, archive[e])
  }

  /** The consumer holds one contiguous slice of one generation, and its cursor is the slice's end. */
  ghost predicate Placed(s: System) {
    if s.last == [] then s.received == [] && s.pc.Idle?
    else
      && s.epoch in s.archive && s.base + |s.received| <= |s.archive[s.epoch]|
      && s.received == s.archive[s.epoch][s.base..s.base + |s.received|]
      && s.last == MakeCursor(s.epoch, s.base + |s.received|)
  }

  function Hand(pc: Pc): seq<Event> {
    if pc.Holding? && pc.taken.Some? then [pc.taken.value] else []
  }

  /** What an open stream still holds for the consumer is the whole rest of the history. */
  ghost predicate Ahead(s: System) {
    !s.pc.Idle? ==>
      && s.pc.o < |s.env.obs| && s.env.obs[s.pc.o].cursor == s.last
      && (s.env.obs[s.pc.o].err.None? ==>
            && s.epoch == s.env.log.epoch && s.epoch in s.archive
            && s.base + |s.received| <= |s.archive[s.epoch]|
            && Hand(s.pc) + s.env.obs[s.pc.o].queue == s.archive[s.epoch][s.base + |s.received|..])
  }

  ghost predicate Inv(s: System) {
    LogOk(s.env, s.archive) && StreamsOk(s.env) && TermsOk(s.env) && Placed(s) && Ahead(s)
  }

  /** A grant just made: nothing projected, nothing opened, and a log of any size. */
  function Fresh(epoch: Bytes, capacity: nat): System {
    System(Env(map[], WatchLog.State(epoch, 0, capacity, []), false, false, None, [], None, []),
           map[epoch := []], Idle, [], [], 0, [])
  }

  lemma FreshInv(epoch: Bytes, capacity: nat)
    requires EpochOk(epoch) && capacity > 0
    ensures Inv(Fresh(epoch, capacity))
  {
  }

  // ------------------------------------------------------- Steps of the environment

  /** Nothing the streams and the consumer depend on has changed. */
  lemma SameStreams(s: System, env: Env)
    requires Inv(s) && env.log == s.env.log && env.obs == s.env.obs && env.watching == s.env.watching
    requires env.watching.Some? ==> !env.frozen && !env.revoked
    requires TermsOk(env)
    ensures Inv(s.(env := env))
  {
    hide Window, Numbered, ObsOk, Finished;
  }

  /** failWatch closes the open stream and no other; the consumer keeps its place. */
  lemma FailKeeps(s: System, env: Env, err: Error)
    requires Inv(s) && env.log == s.env.log && env.obs == s.env.obs && env.watching == s.env.watching
    requires TermsOk(env)
    ensures Inv(s.(env := FailWatch(env, err)))
  {
    hide Window, Numbered, Finished;
    var e := FailWatch(env, err);
    assert TermsOk(e) && LogOk(e, s.archive);
    hide TermsOk, LogOk, Placed;
    assert Placed(s.(env := e)) by { PlaceStays(s, s.(env := e)); }
    assert StreamsOk(e) by { hide Ahead; }
    assert Ahead(s.(env := e)) by { hide ObsOk; }
  }

  lemma KillKeeps(env: Env, reason: Error)
    requires TermsOk(env.(frozen := false, revoked := false))
    ensures TermsOk(KillTerm(env, reason)) && KillTerm(env, reason).term == None
  {
  }

  lemma HistoryExtends(env: Env, archive: map<Bytes, seq<Event>>, event: Event)
    requires LogOk(env, archive) && env.log.next + 1 < UINT64
    ensures LogOk(env.(log := Append(env.log, event)),
                  archive[env.log.epoch := archive[env.log.epoch] + [Stamp(env.log, event)]])
  {
    hide MakeCursor, EpochOk;
    AppendWindow(env.log, archive[env.log.epoch], event);
    assert Numbered(env.log.epoch, archive[env.log.epoch] + [Stamp(env.log, event)]);
  }

  /** emit keeps the open stream complete, or closes it. */
  lemma EmitKeeps(s: System, env: Env, event: Event)
    requires Inv(s) && env == s.env.(files := env.files) && env.log.next + 1 < UINT64
    ensures Inv(s.(env := Emit(env, event),
                   archive := s.archive[s.env.log.epoch := HistoryOf(s) + [Stamp(s.env.log, event)]]))
  {
    hide MakeCursor, EpochOk, Window, Numbered, Finished, Append, Stamp;
    var e := Emit(env, event);
    var archive := s.archive[s.env.log.epoch := HistoryOf(s) + [Stamp(s.env.log, event)]];
    HistoryExtends(env, s.archive, event);
    EpochStays(s.env.log, event);
    assert LogOk(e, archive);
    assert TermsOk(e) && StreamsOk(e) by { hide LogOk, Placed, Ahead; }
    PlaceStays(s, s.(env := e, archive := archive));
    EmitAhead(s, env, event);
  }

  lemma EmitAhead(s: System, env: Env, event: Event)
    requires Ahead(s) && StreamsOk(s.env) && s.env.log.epoch in s.archive && env == s.env.(files := env.files)
    ensures Ahead(s.(env := Emit(env, event),
                     archive := s.archive[s.env.log.epoch := HistoryOf(s) + [Stamp(s.env.log, event)]]))
  {
    hide Append, Stamp;
    EpochStays(s.env.log, event);
    var stamped := Stamp(s.env.log, event);
    var e := Emit(env, event);
    if !s.pc.Idle? && e.obs[s.pc.o].err.None? {
      OpenIsLive(s.env, s.pc.o);
      var h := HistoryOf(s);
      var n := s.base + |s.received|;
      var queue := s.env.obs[s.pc.o].queue;
      assert h[n..] + [stamped] == (h + [stamped])[n..];
      assert Hand(s.pc) + (queue + [stamped]) == Hand(s.pc) + queue + [stamped];
    }
  }

  lemma EpochStays(l: WatchLog.State, event: Event)
    ensures Append(l, event).epoch == l.epoch && Append(l, event).next == l.next + 1
  {
  }

  lemma OpenIsLive(env: Env, o: nat)
    requires StreamsOk(env) && o < |env.obs| && env.obs[o].err.None?
    ensures env.watching == Some(o)
  {
  }

  /** Histories only grow, so the consumer's slice stays what it was. */
  lemma PlaceStays(s: System, t: System)
    requires Placed(s) && t.last == s.last && t.epoch == s.epoch && t.base == s.base && t.received == s.received
             && t.pc == s.pc
    requires forall e :: e in s.archive ==> e in t.archive && s.archive[e] <= t.archive[e]
    ensures Placed(t)
  {
    hide MakeCursor;
  }

  lemma GuestKeeps(s: System, change: Change)
    requires Inv(s) && s.env.log.next + 1 < UINT64
    ensures Inv(GuestStep(s, change))
  {
    hide Inv, Emit, Stamp;
    if Guard(s.env).None? && Plan(s.env.files, change).Success? {
      var (files, event) := Plan(s.env.files, change).value;
      EmitKeeps(s, s.env.(files := files), event);
    }
  }

  lemma ReplaceKeeps(s: System, items: seq<Tree.Item>, generation: Bytes)
    requires Inv(s) && EpochOk(generation) && generation !in s.archive
    ensures Inv(ReplaceStep(s, items, generation))
  {
    hide Tree.ReplaceTree, MakeCursor, EpochOk, ObsOk, Finished;
    var next := Tree.ReplaceTree(s.env.files, items);
    if Guard(s.env).None? && next.Success? {
      var env := s.env.(files := next.value);
      var failed := FailWatch(env, Lagged);
      FailKeeps(s, env, Lagged);
      var mid := s.(env := failed);
      var e := failed.(log := Reset(s.env.log, generation));
      var t := s.(env := e, archive := s.archive[generation := []]);
      assert failed.log == s.env.log;
      assert t == ReplaceStep(s, items, generation);
      CapacityPositive(s.env.log, s.archive[s.env.log.epoch]);
      ResetWindow(s.env.log, generation);
      assert LogOk(e, t.archive) by { hide Window; }
      assert StreamsOk(e) && TermsOk(e) by { hide Window, Numbered; }
      assert Placed(t) by { hide Window, Numbered; PlaceStays(s, t); }
      assert Ahead(t) by { hide Window, Numbered; NoneOpen(failed); }
    }
  }

  lemma NoneOpen(env: Env)
    requires StreamsOk(env) && env.watching.None?
    ensures forall o :: 0 <= o < |env.obs| ==> env.obs[o].err.Some?
  {
  }

  lemma FreezeKeeps(s: System)
    requires Inv(s)
    ensures Inv(Do(s, Freezes)) && Inv(Do(s, Revokes))
  {
    hide LogOk, StreamsOk, Placed, Ahead, FailWatch;
    assert TermsOk(s.env.(frozen := false, revoked := false));
    hide TermsOk, Inv;
    var frozen := s.env.(frozen := true);
    var revoked := s.env.(revoked := true, frozen := false);
    KillKeeps(frozen, Frozen);
    FailKeeps(s, KillTerm(frozen, Frozen), Frozen);
    KillKeeps(revoked, Revoked);
    FailKeeps(s, KillTerm(revoked, Revoked), Revoked);
  }

  lemma LifecycleKeeps(s: System, a: Action)
    requires Inv(s) && (a.Freezes? || a.Thaws? || a.Revokes? || a.Closes? || a.CallerApplies? || a.Attaches?)
    ensures Inv(Do(s, a))
  {
    hide LogOk, ObsOk, Placed, Ahead, Tree.Apply, FailWatch, Freeze, Revoke;
    match a {
      case Freezes => FreezeKeeps(s);
      case Revokes => FreezeKeeps(s);
      case Thaws => SameStreams(s, Thaw(s.env).0);
      case Closes(o) => if s.env.watching == Some(o) { FailKeeps(s, s.env, Closed); }
      case CallerApplies(muts) => SameStreams(s, CallerApply(s.env, muts).0);
      case Attaches => SameStreams(s, Attach(s.env).0);
    }
  }

  lemma TermKeeps(s: System, t: nat, term: Term)
    requires Inv(s) && t < |s.env.terms| && Carries(s.env.terms[t], term)
    ensures Inv(s.(env := WithTerm(s.env, t, term)))
  {
    hide Window, Numbered, ObsOk, Placed, Ahead, LogOk, StreamsOk;
    var e := WithTerm(s.env, t, term);
    assert TermsOk(e);
    SameStreamsTerms(s, e);
  }

  lemma SameStreamsTerms(s: System, env: Env)
    requires Inv(s) && env == s.env.(terms := env.terms) && TermsOk(env)
    ensures Inv(s.(env := env))
  {
    hide Window, Numbered, ObsOk, Finished;
  }

  lemma TermsKeep(s: System, a: Action)
    requires Inv(s) && Enabled(s, a) && (a.Writes? || a.Reads? || a.ClosesTerm?)
    ensures Inv(Do(s, a))
  {
    hide Inv, WriteTerm, ReadTerm, Carries;
    match a {
      case Writes(t, bytes) =>
        WriteCarries(s.env.terms[t], bytes);
        TermKeeps(s, t, WriteTerm(s.env.terms[t], bytes).0);
      case Reads(t, room) =>
        ReadCarries(s.env.terms[t], room);
        TermKeeps(s, t, ReadTerm(s.env.terms[t], room).0);
      case ClosesTerm(t) =>
        CloseCarries(s.env.terms[t]);
        TermKeeps(s, t, CloseTerm(s.env.terms[t]));
    }
  }

  // ---------------------------------------------------------- Steps of the watchers

  lemma OthersWatchKeeps(s: System, after: Bytes)
    requires Inv(s) && |s.env.log.events| <= s.env.log.next
    ensures Inv(s.(env := OpenWatch(s.env, after).0))
  {
    hide Window, Numbered, Since, Finished, Placed;
    var (e, r) := OpenWatch(s.env, after);
    if r.Success? {
      assert StreamsOk(e);
      assert TermsOk(e);
      assert LogOk(e, s.archive);
      assert Placed(s.(env := e)) by { PlaceStays(s, s.(env := e)); }
      assert Ahead(s.(env := e)) by { hide ObsOk; }
    }
  }

  /** Taking from a stream's buffer or moving its cursor opens and closes nothing. */
  lemma SameFaults(s: System, o: nat, obs: Obs)
    requires Inv(s) && o < |s.env.obs|
    requires obs.err == s.env.obs[o].err && obs.closed == s.env.obs[o].closed
    requires obs.room == s.env.obs[o].room && |obs.queue| <= |s.env.obs[o].queue|
    ensures var e := WithObs(s.env, o, obs); LogOk(e, s.archive) && StreamsOk(e) && TermsOk(e)
  {
    hide Window, Numbered, Finished, Placed, Ahead;
  }

  lemma OthersKeep(s: System, o: nat, obs: Obs)
    requires Inv(s) && o < |s.env.obs| && !Owns(s.pc, o)
    requires obs.err == s.env.obs[o].err && obs.closed == s.env.obs[o].closed
    requires obs.room == s.env.obs[o].room && |obs.queue| <= |s.env.obs[o].queue|
    ensures Inv(s.(env := WithObs(s.env, o, obs)))
  {
    hide LogOk, StreamsOk, TermsOk;
    SameFaults(s, o, obs);
  }

  /** Every successful Watch places the stream exactly where the consumer stands. */
  lemma WatchKeeps(s: System)
    requires Inv(s) && s.pc.Idle? && |s.env.log.events| <= s.env.log.next
    ensures Inv(WatchStep(s))
  {
    hide Window, Numbered, Finished, Since, MakeCursor;
    var (e, r) := OpenWatch(s.env, s.last);
    var t := WatchStep(s);
    if r.Success? {
      var (cursor, replay) := Since(s.env.log, s.last).value;
      assert StreamsOk(e);
      assert TermsOk(e);
      assert LogOk(e, s.archive);
      hide StreamsOk, TermsOk, ObsOk;
      if s.last == [] {
        FirstWatch(s);
        assert Placed(t) && Ahead(t);
      } else {
        Resumes(s);
        assert Placed(t) && Ahead(t);
      }
    }
  }

  lemma FirstWatch(s: System)
    requires LogOk(s.env, s.archive) && |s.env.log.events| <= s.env.log.next
    ensures Since(s.env.log, []) == Success((Current(s.env.log), []))
    ensures Current(s.env.log) == MakeCursor(s.env.log.epoch, s.env.log.next) != []
    ensures s.env.log.next == |HistoryOf(s)| && HistoryOf(s)[s.env.log.next..] == []
    ensures HistoryOf(s)[s.env.log.next..s.env.log.next] == []
  {
  }

  /**
   Since, at the consumer's cursor: it resumes exactly when the generation is still the same and at
   most capacity events are outstanding, and then replays exactly what has not been received.
   */
  lemma Resumes(s: System)
    requires LogOk(s.env, s.archive) && Placed(s) && s.last != [] && |s.env.log.events| <= s.env.log.next
    ensures var l := s.env.log;
            var n := s.base + |s.received|;
            Since(l, s.last) ==
            if s.epoch == l.epoch && l.next - n <= l.capacity then Success((s.last, HistoryOf(s)[n..]))
            else Failure(Lagged)
  {
    hide Since, MakeCursor, EpochOk, ParseCursor;
    var l := s.env.log;
    var n := s.base + |s.received|;
    var h := HistoryOf(s);
    assert Numbered(s.epoch, s.archive[s.epoch]);
    if s.epoch == l.epoch {
      SinceExact(l, h, n);
    } else {
      SinceForeign(l, h, s.epoch, n);
    }
  }

  lemma TakeKeeps(s: System)
    requires Inv(s) && Enabled(s, Takes)
    ensures Inv(TakeStep(s, s.pc.o))
  {
    hide LogOk, StreamsOk, TermsOk, MakeCursor;
    var o := s.pc.o;
    var was := s.env.obs[o];
    var t := TakeStep(s, o);
    SameFaults(s, o, t.env.obs[o]);
    HandPlusQueue(was, t.pc);
    assert Placed(t) by { hide Ahead; }
    assert Ahead(t) by { hide Placed; }
  }

  lemma HandPlusQueue(was: Obs, pc: Pc)
    requires pc.Holding? && pc.taken == TakeEvent(was).1
    ensures Hand(pc) + TakeEvent(was).0.queue == [] + was.queue == was.queue
  {
    if was.queue != [] {
      assert [was.queue[0]] + was.queue[1..] == was.queue;
    }
  }

  /** A delivered event is the next one of the history, and its cursor names exactly that place. */
  lemma DeliverKeeps(s: System)
    requires Inv(s) && Enabled(s, Delivers)
    ensures Inv(DeliverStep(s, s.pc.o, s.pc.taken))
  {
    hide LogOk, StreamsOk, TermsOk, MakeCursor;
    var o := s.pc.o;
    var was := s.env.obs[o];
    var t := DeliverStep(s, o, s.pc.taken);
    SameFaults(s, o, t.env.obs[o]);
    if was.err.None? && s.pc.taken.Some? {
      hide Inv;
      NextDelivered(s);
    }
  }

  /** A live delivery hands over the next event of the history and leaves the rest buffered. */
  lemma NextIs(s: System)
    requires LogOk(s.env, s.archive) && Ahead(s) && Enabled(s, Delivers)
    requires s.env.obs[s.pc.o].err.None? && s.pc.taken.Some?
    ensures s.epoch in s.archive && s.epoch == s.env.log.epoch
    ensures var h := s.archive[s.epoch];
            var n := s.base + |s.received|;
            && n < |h| && s.pc.taken.value == h[n] && s.env.obs[s.pc.o].queue == h[n + 1..]
            && h[n].cursor == MakeCursor(s.epoch, n + 1) != []
  {
    hide MakeCursor, EpochOk, Window;
    var h := s.archive[s.epoch];
    var n := s.base + |s.received|;
    HeadAndRest(h, n, s.pc.taken.value, s.env.obs[s.pc.o].queue);
    assert Numbered(s.epoch, h);
    NotEmpty(s.epoch, n + 1);
  }

  lemma NextDelivered(s: System)
    requires Inv(s) && Enabled(s, Delivers)
    requires s.env.obs[s.pc.o].err.None? && s.pc.taken.Some?
    ensures var t := DeliverStep(s, s.pc.o, s.pc.taken);
            var n := s.base + |s.received|;
            && s.epoch in s.archive && n < |s.archive[s.epoch]| && t.last != []
            && t.received == s.received + [s.archive[s.epoch][n]] && Placed(t) && Ahead(t)
  {
    hide LogOk, StreamsOk, TermsOk, MakeCursor;
    NextIs(s);
    var h := s.archive[s.epoch];
    var n := s.base + |s.received|;
    var t := DeliverStep(s, s.pc.o, s.pc.taken);
    assert h[s.base..n + 1] == h[s.base..n] + [h[n]];
    assert Placed(t) by { hide Ahead; }
    assert Ahead(t) by { hide Placed; }
  }

  lemma HeadAndRest(h: seq<Event>, n: nat, event: Event, queue: seq<Event>)
    requires n <= |h| && [event] + queue == h[n..]
    ensures n < |h| && event == h[n] && queue == h[n + 1..]
  {
    assert ([event] + queue)[0] == event;
    assert ([event] + queue)[1..] == queue;
    assert h[n..][1..] == h[n + 1..];
  }

  lemma NotEmpty(epoch: Bytes, n: nat)
    ensures MakeCursor(epoch, n) != []
  {
  }

  // ----------------------------------------------------------------- Whole runs

  /** One step, whatever it is, keeps everything above. */
  lemma StepKeeps(s: System, a: Action)
    requires Inv(s) && Enabled(s, a)
    ensures Inv(Do(s, a))
  {
    hide LogOk, StreamsOk, TermsOk, GuestStep, ReplaceStep, WatchStep, TakeStep, DeliverStep, Freeze, Thaw, Revoke;
    hide CloseObs, OpenWatch, Attach, WriteTerm, ReadTerm, CloseTerm, CallerApply;
    match a {
      case GuestDoes(change) => GuestKeeps(s, change);
      case CallerReplaces(items, generation) => ReplaceKeeps(s, items, generation);
      case OthersWatch(after) => OthersWatchKeeps(s, after);
      case OthersTake(o) => OthersKeep(s, o, TakeEvent(s.env.obs[o]).0);
      case OthersDeliver(o, event) => OthersKeep(s, o, Deliver(s.env.obs[o], Some(event)).0);
      case Watches => WatchKeeps(s);
      case Takes => TakeKeeps(s);
      case Delivers => DeliverKeeps(s);
      case Restarts =>
      case Checks =>
      case GivesUp =>
      case Leaves =>
      case Writes(_, _) => TermsKeep(s, a);
      case Reads(_, _) => TermsKeep(s, a);
      case ClosesTerm(_) => TermsKeep(s, a);
      case _ => LifecycleKeeps(s, a);
    }
  }

  predicate CanRun(s: System, actions: seq<Action>)
    decreases |actions|
  {
    actions == [] || (Enabled(s, actions[0]) && CanRun(Do(s, actions[0]), actions[1..]))
  }

  function Run(s: System, actions: seq<Action>): System
    requires CanRun(s, actions)
    decreases |actions|
  {
    if actions == [] then s else Run(Do(s, actions[0]), actions[1..])
  }

  lemma {:induction false} RunKeeps(s: System, actions: seq<Action>)
    requires Inv(s) && CanRun(s, actions)
    ensures Inv(Run(s, actions))
    decreases |actions|
  {
    hide Inv, Enabled, Do;
    if actions != [] {
      StepKeeps(s, actions[0]);
      RunKeeps(Do(s, actions[0]), actions[1..]);
    }
  }

  /**
   Exactly once: after any run from a new grant, what the consumer received since it was first
   placed is one contiguous slice of one generation's history, in order and numbered without a gap,
   across any number of overflows, closes, freezes and reconnects.
   */
  lemma ExactlyOnce(epoch: Bytes, capacity: nat, actions: seq<Action>)
    requires EpochOk(epoch) && capacity > 0 && CanRun(Fresh(epoch, capacity), actions)
    ensures var s := Run(Fresh(epoch, capacity), actions);
            s.last != [] ==>
              && s.epoch in s.archive && s.base + |s.received| <= |s.archive[s.epoch]|
              && s.received == s.archive[s.epoch][s.base..s.base + |s.received|]
              && s.last == MakeCursor(s.epoch, s.base + |s.received|)
              && forall i :: 0 <= i < |s.received| ==> s.received[i].cursor == MakeCursor(s.epoch, s.base + i + 1)
  {
    hide CanRun, Run, MakeCursor, EpochOk, Window, Fresh;
    FreshInv(epoch, capacity);
    RunKeeps(Fresh(epoch, capacity), actions);
    var s := Run(Fresh(epoch, capacity), actions);
    if s.last != [] {
      hide Inv, LogOk;
      InvNumbers(s);
    }
  }

  lemma InvNumbers(s: System)
    requires Inv(s) && s.last != []
    ensures Placed(s) && s.epoch in s.archive && Numbered(s.epoch, s.archive[s.epoch])
  {
  }

  /** No event is left behind: an open stream with nothing buffered has delivered every event so far. */
  lemma DrainedMissesNothing(s: System)
    requires Inv(s) && !s.pc.Idle? && s.env.obs[s.pc.o].err.None?
    requires Hand(s.pc) == [] && s.env.obs[s.pc.o].queue == []
    ensures s.epoch == s.env.log.epoch && s.received == HistoryOf(s)[s.base..]
  {
    hide LogOk, StreamsOk, TermsOk, MakeCursor;
    var n := s.base + |s.received|;
    assert |HistoryOf(s)[n..]| == 0;
  }

  /**
   A reconnect with the last cursor: refused while revoked, frozen or busy; otherwise it succeeds
   exactly when the generation is unchanged and the window still covers the gap, and only else
   answers that the consumer lagged. On success the buffered replay is everything it has not seen.
   */
  lemma ReconnectIff(s: System)
    requires Inv(s) && s.pc.Idle? && s.last != []
    ensures |s.env.log.events| <= s.env.log.next
    ensures var (env, r) := OpenWatch(s.env, s.last);
            var n := s.base + |s.received|;
            if s.env.revoked then r == Failure(Error.Revoked)
            else if s.env.frozen then r == Failure(Error.Frozen)
            else if s.env.watching.Some? then r == Failure(Busy)
            else if s.epoch == s.env.log.epoch && s.env.log.next - n <= s.env.log.capacity
            then r == Success(|s.env.obs|) && env.obs[|s.env.obs|].queue == HistoryOf(s)[n..]
            else r == Failure(Lagged)
  {
    hide Since, MakeCursor, EpochOk, StreamsOk, TermsOk, Ahead, Placed;
    assert Window(s.env.log, HistoryOf(s));
    hide LogOk;
    Resumes(s);
  }

  /** What one step may do to recorded history and to what was received: only extend it. */
  ghost predicate Extends(s: System, t: System) {
    && (forall e :: e in s.archive ==> e in t.archive && s.archive[e] <= t.archive[e])
    && (s.last != [] ==> t.last != [] && t.epoch == s.epoch && t.base == s.base && s.received <= t.received)
  }

  lemma StepExtends(s: System, a: Action)
    requires Inv(s) && Enabled(s, a) && !a.Restarts?
    ensures Extends(s, Do(s, a))
  {
    hide LogOk, Placed, StreamsOk, TermsOk, Stamp, GuestStep, ReplaceStep, DeliverStep;
    hide Freeze, Thaw, Revoke, CloseObs, Attach, WriteTerm, ReadTerm, CallerApply, OpenWatch;
    match a {
      case GuestDoes(change) => hide Ahead; GuestExtends(s, change);
      case CallerReplaces(items, generation) => hide Ahead; ReplaceExtends(s, items, generation);
      case Delivers => DeliverExtends(s);
      case _ =>
    }
  }

  lemma GuestExtends(s: System, change: Change)
    ensures Extends(s, GuestStep(s, change))
  {
    hide Guest, Stamp, Plan;
  }

  lemma ReplaceExtends(s: System, items: seq<Tree.Item>, generation: Bytes)
    requires generation !in s.archive
    ensures Extends(s, ReplaceStep(s, items, generation))
  {
    hide CallerReplace;
  }

  lemma DeliverExtends(s: System)
    requires Inv(s) && Enabled(s, Delivers)
    ensures Extends(s, DeliverStep(s, s.pc.o, s.pc.taken))
  {
    hide LogOk, Placed, StreamsOk, TermsOk;
    if s.env.obs[s.pc.o].err.None? && s.pc.taken.Some? {
      hide Inv, Ahead;
      NextDelivered(s);
    }
  }

  /** Unless the consumer starts over, it never loses or reorders anything, however often it reconnects. */
  lemma {:induction false} RunExtends(s: System, actions: seq<Action>)
    requires Inv(s) && CanRun(s, actions)
    requires forall i :: 0 <= i < |actions| ==> !actions[i].Restarts?
    ensures Extends(s, Run(s, actions))
    decreases |actions|
  {
    hide Inv, Enabled, Do;
    if actions != [] {
      var mid := Do(s, actions[0]);
      StepKeeps(s, actions[0]);
      StepExtends(s, actions[0]);
      RunExtends(mid, actions[1..]);
    }
  }

  /** Without a caller replacing the tree, a lagging consumer has only itself to blame. */
  lemma {:induction false} SameGeneration(s: System, actions: seq<Action>)
    requires Inv(s) && CanRun(s, actions)
    requires forall i :: 0 <= i < |actions| ==> !actions[i].CallerReplaces?
    ensures Run(s, actions).env.log.epoch == s.env.log.epoch
    decreases |actions|
  {
    hide Inv, Enabled, Append;
    if actions != [] {
      var a := actions[0];
      StepKeeps(s, a);
      StepGeneration(s, a);
      SameGeneration(Do(s, a), actions[1..]);
    }
  }

  lemma SameLog(e: Env, muts: seq<Tree.Mutation>, o: nat)
    ensures Freeze(e).0.log == Thaw(e).0.log == Revoke(e).log == CloseObs(e, o).log == Attach(e).0.log == e.log
    ensures CallerApply(e, muts).0.log == e.log
    ensures Freeze(e).0.files == Thaw(e).0.files == Revoke(e).files == e.files
    ensures CloseObs(e, o).files == Attach(e).0.files == e.files
  {
    hide Tree.Apply, Finished;
  }

  lemma WatchSameLog(e: Env, after: Bytes)
    requires |e.log.events| <= e.log.next
    ensures OpenWatch(e, after).0.log == e.log && OpenWatch(e, after).0.files == e.files
  {
    hide Since;
  }

  lemma GuestSameEpoch(s: System, change: Change)
    ensures GuestStep(s, change).env.log.epoch == s.env.log.epoch
  {
    hide Append, Stamp, Plan;
    if Guard(s.env).None? && Plan(s.env.files, change).Success? {
      EpochStays(s.env.log, Plan(s.env.files, change).value.1);
    }
  }

  lemma StepGeneration(s: System, a: Action)
    requires Enabled(s, a) && !a.CallerReplaces?
    ensures Do(s, a).env.log.epoch == s.env.log.epoch
    ensures !a.GuestDoes? ==> Do(s, a).env.log == s.env.log && Do(s, a).archive == s.archive
  {
    hide GuestStep, ReplaceStep, Freeze, Thaw, Revoke, CloseObs, Attach, CallerApply, OpenWatch;
    hide TakeEvent, Deliver, WriteTerm, ReadTerm, CloseTerm;
    SameLog(s.env, if a.CallerApplies? then a.muts else [], if a.Closes? then a.o else 0);
    if a.OthersWatch? || a.Watches? {
      WatchSameLog(s.env, if a.Watches? then s.last else a.after);
    }
    if a.GuestDoes? {
      GuestSameEpoch(s, a.change);
    }
  }

  /** The event of a guest change says what the change did, and nothing else changed. */
  lemma EventDescribes(files: Tree.Snapshot, change: Change)
    requires Plan(files, change).Success?
    ensures var (after, event) := Plan(files, change).value;
            && after.Keys == Diff.PathStep(files.Keys, event)
            && (event.op == Tree.Create || event.op == Tree.Move ==> event.path !in files && event.path in after)
            && (event.op == Tree.Move ==> event.from in files && after[event.path] == files[event.from])
            && (event.op == Tree.Replace ==> event.path in files)
            && forall p :: p in files && p != event.path && p != event.from ==> p in after && after[p] == files[p]
  {
  }

  lemma StepPaths(s: System, a: Action)
    requires Inv(s) && Enabled(s, a) && !a.CallerReplaces? && !a.CallerApplies?
    ensures |HistoryOf(s)| <= |HistoryOf(Do(s, a))|
    ensures Do(s, a).env.files.Keys == Diff.PathReplay(s.env.files.Keys, HistoryOf(Do(s, a))[|HistoryOf(s)|..])
  {
    hide LogOk, StreamsOk, TermsOk, Placed, Ahead, Append, Stamp, Diff.PathStep;
    StepGeneration(s, a);
    Diff.NoEvents(s.env.files.Keys);
    if a.GuestDoes? {
      if HostCheck(a.change).None? && Guard(s.env).None? && Plan(s.env.files, a.change).Success? {
        var (files, event) := Plan(s.env.files, a.change).value;
        var stamped := Stamp(s.env.log, event);
        EventDescribes(s.env.files, a.change);
        StampSays(s.env.files.Keys, s.env.log, event);
        Diff.PathOne(s.env.files.Keys, stamped);
        assert HistoryOf(Do(s, a)) == HistoryOf(s) + [stamped];
        assert (HistoryOf(s) + [stamped])[|HistoryOf(s)|..] == [stamped];
      }
    } else {
      StepSameFiles(s, a);
    }
    assert HistoryOf(s)[|HistoryOf(s)|..] == [];
  }

  // ---------------------------------------------------------------- Valid events

  ghost predicate EventsValid(archive: map<Bytes, seq<Event>>) {
    forall e, i :: e in archive && 0 <= i < |archive[e]| ==> ValidEvent(archive[e][i])
  }

  /** What the host lets through has paths the event rules accept. */
  lemma CheckedIsValid(files: Tree.Snapshot, change: Change)
    requires HostCheck(change).None? && Plan(files, change).Success?
    ensures ValidChange(Plan(files, change).value.1)
  {
    hide ValidPath;
  }

  lemma StepEventsValid(s: System, a: Action)
    requires Inv(s) && Enabled(s, a) && EventsValid(s.archive)
    ensures EventsValid(Do(s, a).archive)
  {
    hide StreamsOk, TermsOk, Placed, Ahead, Append, Stamp, ValidEvent, ValidChange, HostCheck, EpochOk;
    if a.GuestDoes? {
      if HostCheck(a.change).None? && Guard(s.env).None? && Plan(s.env.files, a.change).Success? {
        CheckedIsValid(s.env.files, a.change);
        StampIsValid(s.env.log, Plan(s.env.files, a.change).value.1);
      }
    } else {
      hide LogOk;
      StepArchive(s, a);
    }
  }

  lemma StepArchive(s: System, a: Action)
    requires Enabled(s, a) && !a.GuestDoes?
    ensures Do(s, a).archive == s.archive || (a.CallerReplaces? && Do(s, a).archive == s.archive[a.generation := []])
  {
    hide Freeze, Thaw, Revoke, CloseObs, Attach, CallerApply, CallerReplace, OpenWatch;
    hide TakeEvent, Deliver, WriteTerm, ReadTerm, CloseTerm;
  }

  lemma {:induction false} RunEventsValid(s: System, actions: seq<Action>)
    requires Inv(s) && CanRun(s, actions) && EventsValid(s.archive)
    ensures EventsValid(Run(s, actions).archive)
    decreases |actions|
  {
    hide Inv, Enabled, Do, EventsValid;
    if actions != [] {
      StepKeeps(s, actions[0]);
      StepEventsValid(s, actions[0]);
      RunEventsValid(Do(s, actions[0]), actions[1..]);
    }
  }

  /** Over any run, every event the consumer has received is one ValidateEvent accepts. */
  lemma ReceivedValid(epoch: Bytes, capacity: nat, actions: seq<Action>)
    requires EpochOk(epoch) && capacity > 0 && CanRun(Fresh(epoch, capacity), actions)
    ensures var s := Run(Fresh(epoch, capacity), actions);
            forall i :: 0 <= i < |s.received| ==> ValidEvent(s.received[i])
  {
    hide CanRun, Run, LogOk, StreamsOk, TermsOk, Ahead, ValidEvent, MakeCursor, EpochOk;
    FreshInv(epoch, capacity);
    RunKeeps(Fresh(epoch, capacity), actions);
    RunEventsValid(Fresh(epoch, capacity), actions);
    var s := Run(Fresh(epoch, capacity), actions);
    if s.last != [] {
      var h := s.archive[s.epoch];
      assert forall i :: 0 <= i < |s.received| ==> s.received[i] == h[s.base + i];
    }
  }

  lemma StampSays(paths: set<Bytes>, l: WatchLog.State, event: Event)
    ensures Diff.PathStep(paths, Stamp(l, event)) == Diff.PathStep(paths, event)
  {
  }

  lemma StepSameFiles(s: System, a: Action)
    requires Enabled(s, a) && !a.CallerReplaces? && !a.CallerApplies? && !a.GuestDoes?
    ensures Do(s, a).env.files == s.env.files
  {
    hide GuestStep, ReplaceStep, Freeze, Thaw, Revoke, CloseObs, Attach, OpenWatch;
    hide TakeEvent, Deliver, WriteTerm, ReadTerm, CloseTerm, CallerApply, Guard;
    match a {
      case OthersWatch(after) => WatchSameLog(s.env, after);
      case Watches => WatchSameLog(s.env, s.last);
      case Closes(o) => SameLog(s.env, [], o);
      case Freezes => SameLog(s.env, [], 0);
      case Thaws => SameLog(s.env, [], 0);
      case Revokes => SameLog(s.env, [], 0);
      case Attaches => SameLog(s.env, [], 0);
      case _ =>
    }
  }

  /**
   While only the guest writes, the recorded events carry the projected paths from any moment to
   any later one: a watcher who applies all of them knows exactly which paths exist.
   */
  lemma {:induction false} HistoryTellsPaths(s: System, actions: seq<Action>)
    requires Inv(s) && CanRun(s, actions)
    requires forall i :: 0 <= i < |actions| ==> !actions[i].CallerReplaces? && !actions[i].CallerApplies?
    ensures var t := Run(s, actions);
            && HistoryOf(s) <= HistoryOf(t)
            && t.env.files.Keys == Diff.PathReplay(s.env.files.Keys, HistoryOf(t)[|HistoryOf(s)|..])
    decreases |actions|
  {
    hide Inv, Enabled, Do, HistoryOf, Diff.PathReplay;
    var before := HistoryOf(s);
    if actions == [] {
      assert before[|before|..] == [];
      Diff.NoEvents(s.env.files.Keys);
    } else {
      var mid := Do(s, actions[0]);
      var t := Run(s, actions);
      StepKeeps(s, actions[0]);
      StepPaths(s, actions[0]);
      StepHistory(s, actions[0]);
      HistoryTellsPaths(mid, actions[1..]);
      var after := HistoryOf(t);
      assert after[|before|..] == HistoryOf(mid)[|before|..] + after[|HistoryOf(mid)|..];
      Diff.PathConcat(s.env.files.Keys, HistoryOf(mid)[|before|..], after[|HistoryOf(mid)|..]);
    }
  }

  lemma StepHistory(s: System, a: Action)
    requires Inv(s) && Enabled(s, a) && !a.CallerReplaces?
    ensures HistoryOf(s) <= HistoryOf(Do(s, a))
  {
    hide LogOk, StreamsOk, TermsOk, Placed, Ahead, Stamp, Append, Plan, Do;
    StepGeneration(s, a);
    if a.GuestDoes? {
      GuestHistory(s, a.change);
    }
  }

  lemma GuestHistory(s: System, change: Change)
    requires Enabled(s, GuestDoes(change))
    ensures HistoryOf(s) <= HistoryOf(Do(s, GuestDoes(change)))
  {
    hide Stamp, Append, Plan;
    if Guard(s.env).None? && Plan(s.env.files, change).Success? {
      EpochStays(s.env.log, Plan(s.env.files, change).value.1);
    }
  }

  // ------------------------------------------------------------------- Lifecycle

  /** What the two calls do to the guard of every other operation. */
  lemma Guards(e: Env)
    ensures Guard(Revoke(e)) == Some(Error.Revoked)
    ensures Guard(Freeze(e).0) == Some(if e.revoked then Error.Revoked else Error.Frozen)
  {
  }

  /** Same files and log, nothing opened, and still refusing. */
  predicate Still(e: Env, t: Env) {
    && t.files == e.files && t.log == e.log && |t.obs| == |e.obs| && |t.terms| == |e.terms|
    && Guard(t).Some? && (e.revoked ==> t.revoked)
  }

  lemma RefusedIsStill(e: Env, change: Change, items: seq<Tree.Item>, generation: Bytes, muts: seq<Tree.Mutation>)
    requires Guard(e).Some?
    ensures Guest(e, change) == (e, Guard(e)) && CallerReplace(e, items, generation) == (e, Guard(e))
    ensures CallerApply(e, muts) == (e, Guard(e)) && Attach(e) == (e, Failure(Guard(e).value))
  {
    hide Plan, Emit, Tree.ReplaceTree, Tree.Apply, FailWatch, Finished;
  }

  lemma FailAndKillAreStill(e: Env, err: Error)
    ensures FailWatch(e, err) == e.(obs := FailWatch(e, err).obs, watching := None)
            && |FailWatch(e, err).obs| == |e.obs|
    ensures KillTerm(e, err) == e.(terms := KillTerm(e, err).terms, term := None)
            && |KillTerm(e, err).terms| == |e.terms|
  {
  }

  lemma RefusedWatch(e: Env, after: Bytes)
    requires Guard(e).Some? && |e.log.events| <= e.log.next
    ensures OpenWatch(e, after) == (e, Failure(Guard(e).value))
  {
    hide Since;
  }

  lemma LifecycleIsStill(e: Env, o: nat)
    requires Guard(e).Some?
    ensures Still(e, Freeze(e).0) && Still(e, Revoke(e)) && Still(e, CloseObs(e, o))
            && (e.revoked ==> Still(e, Thaw(e).0))
  {
    hide FailWatch, KillTerm;
    var frozen, revoked := e.(frozen := true), e.(revoked := true, frozen := false);
    FailAndKillAreStill(frozen, Error.Frozen);
    FailAndKillAreStill(KillTerm(frozen, Error.Frozen), Error.Frozen);
    FailAndKillAreStill(revoked, Error.Revoked);
    FailAndKillAreStill(KillTerm(revoked, Error.Revoked), Error.Revoked);
    FailAndKillAreStill(e, Closed);
  }

  lemma StepIsStill(s: System, a: Action)
    requires Enabled(s, a) && Guard(s.env).Some? && (a.Thaws? ==> s.env.revoked)
    ensures Still(s.env, Do(s, a).env) && Do(s, a).archive == s.archive
  {
    hide Freeze, Thaw, Revoke, CloseObs, Attach, CallerApply, CallerReplace, Guest;
    hide TakeEvent, Deliver, WriteTerm, ReadTerm, CloseTerm, OpenWatch;
    match a {
      case OthersWatch(after) => RefusedWatch(s.env, after);
      case Watches => RefusedWatch(s.env, s.last);
      case GuestDoes(change) => RefusedIsStill(s.env, change, [], [], []);
      case CallerReplaces(items, generation) => RefusedIsStill(s.env, GuestRemove([]), items, generation, []);
      case CallerApplies(muts) => RefusedIsStill(s.env, GuestRemove([]), [], [], muts);
      case Attaches => RefusedIsStill(s.env, GuestRemove([]), [], [], []);
      case Freezes => LifecycleIsStill(s.env, 0);
      case Revokes => LifecycleIsStill(s.env, 0);
      case Thaws => LifecycleIsStill(s.env, 0);
      case Closes(o) => LifecycleIsStill(s.env, o);
      case _ =>
    }
  }

  /**
   A frozen environment stands still until a Thaw, and a revoked one for good: over any run no file
   changes, nothing is recorded, and no stream or terminal is opened.
   */
  lemma {:induction false} StoppedIsStill(s: System, actions: seq<Action>)
    requires Inv(s) && CanRun(s, actions) && Guard(s.env).Some?
    requires s.env.revoked || forall i :: 0 <= i < |actions| ==> !actions[i].Thaws?
    ensures Still(s.env, Run(s, actions).env) && Run(s, actions).archive == s.archive
    decreases |actions|
  {
    hide Inv, Enabled, Do, Guard;
    if actions != [] {
      StepKeeps(s, actions[0]);
      StepIsStill(s, actions[0]);
      StoppedIsStill(Do(s, actions[0]), actions[1..]);
    }
  }

  /**
   From a Freeze until a Thaw, and from a Revoke on for good, whatever is called: the files stay as
   they were at that moment, nothing is recorded, and no stream or terminal is opened.
   */
  lemma StopIsStill(s: System, stop: Action, actions: seq<Action>)
    requires Inv(s) && (stop.Freezes? || stop.Revokes?) && CanRun(Do(s, stop), actions)
    requires s.env.revoked || stop.Revokes? || forall i :: 0 <= i < |actions| ==> !actions[i].Thaws?
    ensures var t := Run(Do(s, stop), actions).env;
            && t.files == s.env.files && t.log == s.env.log && Guard(t).Some?
            && |t.obs| == |s.env.obs| && |t.terms| == |s.env.terms|
  {
    hide Inv, CanRun, Run, Freeze, Revoke;
    StepKeeps(s, stop);
    Guards(s.env);
    StopItself(s.env);
    StoppedIsStill(Do(s, stop), actions);
  }

  lemma StopItself(e: Env)
    ensures var f, r := Freeze(e).0, Revoke(e);
            && f.files == e.files && f.log == e.log && |f.obs| == |e.obs| && |f.terms| == |e.terms|
            && r.files == e.files && r.log == e.log && |r.obs| == |e.obs| && |r.terms| == |e.terms| && r.revoked
            && (e.revoked ==> f.revoked)
  {
    hide FailWatch, KillTerm;
    var frozen, revoked := e.(frozen := true), e.(revoked := true, frozen := false);
    FailAndKillAreStill(frozen, Error.Frozen);
    FailAndKillAreStill(KillTerm(frozen, Error.Frozen), Error.Frozen);
    FailAndKillAreStill(revoked, Error.Revoked);
    FailAndKillAreStill(KillTerm(revoked, Error.Revoked), Error.Revoked);
  }

  /** What can never be taken back about streams, terminals and the grant. */
  ghost predicate Settled(s: Env, t: Env) {
    && (s.revoked ==> t.revoked)
    && |s.obs| <= |t.obs| && |s.terms| <= |t.terms|
    && (forall o :: 0 <= o < |s.obs| && s.obs[o].closed ==>
          t.obs[o].closed && t.obs[o].err == s.obs[o].err && NoNewEvents(s.obs[o].queue, t.obs[o].queue))
    && forall i :: 0 <= i < |s.terms| ==>
         && (Finished(s.terms[i]) ==> Finished(t.terms[i]) && t.terms[i].written == s.terms[i].written)
         && s.terms[i].read <= t.terms[i].read && s.terms[i].written <= t.terms[i].written
  }

  /** Nothing was sent: what is buffered is what was buffered, less what was received. */
  ghost predicate NoNewEvents(was: seq<Event>, now: seq<Event>) {
    |now| <= |was| && now == was[|was| - |now|..]
  }

  lemma SettledTrans(s: Env, t: Env, u: Env)
    requires Settled(s, t) && Settled(t, u)
    ensures Settled(s, u)
  {
  }

  /** failWatch touches one stream only, and that one was open. */
  lemma FailSettles(e: Env, t: Env, err: Error)
    requires StreamsOk(e) && Settled(e, t) && t.obs == e.obs && t.watching == e.watching
    ensures Settled(e, FailWatch(t, err))
  {
    hide Finished;
  }

  lemma EmitSettles(e: Env, files: Tree.Snapshot, event: Event)
    requires StreamsOk(e)
    ensures Settled(e, Emit(e.(files := files), event))
  {
    hide Append, Stamp, Finished;
  }

  lemma KillSettles(e: Env, t: Env, reason: Error)
    requires (e.revoked ==> t.revoked) && t.obs == e.obs && t.terms == e.terms
    ensures Settled(e, KillTerm(t, reason))
  {
    hide Settled;
    SameSettles(e, t);
    if t.term.Some? && t.term.value < |t.terms| {
      var killed := t.terms[t.term.value].(dead := Some(reason));
      TermSettles(t, t.term.value, killed);
      var mid := WithTerm(t, t.term.value, killed);
      SettledTrans(e, t, mid);
      SameSettles(mid, KillTerm(t, reason));
      SettledTrans(e, mid, KillTerm(t, reason));
    } else {
      SameSettles(t, KillTerm(t, reason));
      SettledTrans(e, t, KillTerm(t, reason));
    }
  }

  lemma SameSettles(e: Env, t: Env)
    requires (e.revoked ==> t.revoked) && e.obs <= t.obs && e.terms <= t.terms
    ensures Settled(e, t)
  {
    hide Finished;
  }

  lemma ObsSettles(e: Env, o: nat, obs: Obs)
    requires o < |e.obs|
             && (e.obs[o].closed ==> obs.closed && obs.err == e.obs[o].err && NoNewEvents(e.obs[o].queue, obs.queue))
    ensures Settled(e, WithObs(e, o, obs))
  {
    hide Finished;
  }

  lemma TermSettles(e: Env, t: nat, term: Term)
    requires t < |e.terms| && (Finished(e.terms[t]) ==> Finished(term) && term.written == e.terms[t].written)
    requires e.terms[t].read <= term.read && e.terms[t].written <= term.written
    ensures Settled(e, WithTerm(e, t, term))
  {
    hide Finished;
  }

  lemma LifecycleSettles(s: System, a: Action)
    requires Inv(s) && Enabled(s, a)
             && (a.Freezes? || a.Thaws? || a.Revokes? || a.Closes? || a.CallerReplaces? || a.GuestDoes?)
    ensures Settled(s.env, Do(s, a).env)
  {
    hide LogOk, Placed, Ahead, TermsOk, Settled, StreamsOk, Tree.ReplaceTree, FailWatch, KillTerm, Emit, Plan;
    var e := s.env;
    SameSettles(e, e);
    match a {
      case GuestDoes(change) =>
        if Guard(e).None? && Plan(e.files, change).Success? {
          EmitSettles(e, Plan(e.files, change).value.0, Plan(e.files, change).value.1);
        }
      case CallerReplaces(items, generation) =>
        var next := Tree.ReplaceTree(e.files, items);
        if Guard(e).None? && next.Success? {
          var failed := FailWatch(e.(files := next.value), Lagged);
          SameSettles(e, e.(files := next.value));
          FailSettles(e, e.(files := next.value), Lagged);
          SameSettles(failed, failed.(log := Reset(e.log, generation)));
          SettledTrans(e, failed, failed.(log := Reset(e.log, generation)));
        }
      case Freezes =>
        if !e.revoked {
          KillSettles(e, e.(frozen := true), Frozen);
          KillObs(e.(frozen := true), Frozen);
          FailSettles(e, KillTerm(e.(frozen := true), Frozen), Frozen);
        }
      case Revokes =>
        var gone := e.(revoked := true, frozen := false);
        KillSettles(e, gone, Error.Revoked);
        KillObs(gone, Error.Revoked);
        FailSettles(e, KillTerm(gone, Error.Revoked), Error.Revoked);
      case Thaws => SameSettles(e, Thaw(e).0);
      case Closes(o) => if e.watching == Some(o) { FailSettles(e, e, Closed); }
    }
  }

  lemma KillObs(e: Env, reason: Error)
    ensures KillTerm(e, reason).obs == e.obs && KillTerm(e, reason).watching == e.watching
  {
  }

  /** A closed stream is never sent on or closed again, and a finished terminal never revives. */
  lemma StepSettles(s: System, a: Action)
    requires Inv(s) && Enabled(s, a)
    ensures Settled(s.env, Do(s, a).env)
  {
    hide Inv, Settled, GuestStep, ReplaceStep, Freeze, Thaw, Revoke, CloseObs, WriteTerm, ReadTerm, Attach, OpenWatch;
    hide CallerApply;
    var e := s.env;
    match a {
      case CallerApplies(muts) => OpenSettles(e, [], muts);
      case OthersWatch(after) => OpenSettles(e, after, []);
      case Watches => SameSettles(e, e); OpenSettles(e, s.last, []);
      case Attaches => OpenSettles(e, [], []);
      case OthersTake(o) => ObsSettles(e, o, TakeEvent(e.obs[o]).0);
      case Takes => ObsSettles(e, s.pc.o, TakeEvent(e.obs[s.pc.o]).0);
      case OthersDeliver(o, event) => ObsSettles(e, o, Deliver(e.obs[o], Some(event)).0);
      case Delivers => ObsSettles(e, s.pc.o, Deliver(e.obs[s.pc.o], s.pc.taken).0);
      case Writes(t, bytes) => WriteSettles(e, t, bytes);
      case Reads(t, room) => ReadSettles(e, t, room);
      case ClosesTerm(t) => CloseSettles(e, t);
      case Restarts => SameSettles(e, e);
      case Checks => SameSettles(e, e);
      case GivesUp => SameSettles(e, e);
      case Leaves => SameSettles(e, e);
      case _ => LifecycleSettles(s, a);
    }
  }

  lemma OpenSettles(e: Env, after: Bytes, muts: seq<Tree.Mutation>)
    ensures |e.log.events| <= e.log.next ==> Settled(e, OpenWatch(e, after).0)
    ensures Settled(e, Attach(e).0) && Settled(e, CallerApply(e, muts).0)
  {
    hide Settled, Since, Tree.Apply, Finished;
    if |e.log.events| <= e.log.next {
      SameSettles(e, OpenWatch(e, after).0);
    }
    SameSettles(e, Attach(e).0);
    SameSettles(e, CallerApply(e, muts).0);
  }

  lemma WriteSettles(e: Env, t: nat, bytes: Bytes)
    requires t < |e.terms|
    ensures Settled(e, WithTerm(e, t, WriteTerm(e.terms[t], bytes).0))
  {
    hide Settled;
    TermSettles(e, t, WriteTerm(e.terms[t], bytes).0);
  }

  lemma ReadSettles(e: Env, t: nat, room: nat)
    requires t < |e.terms|
    ensures Settled(e, WithTerm(e, t, ReadTerm(e.terms[t], room).0))
  {
    hide Settled;
    TermSettles(e, t, ReadTerm(e.terms[t], room).0);
  }

  lemma CloseSettles(e: Env, t: nat)
    requires t < |e.terms|
    ensures Settled(e, WithTerm(e, t, CloseTerm(e.terms[t])))
  {
    hide Settled;
    TermSettles(e, t, CloseTerm(e.terms[t]));
  }

  /**
   Over any run, however the steps interleave: revoked is permanent across Thaw; a closed stream
   keeps its error and is never sent on again; a finished terminal stays finished and takes no more
   bytes.
   */
  lemma {:induction false} RunSettles(s: System, actions: seq<Action>)
    requires Inv(s) && CanRun(s, actions)
    ensures Settled(s.env, Run(s, actions).env)
    decreases |actions|
  {
    hide Inv, Enabled, Do, Settled;
    if actions == [] {
      SameSettles(s.env, s.env);
    } else {
      var mid := Do(s, actions[0]);
      StepKeeps(s, actions[0]);
      StepSettles(s, actions[0]);
      RunSettles(mid, actions[1..]);
      SettledTrans(s.env, mid.env, Run(s, actions).env);
    }
  }

  /**
   At every moment of every run: at most one terminal ever made is unfinished and at most one stream
   ever made is open; neither exists while frozen or revoked; writes go to an open channel; and what
   was read from a terminal is a prefix of what was written to it.
   */
  lemma Lifecycle(epoch: Bytes, capacity: nat, actions: seq<Action>)
    requires EpochOk(epoch) && capacity > 0 && CanRun(Fresh(epoch, capacity), actions)
    ensures var e := Run(Fresh(epoch, capacity), actions).env;
            && (forall t, u ::
                  0 <= t < |e.terms| && 0 <= u < |e.terms| && !Finished(e.terms[t]) && !Finished(e.terms[u]) ==> t == u)
            && (forall o, p :: 0 <= o < |e.obs| && 0 <= p < |e.obs| && !e.obs[o].closed && !e.obs[p].closed ==> o == p)
            && (e.frozen || e.revoked ==>
                  && (forall t :: 0 <= t < |e.terms| ==> Finished(e.terms[t]))
                  && forall o :: 0 <= o < |e.obs| ==> e.obs[o].closed)
            && (e.watching.Some? ==> e.watching.value < |e.obs| && !e.obs[e.watching.value].closed)
            && forall t :: 0 <= t < |e.terms| ==> e.terms[t].read <= e.terms[t].written
  {
    hide CanRun, Run, Fresh, Finished, LogOk, Placed, Ahead;
    FreshInv(epoch, capacity);
    RunKeeps(Fresh(epoch, capacity), actions);
    var e := Run(Fresh(epoch, capacity), actions).env;
    forall t | 0 <= t < |e.terms| ensures e.terms[t].read <= e.terms[t].written {
      assert e.terms[t].read + e.terms[t].buf == e.terms[t].written;
    }
  }

  // ----------------------------------------------------------- Terminal traffic

  /** What this step hands to the reader of terminal t, as Read answers it. */
  function HandedBy(s: System, a: Action, t: nat): Bytes {
    if a.Reads? && a.t == t && t < |s.env.terms| && ReadTerm(s.env.terms[t], a.room).1.Data?
    then ReadTerm(s.env.terms[t], a.room).1.bytes else []
  }

  /** What this step gives to terminal t, if Write reports no error. */
  function TakenBy(s: System, a: Action, t: nat): Bytes {
    if a.Writes? && a.t == t && t < |s.env.terms| && WriteTerm(s.env.terms[t], a.bytes).1.None? then a.bytes else []
  }

  /** All the bytes a run's Reads of terminal t have answered, in order. */
  function Handed(s: System, actions: seq<Action>, t: nat): Bytes
    requires CanRun(s, actions)
    decreases |actions|
  {
    if actions == [] then [] else HandedBy(s, actions[0], t) + Handed(Do(s, actions[0]), actions[1..], t)
  }

  /** All the bytes its accepted Writes were given, in order. */
  function Taken(s: System, actions: seq<Action>, t: nat): Bytes
    requires CanRun(s, actions)
    decreases |actions|
  {
    if actions == [] then [] else TakenBy(s, actions[0], t) + Taken(Do(s, actions[0]), actions[1..], t)
  }

  function ReadSoFar(e: Env, t: nat): Bytes {
    if t < |e.terms| then e.terms[t].read else []
  }

  function WrittenSoFar(e: Env, t: nat): Bytes {
    if t < |e.terms| then e.terms[t].written else []
  }

  ghost predicate SameTraffic(e: Env, after: Env, t: nat) {
    ReadSoFar(after, t) == ReadSoFar(e, t) && WrittenSoFar(after, t) == WrittenSoFar(e, t)
  }

  lemma FailAndKillTraffic(e: Env, err: Error, t: nat)
    ensures SameTraffic(e, FailWatch(e, err), t) && SameTraffic(e, KillTerm(e, err), t)
  {
  }

  lemma StopTraffic(e: Env, t: nat)
    ensures SameTraffic(e, Freeze(e).0, t) && SameTraffic(e, Revoke(e), t)
  {
    hide FailWatch, KillTerm;
    var frozen, revoked := e.(frozen := true), e.(revoked := true, frozen := false);
    FailAndKillTraffic(frozen, Error.Frozen, t);
    FailAndKillTraffic(KillTerm(frozen, Error.Frozen), Error.Frozen, t);
    FailAndKillTraffic(revoked, Error.Revoked, t);
    FailAndKillTraffic(KillTerm(revoked, Error.Revoked), Error.Revoked, t);
  }

  lemma FilesTraffic(e: Env, change: Change, items: seq<Tree.Item>, epoch: Bytes, muts: seq<Tree.Mutation>, o: nat,
                     t: nat)
    ensures SameTraffic(e, Guest(e, change).0, t) && SameTraffic(e, CallerReplace(e, items, epoch).0, t)
    ensures SameTraffic(e, CallerApply(e, muts).0, t) && SameTraffic(e, CloseObs(e, o), t)
    ensures SameTraffic(e, Thaw(e).0, t) && SameTraffic(e, Attach(e).0, t)
  {
    hide Plan, Append, Stamp, Tree.ReplaceTree, Tree.Apply, Reset;
  }

  lemma WatchTraffic(e: Env, after: Bytes, t: nat)
    requires |e.log.events| <= e.log.next
    ensures SameTraffic(e, OpenWatch(e, after).0, t)
  {
    hide Since;
  }

  lemma OtherTraffic(e: Env, o: nat, obs: Obs, u: nat, t: nat)
    ensures SameTraffic(e, e, t) && (o < |e.obs| ==> SameTraffic(e, WithObs(e, o, obs), t))
    ensures u < |e.terms| ==> SameTraffic(e, WithTerm(e, u, CloseTerm(e.terms[u])), t)
  {
  }

  lemma QuietTraffic(s: System, a: Action, t: nat)
    requires Enabled(s, a) && !a.Writes? && !a.Reads?
    ensures SameTraffic(s.env, Do(s, a).env, t)
  {
    hide Freeze, Thaw, Revoke, CloseObs, Attach, CallerApply, CallerReplace, Guest, SameTraffic, WithObs, WithTerm;
    hide TakeEvent, Deliver, OpenWatch, CloseTerm;
    var e := s.env;
    OtherTraffic(e, 0, Obs([], [], 0, None, false), 0, t);
    match a {
      case OthersWatch(after) => WatchTraffic(e, after, t);
      case Watches => WatchTraffic(e, s.last, t);
      case GuestDoes(change) => FilesTraffic(e, change, [], [], [], 0, t);
      case CallerReplaces(items, generation) => FilesTraffic(e, GuestRemove([]), items, generation, [], 0, t);
      case CallerApplies(muts) => FilesTraffic(e, GuestRemove([]), [], [], muts, 0, t);
      case Attaches => FilesTraffic(e, GuestRemove([]), [], [], [], 0, t);
      case Thaws => FilesTraffic(e, GuestRemove([]), [], [], [], 0, t);
      case Closes(o) => FilesTraffic(e, GuestRemove([]), [], [], [], o, t);
      case Freezes => StopTraffic(e, t);
      case Revokes => StopTraffic(e, t);
      case OthersTake(o) => OtherTraffic(e, o, TakeEvent(e.obs[o]).0, 0, t);
      case Takes => OtherTraffic(e, s.pc.o, TakeEvent(e.obs[s.pc.o]).0, 0, t);
      case OthersDeliver(o, event) => OtherTraffic(e, o, Deliver(e.obs[o], Some(event)).0, 0, t);
      case Delivers => OtherTraffic(e, s.pc.o, Deliver(e.obs[s.pc.o], s.pc.taken).0, 0, t);
      case ClosesTerm(u) => OtherTraffic(e, 0, Obs([], [], 0, None, false), u, t);
      case _ =>
    }
  }

  /** A step lets through to terminal t, either way, exactly what its own answer says. */
  lemma StepTraffic(s: System, a: Action, t: nat)
    requires Enabled(s, a)
    ensures ReadSoFar(Do(s, a).env, t) == ReadSoFar(s.env, t) + HandedBy(s, a, t)
    ensures WrittenSoFar(Do(s, a).env, t) == WrittenSoFar(s.env, t) + TakenBy(s, a, t)
  {
    hide WriteTerm, ReadTerm;
    if a.Writes? {
      WritesInOrder(s.env.terms[a.t], a.bytes);
    } else if a.Reads? {
      ReadsInOrder(s.env.terms[a.t], a.room);
    } else {
      hide Do;
      QuietTraffic(s, a, t);
    }
  }

  lemma {:induction false} RunTraffic(s: System, actions: seq<Action>, t: nat)
    requires CanRun(s, actions)
    ensures ReadSoFar(Run(s, actions).env, t) == ReadSoFar(s.env, t) + Handed(s, actions, t)
    ensures WrittenSoFar(Run(s, actions).env, t) == WrittenSoFar(s.env, t) + Taken(s, actions, t)
    decreases |actions|
  {
    hide Enabled, Do, HandedBy, TakenBy, ReadSoFar, WrittenSoFar;
    if actions != [] {
      StepTraffic(s, actions[0], t);
      RunTraffic(Do(s, actions[0]), actions[1..], t);
    }
  }

  /**
   Over any run, what the Reads of a terminal have answered is, in order and without gap, the beginning
   of what its accepted Writes were given; what is missing is exactly what the terminal still holds.
   */
  lemma TrafficInOrder(epoch: Bytes, capacity: nat, actions: seq<Action>, t: nat)
    requires EpochOk(epoch) && capacity > 0 && CanRun(Fresh(epoch, capacity), actions)
    ensures var s, e := Fresh(epoch, capacity), Run(Fresh(epoch, capacity), actions).env;
            && (t < |e.terms| ==> Taken(s, actions, t) == Handed(s, actions, t) + e.terms[t].buf)
            && (t >= |e.terms| ==> Taken(s, actions, t) == Handed(s, actions, t) == [])
  {
    hide CanRun, Run, Handed, Taken, Finished, LogOk, Placed, Ahead, StreamsOk;
    FreshInv(epoch, capacity);
    RunKeeps(Fresh(epoch, capacity), actions);
    RunTraffic(Fresh(epoch, capacity), actions, t);
    var s, e := Fresh(epoch, capacity), Run(Fresh(epoch, capacity), actions).env;
    assert [] + Handed(s, actions, t) == Handed(s, actions, t) == ReadSoFar(e, t);
    assert [] + Taken(s, actions, t) == Taken(s, actions, t) == WrittenSoFar(e, t);
  }
}
