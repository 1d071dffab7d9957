/**
 One in-memory environment (memory/memory.go, memory/tree.go): guest writes, the bounded watch
 stream, freeze and revoke, and its terminals. Every stretch of code under environment.mu, an
 observation's mutex or a terminal's mutex is one atomic step.
 */
module MemoryEnv {
  import opened Common
  import opened Paths
  import opened WatchLog
  import Tree

  const WATCH_BUFFER: nat := 32

  /** An observation; queue and room are its buffered channel. */
  datatype Obs = Obs(cursor: Bytes, queue: seq<Event>, room: nat, err: Option<Error>, closed: bool)

  /** A terminal; written and read record its whole traffic. */
  datatype Term = Term(buf: Bytes, closed: bool, dead: Option<Error>, written: Bytes, read: Bytes)

  /** obs and terms list everything ever opened; watching and term are the environment's pointers. */
  datatype Env = Env(files: Tree.Snapshot, log: WatchLog.State, frozen: bool, revoked: bool,
                     watching: Option<nat>, obs: seq<Obs>, term: Option<nat>, terms: seq<Term>)

  // ------------------------------------------------------------- Critical sections

  function Guard(e: Env): Option<Error> {
    if e.revoked then Some(Revoked) else if e.frozen then Some(Frozen) else None
  }

  /** failWatch: the live observation is marked, its channel closed, and it is forgotten. */
  function FailWatch(e: Env, err: Error): Env {
    if e.watching.None? || e.watching.value >= |e.obs| then e.(watching := None)
    else
      var o := e.watching.value;
      e.(obs := e.obs[o := e.obs[o].(err := Some(err), closed := true)], watching := None)
  }

  /** emit: append to the log, then a non-blocking send; a full buffer fails the watch. */
  function Emit(e: Env, event: Event): Env {
    var stamped := Stamp(e.log, event);
    var e1 := e.(log := Append(e.log, event));
    if e.watching.None? || e.watching.value >= |e.obs| then e1
    else
      var o := e.watching.value;
      if |e.obs[o].queue| < e.obs[o].room
      then e1.(obs := e.obs[o := e.obs[o].(queue := e.obs[o].queue + [stamped])])
      else FailWatch(e1, Lagged)
  }

  datatype Change = GuestWrite(path: Bytes, data: Bytes) | GuestRemove(path: Bytes) | GuestMove(from: Bytes, to: Bytes)

  const GUEST: Bytes := [103, 117, 101, 115, 116]

  /** What the host checks before it looks up the grant. */
  function HostCheck(change: Change): Option<Error> {
    match change
    case GuestWrite(path, data) =>
      if !ValidPath(path) then Some(Invalid) else if |data| > MAX_FILE_BYTES then Some(TooLarge) else None
    case GuestRemove(path) => if !ValidPath(path) then Some(Invalid) else None
    case GuestMove(from, to) => if !ValidPath(from) || !ValidPath(to) then Some(Invalid) else None
  }

  /** What a guest write does to the files, and the event it reports. */
  function Plan(files: Tree.Snapshot, change: Change): Result<(Tree.Snapshot, Event), Error> {
    match change
    case GuestWrite(path, data) =>
      var op := if path in files then Tree.Replace else Tree.Create;
      Success((files[path := Tree.Node(Tree.FileKind, GUEST, data)], Event([], op, path, [])))
    case GuestRemove(path) =>
      if path !in files then Failure(NotFound)
      else Success((files - {path}, Event([], Tree.Delete, path, [])))
    case GuestMove(from, to) =>
      if from !in files then Failure(NotFound)
      else if to in files then Failure(Conflict)
      else Success(((files - {from})[to := files[from]], Event([], Tree.Move, to, from)))
  }

  function Guest(e: Env, change: Change): (Env, Option<Error>) {
    if Guard(e).Some? then (e, Guard(e))
    else match Plan(e.files, change)
      case Failure(err) => (e, Some(err))
      case Success((files, event)) => (Emit(e.(files := files), event), None)
  }

  function CallerReplace(e: Env, items: seq<Tree.Item>, epoch: Bytes): (Env, Option<Error>) {
    if Guard(e).Some? then (e, Guard(e))
    else match Tree.ReplaceTree(e.files, items)
      case Failure(err) => (e, Some(err))
      case Success(next) =>
        var failed := FailWatch(e.(files := next), Lagged);
        (failed.(log := Reset(e.log, epoch)), None)
  }

  function CallerApply(e: Env, muts: seq<Tree.Mutation>): (Env, Option<Error>) {
    if Guard(e).Some? then (e, Guard(e))
    else match Tree.Apply(e.files, muts)
      case Failure(err) => (e, Some(err))
      case Success(next) => (e.(files := next), None)
  }

  function OpenWatch(e: Env, after: Bytes): (Env, Result<nat, Error>)
    requires |e.log.events| <= e.log.next
  {
    if Guard(e).Some? then (e, Failure(Guard(e).value))
    else if e.watching.Some? then (e, Failure(Busy))
    else match Since(e.log, after)
      case Failure(err) => (e, Failure(err))
      case Success((cursor, replay)) =>
        var room := if |replay| > WATCH_BUFFER then |replay| else WATCH_BUFFER;
        (e.(watching := Some(|e.obs|), obs := e.obs + [Obs(cursor, replay, room, None, false)]), Success(|e.obs|))
  }

  function CloseObs(e: Env, o: nat): Env {
    if e.watching == Some(o) then FailWatch(e, Closed) else e
  }

  function Finished(t: Term): bool {
    t.closed || t.dead.Some?
  }

  function KillTerm(e: Env, reason: Error): Env {
    if e.term.None? || e.term.value >= |e.terms| then e.(term := None)
    else
      var t := e.term.value;
      e.(terms := e.terms[t := e.terms[t].(dead := Some(reason))], term := None)
  }

  function Freeze(e: Env): (Env, Option<Error>) {
    if e.revoked then (e, Some(Revoked))
    else (FailWatch(KillTerm(e.(frozen := true), Frozen), Frozen), None)
  }

  function Thaw(e: Env): (Env, Option<Error>) {
    if e.revoked then (e, Some(Revoked)) else (e.(frozen := false), None)
  }

  function Revoke(e: Env): Env {
    FailWatch(KillTerm(e.(revoked := true, frozen := false), Revoked), Revoked)
  }

  function Attach(e: Env): (Env, Result<nat, Error>) {
    if Guard(e).Some? then (e, Failure(Guard(e).value))
    else if e.term.Some? && e.term.value < |e.terms| && !Finished(e.terms[e.term.value]) then (e, Failure(Busy))
    else (e.(term := Some(|e.terms|), terms := e.terms + [Term([], false, None, [], [])]), Success(|e.terms|))
  }

  function WriteTerm(t: Term, p: Bytes): (Term, Option<Error>) {
    if t.dead.Some? then (t, t.dead)
    else if t.closed then (t, Some(Closed))
    else (t.(buf := t.buf + p, written := t.written + p), None)
  }

  /** One look of Read at its terminal; Waiting goes back to sleep on the condition variable. */
  datatype Look = Waiting | Eof | Dead(reason: Error) | Data(bytes: Bytes)

  function ReadTerm(t: Term, room: nat): (Term, Look) {
    if t.dead.Some? then (t, Look.Dead(t.dead.value))
    else if t.buf == [] then (t, if t.closed then Eof else Waiting)
    else
      var n := if room < |t.buf| then room else |t.buf|;
      (t.(buf := t.buf[n..], read := t.read + t.buf[..n]), Data(t.buf[..n]))
  }

  function CloseTerm(t: Term): Term {
    t.(closed := true)
  }

  /** The receive inside Next: a buffered event comes out even after the channel was closed. */
  function TakeEvent(o: Obs): (Obs, Option<Event>) {
    if o.queue == [] then (o, None) else (o.(queue := o.queue[1..]), Some(o.queue[0]))
  }

  /** The end of Next, holding what was received: None is the closed, drained channel. */
  function Deliver(o: Obs, taken: Option<Event>): (Obs, Result<Event, Error>) {
    match taken
    case None => (o, Failure(if o.err.Some? then o.err.value else Closed))
    case Some(event) =>
      if o.err.Some? then (o, Failure(o.err.value)) else (o.(cursor := event.cursor), Success(event))
  }

  // ---------------------------------------------------------------- What stays true

  predicate ObsOk(o: Obs, live: bool) {
    && (o.closed <==> o.err.Some?) && (o.err.None? <==> live) && |o.queue| <= o.room
  }

  /** At most one stream is open, and it is the one writes are sent to. */
  ghost predicate StreamsOk(env: Env) {
    && (env.watching.Some? ==> env.watching.value < |env.obs| && !env.frozen && !env.revoked)
    && forall o :: 0 <= o < |env.obs| ==> ObsOk(env.obs[o], env.watching == Some(o))
  }

  /** At most one terminal is live, and every terminal has delivered a prefix of what it was given. */
  ghost predicate TermsOk(env: Env) {
    && (env.term.Some? ==> env.term.value < |env.terms| && !env.frozen && !env.revoked)
    && forall t :: 0 <= t < |env.terms| ==>
         && env.terms[t].read + env.terms[t].buf == env.terms[t].written
         && (!Finished(env.terms[t]) ==> env.term == Some(t))
  }

  /** An environment at rest. */
  ghost predicate EnvOk(e: Env) {
    StreamsOk(e) && TermsOk(e)
  }

  /** The same, in the middle of Freeze or Revoke: the flags are set before the live ones are killed. */
  ghost predicate Linked(e: Env) {
    EnvOk(e.(frozen := false, revoked := false))
  }

  lemma BoundsOk(e: Env)
    requires Linked(e)
    ensures e.watching.Some? ==> e.watching.value < |e.obs|
    ensures e.term.Some? ==> e.term.value < |e.terms|
  {
  }

  lemma FailLinked(e: Env, err: Error)
    requires Linked(e)
    ensures Linked(FailWatch(e, err)) && (EnvOk(e) ==> EnvOk(FailWatch(e, err)))
  {
    hide Finished;
    FailStreams(e.(frozen := false, revoked := false), err);
    if EnvOk(e) {
      FailStreams(e, err);
    }
  }

  lemma FailStreams(e: Env, err: Error)
    requires EnvOk(e)
    ensures EnvOk(FailWatch(e, err))
  {
    hide Finished;
    var t := FailWatch(e, err);
    assert TermsOk(t) by { hide ObsOk; }
    forall o | 0 <= o < |t.obs|
      ensures ObsOk(t.obs[o], t.watching == Some(o))
    {
      assert ObsOk(e.obs[o], e.watching == Some(o));
    }
  }

  lemma KillLinked(e: Env, reason: Error)
    requires Linked(e)
    ensures Linked(KillTerm(e, reason))
  {
    hide ObsOk;
    var f := e.(frozen := false, revoked := false);
    var t := KillTerm(f, reason);
    assert StreamsOk(t);
    forall i | 0 <= i < |t.terms|
      ensures t.terms[i].read + t.terms[i].buf == t.terms[i].written && Finished(t.terms[i])
    {
      assert !Finished(f.terms[i]) ==> f.term == Some(i);
    }
    assert t == KillTerm(e, reason).(frozen := false, revoked := false);
  }

  lemma OpenOk(e: Env, after: Bytes)
    requires EnvOk(e) && |e.log.events| <= e.log.next
    ensures EnvOk(OpenWatch(e, after).0)
  {
    hide Finished, Since;
  }

  lemma OneObsOk(e: Env, o: nat, obs: Obs)
    requires EnvOk(e) && o < |e.obs| && obs.err == e.obs[o].err && obs.closed == e.obs[o].closed
    requires |obs.queue| <= |e.obs[o].queue| && obs.room == e.obs[o].room
    ensures EnvOk(e.(obs := e.obs[o := obs]))
  {
    hide Finished;
  }

  /** A terminal's traffic stays accounted for, and a finished terminal stays finished. */
  predicate Carries(was: Term, now: Term) {
    && (was.read + was.buf == was.written ==> now.read + now.buf == now.written)
    && (Finished(was) ==> Finished(now))
  }

  lemma WriteCarries(was: Term, bytes: Bytes)
    ensures Carries(was, WriteTerm(was, bytes).0)
  {
    assert was.read + (was.buf + bytes) == was.read + was.buf + bytes;
  }

  lemma ReadCarries(was: Term, room: nat)
    ensures Carries(was, ReadTerm(was, room).0)
  {
    var n := if room < |was.buf| then room else |was.buf|;
    assert was.read + was.buf[..n] + was.buf[n..] == was.read + was.buf;
  }

  lemma CloseCarries(was: Term)
    ensures Carries(was, CloseTerm(was))
  {
  }

  lemma OneTermOk(e: Env, t: nat, term: Term)
    requires EnvOk(e) && t < |e.terms| && Carries(e.terms[t], term)
    ensures EnvOk(e.(terms := e.terms[t := term]))
  {
    hide ObsOk, Finished;
  }

  // ------------------------------------------------------------ What calls answer

  /**
   Read hands out what was written first and not yet handed out, as much as fits, and records no
   other bytes than it hands out; anything else it answers leaves the terminal as it was.
   */
  lemma ReadsInOrder(t: Term, room: nat)
    ensures var (after, look) := ReadTerm(t, room);
            && (look.Data? ==>
                  && t.buf == look.bytes + after.buf && after.read == t.read + look.bytes
                  && |look.bytes| <= room && (room > 0 ==> look.bytes != [])
                  && (|look.bytes| < room ==> after.buf == [])
                  && after.written == t.written && after.closed == t.closed && after.dead == t.dead)
            && (!look.Data? ==> after == t)
            && (look.Data? <==> t.dead.None? && t.buf != [])
            && (look.Dead? <==> t.dead.Some?) && (look.Dead? ==> t.dead == Some(look.reason))
            && (look.Eof? <==> t.dead.None? && t.buf == [] && t.closed)
  {
    assert t.buf[..0] == [];
  }

  /** A write is taken as a whole exactly while the terminal is unfinished. */
  lemma WritesInOrder(t: Term, p: Bytes)
    ensures var (after, err) := WriteTerm(t, p);
            && (err.None? <==> !Finished(t))
            && (err.None? ==> after.buf == t.buf + p && after.written == t.written + p && after.read == t.read)
            && (err.Some? ==> after == t && err == if t.dead.Some? then t.dead else Some(Closed))
  {
  }

  /**
   A closed terminal takes nothing more, and unless it is killed hands out the rest and then ends;
   nobody waits on it.
   */
  lemma CloseEnds(t: Term, p: Bytes, room: nat)
    ensures var closed := CloseTerm(t);
            && closed.buf == t.buf && closed.read == t.read && closed.written == t.written && closed.dead == t.dead
            && WriteTerm(closed, p) == (closed, if t.dead.Some? then t.dead else Some(Closed))
            && !ReadTerm(closed, room).1.Waiting?
            && (t.dead.None? ==> (ReadTerm(closed, room).1 == Eof <==> t.buf == []))
  {
  }

  /** The caller's change that a guest's amounts to. */
  function AsMutation(files: Tree.Snapshot, change: Change): Tree.Mutation {
    match change
    case GuestWrite(path, data) =>
      Tree.Mutation(if path in files then Tree.Replace else Tree.Create, path, [], Tree.FileKind, GUEST, [], Some(data))
    case GuestRemove(path) => Tree.Mutation(Tree.Delete, path, [], Tree.FileKind, [], [], None)
    case GuestMove(from, to) => Tree.Mutation(Tree.Move, to, from, Tree.FileKind, [], [], None)
  }

  /** The host lets a guest's change through exactly when its paths are valid and its body is within the cap. */
  lemma HostCheckIff(files: Tree.Snapshot, change: Change)
    ensures HostCheck(change).None? <==>
              Tree.PathsValid(AsMutation(files, change)) && (change.GuestWrite? ==> |change.data| <= MAX_FILE_BYTES)
  {
    hide ValidPath;
  }

  /**
   A guest's change takes effect exactly when the environment runs and what it addresses is there, a
   move's destination free. The paths it names then hold what it says, with its bytes, all others
   what they held, and the event tells the same change.
   */
  lemma GuestTakesHold(e: Env, change: Change)
    ensures var mut, (after, err) := AsMutation(e.files, change), Guest(e, change);
            && (err.None? <==>
                && Guard(e).None? && (!change.GuestWrite? ==> Tree.Addressed(mut) in e.files)
                && (change.GuestMove? ==> change.to !in e.files))
            && (err.None? ==>
                  && (mut.op == Tree.Move ==> mut.from in e.files)
                  && (forall p :: Tree.Names(mut, p) ==> Tree.Leaves(e.files, mut, after.files, p))
                  && (forall p :: !Tree.Names(mut, p) ==>
                        (p in after.files <==> p in e.files) && (p in e.files ==> after.files[p] == e.files[p]))
                  && after.log == Append(e.log, Event([], mut.op, mut.path, mut.from)))
            && (err.Some? ==>
                  && after == e
                  && err.value == if Guard(e).Some? then Guard(e).value
                                  else if Tree.Addressed(mut) !in e.files then NotFound else Conflict)
  {
    hide ValidPath, Stamp, Append, Emit, Plan;
    PlanTakesHold(e.files, change);
    if Guard(e).None? && Plan(e.files, change).Success? {
      EmitKeepsFiles(e.(files := Plan(e.files, change).value.0), Plan(e.files, change).value.1);
    }
  }

  lemma PlanTakesHold(files: Tree.Snapshot, change: Change)
    ensures var mut, r := AsMutation(files, change), Plan(files, change);
            && (r.Success? <==>
                && (!change.GuestWrite? ==> Tree.Addressed(mut) in files)
                && (change.GuestMove? ==> change.to !in files))
            && (r.Success? ==>
                  && (mut.op == Tree.Move ==> mut.from in files)
                  && (forall p :: Tree.Names(mut, p) ==> Tree.Leaves(files, mut, r.value.0, p))
                  && (forall p :: !Tree.Names(mut, p) ==>
                        (p in r.value.0 <==> p in files) && (p in files ==> r.value.0[p] == files[p]))
                  && r.value.1 == Event([], mut.op, mut.path, mut.from))
            && (r.Failure? ==> r.error == if Tree.Addressed(mut) !in files then NotFound else Conflict)
  {
  }

  lemma EmitKeepsFiles(e: Env, event: Event)
    ensures Emit(e, event).files == e.files && Emit(e, event).log == Append(e.log, event)
  {
    hide Append, Stamp;
  }

  /**
   A caller's batch takes effect exactly when the environment runs and tree.Apply accepts it: then the
   last mutation that names a path has the last word on what stands there.
   */
  lemma ApplyTakesHold(e: Env, muts: seq<Tree.Mutation>)
    ensures var (after, err) := CallerApply(e, muts);
            && (err.None? <==> Guard(e).None? && Tree.Apply(e.files, muts).Success?)
            && (err.None? ==>
                  && after == e.(files := after.files)
                  && (forall p :: (forall i :: 0 <= i < |muts| ==> !Tree.Names(muts[i], p)) ==>
                        (p in after.files <==> p in e.files) && (p in e.files ==> after.files[p] == e.files[p]))
                  && (forall k, p :: 0 <= k < |muts| && Tree.NamesLast(muts, k, p) ==>
                          && (muts[k].op == Tree.Move ==> muts[k].from in Tree.Before(e.files, muts, k).snapshot)
                          && Tree.Leaves(Tree.Before(e.files, muts, k).snapshot, muts[k], after.files, p)))
            && (err.Some? ==> after == e)
  {
    hide Tree.Before, Tree.Leaves, Tree.Names, Tree.NamesLast, Tree.ApplyFrom;
    if CallerApply(e, muts).1.None? {
      forall p | forall i :: 0 <= i < |muts| ==> !Tree.Names(muts[i], p)
        ensures p in CallerApply(e, muts).0.files <==> p in e.files
        ensures p in e.files ==> CallerApply(e, muts).0.files[p] == e.files[p]
      {
        Tree.ApplyFrame(Tree.Progress(e.files, 0), muts, p);
      }
      forall k, p | 0 <= k < |muts| && Tree.NamesLast(muts, k, p)
        ensures muts[k].op == Tree.Move ==> muts[k].from in Tree.Before(e.files, muts, k).snapshot
        ensures Tree.Leaves(Tree.Before(e.files, muts, k).snapshot, muts[k], CallerApply(e, muts).0.files, p)
      {
        Tree.LastWord(e.files, muts, k, p);
      }
    }
  }

  /** Open: the body of a projected file. */
  function OpenFile(e: Env, path: Bytes): Result<Bytes, Error> {
    if !ValidPath(path) then Failure(Invalid)
    else if Guard(e).Some? then Failure(Guard(e).value)
    else if path !in e.files || e.files[path].kind != Tree.FileKind then Failure(NotFound)
    else Success(e.files[path].data)
  }

  /** Whoever opens a path reads what was last put there, by guest or caller, and nothing where it was taken away. */
  lemma OpensWhatWasPut(e: Env, change: Change, muts: seq<Tree.Mutation>, k: nat)
    requires k < |muts| && Tree.NamesLast(muts, k, muts[k].path)
    ensures HostCheck(change).None? && Guest(e, change).1.None? ==>
              var after := Guest(e, change).0;
              match change
              case GuestWrite(path, data) => OpenFile(after, path) == Success(data)
              case GuestRemove(path) => OpenFile(after, path) == Failure(NotFound)
              case GuestMove(from, to) =>
                OpenFile(after, to) == OpenFile(e, from) && OpenFile(after, from) == Failure(NotFound)
    ensures CallerApply(e, muts).1.None? ==>
              var after, mut := CallerApply(e, muts).0, muts[k];
              && (mut.op == Tree.Delete ==> OpenFile(after, mut.path) == Failure(NotFound))
              && (mut.op == Tree.Create || mut.op == Tree.Replace ==>
                    OpenFile(after, mut.path) ==
                    if mut.kind == Tree.FileKind && mut.data.Some? then Success(mut.data.value) else Failure(NotFound))
  {
    hide ValidPath, Guest, CallerApply, Tree.Apply, Tree.Before, HostCheck;
    HostCheckIff(e.files, change);
    GuestTakesHold(e, change);
    var mut := AsMutation(e.files, change);
    assert Tree.Names(mut, mut.path) && (change.GuestMove? ==> Tree.Names(mut, mut.from));
    ApplyTakesHold(e, muts);
    RunningStays(e, change, muts);
  }

  lemma RunningStays(e: Env, change: Change, muts: seq<Tree.Mutation>)
    ensures Guest(e, change).1.None? ==> Guard(e).None? && Guard(Guest(e, change).0).None?
    ensures CallerApply(e, muts).1.None? ==>
              && Guard(CallerApply(e, muts).0).None?
              && forall k :: 0 <= k < |muts| ==> ValidPath(muts[k].path)
  {
    hide ValidPath, Append, Stamp, Plan, Tree.ApplyFrom;
    if CallerApply(e, muts).1.None? {
      forall k | 0 <= k < |muts|
        ensures ValidPath(muts[k].path)
      {
        hide Tree.ApplyOne;
        Tree.AfterOne(e.files, muts, k);
        Tree.ApplyOneIff(Tree.Before(e.files, muts, k), muts[k]);
      }
    }
  }

  /** Attach succeeds exactly when the environment runs and every terminal ever made is finished. */
  lemma AttachIff(e: Env)
    requires EnvOk(e)
    ensures var (after, r) := Attach(e);
            && (r.Success? <==> Guard(e).None? && forall t :: 0 <= t < |e.terms| ==> Finished(e.terms[t]))
            && (r.Success? ==>
                  && r.value == |e.terms| && after.term == Some(|e.terms|)
                  && after.terms == e.terms + [Term([], false, None, [], [])])
            && (r.Failure? ==>
                  after == e && r.error == if e.revoked then Revoked else if e.frozen then Frozen else Busy)
  {
    hide ObsOk, Finished;
  }

  /** Freeze and Revoke reach the live terminal and the open stream, each with its own reason, and no other. */
  lemma StopsTellWhy(e: Env)
    requires EnvOk(e)
    ensures (Freeze(e).1.None? <==> !e.revoked) && (Freeze(e).1.Some? ==> Freeze(e) == (e, Some(Revoked)))
    ensures !e.revoked ==> StoppedFor(e, Freeze(e).0, Frozen) && Freeze(e).0.frozen
    ensures StoppedFor(e, Revoke(e), Revoked) && Revoke(e).revoked && !Revoke(e).frozen
    ensures (Thaw(e).1.None? <==> !e.revoked) && (Thaw(e).1.None? ==> Thaw(e).0 == e.(frozen := false))
  {
    hide ObsOk, Finished;
  }

  /**
   The open stream gets an event exactly while its buffer has room and stays open; a full one is failed
   as lagged and gets nothing. Closing a stream ends it if it is the open one. No other is touched.
   */
  lemma StreamsAnswer(e: Env, event: Event, o: nat)
    requires EnvOk(e) && o < |e.obs|
    ensures var obs, after := e.obs[o], Emit(e, event).obs;
            && |after| == |e.obs|
            && after[o] ==
               if e.watching != Some(o) then obs
               else if |obs.queue| < obs.room then obs.(queue := obs.queue + [Stamp(e.log, event)])
               else obs.(err := Some(Lagged), closed := true)
    ensures var obs, after := e.obs[o], CloseObs(e, o);
            && |after.obs| == |e.obs| && after.obs[o].closed && (!obs.closed ==> after.obs[o].err == Some(Closed))
            && (obs.closed ==> after == e)
            && forall p :: 0 <= p < |e.obs| && p != o ==> after.obs[p] == e.obs[p]
    ensures |e.log.events| <= e.log.next && OpenWatch(e, []).1.Success? ==>
              OpenWatch(e, []).0.obs[|e.obs|].room >= 32
  {
    hide Stamp, Append, Finished;
    assert ObsOk(e.obs[o], e.watching == Some(o));
  }

  /** Next hands out a buffered event exactly on a stream that has not failed, and moves its cursor to it. */
  lemma NextAnswers(o: Obs)
    ensures var (rest, taken) := TakeEvent(o);
            && (taken.Some? <==> o.queue != [])
            && (taken.Some? ==> o.queue == [taken.value] + rest.queue)
            && var (after, r) := Deliver(rest, taken);
               && (r.Success? <==> o.queue != [] && o.err.None?)
               && (r.Success? ==> r.value == o.queue[0] && after.cursor == o.queue[0].cursor)
               && (r.Failure? ==> after == rest && r.error == if o.err.Some? then o.err.value else Closed)
  {
  }

  ghost predicate StoppedFor(e: Env, after: Env, reason: Error) {
    && after.watching.None? && after.term.None? && after.files == e.files && after.log == e.log
    && |after.obs| == |e.obs| && |after.terms| == |e.terms|
    && (forall o :: 0 <= o < |e.obs| ==>
          after.obs[o] == if e.watching == Some(o) then e.obs[o].(err := Some(reason), closed := true) else e.obs[o])
    && (forall t :: 0 <= t < |e.terms| ==>
          after.terms[t] == if e.term == Some(t) then e.terms[t].(dead := Some(reason)) else e.terms[t])
  }

  // ------------------------------------------------------------------ The object

  class Environment {
    var files: Tree.Snapshot
    const log: Log
    var frozen: bool
    var revoked: bool
    var watching: Option<nat>
    var obs: seq<Obs>
    var term: Option<nat>
    var terms: seq<Term>

    ghost predicate Valid()
      reads this, log
    {
      log.Valid() && EnvOk(State())
    }

    function State(): Env
      reads this, log
    {
      Env(files, log.Contents(), frozen, revoked, watching, obs, term, terms)
    }

    constructor (log: Log)
      requires log.Valid()
      ensures Valid() && this.log == log
      ensures State() == Env(map[], log.Contents(), false, false, None, [], None, [])
    {
      this.log := log;
      files, frozen, revoked, watching, obs, term, terms := map[], false, false, None, [], None, [];
    }

    method GuardCall() returns (err: Option<Error>)
      requires Valid()
      ensures err == Guard(State())
    {
      return if revoked then Some(Revoked) else if frozen then Some(Frozen) else None;
    }

    method FailLive(err: Error)
      requires log.Valid() && Linked(State())
      modifies this
      ensures log.Valid() && Linked(State()) && State() == FailWatch(old(State()), err)
      ensures old(Valid()) ==> Valid()
    {
      hide EnvOk, Linked;
      ghost var e := State();
      BoundsOk(e);
      FailLinked(e, err);
      if watching.Some? {
        var o := watching.value;
        obs := obs[o := obs[o].(err := Some(err), closed := true)];
      }
      watching := None;
      assert State() == FailWatch(e, err);
    }

    method Send(event: Event)
      requires Valid() && log.next + 1 < UINT64
      modifies this, log
      ensures Valid() && State() == Emit(old(State()), event)
    {
      hide Window, Append, Stamp;
      var stamped := log.AppendEvent(event);
      if watching.Some? {
        var o := watching.value;
        if |obs[o].queue| < obs[o].room {
          obs := obs[o := obs[o].(queue := obs[o].queue + [stamped])];
        } else {
          FailLive(Lagged);
        }
      }
    }

    method GuestChange(change: Change) returns (err: Option<Error>)
      requires Valid() && log.next + 1 < UINT64
      modifies this, log
      ensures Valid() && (State(), err) == Guest(old(State()), change)
    {
      hide Window, Emit;
      err := GuardCall();
      if err.Some? {
        return;
      }
      match change {
        case GuestWrite(path, data) =>
          var existed := path in files;
          files := files[path := Tree.Node(Tree.FileKind, GUEST, data)];
          Send(Event([], if existed then Tree.Replace else Tree.Create, path, []));
        case GuestRemove(path) =>
          if path !in files {
            return Some(NotFound);
          }
          files := files - {path};
          Send(Event([], Tree.Delete, path, []));
        case GuestMove(from, to) =>
          if from !in files {
            return Some(NotFound);
          }
          if to in files {
            return Some(Conflict);
          }
          var ent := files[from];
          files := files - {from};
          files := files[to := ent];
          Send(Event([], Tree.Move, to, from));
      }
    }

    method ReplaceAll(items: seq<Tree.Item>, epoch: Bytes) returns (err: Option<Error>)
      requires Valid() && EpochOk(epoch)
      modifies this, log
      ensures Valid() && (State(), err) == CallerReplace(old(State()), items, epoch)
    {
      hide Window, Tree.ReplaceTree;
      err := GuardCall();
      if err.Some? {
        return;
      }
      var next := Tree.ReplaceLoop(files, items);
      if next.Failure? {
        return Some(next.error);
      }
      files := next.value;
      FailLive(Lagged);
      log.ResetTo(epoch);
    }

    method ApplyBatch(muts: seq<Tree.Mutation>) returns (err: Option<Error>)
      requires Valid()
      modifies this
      ensures Valid() && (State(), err) == CallerApply(old(State()), muts)
    {
      hide Window, Tree.Apply;
      err := GuardCall();
      if err.Some? {
        return;
      }
      var next := Tree.ApplyLoop(files, muts);
      if next.Failure? {
        return Some(next.error);
      }
      files := next.value;
    }

    method Open(path: Bytes) returns (r: Result<Bytes, Error>)
      requires Valid()
      ensures r == OpenFile(State(), path)
    {
      if !ValidPath(path) {
        return Failure(Invalid);
      }
      var err := GuardCall();
      if err.Some? {
        return Failure(err.value);
      }
      if path !in files || files[path].kind != Tree.FileKind {
        return Failure(NotFound);
      }
      return Success(files[path].data);
    }

    method Watch(after: Bytes) returns (r: Result<nat, Error>)
      requires Valid()
      modifies this
      ensures Valid() && |old(log.events)| <= old(log.next)
      ensures (State(), r) == OpenWatch(old(State()), after)
    {
      hide Since, EnvOk, Window;
      ghost var e := State();
      WindowFits(e.log, log.history);
      OpenOk(e, after);
      var err := GuardCall();
      if err.Some? {
        return Failure(err.value);
      }
      if watching.Some? {
        return Failure(Busy);
      }
      var since := log.Replay(after);
      if since.Failure? {
        return Failure(since.error);
      }
      var (cursor, replay) := since.value;
      var room := if |replay| > WATCH_BUFFER then |replay| else WATCH_BUFFER;
      watching := Some(|obs|);
      r := Success(|obs|);
      obs := obs + [Obs(cursor, replay, room, None, false)];
      assert (State(), r) == OpenWatch(e, after);
    }

    method KillLive(reason: Error)
      requires log.Valid() && Linked(State())
      modifies this
      ensures log.Valid() && Linked(State()) && State() == KillTerm(old(State()), reason)
    {
      hide EnvOk, Linked;
      ghost var e := State();
      BoundsOk(e);
      KillLinked(e, reason);
      if term.Some? {
        var t := term.value;
        terms := terms[t := terms[t].(dead := Some(reason))];
      }
      term := None;
      assert State() == KillTerm(e, reason);
    }

    method FreezeNow() returns (err: Option<Error>)
      requires Valid()
      modifies this
      ensures Valid() && (State(), err) == Freeze(old(State()))
    {
      hide Window;
      if revoked {
        return Some(Revoked);
      }
      frozen := true;
      KillLive(Frozen);
      FailLive(Frozen);
      err := None;
    }

    method ThawNow() returns (err: Option<Error>)
      requires Valid()
      modifies this
      ensures Valid() && (State(), err) == Thaw(old(State()))
    {
      if revoked {
        return Some(Revoked);
      }
      frozen := false;
      err := None;
    }

    method RevokeNow()
      requires Valid()
      modifies this
      ensures Valid() && State() == Revoke(old(State()))
    {
      hide Window;
      revoked := true;
      frozen := false;
      KillLive(Revoked);
      FailLive(Revoked);
    }

    method AttachNow() returns (r: Result<nat, Error>)
      requires Valid()
      modifies this
      ensures Valid() && (State(), r) == Attach(old(State()))
    {
      var err := GuardCall();
      if err.Some? {
        return Failure(err.value);
      }
      if term.Some? && !Finished(terms[term.value]) {
        return Failure(Busy);
      }
      r := Success(|terms|);
      term := Some(|terms|);
      terms := terms + [Term([], false, None, [], [])];
    }

    method CloseWatch(o: nat)
      requires Valid()
      modifies this
      ensures Valid() && State() == CloseObs(old(State()), o)
    {
      if watching == Some(o) {
        FailLive(Closed);
      }
    }

    method Receive(o: nat) returns (taken: Option<Event>)
      requires Valid() && o < |obs|
      modifies this
      ensures Valid() && taken == TakeEvent(old(obs[o])).1
      ensures State() == old(State()).(obs := old(obs)[o := TakeEvent(old(obs[o])).0])
    {
      hide EnvOk, Window;
      OneObsOk(State(), o, TakeEvent(obs[o]).0);
      if obs[o].queue == [] {
        taken := None;
        assert obs == obs[o := obs[o]];
      } else {
        taken := Some(obs[o].queue[0]);
        obs := obs[o := obs[o].(queue := obs[o].queue[1..])];
      }
    }

    method EndNext(o: nat, taken: Option<Event>) returns (r: Result<Event, Error>)
      requires Valid() && o < |obs|
      modifies this
      ensures Valid() && r == Deliver(old(obs[o]), taken).1
      ensures State() == old(State()).(obs := old(obs)[o := Deliver(old(obs[o]), taken).0])
    {
      hide EnvOk, Window;
      OneObsOk(State(), o, Deliver(obs[o], taken).0);
      assert obs == obs[o := obs[o]];
      if taken.None? {
        return Failure(if obs[o].err.None? then Closed else obs[o].err.value);
      }
      if obs[o].err.Some? {
        return Failure(obs[o].err.value);
      }
      obs := obs[o := obs[o].(cursor := taken.value.cursor)];
      r := Success(taken.value);
    }

    method WriteTo(t: nat, p: Bytes) returns (err: Option<Error>)
      requires Valid() && t < |terms|
      modifies this
      ensures Valid() && err == WriteTerm(old(terms[t]), p).1
      ensures State() == old(State()).(terms := old(terms)[t := WriteTerm(old(terms[t]), p).0])
    {
      hide EnvOk, Window, Carries;
      WriteCarries(terms[t], p);
      OneTermOk(State(), t, WriteTerm(terms[t], p).0);
      assert terms == terms[t := terms[t]];
      if terms[t].dead.Some? {
        return terms[t].dead;
      }
      if terms[t].closed {
        return Some(Closed);
      }
      terms := terms[t := terms[t].(buf := terms[t].buf + p, written := terms[t].written + p)];
      err := None;
    }

    method ReadFrom(t: nat, room: nat) returns (look: Look)
      requires Valid() && t < |terms|
      modifies this
      ensures Valid() && look == ReadTerm(old(terms[t]), room).1
      ensures State() == old(State()).(terms := old(terms)[t := ReadTerm(old(terms[t]), room).0])
    {
      hide EnvOk, Window, Carries;
      ReadCarries(terms[t], room);
      OneTermOk(State(), t, ReadTerm(terms[t], room).0);
      assert terms == terms[t := terms[t]];
      if terms[t].dead.Some? {
        return Look.Dead(terms[t].dead.value);
      }
      if terms[t].buf == [] {
        return if terms[t].closed then Eof else Waiting;
      }
      var n := if room < |terms[t].buf| then room else |terms[t].buf|;
      look := Data(terms[t].buf[..n]);
      terms := terms[t := terms[t].(buf := terms[t].buf[n..], read := terms[t].read + terms[t].buf[..n])];
    }

    method CloseTerminal(t: nat)
      requires Valid() && t < |terms|
      modifies this
      ensures Valid() && State() == old(State()).(terms := old(terms)[t := CloseTerm(old(terms[t]))])
    {
      hide EnvOk, Window, Carries;
      CloseCarries(terms[t]);
      OneTermOk(State(), t, CloseTerm(terms[t]));
      assert terms[t].closed ==> terms == terms[t := CloseTerm(terms[t])];
      if terms[t].closed {
        return;
      }
      terms := terms[t := terms[t].(closed := true)];
    }
  }
}
