/**
 Ensure and Revoke of the isolated host (isolated/isolated.go). Host.mu is dropped around image
 verification and around launch, so every stretch under the lock is one atomic step and any number
 of callers interleave between steps.
 */
module Ensure {
  import opened Common

  type Id = Bytes
  type CallId = nat
  type ThreadId = nat

  datatype Network = NoNetwork | Allowlist

  datatype Spec = Spec(id: Id, image: Bytes, network: Network)

  /** A live microVM, known by the call that launched it. */
  datatype Env = Env(call: CallId, image: Bytes, network: Network)

  datatype Outcome = Granted(env: Env) | Failed(error: Error)

  /** ensureCall: result is what call.env and call.err hold once done is closed. */
  datatype Call = Call(spec: Spec, result: Option<Outcome>, closes: nat, cancelled: bool)

  /** What Host.mu guards. calls lists every reservation ever made, oldest first. */
  datatype Host = Host(slots: nat, allowEmpty: bool, grants: map<Id, Env>, pending: map<Id, CallId>, calls: seq<Call>)

  // -------------------------------------------------------- Critical sections

  datatype Look = Settled(outcome: Outcome) | Join(call: CallId) | Unoccupied

  /** Both looks of Ensure at the occupancy: a live grant, a shared launch, or neither. */
  function LookUp(h: Host, spec: Spec): Look {
    if spec.id in h.grants then
      var env := h.grants[spec.id];
      if env.image != spec.image || env.network != spec.network then Settled(Failed(Conflict))
      else Settled(Granted(env))
    else if spec.id in h.pending && h.pending[spec.id] < |h.calls| then
      var shared := h.calls[h.pending[spec.id]].spec;
      if shared.image != spec.image || shared.network != spec.network then Settled(Failed(Conflict))
      else Join(h.pending[spec.id])
    else Unoccupied
  }

  datatype Reservation = Answer(look: Look) | Reserved(call: CallId)

  /** The second critical section; mkdirOk is the outcome of os.MkdirAll made under the lock. */
  function ReserveSection(h: Host, spec: Spec, mkdirOk: bool): (Host, Reservation) {
    var look := LookUp(h, spec);
    if look != Unoccupied then (h, Answer(look))
    else if spec.network == Allowlist && h.allowEmpty then (h, Answer(Settled(Failed(Network))))
    else if |h.grants| + |h.pending| >= h.slots then (h, Answer(Settled(Failed(Capacity))))
    else Admitted(h, spec, mkdirOk)
  }

  /** Reserving the id, unless its directory could not be made. */
  function Admitted(h: Host, spec: Spec, mkdirOk: bool): (Host, Reservation) {
    if !mkdirOk then (h.(pending := h.pending - {spec.id}), Answer(Settled(Failed(IO))))
    else
      var c := |h.calls|;
      (h.(pending := h.pending[spec.id := c], calls := h.calls + [Call(spec, None, 0, false)]), Reserved(c))
  }

  /** completeEnsure: one section that settles the call, and installs the grant on success. */
  function CompleteSection(h: Host, c: CallId, outcome: Outcome): Host
    requires c < |h.calls|
  {
    var call := h.calls[c];
    h.(pending := h.pending - {call.spec.id},
       grants := match outcome case Granted(env) => h.grants[call.spec.id := env] case Failed(_) => h.grants,
       calls := h.calls[c := call.(result := Some(outcome), closes := call.closes + 1, cancelled := true)])
  }

  datatype RevokeLook = MustWait(call: CallId) | Taken(env: Option<Env>)

  /** One turn of Revoke's loop: cancel a launch in progress, or take the grant out. */
  function RevokeSection(h: Host, id: Id): (Host, RevokeLook) {
    if id in h.pending && h.pending[id] < |h.calls| then
      var c := h.pending[id];
      (h.(calls := h.calls[c := h.calls[c].(cancelled := true)]), MustWait(c))
    else
      (h.(grants := h.grants - {id}), Taken(if id in h.grants then Some(h.grants[id]) else None))
  }

  lemma InRange(h: Host)
    requires HostOk(h)
    ensures forall id :: id in h.pending ==> h.pending[id] < |h.calls|
  {
  }

  lemma OnceClosed(h: Host, c: CallId)
    requires HostOk(h) && c < |h.calls| && h.calls[c].result.None?
    ensures h.calls[c].closes == 0
  {
    assert CallOk(h, c);
  }

  /** The host object: each method is one stretch of code under Host.mu, and keeps the occupancy sound. */
  class IsolatedHost {
    const slots: nat
    const allowEmpty: bool
    var grants: map<Id, Env>
    var pending: map<Id, CallId>
    var calls: seq<Call>

    function State(): Host
      reads this
    {
      Host(slots, allowEmpty, grants, pending, calls)
    }

    ghost predicate Valid()
      reads this
    {
      HostOk(State())
    }

    constructor (slots: nat, allowEmpty: bool)
      ensures Valid() && State() == Host(slots, allowEmpty, map[], map[], [])
    {
      this.slots, this.allowEmpty := slots, allowEmpty;
      grants, pending, calls := map[], map[], [];
    }

    method Look(spec: Spec) returns (look: Look)
      requires Valid()
      ensures look == LookUp(State(), spec)
    {
      hide HostOk;
      InRange(State());
      if spec.id in grants {
        var env := grants[spec.id];
        if env.image != spec.image || env.network != spec.network {
          return Settled(Failed(Conflict));
        }
        return Settled(Granted(env));
      }
      if spec.id in pending {
        var shared := calls[pending[spec.id]].spec;
        if shared.image != spec.image || shared.network != spec.network {
          return Settled(Failed(Conflict));
        }
        return Join(pending[spec.id]);
      }
      return Unoccupied;
    }

    method Reserve(spec: Spec, mkdirOk: bool) returns (r: Reservation)
      requires Valid()
      modifies this
      ensures Valid() && (State(), r) == ReserveSection(old(State()), spec, mkdirOk)
    {
      hide HostOk, Later, LookUp;
      ghost var h := State();
      ReserveKeeps(h, spec, mkdirOk);
      var look := Look(spec);
      if look != Unoccupied {
        return Answer(look);
      }
      if spec.network == Allowlist && allowEmpty {
        return Answer(Settled(Failed(Network)));
      }
      if |grants| + |pending| >= slots {
        return Answer(Settled(Failed(Capacity)));
      }
      r := Admit(spec, mkdirOk);
    }

    /** The end of the section, once there is room. */
    method Admit(spec: Spec, mkdirOk: bool) returns (r: Reservation)
      requires HostOk(Admitted(State(), spec, mkdirOk).0)
      modifies this
      ensures Valid() && (State(), r) == Admitted(old(State()), spec, mkdirOk)
    {
      hide HostOk;
      var call := |calls|;
      pending := pending[spec.id := call];
      if !mkdirOk {
        pending := pending - {spec.id};
        assert pending == old(pending) - {spec.id};
        return Answer(Settled(Failed(IO)));
      }
      calls := calls + [Call(spec, None, 0, false)];
      return Reserved(call);
    }

    /** Closing done a second time would panic, so the call must still be open; its machine is its own. */
    method Complete(c: CallId, outcome: Outcome)
      requires Valid() && c < |calls| && calls[c].result.None?
      requires outcome.Granted? ==> outcome.env == Env(c, calls[c].spec.image, calls[c].spec.network)
      modifies this
      ensures Valid() && State() == CompleteSection(old(State()), c, outcome)
      ensures calls[c].closes == 1
    {
      hide HostOk, Later, CallOk;
      ghost var h := State();
      OnceClosed(h, c);
      CompleteKeeps(h, c, outcome);
      var call := calls[c];
      pending := pending - {call.spec.id};
      if outcome.Granted? {
        grants := grants[call.spec.id := outcome.env];
      }
      calls := calls[c := Call(call.spec, Some(outcome), call.closes + 1, true)];
      assert State() == CompleteSection(h, c, outcome);
    }

    method RevokeTurn(id: Id) returns (r: RevokeLook)
      requires Valid()
      modifies this
      ensures Valid() && (State(), r) == RevokeSection(old(State()), id)
    {
      hide HostOk, Later;
      ghost var h := State();
      InRange(h);
      RevokeKeeps(h, id);
      if id in pending {
        var c := pending[id];
        calls := calls[c := calls[c].(cancelled := true)];
        assert State() == RevokeSection(h, id).0;
        return MustWait(c);
      }
      r := Taken(if id in grants then Some(grants[id]) else None);
      grants := grants - {id};
      assert State() == RevokeSection(h, id).0;
    }
  }

  // ------------------------------------------------------------ The whole system

  datatype Pc =
    | Looking(spec: Spec)
    | Verifying(spec: Spec)
    | Launching(call: CallId)
    | Waiting(spec: Spec, call: CallId)
    | Returned(spec: Spec, outcome: Outcome, shared: Option<CallId>)
    | Revoking(id: Id)
    | AwaitingLaunch(id: Id, call: CallId)
    | RevokeDone

  /** revoked remembers, for each id, how many calls had been reserved when a Revoke last took hold. */
  datatype System = System(host: Host, threads: map<ThreadId, Pc>, revoked: map<Id, nat>)

  function Answered(s: System, t: ThreadId, spec: Spec, look: Look): System
    requires look != Unoccupied
  {
    match look
    case Settled(o) => s.(threads := s.threads[t := Returned(spec, o, None)])
    case Join(c) => s.(threads := s.threads[t := Waiting(spec, c)])
  }

  /** Everything a thread, its context or the launch can do next. */
  datatype Step =
    | CallEnsure(t: ThreadId, spec: Spec)
    | FirstLook(t: ThreadId, known: bool)
    | Unverified(t: ThreadId)
    | Reserve(t: ThreadId, mkdirOk: bool)
    | Complete(t: ThreadId, launched: bool, error: Error)
    | Wake(t: ThreadId)
    | GiveUp(t: ThreadId)
    | CallRevoke(t: ThreadId, id: Id)
    | RevokeTurn(t: ThreadId)
    | RevokeWake(t: ThreadId)
    | RevokeGiveUp(t: ThreadId)

  ghost predicate Enabled(s: System, step: Step) {
    match step
    case CallEnsure(t, _) => t !in s.threads
    case FirstLook(t, _) => t in s.threads && s.threads[t].Looking?
    case Unverified(t) => t in s.threads && s.threads[t].Verifying?
    case Reserve(t, _) => t in s.threads && s.threads[t].Verifying?
    case Complete(t, _, _) => t in s.threads && s.threads[t].Launching? && s.threads[t].call < |s.host.calls|
    case Wake(t) =>
      && t in s.threads && s.threads[t].Waiting? && s.threads[t].call < |s.host.calls|
      && s.host.calls[s.threads[t].call].result.Some?
    case GiveUp(t) => t in s.threads && s.threads[t].Waiting?
    case CallRevoke(t, _) => t !in s.threads
    case RevokeTurn(t) => t in s.threads && s.threads[t].Revoking?
    case RevokeWake(t) =>
      && t in s.threads && s.threads[t].AwaitingLaunch? && s.threads[t].call < |s.host.calls|
      && s.host.calls[s.threads[t].call].result.Some?
    case RevokeGiveUp(t) => t in s.threads && s.threads[t].AwaitingLaunch?
  }

  function Next(s: System, step: Step): System
    requires Enabled(s, step)
  {
    match step
    case CallEnsure(t, spec) => s.(threads := s.threads[t := Looking(spec)])
    case FirstLook(t, known) =>
      var spec := s.threads[t].spec;
      var look := LookUp(s.host, spec);
      if look != Unoccupied then Answered(s, t, spec, look)
      else if known then s.(threads := s.threads[t := Verifying(spec)])
      else s.(threads := s.threads[t := Returned(spec, Failed(UnknownImage), None)])
    case Unverified(t) => s.(threads := s.threads[t := Returned(s.threads[t].spec, Failed(UnknownImage), None)])
    case Reserve(t, mkdirOk) =>
      var spec := s.threads[t].spec;
      var (h, r) := ReserveSection(s.host, spec, mkdirOk);
      (match r
       case Answer(look) => if look == Unoccupied then s else Answered(s.(host := h), t, spec, look)
       case Reserved(c) => s.(host := h, threads := s.threads[t := Launching(c)]))
    case Complete(t, launched, error) =>
      var c := s.threads[t].call;
      var spec := s.host.calls[c].spec;
      var outcome := if launched then Granted(Env(c, spec.image, spec.network)) else Failed(error);
      s.(host := CompleteSection(s.host, c, outcome), threads := s.threads[t := Returned(spec, outcome, Some(c))])
    case Wake(t) =>
      var Waiting(spec, c) := s.threads[t];
      s.(threads := s.threads[t := Returned(spec, s.host.calls[c].result.value, Some(c))])
    case GiveUp(t) => s.(threads := s.threads[t := Returned(s.threads[t].spec, Failed(Cancelled), None)])
    case CallRevoke(t, id) => s.(threads := s.threads[t := Revoking(id)])
    case RevokeTurn(t) =>
      var id := s.threads[t].id;
      var (h, r) := RevokeSection(s.host, id);
      (match r
       case MustWait(c) => s.(host := h, threads := s.threads[t := AwaitingLaunch(id, c)])
       case Taken(_) =>
         s.(host := h, threads := s.threads[t := RevokeDone], revoked := s.revoked[id := |s.host.calls|]))
    case RevokeWake(t) => s.(threads := s.threads[t := Revoking(s.threads[t].id)])
    case RevokeGiveUp(t) => s.(threads := s.threads[t := RevokeDone])
  }

  function Initial(slots: nat, allowEmpty: bool): System {
    System(Host(slots, allowEmpty, map[], map[], []), map[], map[])
  }

  // ------------------------------------------------------------------ Invariant

  /** The two tables are disjoint and together within the slots. */
  ghost predicate SlotsOk(h: Host) {
    h.grants.Keys !! h.pending.Keys && |h.grants| + |h.pending| <= h.slots
  }

  /** What is pending is an open call for that id. */
  ghost predicate PendingOk(h: Host) {
    forall id :: id in h.pending ==>
      h.pending[id] < |h.calls| && h.calls[h.pending[id]].spec.id == id && h.calls[h.pending[id]].result.None?
  }

  /** An open call is the pending one of its id. */
  ghost predicate OpenOk(h: Host) {
    forall c :: 0 <= c < |h.calls| && h.calls[c].result.None? ==>
      h.calls[c].spec.id in h.pending && h.pending[h.calls[c].spec.id] == c
  }

  /** done is closed once, when the result is set; a granted result is the call's own machine. */
  ghost predicate CallOk(h: Host, c: CallId)
    requires c < |h.calls|
  {
    var call := h.calls[c];
    && call.closes == (if call.result.Some? then 1 else 0)
    && (call.result.Some? && call.result.value.Granted? ==>
          call.result.value.env == Env(c, call.spec.image, call.spec.network))
  }

  ghost predicate CallsOk(h: Host) {
    forall c :: 0 <= c < |h.calls| ==> CallOk(h, c)
  }

  ghost predicate GrantsOk(h: Host) {
    forall id :: id in h.grants ==> GrantOk(h, id)
  }

  ghost predicate HostOk(h: Host) {
    SlotsOk(h) && PendingOk(h) && OpenOk(h) && CallsOk(h) && GrantsOk(h)
  }

  /** A grant is the result of a finished call for that id. */
  ghost predicate GrantOk(h: Host, id: Id)
    requires id in h.grants
  {
    var env := h.grants[id];
    env.call < |h.calls| && h.calls[env.call].spec.id == id && h.calls[env.call].result == Some(Granted(env))
  }

  ghost predicate ThreadOk(s: System, t: ThreadId)
    requires t in s.threads
  {
    match s.threads[t]
    case Launching(c) => c < |s.host.calls| && s.host.calls[c].result.None?
    case Waiting(spec, c) =>
      && c < |s.host.calls| && s.host.calls[c].spec == spec
    case Returned(spec, outcome, shared) =>
      && (shared.Some? ==>
            && shared.value < |s.host.calls|
            && s.host.calls[shared.value].spec == spec
            && s.host.calls[shared.value].result == Some(outcome))
      && (outcome.Granted? ==>
            && outcome.env.call < |s.host.calls|
            && s.host.calls[outcome.env.call].spec == spec
            && s.host.calls[outcome.env.call].result == Some(outcome))
    case AwaitingLaunch(_, c) => c < |s.host.calls|
    case _ => true
  }

  /** Each open call has exactly one launching thread: the one that reserved it. */
  ghost predicate Owned(s: System) {
    && (forall t, u :: t in s.threads && u in s.threads && s.threads[t].Launching? && s.threads[t] == s.threads[u]
          ==> t == u)
    && (forall c :: 0 <= c < |s.host.calls| && s.host.calls[c].result.None? ==>
          exists t :: t in s.threads && s.threads[t] == Launching(c))
  }

  /** Nothing reserved before the last Revoke of an id is open or installed any more. */
  ghost predicate RevokedOk(s: System) {
    forall id :: id in s.revoked ==>
      && s.revoked[id] <= |s.host.calls|
      && (forall c :: 0 <= c < s.revoked[id] && s.host.calls[c].spec.id == id ==> s.host.calls[c].result.Some?)
      && (id in s.host.grants ==> s.host.grants[id].call >= s.revoked[id])
      && (id in s.host.pending ==> s.host.pending[id] >= s.revoked[id])
  }

  ghost predicate Inv(s: System) {
    && HostOk(s.host)
    && (forall t :: t in s.threads ==> ThreadOk(s, t))
    && Owned(s)
    && RevokedOk(s)
  }

  // --------------------------------------------------------------- Preservation

  /** Calls only grow, keep their spec, and keep a result once they have one. */
  ghost predicate Later(h: Host, h': Host) {
    && |h.calls| <= |h'.calls|
    && forall c :: 0 <= c < |h.calls| ==>
         && h'.calls[c].spec == h.calls[c].spec
         && (h.calls[c].result.Some? ==> h'.calls[c].result == h.calls[c].result)
  }

  function Opened(h: Host, spec: Spec): Host {
    h.(pending := h.pending[spec.id := |h.calls|], calls := h.calls + [Call(spec, None, 0, false)])
  }

  lemma OpenedTables(h: Host, spec: Spec)
    requires SlotsOk(h) && PendingOk(h) && OpenOk(h)
    requires spec.id !in h.grants && spec.id !in h.pending && |h.grants| + |h.pending| < h.slots
    ensures SlotsOk(Opened(h, spec)) && PendingOk(Opened(h, spec)) && OpenOk(Opened(h, spec))
  {
    var h' := Opened(h, spec);
    assert forall c :: 0 <= c < |h.calls| ==> h'.calls[c] == h.calls[c];
  }

  lemma OpenedCalls(h: Host, spec: Spec)
    requires CallsOk(h) && GrantsOk(h)
    ensures CallsOk(Opened(h, spec)) && GrantsOk(Opened(h, spec)) && Later(h, Opened(h, spec))
  {
    var h' := Opened(h, spec);
    forall c | 0 <= c < |h.calls|
      ensures h'.calls[c] == h.calls[c] && CallOk(h', c)
    {
      assert CallOk(h, c);
    }
    forall id | id in h'.grants
      ensures GrantOk(h', id)
    {
      assert GrantOk(h, id);
    }
  }

  lemma LookFree(h: Host, spec: Spec)
    requires PendingOk(h)
    ensures LookUp(h, spec) == Unoccupied <==> spec.id !in h.grants && spec.id !in h.pending
  {
  }

  lemma ReserveEffect(h: Host, spec: Spec, mkdirOk: bool)
    requires PendingOk(h)
    ensures ReserveSection(h, spec, mkdirOk).1.Reserved? ==>
              && ReserveSection(h, spec, mkdirOk) == (Opened(h, spec), Reserved(|h.calls|))
              && spec.id !in h.pending && spec.id !in h.grants && |h.grants| + |h.pending| < h.slots
    ensures ReserveSection(h, spec, mkdirOk).1.Answer? ==>
              && ReserveSection(h, spec, mkdirOk).0 == h
              && ReserveSection(h, spec, mkdirOk).1.look != Unoccupied
              && (|| ReserveSection(h, spec, mkdirOk).1.look == LookUp(h, spec)
                  || (exists e :: ReserveSection(h, spec, mkdirOk).1.look == Settled(Failed(e))))
  {
    hide LookUp, PendingOk;
    LookFree(h, spec);
    assert spec.id !in h.pending ==> h.pending - {spec.id} == h.pending;
  }

  lemma ReserveKeeps(h: Host, spec: Spec, mkdirOk: bool)
    requires HostOk(h)
    ensures HostOk(ReserveSection(h, spec, mkdirOk).0) && Later(h, ReserveSection(h, spec, mkdirOk).0)
  {
    hide SlotsOk, PendingOk, OpenOk, CallsOk, GrantsOk, ReserveSection;
    ReserveEffect(h, spec, mkdirOk);
    if ReserveSection(h, spec, mkdirOk).1.Reserved? {
      OpenedTables(h, spec);
      OpenedCalls(h, spec);
    }
  }

  lemma CompleteEffect(h: Host, c: CallId, outcome: Outcome)
    requires c < |h.calls|
    ensures var h' := CompleteSection(h, c, outcome);
            && |h'.calls| == |h.calls|
            && h'.calls[c] == h.calls[c].(result := Some(outcome), closes := h.calls[c].closes + 1, cancelled := true)
            && forall d :: 0 <= d < |h.calls| && d != c ==> h'.calls[d] == h.calls[d]
  {
  }

  lemma CompleteTables(h: Host, c: CallId, outcome: Outcome)
    requires SlotsOk(h) && PendingOk(h) && OpenOk(h) && c < |h.calls| && h.calls[c].result.None?
    ensures var h' := CompleteSection(h, c, outcome); SlotsOk(h') && PendingOk(h') && OpenOk(h')
  {
    var h', id := CompleteSection(h, c, outcome), h.calls[c].spec.id;
    assert id in h.pending && id !in h.grants;
    assert h'.pending.Keys == h.pending.Keys - {id};
    assert |h'.pending| == |h'.pending.Keys| == |h.pending.Keys| - 1;
    CompleteEffect(h, c, outcome);
  }

  lemma CompleteCalls(h: Host, c: CallId, outcome: Outcome)
    requires CallsOk(h) && GrantsOk(h) && c < |h.calls| && h.calls[c].result.None?
    requires outcome.Granted? ==> outcome.env == Env(c, h.calls[c].spec.image, h.calls[c].spec.network)
    ensures var h' := CompleteSection(h, c, outcome); CallsOk(h') && GrantsOk(h') && Later(h, h')
  {
    var h' := CompleteSection(h, c, outcome);
    CompleteEffect(h, c, outcome);
    forall d | 0 <= d < |h'.calls|
      ensures CallOk(h', d)
    {
      assert CallOk(h, d);
    }
    forall g | g in h'.grants
      ensures GrantOk(h', g)
    {
      if g != h.calls[c].spec.id || outcome.Failed? {
        assert GrantOk(h, g);
      }
    }
  }

  lemma CompleteKeeps(h: Host, c: CallId, outcome: Outcome)
    requires HostOk(h) && c < |h.calls| && h.calls[c].result.None?
    requires outcome.Granted? ==> outcome.env == Env(c, h.calls[c].spec.image, h.calls[c].spec.network)
    ensures HostOk(CompleteSection(h, c, outcome))
    ensures Later(h, CompleteSection(h, c, outcome))
  {
    hide SlotsOk, PendingOk, OpenOk, CallsOk, GrantsOk, CompleteSection;
    CompleteTables(h, c, outcome);
    CompleteCalls(h, c, outcome);
  }

  function Cancel(h: Host, c: CallId): Host
    requires c < |h.calls|
  {
    h.(calls := h.calls[c := h.calls[c].(cancelled := true)])
  }

  lemma RevokeEffect(h: Host, id: Id)
    requires HostOk(h)
    ensures id !in h.pending ==>
              RevokeSection(h, id) ==
              (h.(grants := h.grants - {id}), Taken(if id in h.grants then Some(h.grants[id]) else None))
    ensures id in h.pending ==>
              h.pending[id] < |h.calls| && RevokeSection(h, id) == (Cancel(h, h.pending[id]), MustWait(h.pending[id]))
  {
    hide CallsOk, GrantsOk, OpenOk, SlotsOk;
  }

  lemma CancelTables(h: Host, c: CallId)
    requires SlotsOk(h) && PendingOk(h) && OpenOk(h) && c < |h.calls|
    ensures SlotsOk(Cancel(h, c)) && PendingOk(Cancel(h, c)) && OpenOk(Cancel(h, c)) && Later(h, Cancel(h, c))
  {
    var h' := Cancel(h, c);
    assert forall d :: 0 <= d < |h.calls| ==>
      h'.calls[d].spec == h.calls[d].spec && h'.calls[d].result == h.calls[d].result;
  }

  lemma CancelKeeps(h: Host, c: CallId)
    requires HostOk(h) && c < |h.calls|
    ensures HostOk(Cancel(h, c)) && Later(h, Cancel(h, c))
  {
    hide SlotsOk, PendingOk, OpenOk;
    CancelTables(h, c);
    var h' := Cancel(h, c);
    forall d | 0 <= d < |h'.calls|
      ensures CallOk(h', d)
    {
      assert CallOk(h, d);
    }
    forall g | g in h'.grants
      ensures GrantOk(h', g)
    {
      assert GrantOk(h, g);
    }
  }

  lemma TakeKeeps(h: Host, id: Id)
    requires HostOk(h)
    ensures HostOk(h.(grants := h.grants - {id})) && Later(h, h.(grants := h.grants - {id}))
  {
    var h' := h.(grants := h.grants - {id});
    assert h'.grants.Keys == h.grants.Keys - {id};
    assert |h'.grants| == |h'.grants.Keys| <= |h.grants.Keys|;
    forall d | 0 <= d < |h'.calls|
      ensures CallOk(h', d)
    {
      assert CallOk(h, d);
    }
    forall g | g in h'.grants
      ensures GrantOk(h', g)
    {
      assert GrantOk(h, g);
    }
  }

  lemma RevokeKeeps(h: Host, id: Id)
    requires HostOk(h)
    ensures HostOk(RevokeSection(h, id).0) && Later(h, RevokeSection(h, id).0)
  {
    hide SlotsOk, PendingOk, OpenOk, CallsOk, GrantsOk, RevokeSection, HostOk;
    RevokeEffect(h, id);
    if id in h.pending {
      CancelKeeps(h, h.pending[id]);
    } else {
      TakeKeeps(h, id);
    }
  }

  /** What a look settles on or joins belongs to a call for the very same spec. */
  lemma LookFacts(h: Host, spec: Spec)
    requires HostOk(h)
    ensures LookUp(h, spec).Join? ==>
              LookUp(h, spec).call < |h.calls| && h.calls[LookUp(h, spec).call].spec == spec
    ensures LookUp(h, spec).Settled? && LookUp(h, spec).outcome.Granted? ==>
              var o := LookUp(h, spec).outcome;
              o.env.call < |h.calls| && h.calls[o.env.call].spec == spec && h.calls[o.env.call].result == Some(o)
  {
    hide OpenOk, SlotsOk;
    if spec.id in h.grants {
      assert GrantOk(h, spec.id);
      assert CallOk(h, h.grants[spec.id].call);
    }
  }

  /** A thread's promise survives any step that does not complete its own launch. */
  lemma OthersKeep(s: System, h': Host, t: ThreadId)
    requires t in s.threads && ThreadOk(s, t) && Later(s.host, h')
    requires s.threads[t].Launching? ==> h'.calls[s.threads[t].call].result.None?
    ensures ThreadOk(s.(host := h'), t)
  {
  }

  lemma ThreadOkDepends(s: System, s': System, t: ThreadId)
    requires t in s.threads && t in s'.threads && s.threads[t] == s'.threads[t] && s.host == s'.host
    requires ThreadOk(s, t)
    ensures ThreadOk(s', t)
  {
  }

  /** A step of one thread that leaves the host alone and neither opens nor closes a launch. */
  lemma QuietStep(s: System, t: ThreadId, pc: Pc)
    requires Inv(s)
    requires t in s.threads ==> !s.threads[t].Launching?
    requires !pc.Launching?
    requires ThreadOk(s.(threads := s.threads[t := pc]), t)
    ensures Inv(s.(threads := s.threads[t := pc]))
  {
    hide HostOk, RevokedOk;
    var s' := s.(threads := s.threads[t := pc]);
    forall u | u in s'.threads
      ensures ThreadOk(s', u)
    {
      if u != t {
        ThreadOkDepends(s, s', u);
      }
    }
    OwnedQuiet(s, t, pc, s.host);
    assert RevokedOk(s') by { RevokedDepends(s, s'); }
  }

  lemma RevokedDepends(s: System, s': System)
    requires RevokedOk(s) && s.host == s'.host && s.revoked == s'.revoked
    ensures RevokedOk(s')
  {
  }

  lemma OwnedQuiet(s: System, t: ThreadId, pc: Pc, h': Host)
    requires Owned(s) && !pc.Launching? && (t in s.threads ==> !s.threads[t].Launching?)
    requires |h'.calls| == |s.host.calls|
    requires forall c :: 0 <= c < |h'.calls| ==> h'.calls[c].result == s.host.calls[c].result
    ensures Owned(s.(threads := s.threads[t := pc], host := h'))
  {
    var s' := s.(threads := s.threads[t := pc], host := h');
    forall c | 0 <= c < |h'.calls| && h'.calls[c].result.None?
      ensures exists u :: u in s'.threads && s'.threads[u] == Launching(c)
    {
      var u :| u in s.threads && s.threads[u] == Launching(c);
      assert s'.threads[u] == Launching(c);
    }
  }

  lemma OpenInv(s: System)
    requires Inv(s)
    ensures HostOk(s.host) && Owned(s) && RevokedOk(s)
  {
  }

  lemma ReserveStepKeeps(s: System, t: ThreadId, mkdirOk: bool)
    requires Inv(s) && Enabled(s, Reserve(t, mkdirOk))
    ensures Inv(Next(s, Reserve(t, mkdirOk)))
  {
    hide Inv, ReserveSection, LookUp, SlotsOk, OpenOk, CallsOk, GrantsOk, ThreadOk;
    OpenInv(s);
    var spec := s.threads[t].spec;
    ReserveEffect(s.host, spec, mkdirOk);
    var (h, r) := ReserveSection(s.host, spec, mkdirOk);
    match r {
      case Answer(look) => AnswerKeeps(s, t, spec, look);
      case Reserved(c) => OpenedKeeps(s, t, spec);
    }
  }

  lemma AnswerKeeps(s: System, t: ThreadId, spec: Spec, look: Look)
    requires Inv(s) && t in s.threads && !s.threads[t].Launching? && look != Unoccupied
    requires look == LookUp(s.host, spec) || exists e :: look == Settled(Failed(e))
    ensures Inv(Answered(s, t, spec, look))
  {
    hide Inv, HostOk;
    OpenInv(s);
    LookFacts(s.host, spec);
    match look {
      case Settled(o) => QuietStep(s, t, Returned(spec, o, None));
      case Join(c) => QuietStep(s, t, Waiting(spec, c));
    }
  }

  lemma OpenedKeeps(s: System, t: ThreadId, spec: Spec)
    requires Inv(s) && t in s.threads && s.threads[t].Verifying?
    requires spec.id !in s.host.pending && spec.id !in s.host.grants
    requires |s.host.grants| + |s.host.pending| < s.host.slots
    ensures Inv(s.(host := Opened(s.host, spec), threads := s.threads[t := Launching(|s.host.calls|)]))
  {
    hide SlotsOk, PendingOk, OpenOk, CallsOk, GrantsOk;
    var h := Opened(s.host, spec);
    var s' := s.(host := h, threads := s.threads[t := Launching(|s.host.calls|)]);
    OpenedTables(s.host, spec);
    OpenedCalls(s.host, spec);
    forall u | u in s'.threads
      ensures ThreadOk(s', u)
    {
      if u != t {
        assert ThreadOk(s, u);
        OthersKeep(s, h, u);
        ThreadOkDepends(s.(host := h), s', u);
      }
    }
    ReserveOwned(s, t, spec, h);
    OpenedRevoked(s, spec);
    RevokedDepends(s.(host := h), s');
  }

  lemma OpenedRevoked(s: System, spec: Spec)
    requires RevokedOk(s)
    ensures RevokedOk(s.(host := Opened(s.host, spec)))
  {
    var h := Opened(s.host, spec);
    assert forall c :: 0 <= c < |s.host.calls| ==> h.calls[c] == s.host.calls[c];
  }

  lemma ReserveOwned(s: System, t: ThreadId, spec: Spec, h: Host)
    requires Owned(s) && t in s.threads && s.threads[t].Verifying?
    requires forall u :: u in s.threads ==> ThreadOk(s, u)
    requires h.calls == s.host.calls + [Call(spec, None, 0, false)]
    ensures Owned(s.(host := h, threads := s.threads[t := Launching(|s.host.calls|)]))
  {
    var n := |s.host.calls|;
    var s' := s.(host := h, threads := s.threads[t := Launching(n)]);
    forall u | u in s.threads
      ensures s.threads[u] != Launching(n)
    {
      assert ThreadOk(s, u);
    }
    forall c | 0 <= c < |h.calls| && h.calls[c].result.None?
      ensures exists u :: u in s'.threads && s'.threads[u] == Launching(c)
    {
      if c == n {
        assert s'.threads[t] == Launching(c);
      } else {
        assert s.host.calls[c] == h.calls[c];
        var u :| u in s.threads && s.threads[u] == Launching(c);
        assert s'.threads[u] == Launching(c);
      }
    }
  }

  lemma CompleteStepKeeps(s: System, t: ThreadId, launched: bool, error: Error)
    requires Inv(s) && Enabled(s, Complete(t, launched, error))
    ensures Inv(Next(s, Complete(t, launched, error)))
  {
    hide SlotsOk, PendingOk, OpenOk, CallsOk, GrantsOk, RevokedOk, CompleteSection, Owned;
    assert ThreadOk(s, t);
    var c := s.threads[t].call;
    var spec := s.host.calls[c].spec;
    var outcome := if launched then Granted(Env(c, spec.image, spec.network)) else Failed(error);
    var h := CompleteSection(s.host, c, outcome);
    var s' := Next(s, Complete(t, launched, error));
    CompleteKeeps(s.host, c, outcome);
    CompleteEffect(s.host, c, outcome);
    forall u | u in s'.threads
      ensures ThreadOk(s', u)
    {
      if u != t {
        assert ThreadOk(s, u);
        OnlyLauncher(s, t, u);
        OthersKeep(s, h, u);
        ThreadOkDepends(s.(host := h), s', u);
      }
    }
    CompleteOwned(s, t, c, h, s'.threads[t]);
    CompleteRevoked(s, c, outcome);
    RevokedDepends(s.(host := h), s');
    assert s' == s.(host := h, threads := s.threads[t := s'.threads[t]]);
  }

  lemma OnlyLauncher(s: System, t: ThreadId, u: ThreadId)
    requires Owned(s) && t in s.threads && u in s.threads && t != u && s.threads[t].Launching?
    ensures s.threads[u] != s.threads[t]
  {
  }

  lemma CompleteOwned(s: System, t: ThreadId, c: CallId, h: Host, pc: Pc)
    requires Owned(s) && t in s.threads && s.threads[t] == Launching(c) && c < |s.host.calls| && !pc.Launching?
    requires |h.calls| == |s.host.calls| && h.calls[c].result.Some?
    requires forall d :: 0 <= d < |h.calls| && d != c ==> h.calls[d] == s.host.calls[d]
    ensures Owned(s.(host := h, threads := s.threads[t := pc]))
  {
    var s' := s.(host := h, threads := s.threads[t := pc]);
    forall d | 0 <= d < |h.calls| && h.calls[d].result.None?
      ensures exists u :: u in s'.threads && s'.threads[u] == Launching(d)
    {
      var u :| u in s.threads && s.threads[u] == Launching(d);
      assert u != t;
      assert s'.threads[u] == Launching(d);
    }
  }

  lemma CompleteRevoked(s: System, c: CallId, outcome: Outcome)
    requires RevokedOk(s) && OpenOk(s.host) && c < |s.host.calls| && s.host.calls[c].result.None?
    requires outcome.Granted? ==> outcome.env.call == c
    ensures RevokedOk(s.(host := CompleteSection(s.host, c, outcome)))
  {
    hide CompleteSection, OpenOk;
    var id := s.host.calls[c].spec.id;
    assert id in s.host.pending && s.host.pending[id] == c by { OpenIsPending(s.host, c); }
    var h := CompleteSection(s.host, c, outcome);
    CompleteEffect(s.host, c, outcome);
    CompletePending(s.host, c, outcome);
    forall r | r in s.revoked
      ensures s.revoked[r] <= |h.calls|
      ensures forall d :: 0 <= d < s.revoked[r] && h.calls[d].spec.id == r ==> h.calls[d].result.Some?
      ensures r in h.grants ==> h.grants[r].call >= s.revoked[r]
      ensures r in h.pending ==> h.pending[r] >= s.revoked[r]
    {
    }
  }

  lemma OpenIsPending(h: Host, c: CallId)
    requires OpenOk(h) && c < |h.calls| && h.calls[c].result.None?
    ensures h.calls[c].spec.id in h.pending && h.pending[h.calls[c].spec.id] == c
  {
  }

  lemma CompletePending(h: Host, c: CallId, outcome: Outcome)
    requires c < |h.calls|
    ensures CompleteSection(h, c, outcome).pending == h.pending - {h.calls[c].spec.id}
    ensures CompleteSection(h, c, outcome).grants ==
            if outcome.Granted? then h.grants[h.calls[c].spec.id := outcome.env] else h.grants
  {
  }

  lemma RevokeStepKeeps(s: System, t: ThreadId)
    requires Inv(s) && Enabled(s, RevokeTurn(t))
    ensures Inv(Next(s, RevokeTurn(t)))
  {
    hide Inv, SlotsOk, PendingOk, OpenOk, CallsOk, GrantsOk, RevokeSection, ThreadOk, Owned, RevokedOk, Cancel;
    OpenInv(s);
    var id := s.threads[t].id;
    RevokeEffect(s.host, id);
    if id in s.host.pending {
      CancelStepKeeps(s, t, id);
    } else {
      TakeStepKeeps(s, t, id);
    }
  }

  lemma CancelStepKeeps(s: System, t: ThreadId, id: Id)
    requires Inv(s) && t in s.threads && !s.threads[t].Launching?
    requires id in s.host.pending && s.host.pending[id] < |s.host.calls|
    ensures Inv(s.(host := Cancel(s.host, s.host.pending[id]),
                   threads := s.threads[t := AwaitingLaunch(id, s.host.pending[id])]))
  {
    hide HostOk;
    var c := s.host.pending[id];
    var h := Cancel(s.host, c);
    var s' := s.(host := h, threads := s.threads[t := AwaitingLaunch(id, c)]);
    CancelKeeps(s.host, c);
    forall u | u in s'.threads
      ensures ThreadOk(s', u)
    {
      if u != t {
        assert ThreadOk(s, u);
        OthersKeep(s, h, u);
        ThreadOkDepends(s.(host := h), s', u);
      }
    }
    OwnedQuiet(s, t, AwaitingLaunch(id, c), h);
    OwnedDepends(s.(threads := s.threads[t := AwaitingLaunch(id, c)], host := h), s');
  }

  lemma TakeStepKeeps(s: System, t: ThreadId, id: Id)
    requires Inv(s) && t in s.threads && !s.threads[t].Launching? && id !in s.host.pending
    ensures Inv(s.(host := s.host.(grants := s.host.grants - {id}), threads := s.threads[t := RevokeDone],
                   revoked := s.revoked[id := |s.host.calls|]))
  {
    hide SlotsOk, PendingOk, OpenOk, CallsOk, GrantsOk, RevokedOk;
    var h := s.host.(grants := s.host.grants - {id});
    var s' := s.(host := h, threads := s.threads[t := RevokeDone], revoked := s.revoked[id := |h.calls|]);
    TakeKeeps(s.host, id);
    forall u | u in s'.threads
      ensures ThreadOk(s', u)
    {
      if u != t {
        assert ThreadOk(s, u);
        OthersKeep(s, h, u);
        ThreadOkDepends(s.(host := h), s', u);
      }
    }
    OwnedQuiet(s, t, RevokeDone, h);
    OwnedDepends(s.(threads := s.threads[t := RevokeDone], host := h), s');
    RevokeTakes(s, id);
    RevokedDepends(s.(host := h, revoked := s.revoked[id := |h.calls|]), s');
  }

  lemma OwnedDepends(s: System, s': System)
    requires Owned(s) && s.host == s'.host && s.threads == s'.threads
    ensures Owned(s')
  {
  }

  /** With nothing pending for id, every call reserved for it so far has finished. */
  lemma RevokeTakes(s: System, id: Id)
    requires RevokedOk(s) && OpenOk(s.host) && id !in s.host.pending
    ensures RevokedOk(s.(host := s.host.(grants := s.host.grants - {id}), revoked := s.revoked[id := |s.host.calls|]))
  {
  }

  /** Every step of every thread keeps the invariant. */
  lemma NextKeeps(s: System, step: Step)
    requires Inv(s) && Enabled(s, step)
    ensures Inv(Next(s, step))
  {
    hide Inv, HostOk, LookUp, ReserveSection, CompleteSection, RevokeSection;
    match step {
      case CallEnsure(t, spec) => QuietStep(s, t, Looking(spec));
      case FirstLook(t, known) =>
        var spec := s.threads[t].spec;
        if LookUp(s.host, spec) != Unoccupied {
          AnswerKeeps(s, t, spec, LookUp(s.host, spec));
        } else if known {
          QuietStep(s, t, Verifying(spec));
        } else {
          QuietStep(s, t, Returned(spec, Failed(UnknownImage), None));
        }
      case Unverified(t) => QuietStep(s, t, Returned(s.threads[t].spec, Failed(UnknownImage), None));
      case Reserve(t, mkdirOk) => ReserveStepKeeps(s, t, mkdirOk);
      case Complete(t, launched, error) => CompleteStepKeeps(s, t, launched, error);
      case Wake(t) => WakeKeeps(s, t);
      case GiveUp(t) => QuietStep(s, t, Returned(s.threads[t].spec, Failed(Cancelled), None));
      case CallRevoke(t, id) => QuietStep(s, t, Revoking(id));
      case RevokeTurn(t) => RevokeStepKeeps(s, t);
      case RevokeWake(t) => QuietStep(s, t, Revoking(s.threads[t].id));
      case RevokeGiveUp(t) => QuietStep(s, t, RevokeDone);
    }
  }

  lemma WakeKeeps(s: System, t: ThreadId)
    requires Inv(s) && Enabled(s, Wake(t))
    ensures Inv(Next(s, Wake(t)))
  {
    var Waiting(spec, c) := s.threads[t];
    assert ThreadOk(s, t);
    var o := s.host.calls[c].result.value;
    assert CallOk(s.host, c);
    QuietStep(s, t, Returned(spec, o, Some(c)));
  }

  // ---------------------------------------------------------------- Whole runs

  ghost predicate Behaviour(run: seq<System>, steps: seq<Step>) {
    && |run| == |steps| + 1
    && (exists slots: nat, allowEmpty :: run[0] == Initial(slots, allowEmpty))
    && forall k :: 0 <= k < |steps| ==> Enabled(run[k], steps[k]) && run[k + 1] == Next(run[k], steps[k])
  }

  lemma InitialOk(slots: nat, allowEmpty: bool)
    ensures Inv(Initial(slots, allowEmpty))
  {
  }

  /** Occupancy is sound in every state of every interleaving. */
  lemma {:induction false} AlwaysInv(run: seq<System>, steps: seq<Step>, k: nat)
    requires Behaviour(run, steps) && k < |run|
    ensures Inv(run[k])
  {
    hide Inv, Enabled, Next;
    if k == 0 {
      var slots, allowEmpty :| run[0] == Initial(slots, allowEmpty);
      InitialOk(slots, allowEmpty);
    } else {
      AlwaysInv(run, steps, k - 1);
      NextKeeps(run[k - 1], steps[k - 1]);
    }
  }

  lemma NextLater(s: System, step: Step)
    requires Inv(s) && Enabled(s, step)
    ensures Later(s.host, Next(s, step).host)
    ensures forall id :: id in s.revoked ==> id in Next(s, step).revoked && s.revoked[id] <= Next(s, step).revoked[id]
  {
    hide Inv, HostOk, ReserveSection, CompleteSection, RevokeSection, LookUp, ThreadOk, Owned, Later;
    OpenInv(s);
    LaterItself(s.host);
    match step {
      case Reserve(t, mkdirOk) => ReserveKeeps(s.host, s.threads[t].spec, mkdirOk);
      case Complete(t, launched, error) =>
        LauncherOpen(s, t);
        var c := s.threads[t].call;
        CompleteKeeps(s.host, c, Granted(Env(c, s.host.calls[c].spec.image, s.host.calls[c].spec.network)));
        CompleteKeeps(s.host, c, Failed(error));
      case RevokeTurn(t) =>
        RevokeKeeps(s.host, s.threads[t].id);
        RevokeCounts(s.host, s.threads[t].id);
      case _ =>
    }
  }

  lemma LaterItself(h: Host)
    ensures Later(h, h)
  {
  }

  lemma RevokeCounts(h: Host, id: Id)
    ensures |RevokeSection(h, id).0.calls| == |h.calls|
  {
  }

  lemma LauncherOpen(s: System, t: ThreadId)
    requires Inv(s) && t in s.threads && s.threads[t].Launching?
    ensures s.threads[t].call < |s.host.calls| && s.host.calls[s.threads[t].call].result.None?
  {
    hide HostOk;
    assert ThreadOk(s, t);
  }

  lemma {:induction false} LaterThrough(run: seq<System>, steps: seq<Step>, i: nat, j: nat)
    requires Behaviour(run, steps) && i <= j < |run|
    ensures Later(run[i].host, run[j].host)
    ensures forall id :: id in run[i].revoked ==> id in run[j].revoked && run[i].revoked[id] <= run[j].revoked[id]
    decreases j
  {
    hide Inv, Enabled, Next;
    if i < j {
      LaterThrough(run, steps, i, j - 1);
      AlwaysInv(run, steps, j - 1);
      NextLater(run[j - 1], steps[j - 1]);
    }
  }

  /**
   Callers that shared one launch, the launcher included, all report the same outcome, whenever in
   the run each of them returns.
   */
  lemma CoalescedAgree(run: seq<System>, steps: seq<Step>, i: nat, j: nat, t: ThreadId, u: ThreadId)
    requires Behaviour(run, steps) && i <= j < |run|
    requires t in run[i].threads && run[i].threads[t].Returned? && run[i].threads[t].shared.Some?
    requires u in run[j].threads && run[j].threads[u].Returned?
    requires run[j].threads[u].shared == run[i].threads[t].shared
    ensures run[i].threads[t].outcome == run[j].threads[u].outcome
    ensures run[i].threads[t].spec == run[j].threads[u].spec
  {
    hide Enabled, Next, HostOk;
    AlwaysInv(run, steps, i);
    AlwaysInv(run, steps, j);
    assert ThreadOk(run[i], t) && ThreadOk(run[j], u);
    LaterThrough(run, steps, i, j);
  }

  /**
   Revoke takes hold at one step. From then on the id is in neither table, until some Ensure makes
   a reservation that did not exist before: no earlier launch can install a grant afterwards.
   */
  lemma RevokeIsFinal(run: seq<System>, steps: seq<Step>, k: nat, j: nat, t: ThreadId, id: Id)
    requires Behaviour(run, steps) && k < j < |run|
    requires steps[k] == RevokeTurn(t) && run[k].threads[t] == Revoking(id) && run[k + 1].threads[t] == RevokeDone
    ensures id !in run[k + 1].host.grants && id !in run[k + 1].host.pending
    ensures id in run[j].host.grants ==> run[j].host.grants[id].call >= |run[k].host.calls|
    ensures id in run[j].host.pending ==> run[j].host.pending[id] >= |run[k].host.calls|
  {
    hide HostOk, LookUp, ReserveSection, CompleteSection, Owned;
    AlwaysInv(run, steps, k);
    AlwaysInv(run, steps, j);
    RevokeEffect(run[k].host, id);
    assert run[k + 1].revoked[id] == |run[k].host.calls|;
    LaterThrough(run, steps, k + 1, j);
  }

  /** No id ever has two launches open, and every open launch still has its launcher. */
  lemma OneLaunchPerId(s: System, c: CallId, d: CallId)
    requires Inv(s) && c < |s.host.calls| && d < |s.host.calls|
    requires s.host.calls[c].result.None? && s.host.calls[d].result.None?
    requires s.host.calls[c].spec.id == s.host.calls[d].spec.id
    ensures c == d
    ensures exists t :: t in s.threads && s.threads[t] == Launching(c)
              && forall u :: u in s.threads && s.threads[u] == Launching(c) ==> u == t
  {
    assert s.host.pending[s.host.calls[c].spec.id] == c;
    assert s.host.pending[s.host.calls[d].spec.id] == d;
    var t :| t in s.threads && s.threads[t] == Launching(c);
  }

  /** No waiter is stuck: it can wake, or the launch it waits for can still complete. */
  lemma WaitersAreServed(s: System, t: ThreadId)
    requires Inv(s) && t in s.threads && (s.threads[t].Waiting? || s.threads[t].AwaitingLaunch?)
    ensures || Enabled(s, if s.threads[t].Waiting? then Wake(t) else RevokeWake(t))
            || exists u :: u in s.threads && s.threads[u] == Launching(s.threads[t].call)
                 && forall launched, error :: Enabled(s, Complete(u, launched, error))
  {
    hide HostOk, RevokedOk;
    assert ThreadOk(s, t);
    var c := s.threads[t].call;
    if s.host.calls[c].result.None? {
      var u :| u in s.threads && s.threads[u] == Launching(c);
    }
  }

  // ------------------------------------------------------- Who gets in, and who does not

  /** An allowlisted network needs a host with an allowlist. */
  predicate Permitted(h: Host, spec: Spec) {
    spec.network == NoNetwork || !h.allowEmpty
  }

  predicate HasRoom(h: Host) {
    |h.grants| + |h.pending| < h.slots
  }

  predicate IsFree(h: Host, id: Id) {
    id !in h.grants && id !in h.pending
  }

  /** What a look answers, told by the specs the occupancy was reserved for. */
  lemma LookIs(h: Host, spec: Spec)
    requires HostOk(h)
    ensures spec.id in h.grants ==>
              && h.grants[spec.id].call < |h.calls|
              && LookUp(h, spec) == Settled(if h.calls[h.grants[spec.id].call].spec == spec
                                            then Granted(h.grants[spec.id]) else Failed(Conflict))
    ensures spec.id in h.pending ==>
              && h.pending[spec.id] < |h.calls|
              && LookUp(h, spec) == if h.calls[h.pending[spec.id]].spec == spec
                                    then Join(h.pending[spec.id]) else Settled(Failed(Conflict))
    ensures IsFree(h, spec.id) <==> LookUp(h, spec) == Unoccupied
  {
    hide OpenOk;
    if spec.id in h.grants {
      assert GrantOk(h, spec.id);
      assert CallOk(h, h.grants[spec.id].call);
    }
  }

  /** Over every interleaving, an Ensure gets the live machine or the shared launch of its own spec, and no other. */
  lemma SameSpecSameMachine(run: seq<System>, steps: seq<Step>, k: nat, t: ThreadId, known: bool)
    requires Behaviour(run, steps) && k < |steps| && steps[k] == FirstLook(t, known)
    ensures var h, spec, after := run[k].host, run[k].threads[t].spec, run[k + 1].threads[t];
            && run[k + 1].host == h
            && (spec.id in h.grants ==>
                  && h.grants[spec.id].call < |h.calls|
                  && after == Returned(spec, if h.calls[h.grants[spec.id].call].spec == spec
                                             then Granted(h.grants[spec.id]) else Failed(Conflict), None))
            && (spec.id in h.pending ==>
                  && h.pending[spec.id] < |h.calls|
                  && after == if h.calls[h.pending[spec.id]].spec == spec
                              then Waiting(spec, h.pending[spec.id]) else Returned(spec, Failed(Conflict), None))
            && (IsFree(h, spec.id) ==>
                  after == if known then Verifying(spec) else Returned(spec, Failed(UnknownImage), None))
  {
    hide HostOk, LookUp, Owned, RevokedOk;
    AlwaysInv(run, steps, k);
    LookIs(run[k].host, run[k].threads[t].spec);
    assert run[k + 1] == Next(run[k], steps[k]);
  }

  lemma ReserveIff(h: Host, spec: Spec, mkdirOk: bool)
    requires HostOk(h)
    ensures IsFree(h, spec.id) ==>
              ReserveSection(h, spec, mkdirOk) ==
              if !Permitted(h, spec) then (h, Answer(Settled(Failed(Network))))
              else if !HasRoom(h) then (h, Answer(Settled(Failed(Capacity))))
              else if !mkdirOk then (h, Answer(Settled(Failed(IO))))
              else (Opened(h, spec), Reserved(|h.calls|))
    ensures !IsFree(h, spec.id) ==> ReserveSection(h, spec, mkdirOk) == (h, Answer(LookUp(h, spec)))
  {
    hide LookUp, OpenOk, CallsOk, GrantsOk;
    LookIs(h, spec);
    assert spec.id !in h.pending ==> h.pending - {spec.id} == h.pending;
  }

  /**
   Over every interleaving, a verified caller becomes the launcher exactly when its id is free, its
   network permitted, a slot is free and its directory made; a free id is otherwise answered by the
   first of these that fails.
   */
  lemma AdmissionIff(run: seq<System>, steps: seq<Step>, k: nat, t: ThreadId, mkdirOk: bool)
    requires Behaviour(run, steps) && k < |steps| && steps[k] == Reserve(t, mkdirOk)
    ensures var h, spec, after := run[k].host, run[k].threads[t].spec, run[k + 1].threads[t];
            && (after.Launching? <==> IsFree(h, spec.id) && Permitted(h, spec) && HasRoom(h) && mkdirOk)
            && (after.Launching? ==>
                  && after.call == |h.calls| && spec.id in run[k + 1].host.pending
                  && run[k + 1].host.pending[spec.id] == after.call && run[k + 1].host.calls[after.call].spec == spec)
            && (IsFree(h, spec.id) && !Permitted(h, spec) ==> after == Returned(spec, Failed(Network), None))
            && (IsFree(h, spec.id) && Permitted(h, spec) && !HasRoom(h) ==>
                  after == Returned(spec, Failed(Capacity), None))
            && (!after.Launching? ==> run[k + 1].host == h)
  {
    hide HostOk, LookUp, Owned, RevokedOk, ReserveSection;
    AlwaysInv(run, steps, k);
    var h, spec := run[k].host, run[k].threads[t].spec;
    LookIs(h, spec);
    ReserveIff(h, spec, mkdirOk);
    assert run[k + 1] == Next(run[k], steps[k]);
  }

  ghost predicate NetworksPermitted(h: Host) {
    forall c :: 0 <= c < |h.calls| ==> Permitted(h, h.calls[c].spec)
  }

  lemma NextPermits(s: System, step: Step)
    requires Inv(s) && Enabled(s, step) && NetworksPermitted(s.host)
    ensures NetworksPermitted(Next(s, step).host) && Next(s, step).host.allowEmpty == s.host.allowEmpty
    ensures Next(s, step).host.slots == s.host.slots
  {
    hide HostOk, LookUp, Owned, RevokedOk, ReserveSection, ThreadOk, Later;
    match step {
      case Reserve(t, mkdirOk) =>
        LookIs(s.host, s.threads[t].spec);
        ReserveIff(s.host, s.threads[t].spec, mkdirOk);
      case _ =>
    }
  }

  lemma {:induction false} CallsPermitted(run: seq<System>, steps: seq<Step>, k: nat)
    requires Behaviour(run, steps) && k < |run|
    ensures NetworksPermitted(run[k].host) && run[k].host.allowEmpty == run[0].host.allowEmpty
    ensures run[k].host.slots == run[0].host.slots
  {
    hide Inv, Enabled, Next;
    if k > 0 {
      CallsPermitted(run, steps, k - 1);
      AlwaysInv(run, steps, k - 1);
      NextPermits(run[k - 1], steps[k - 1]);
    }
  }

  /** Over every interleaving, on a host without an allowlist no launch, no grant and no answer has a network. */
  lemma NoNetworkWithoutAllowlist(run: seq<System>, steps: seq<Step>, k: nat)
    requires Behaviour(run, steps) && k < |run| && run[0].host.allowEmpty
    ensures forall c :: 0 <= c < |run[k].host.calls| ==> run[k].host.calls[c].spec.network == NoNetwork
    ensures forall id :: id in run[k].host.grants ==> run[k].host.grants[id].network == NoNetwork
    ensures forall t :: t in run[k].threads && run[k].threads[t].Returned? && run[k].threads[t].outcome.Granted? ==>
              run[k].threads[t].outcome.env.network == NoNetwork
  {
    hide Enabled, Next, Owned, RevokedOk, OpenOk, PendingOk, SlotsOk;
    AlwaysInv(run, steps, k);
    CallsPermitted(run, steps, k);
    var h := run[k].host;
    forall id | id in h.grants
      ensures h.grants[id].network == NoNetwork
    {
      assert GrantOk(h, id) && CallOk(h, h.grants[id].call);
    }
    forall t | t in run[k].threads && run[k].threads[t].Returned? && run[k].threads[t].outcome.Granted?
      ensures run[k].threads[t].outcome.env.network == NoNetwork
    {
      assert ThreadOk(run[k], t) && CallOk(h, run[k].threads[t].outcome.env.call);
    }
  }

  /** A launch that ends is out of the table; it holds its id exactly if it went well, with its own machine. */
  lemma LaunchInstalls(run: seq<System>, steps: seq<Step>, k: nat, t: ThreadId, launched: bool, error: Error)
    requires Behaviour(run, steps) && k < |steps| && steps[k] == Complete(t, launched, error)
    ensures var c := run[k].threads[t].call;
            && c < |run[k].host.calls|
            && var spec, after := run[k].host.calls[c].spec, run[k + 1];
               && spec.id !in after.host.pending
               && (spec.id in after.host.grants <==> launched)
               && (launched ==> after.host.grants[spec.id] == Env(c, spec.image, spec.network))
               && after.threads[t] ==
                  Returned(spec, if launched then Granted(Env(c, spec.image, spec.network)) else Failed(error), Some(c))
  {
    hide HostOk, Owned, RevokedOk, CompleteSection;
    AlwaysInv(run, steps, k);
    LauncherOpen(run[k], t);
    var c := run[k].threads[t].call;
    var spec := run[k].host.calls[c].spec;
    CompletePending(run[k].host, c, if launched then Granted(Env(c, spec.image, spec.network)) else Failed(error));
    OpenHasNoGrant(run[k].host, c);
    assert run[k + 1] == Next(run[k], steps[k]);
  }

  /** A turn of Revoke ends exactly when no launch of its id is open; it cancels that one, and touches no other id. */
  lemma RevokeEndsIff(run: seq<System>, steps: seq<Step>, k: nat, t: ThreadId)
    requires Behaviour(run, steps) && k < |steps| && steps[k] == RevokeTurn(t)
    ensures var id, h, h' := run[k].threads[t].id, run[k].host, run[k + 1].host;
            && (run[k + 1].threads[t] == RevokeDone <==> id !in h.pending)
            && (id in h.pending ==>
                  && h.pending[id] < |h'.calls| && h'.calls[h.pending[id]].cancelled
                  && run[k + 1].threads[t] == AwaitingLaunch(id, h.pending[id]))
            && id !in h'.grants && h'.grants == h.grants - {id} && h'.pending == h.pending
  {
    hide HostOk, Owned, RevokedOk, RevokeSection, ThreadOk;
    AlwaysInv(run, steps, k);
    var h, id := run[k].host, run[k].threads[t].id;
    RevokeEffect(h, id);
    PendingHasNoGrant(h, id);
    assert run[k + 1] == Next(run[k], steps[k]);
  }

  lemma PendingHasNoGrant(h: Host, id: Id)
    requires HostOk(h)
    ensures id in h.pending ==> id !in h.grants && h.grants - {id} == h.grants
  {
    hide CallsOk, GrantsOk, PendingOk, OpenOk;
  }

  lemma OpenHasNoGrant(h: Host, c: CallId)
    requires HostOk(h) && c < |h.calls| && h.calls[c].result.None?
    ensures h.calls[c].spec.id !in h.grants
  {
    hide CallsOk, GrantsOk, PendingOk;
    OpenIsPending(h, c);
  }
}
