// The request table of the runtime client: issued, pending, retired and reported ids.

module ClientRequests {
  import opened Capabilities
  import opened ClientState

  // ---------------------------------------------------------------------
  // What the table keeps

  /** The retired set lists its order without repetition, and never more than the maximum. */
  ghost predicate RetiredOk(q: Requests) {
    && |q.order| <= MAXIMUM_RETIRED_RESPONSE_IDS
    && (forall id :: id in q.order <==> id in q.retired)
    && (forall i, j | 0 <= i < j < |q.order| :: q.order[i] != q.order[j])
  }

  ghost predicate WasSent(wire: Wire, id: nat, generation: nat) {
    match wire
    case Silence => false
    case After(past, mark) => (mark.Sent? && mark.id == id && mark.generation == generation) || WasSent(past, id, generation)
  }

  /** A change of the emergency policy has interrupted the handshake with this id. */
  ghost predicate Interrupted(wire: Wire, id: nat) {
    match wire
    case Silence => false
    case After(past, mark) => mark == PolicyChanged(id) || Interrupted(past, id)
  }

  /** A pending request is of the current generation, not retired, written and not yet reported. */
  ghost predicate PendingOk(q: Requests, id: nat, generation: nat)
    requires id in q.pending
  {
    && 0 < id <= q.next
    && q.pending[id].generation == generation
    && id !in q.retired
    && Resolutions(q.wire, id) == 0
    && WasSent(q.wire, id, generation)
  }

  /** A request is reported at most once, unless it is a handshake that a policy change interrupted: then twice. */
  ghost predicate ReportsOk(wire: Wire, id: nat) {
    Resolutions(wire, id) <= if Interrupted(wire, id) then 2 else 1
  }

  /** The capabilities cover all that a call needs, on one platform or another. */
  ghost predicate Covers(capabilities: set<Capability>, call: Call) {
    exists platform :: Required(call, platform) <= capabilities
  }

  /** Every frame was written under the rules in force. */
  ghost predicate PhaseAllows(phase: Phase, call: Call) {
    var verb := call.verb;
    && (verb.Initialize? || Covers(phase.capabilities, call))
    && (phase.handshakeComplete || verb.Initialize?)
    && (phase.handshakeComplete && !phase.ready ==> WhileUnavailable(verb))
    && (phase.recoveryMode ==> InRecovery(verb))
    && (phase.recoveryPending ==> IsReconnectRecovery(verb))
    && (phase.livenessUnknown ==> IsLivenessControl(verb))
    && (phase.emergency ==> EmergencyAllowed(verb))
  }

  /**
   * Every frame was allowed and had an id of its own, and every result came in the generation in
   * which its request was written.
   */
  ghost predicate Lawful(wire: Wire) {
    match wire
    case Silence => true
    case After(past, mark) =>
      && Lawful(past)
      && (mark.Sent? ==> PhaseAllows(mark.phase, mark.call) && forall g: nat :: !WasSent(past, mark.id, g))
      && (mark.Delivered? ==> WasSent(past, mark.id, mark.generation))
  }

  ghost predicate RequestsOk(q: Requests, generation: nat) {
    && RetiredOk(q)
    && Lawful(q.wire)
    && (forall id | id in q.retired :: 0 < id <= q.next)
    && (forall id | id in q.pending :: PendingOk(q, id, generation))
    && (forall id: nat :: ReportsOk(q.wire, id))
    && (forall id: nat | id == 0 || id > q.next :: Resolutions(q.wire, id) == 0)
    && (forall id: nat, g: nat | id > q.next :: !WasSent(q.wire, id, g))
  }

  // ---------------------------------------------------------------------
  // Retiring

  lemma {:induction false} TrimKeeps(retired: set<nat>, order: seq<nat>)
    requires forall id :: id in order <==> id in retired
    requires forall i, j | 0 <= i < j < |order| :: order[i] != order[j]
    ensures var (r, o) := Trim(retired, order);
            && r <= retired && |o| <= MAXIMUM_RETIRED_RESPONSE_IDS
            && (forall id :: id in o <==> id in r)
            && (forall i, j | 0 <= i < j < |o| :: o[i] != o[j])
    decreases |order|
  {
    if |order| > MAXIMUM_RETIRED_RESPONSE_IDS {
      assert order == [order[0]] + order[1..];
      TrimKeeps(retired - {order[0]}, order[1..]);
    }
  }

  /** Retiring another id keeps the newest 1024 and forgets the oldest; an id retired before stays where it is. */
  lemma NewestAreRetired(q: Requests, id: nat)
    requires RetiredOk(q)
    ensures var next := Retire(q, id);
            if id == 0 || id in q.order then next == q
            else && next.order == (if |q.order| == 1024 then q.order[1..] else q.order) + [id]
                 && (forall other :: other in next.retired <==> other in next.order)
                 && next == q.(retired := next.retired, order := next.order)
  {
    if id != 0 && id !in q.retired {
      var order := q.order + [id];
      TrimKeeps(q.retired + {id}, order);
      if |q.order| == 1024 {
        assert order[1..] == q.order[1..] + [id];
        assert Trim(q.retired + {id}, order) == Trim(q.retired + {id} - {order[0]}, order[1..]);
      }
    }
  }

  lemma RetireKeeps(q: Requests, id: nat)
    requires RetiredOk(q)
    ensures RetiredOk(Retire(q, id))
    ensures forall other | other in Retire(q, id).retired :: other in q.retired || (other == id && id != 0)
    ensures Retire(q, id) == q.(retired := Retire(q, id).retired, order := Retire(q, id).order)
  {
    if id != 0 && id !in q.retired {
      TrimKeeps(q.retired + {id}, q.order + [id]);
    }
  }

  lemma {:induction false} RetireAllKeeps(q: Requests, ids: seq<nat>)
    requires RetiredOk(q)
    ensures RetiredOk(RetireAll(q, ids))
    ensures forall id | id in RetireAll(q, ids).retired :: id in q.retired || (id != 0 && id in ids)
    ensures RetireAll(q, ids) == q.(retired := RetireAll(q, ids).retired, order := RetireAll(q, ids).order)
    decreases |ids|
  {
    if ids != [] {
      RetireKeeps(q, ids[0]);
      RetireAllKeeps(Retire(q, ids[0]), ids[1..]);
    }
  }

  // ---------------------------------------------------------------------
  // Every change of the table keeps it in order

  lemma DropKeeps(q: Requests, id: nat, generation: nat)
    requires RequestsOk(q, generation) && id <= q.next
    ensures RequestsOk(Remove(Retire(q, id), id), generation)
  {
    RetireKeeps(q, id);
    var dropped := Remove(Retire(q, id), id);
    forall other | other in dropped.pending
      ensures PendingOk(dropped, other, generation)
    {
      assert PendingOk(q, other, generation);
    }
  }

  lemma FailAllKeeps(q: Requests, ids: set<nat>, env: Environment, generation: nat)
    requires Fair(env) && RequestsOk(q, generation) && ids <= q.pending.Keys
    ensures RequestsOk(FailAll(q, ids, env), generation)
    ensures FailAll(q, ids, env).pending == q.pending - ids
    ensures FailAll(q, ids, env).next == q.next
    ensures FailAll(q, ids, env).wire == After(q.wire, Failed(ids))
  {
    var left := q.(pending := q.pending - ids);
    var failed := FailAll(q, ids, env);
    RetireAllKeeps(left, env.order(ids));
    assert Enumerates(env.order(ids), ids);
    forall id | id in failed.pending
      ensures PendingOk(failed, id, generation)
    {
      assert PendingOk(q, id, generation);
    }
    forall id: nat
      ensures ReportsOk(failed.wire, id)
      ensures id == 0 || id > q.next ==> Resolutions(failed.wire, id) == 0
    {
      assert ReportsOk(q.wire, id);
      if id in ids {
        assert PendingOk(q, id, generation);
      }
    }
  }

  /** A new id is taken, and its frame is not written. */
  lemma RefusalKeeps(q: Requests, generation: nat)
    requires RequestsOk(q, generation)
    ensures RequestsOk(q.(next := q.next + 1), generation)
    ensures RequestsOk(Report(Remove(q.(next := q.next + 1), q.next + 1), Failed({q.next + 1})), generation)
  {
    var id := q.next + 1;
    var taken := q.(next := id);
    var refused := Report(Remove(taken, id), Failed({id}));
    forall other | other in q.pending
      ensures PendingOk(taken, other, generation) && PendingOk(refused, other, generation)
    {
      assert PendingOk(q, other, generation);
    }
    forall other: nat
      ensures ReportsOk(refused.wire, other)
      ensures other == 0 || other > id ==> Resolutions(refused.wire, other) == 0
    {
      assert ReportsOk(q.wire, other);
    }
    forall other: nat, g: nat | other > id
      ensures !WasSent(refused.wire, other, g)
    {
      assert !WasSent(q.wire, other, g);
    }
  }

  /** A new id is taken, and its frame is written. */
  lemma IssueKeeps(q: Requests, call: Call, generation: nat, phase: Phase)
    requires RequestsOk(q, generation) && PhaseAllows(phase, call)
    ensures var id := q.next + 1;
            var pending := q.pending[id := Pending(call.verb, generation)];
            RequestsOk(Report(q.(next := id, pending := pending), Sent(id, call, generation, phase)), generation)
  {
    var id := q.next + 1;
    var issued := Report(q.(next := id, pending := q.pending[id := Pending(call.verb, generation)]), Sent(id, call, generation, phase));
    forall other | other in issued.pending
      ensures PendingOk(issued, other, generation)
    {
      if other != id {
        assert PendingOk(q, other, generation);
      }
    }
    forall other: nat
      ensures ReportsOk(issued.wire, other)
    {
      assert ReportsOk(q.wire, other);
    }
    forall other: nat, g: nat | other > id
      ensures !WasSent(issued.wire, other, g)
    {
      assert !WasSent(q.wire, other, g);
    }
  }

  /** A pending request is reported and leaves the table. */
  lemma ReportKeeps(q: Requests, id: nat, mark: Mark, generation: nat)
    requires RequestsOk(q, generation) && id in q.pending
    requires mark == Failed({id}) || mark == Delivered(id, generation)
    ensures RequestsOk(Report(Remove(q, id), mark), generation)
  {
    assert PendingOk(q, id, generation);
    var reported := Report(Remove(q, id), mark);
    forall other | other in reported.pending
      ensures PendingOk(reported, other, generation)
    {
      assert PendingOk(q, other, generation);
    }
    forall other: nat
      ensures ReportsOk(reported.wire, other)
      ensures other == 0 || other > q.next ==> Resolutions(reported.wire, other) == 0
    {
      assert ReportsOk(q.wire, other);
    }
  }

  /** A request that is no longer pending is reported, as long as it may still be. */
  lemma LateReportKeeps(q: Requests, ids: set<nat>, generation: nat)
    requires RequestsOk(q, generation)
    requires forall id | id in ids ::
      && 0 < id <= q.next && id !in q.pending
      && Resolutions(q.wire, id) < if Interrupted(q.wire, id) then 2 else 1
    ensures RequestsOk(Report(q, Failed(ids)), generation)
  {
    var reported := Report(q, Failed(ids));
    forall other | other in reported.pending
      ensures PendingOk(reported, other, generation)
    {
      assert PendingOk(q, other, generation);
    }
    forall other: nat
      ensures ReportsOk(reported.wire, other)
      ensures other == 0 || other > q.next ==> Resolutions(reported.wire, other) == 0
    {
      assert ReportsOk(q.wire, other);
    }
  }

  lemma PolicyChangeKeeps(q: Requests, id: nat, generation: nat)
    requires RequestsOk(q, generation)
    ensures RequestsOk(Report(q, PolicyChanged(id)), generation)
  {
    var changed := Report(q, PolicyChanged(id));
    forall other | other in changed.pending
      ensures PendingOk(changed, other, generation)
    {
      assert PendingOk(q, other, generation);
    }
    forall other: nat
      ensures ReportsOk(changed.wire, other)
    {
      assert ReportsOk(q.wire, other);
    }
    forall other: nat, g: nat | other > q.next
      ensures !WasSent(changed.wire, other, g)
    {
      assert !WasSent(q.wire, other, g);
    }
  }

  /** A new generation starts with nothing pending. */
  lemma NewGenerationKeeps(q: Requests, generation: nat)
    requires RequestsOk(q, generation)
    ensures RequestsOk(q.(pending := map[]), generation + 1)
  {
  }
}
