/** The durable record of the Gateway over all runs of the composed machine, without any
    guard: which changes of state are ever stored, what a ready record says, and that
    recovery can rely on the fingerprint it stored.
    Models internal/domain/protocolmode.go, EgressProtocolMode.Transition, and its users
    in internal/orchestrator/protocolmode.go. */
module GatewayRecord {
  import opened Wrappers
  import opened PanelTemplate
  import opened HelperView
  import opened ProtocolAgreement

  /** The edges `Transition` allows. */
  predicate Edge(a: State, b: State) {
    match a
    case Ready => b == Switching || b == RepairRequired
    case Switching => b == SubscriptionPending || b == RollingBack || b == RepairRequired
    case SubscriptionPending => b == Ready || b == RollingBack || b == RepairRequired
    case RollingBack => b == Ready || b == RepairRequired
    case RepairRequired => b == Ready
  }

  lemma SpoolKeepsStored(s: System, m: Move)
    requires Can(s, m) && (m.Step? || m.Answer? || m.Consume? || Publishes(m) || Hears(m))
    ensures Act(s, m).record == s.record
  {
  }

  lemma ForwardIsAnEdge(s: System, m: Move)
    requires SessionSound(s) && Can(s, m) && (m.BeginSwitch? || Forward(m))
    ensures Act(s, m).record.state == s.record.state || Edge(s.record.state, Act(s, m).record.state)
  {
  }

  lemma BackwardIsAnEdge(s: System, m: Move)
    requires SessionSound(s) && Can(s, m) && (Backward(m) || Repairs(m))
    ensures Act(s, m).record.state == s.record.state || Edge(s.record.state, Act(s, m).record.state)
  {
  }

  /** Every stored change of state is an edge of `Transition` or no change, although the
      mark*Repair functions assign the state directly and saves may fail after taking
      effect. */
  lemma EveryChangeIsAnEdge(s: System, m: Move)
    requires Sound(s) && Can(s, m)
    ensures Act(s, m).record.state == s.record.state || Edge(s.record.state, Act(s, m).record.state)
  {
    if m.BeginSwitch? || Forward(m) {
      ForwardIsAnEdge(s, m);
    } else if Backward(m) || Repairs(m) {
      BackwardIsAnEdge(s, m);
    } else {
      SpoolKeepsStored(s, m);
    }
  }

  lemma ReadyOnlyBySaves(s: System, m: Move)
    requires Sound(s) && Can(s, m) && InFlight(s.record) && Act(s, m).record.state == Ready
    ensures m.SaveReadyNew? || m.SaveReadyOld?
  {
    if m.Step? || m.Answer? || m.Consume? || Publishes(m) || Hears(m) {
      SpoolKeepsStored(s, m);
    }
  }

  /** A switch in flight that becomes ready is ready in the new mode exactly if the helper
      had finalized it, and in the old mode exactly if it never will be. */
  lemma ReadyNewIffFinalized(s: System, m: Move)
    requires Sound(s) && Can(s, m) && InFlight(s.record) && Act(s, m).record.state == Ready
    ensures Act(s, m).record.active == s.record.desired <==> IsFinalized(s.helper, s.record.op)
    ensures Act(s, m).record.active == s.record.active <==> Settled(s, s.record.op)
  {
    ReadyOnlyBySaves(s, m);
  }

  /** The fingerprint check of recovery: whenever the helper reports the operation as
      finalized, the stored record reproduces the fingerprint it was issued under. */
  lemma FingerprintAlwaysMatches(s: System)
    requires Sound(s) && s.session == RecoverAsked && Heard(s, Rollback, SaidAlreadyFinalized)
    ensures Can(s, SeeAlreadyFinalized)
  {
  }

  /** The recorded mode is the one at installation or the target of a finalized operation. */
  ghost predicate Earned(s0: System, s: System) {
    s.record.active == s0.record.active ||
    exists op :: op in s.issued && IsFinalized(s.helper, op) && s.issued[op].target == s.record.active
  }

  lemma FinalizedStays(s: System, m: Move, op: string)
    requires Can(s, m) && IsFinalized(s.helper, op)
    ensures IsFinalized(Act(s, m).helper, op)
  {
    if m.Step? {
      OneOperation(s.helper, m.m);
    } else if IsQuietMove(m) {
      GatewayFrame(s, m);
    }
  }

  lemma IssuedStays(s: System, m: Move, op: string)
    requires Can(s, m) && op in s.issued
    ensures op in Act(s, m).issued && Act(s, m).issued[op] == s.issued[op]
  {
    if IsQuietMove(m) {
      GatewayFrame(s, m);
    }
  }

  lemma ActiveOnlyByFinalized(s: System, m: Move)
    requires Sound(s) && Can(s, m) && Act(s, m).record.active != s.record.active
    ensures Act(s, m).record.active == s.record.desired && IsFinalized(s.helper, s.record.op) && InFlight(s.record)
  {
    if m.Step? || m.Answer? || m.Consume? || Publishes(m) || Hears(m) {
      SpoolKeepsStored(s, m);
    }
  }

  /** In every state of every run, guarded or not, the recorded mode is the installed one
      or one that the helper finalized, and the record is sound. */
  lemma {:induction false} RecordIsEarned(s0: System, moves: seq<Move>)
    requires Initial(s0) && Run(s0, moves)
    ensures RecordSound(End(s0, moves)) && Earned(s0, End(s0, moves))
  {
    RunKeepsSound(s0, moves);
    if moves != [] {
      var init, last := moves[..|moves| - 1], moves[|moves| - 1];
      RunKeepsSound(s0, init);
      RecordIsEarned(s0, init);
      EarnedStays(s0, End(s0, init), last);
    }
  }

  lemma EarnedStays(s0: System, s: System, m: Move)
    requires Sound(s) && Can(s, m) && Earned(s0, s)
    ensures Earned(s0, Act(s, m))
  {
    if Act(s, m).record.active != s.record.active {
      ActiveOnlyByFinalized(s, m);
      FinalizedStays(s, m, s.record.op);
      IssuedStays(s, m, s.record.op);
    } else if s.record.active != s0.record.active {
      var op :| op in s.issued && IsFinalized(s.helper, op) && s.issued[op].target == s.record.active;
      FinalizedStays(s, m, op);
      IssuedStays(s, m, op);
    }
  }
}
