/** The guarded state machine of one speculative cycle. */
module Lifecycle {
  import opened Words

  datatype Phase =
    | Ready | ProposalPlanned | ProposalReserved | ProposalDispatched | ProposalRunning | ProposalProduced
    | VerificationPlanned | VerificationReserved | VerificationDispatched | VerificationRunning | Verified
    | PartiallyAccepted | FullyAccepted | Rejected | RolledBack | CancelRequested | Cancelled | RetryPending
    | Superseded | Expired | Failed | Committed | Terminal

  datatype Event =
    | Null | PlanProposal | ReserveProposal | DispatchProposal | ProposalStarted | ProposalFinished
    | ProposalRetry | ProposalFail | PlanVerification | ReserveVerification | DispatchVerification
    | VerificationStarted | VerificationFinished | AcceptPartial | AcceptFull | RejectAll | Commit | Rollback
    | Cancel | Retry | Supersede | Expire | Fail | EnterTerminal

  datatype Transition = Transition(from: Phase, event: Event, to: Phase)

  const PROPOSAL_ROWS: seq<Transition> := [
    Transition(Ready, PlanProposal, ProposalPlanned),
    Transition(ProposalPlanned, ReserveProposal, ProposalReserved),
    Transition(ProposalReserved, DispatchProposal, ProposalDispatched),
    Transition(ProposalDispatched, ProposalStarted, ProposalRunning),
    Transition(ProposalRunning, ProposalFinished, ProposalProduced),
    Transition(ProposalRunning, ProposalRetry, RetryPending),
    Transition(ProposalRunning, ProposalFail, Failed)]

  const VERIFICATION_ROWS: seq<Transition> := [
    Transition(ProposalProduced, PlanVerification, VerificationPlanned),
    Transition(VerificationPlanned, ReserveVerification, VerificationReserved),
    Transition(VerificationReserved, DispatchVerification, VerificationDispatched),
    Transition(VerificationDispatched, VerificationStarted, VerificationRunning),
    Transition(VerificationRunning, VerificationFinished, Verified)]

  const VERDICT_ROWS: seq<Transition> := [
    Transition(Verified, AcceptPartial, PartiallyAccepted),
    Transition(Verified, AcceptFull, FullyAccepted),
    Transition(Verified, RejectAll, Rejected),
    Transition(VerificationRunning, ProposalRetry, RetryPending),
    Transition(VerificationRunning, ProposalFail, Failed)]

  const SETTLE_ROWS: seq<Transition> := [
    Transition(FullyAccepted, Commit, Committed),
    Transition(PartiallyAccepted, Commit, Committed),
    Transition(PartiallyAccepted, Rollback, RolledBack),
    Transition(Rejected, Rollback, RolledBack),
    Transition(RolledBack, Retry, Ready),
    Transition(RetryPending, Retry, Ready)]

  const EARLY_CANCEL_ROWS: seq<Transition> := [
    Transition(Ready, Cancel, CancelRequested),
    Transition(ProposalPlanned, Cancel, CancelRequested),
    Transition(ProposalReserved, Cancel, CancelRequested),
    Transition(ProposalDispatched, Cancel, CancelRequested),
    Transition(ProposalRunning, Cancel, CancelRequested),
    Transition(ProposalProduced, Cancel, CancelRequested)]

  const LATE_CANCEL_ROWS: seq<Transition> := [
    Transition(VerificationPlanned, Cancel, CancelRequested),
    Transition(VerificationDispatched, Cancel, CancelRequested),
    Transition(VerificationRunning, Cancel, CancelRequested),
    Transition(CancelRequested, Expire, Cancelled)]

  const EARLY_SUPERSEDE_ROWS: seq<Transition> := [
    Transition(Ready, Supersede, Superseded),
    Transition(ProposalPlanned, Supersede, Superseded),
    Transition(ProposalReserved, Supersede, Superseded),
    Transition(ProposalDispatched, Supersede, Superseded),
    Transition(ProposalRunning, Supersede, Superseded),
    Transition(ProposalProduced, Supersede, Superseded)]

  const LATE_SUPERSEDE_ROWS: seq<Transition> := [
    Transition(VerificationPlanned, Supersede, Superseded),
    Transition(VerificationDispatched, Supersede, Superseded),
    Transition(VerificationRunning, Supersede, Superseded),
    Transition(Verified, Supersede, Superseded),
    Transition(RetryPending, Supersede, Superseded)]

  const EARLY_EXPIRE_ROWS: seq<Transition> := [
    Transition(Ready, Expire, Expired),
    Transition(ProposalPlanned, Expire, Expired),
    Transition(ProposalReserved, Expire, Expired),
    Transition(ProposalDispatched, Expire, Expired),
    Transition(ProposalRunning, Expire, Expired),
    Transition(ProposalProduced, Expire, Expired)]

  const LATE_EXPIRE_ROWS: seq<Transition> := [
    Transition(VerificationPlanned, Expire, Expired),
    Transition(VerificationDispatched, Expire, Expired),
    Transition(VerificationRunning, Expire, Expired),
    Transition(RetryPending, Expire, Expired)]

  const FAIL_ROWS: seq<Transition> := [
    Transition(Ready, Fail, Failed),
    Transition(ProposalPlanned, Fail, Failed),
    Transition(ProposalReserved, Fail, Failed),
    Transition(ProposalDispatched, Fail, Failed),
    Transition(ProposalRunning, Fail, Failed),
    Transition(VerificationRunning, Fail, Failed),
    Transition(PartiallyAccepted, Fail, Failed),
    Transition(Rejected, Fail, Failed)]

  const TERMINAL_ROWS: seq<Transition> := [
    Transition(Committed, EnterTerminal, Terminal),
    Transition(RolledBack, EnterTerminal, Terminal),
    Transition(Cancelled, EnterTerminal, Terminal),
    Transition(Superseded, EnterTerminal, Terminal),
    Transition(Expired, EnterTerminal, Terminal),
    Transition(Failed, EnterTerminal, Terminal)]

  /** Every declared transition, in table order. */
  const TABLE: seq<Transition> :=
    PROPOSAL_ROWS + VERIFICATION_ROWS + VERDICT_ROWS + SETTLE_ROWS
    + EARLY_CANCEL_ROWS + LATE_CANCEL_ROWS + EARLY_SUPERSEDE_ROWS + LATE_SUPERSEDE_ROWS
    + EARLY_EXPIRE_ROWS + LATE_EXPIRE_ROWS + FAIL_ROWS + TERMINAL_ROWS

  predicate IsTerminal(p: Phase) {
    p.Terminal? || p.Committed? || p.Cancelled? || p.Expired? || p.Superseded? || p.Failed?
  }

  /** The first row with the given key, if any. */
  function FirstMatch(rows: seq<Transition>, from: Phase, event: Event): Option<Phase> {
    if |rows| == 0 then None
    else if rows[0].from == from && rows[0].event == event then Some(rows[0].to)
    else FirstMatch(rows[1..], from, event)
  }

  function Target(from: Phase, event: Event): Option<Phase> {
    FirstMatch(TABLE, from, event)
  }

  method TransitionTarget(from: Phase, event: Event) returns (r: Option<Phase>)
    ensures r == Target(from, event)
  {
    assert TABLE[0..] == TABLE;
    for i := 0 to |TABLE|
      invariant FirstMatch(TABLE[i..], from, event) == Target(from, event)
    {
      assert TABLE[i..][1..] == TABLE[i + 1..];
      if TABLE[i].from == from && TABLE[i].event == event {
        return Some(TABLE[i].to);
      }
    }
    r := None;
  }

  datatype CycleError = InvalidTransition | GuardBlocked

  class SpeculativeStateMachine {
    var phase: Phase

    constructor (start: Phase)
      ensures phase == start
    {
      phase := start;
    }

    method Apply(event: Event, guard: bool) returns (r: Result<Phase, CycleError>)
      modifies this
      ensures match Target(old(phase), event)
              case None => r == Err(InvalidTransition) && phase == old(phase)
              case Some(next) =>
                if guard then r == Ok(next) && phase == next else r == Err(GuardBlocked) && phase == old(phase)
    {
      var next := TransitionTarget(phase, event);
      if next.None? {
        return Err(InvalidTransition);
      }
      if !guard {
        return Err(GuardBlocked);
      }
      phase := next.value;
      r := Ok(phase);
    }
  }

  // ---------------------------------------------------------------------------
  // The table as a relation
  // ---------------------------------------------------------------------------

  lemma {:induction false} FirstMatchSound(rows: seq<Transition>, from: Phase, event: Event)
    ensures match FirstMatch(rows, from, event)
            case Some(to) => Transition(from, event, to) in rows
            case None => forall t :: t in rows ==> !(t.from == from && t.event == event)
  {
    if |rows| > 0 {
      FirstMatchSound(rows[1..], from, event);
      assert rows == [rows[0]] + rows[1..];
    }
  }

  /** Where an event leads: only Expire depends on the phase it finds. */
  function Destination(from: Phase, event: Event): Phase {
    match event
    case Null => from
    case PlanProposal => ProposalPlanned
    case ReserveProposal => ProposalReserved
    case DispatchProposal => ProposalDispatched
    case ProposalStarted => ProposalRunning
    case ProposalFinished => ProposalProduced
    case ProposalRetry => RetryPending
    case ProposalFail => Failed
    case PlanVerification => VerificationPlanned
    case ReserveVerification => VerificationReserved
    case DispatchVerification => VerificationDispatched
    case VerificationStarted => VerificationRunning
    case VerificationFinished => Verified
    case AcceptPartial => PartiallyAccepted
    case AcceptFull => FullyAccepted
    case RejectAll => Rejected
    case Commit => Committed
    case Rollback => RolledBack
    case Cancel => CancelRequested
    case Retry => Ready
    case Supersede => Superseded
    case Expire => if from.CancelRequested? then Cancelled else Expired
    case Fail => Failed
    case EnterTerminal => Terminal
  }

  /** How many more transitions a phase can see before a Retry. */
  function Rank(p: Phase): nat {
    match p
    case Ready => 13
    case ProposalPlanned => 12
    case ProposalReserved => 11
    case ProposalDispatched => 10
    case ProposalRunning => 9
    case ProposalProduced => 8
    case VerificationPlanned => 7
    case VerificationReserved => 6
    case VerificationDispatched => 5
    case VerificationRunning => 4
    case Verified => 3
    case PartiallyAccepted | FullyAccepted | Rejected | RetryPending | CancelRequested => 2
    case RolledBack | Cancelled | Superseded | Expired | Failed | Committed => 1
    case Terminal => 0
  }

  /** The ten events from Ready to Verified. */
  const FORWARD: seq<Event> := [
    PlanProposal, ReserveProposal, DispatchProposal, ProposalStarted, ProposalFinished,
    PlanVerification, ReserveVerification, DispatchVerification, VerificationStarted, VerificationFinished]

  /** A phase's place on the way from Ready to Verified; 11 for the phases beside that way. */
  function Place(p: Phase): (n: nat)
    ensures n <= 11
  {
    match p
    case Ready => 0
    case ProposalPlanned => 1
    case ProposalReserved => 2
    case ProposalDispatched => 3
    case ProposalRunning => 4
    case ProposalProduced => 5
    case VerificationPlanned => 6
    case VerificationReserved => 7
    case VerificationDispatched => 8
    case VerificationRunning => 9
    case Verified => 10
    case _ => 11
  }

  /** The twelve events of a committing cycle; only the verdict can vary. */
  function Canonical(verdict: Event): seq<Event> {
    FORWARD + [verdict, Commit]
  }

  /** What every row of the table obeys. */
  predicate RowLaw(t: Transition) {
    && t.to == Destination(t.from, t.event)
    && (t.event.Retry? <==> t.to.Ready?)
    && Rank(t.from) > 0
    && (!t.event.Retry? ==> Rank(t.to) < Rank(t.from))
    && (0 < Place(t.to) <= 10 ==> Place(t.from) == Place(t.to) - 1 && t.event == FORWARD[Place(t.from)])
    && (t.to.PartiallyAccepted? || t.to.FullyAccepted? || t.to.Rejected? ==> t.from.Verified?)
    && (t.event.Rollback? ==> t.from.PartiallyAccepted? || t.from.Rejected?)
    && (t.event.EnterTerminal? ==> t.from.RolledBack? || IsTerminal(t.from))
    && (t.event.Commit? ==> t.from.PartiallyAccepted? || t.from.FullyAccepted?)
    && (IsTerminal(t.from) ==> t.event.EnterTerminal?)
  }

  lemma ProposalRow(t: Transition)
    requires t in PROPOSAL_ROWS
    ensures RowLaw(t)
  {
  }

  lemma VerificationRow(t: Transition)
    requires t in VERIFICATION_ROWS
    ensures RowLaw(t)
  {
  }

  lemma VerdictRow(t: Transition)
    requires t in VERDICT_ROWS
    ensures RowLaw(t)
  {
  }

  lemma SettleRow(t: Transition)
    requires t in SETTLE_ROWS
    ensures RowLaw(t)
  {
  }

  lemma EarlyCancelRow(t: Transition)
    requires t in EARLY_CANCEL_ROWS
    ensures RowLaw(t)
  {
  }

  lemma LateCancelRow(t: Transition)
    requires t in LATE_CANCEL_ROWS
    ensures RowLaw(t)
  {
  }

  lemma EarlySupersedeRow(t: Transition)
    requires t in EARLY_SUPERSEDE_ROWS
    ensures RowLaw(t)
  {
  }

  lemma LateSupersedeRow(t: Transition)
    requires t in LATE_SUPERSEDE_ROWS
    ensures RowLaw(t)
  {
  }

  lemma EarlyExpireRow(t: Transition)
    requires t in EARLY_EXPIRE_ROWS
    ensures RowLaw(t)
  {
  }

  lemma LateExpireRow(t: Transition)
    requires t in LATE_EXPIRE_ROWS
    ensures RowLaw(t)
  {
  }

  lemma FailRow(t: Transition)
    requires t in FAIL_ROWS
    ensures RowLaw(t)
  {
  }

  lemma TerminalRow(t: Transition)
    requires t in TERMINAL_ROWS
    ensures RowLaw(t)
  {
  }

  predicate InSomeGroup(t: Transition) {
    || t in PROPOSAL_ROWS || t in VERIFICATION_ROWS || t in VERDICT_ROWS
    || t in SETTLE_ROWS || t in EARLY_CANCEL_ROWS || t in LATE_CANCEL_ROWS
    || t in EARLY_SUPERSEDE_ROWS || t in LATE_SUPERSEDE_ROWS || t in EARLY_EXPIRE_ROWS
    || t in LATE_EXPIRE_ROWS || t in FAIL_ROWS || t in TERMINAL_ROWS
  }

  lemma TableIsItsGroups(t: Transition)
    ensures t in TABLE <==> InSomeGroup(t)
  {
  }

  lemma EveryRow(t: Transition)
    requires t in TABLE
    ensures RowLaw(t)
  {
    TableIsItsGroups(t);
    if t in PROPOSAL_ROWS {
      ProposalRow(t);
    } else if t in VERIFICATION_ROWS {
      VerificationRow(t);
    } else if t in VERDICT_ROWS {
      VerdictRow(t);
    } else if t in SETTLE_ROWS {
      SettleRow(t);
    } else if t in EARLY_CANCEL_ROWS {
      EarlyCancelRow(t);
    } else if t in LATE_CANCEL_ROWS {
      LateCancelRow(t);
    } else if t in EARLY_SUPERSEDE_ROWS {
      EarlySupersedeRow(t);
    } else if t in LATE_SUPERSEDE_ROWS {
      LateSupersedeRow(t);
    } else if t in EARLY_EXPIRE_ROWS {
      EarlyExpireRow(t);
    } else if t in LATE_EXPIRE_ROWS {
      LateExpireRow(t);
    } else if t in FAIL_ROWS {
      FailRow(t);
    } else {
      TerminalRow(t);
    }
  }

  lemma Declared(from: Phase, event: Event)
    requires Target(from, event).Some?
    ensures Transition(from, event, Target(from, event).value) in TABLE
    ensures RowLaw(Transition(from, event, Target(from, event).value))
  {
    FirstMatchSound(TABLE, from, event);
    EveryRow(Transition(from, event, Target(from, event).value));
  }

  /** The first-match search decides exactly membership in the table: no row hides another. */
  lemma TargetIffRow(from: Phase, event: Event, to: Phase)
    ensures Target(from, event) == Some(to) <==> Transition(from, event, to) in TABLE
  {
    forall t | t in TABLE
      ensures t.to == Destination(t.from, t.event)
    {
      EveryRow(t);
    }
    FirstMatchIffMember(TABLE, from, event, to);
  }

  lemma FirstMatchIffMember(rows: seq<Transition>, from: Phase, event: Event, to: Phase)
    requires forall t :: t in rows ==> t.to == Destination(t.from, t.event)
    ensures FirstMatch(rows, from, event) == Some(to) <==> Transition(from, event, to) in rows
  {
    FirstMatchSound(rows, from, event);
  }

  // ---------------------------------------------------------------------------
  // Exactly which phases accept an event
  // ---------------------------------------------------------------------------

  /** A phase on the way to a verdict that is not the one whose verification is reserved but not dispatched. */
  predicate Abandonable(p: Phase) {
    Place(p) <= 9 && p != VerificationReserved
  }

  /** Each event's phases, told by the way from Ready to Verified and the phases beside it. */
  predicate AcceptedIn(p: Phase, e: Event) {
    match e
    case Null => false
    case ProposalRetry | ProposalFail => p == ProposalRunning || p == VerificationRunning
    case AcceptPartial | AcceptFull | RejectAll => p == Verified
    case Commit => p == PartiallyAccepted || p == FullyAccepted
    case Rollback => p == PartiallyAccepted || p == Rejected
    case Retry => p == RolledBack || p == RetryPending
    case Cancel => Abandonable(p)
    case Supersede => Abandonable(p) || p == Verified || p == RetryPending
    case Expire => Abandonable(p) || p == RetryPending || p == CancelRequested
    case Fail => Place(p) <= 4 || p == VerificationRunning || p == PartiallyAccepted || p == Rejected
    case EnterTerminal => p == RolledBack || (IsTerminal(p) && p != Terminal)
    case _ => Place(p) < 10 && FORWARD[Place(p)] == e
  }

  lemma ForwardRowAccepted(t: Transition)
    requires t in PROPOSAL_ROWS || t in VERIFICATION_ROWS
    ensures AcceptedIn(t.from, t.event)
  {
  }

  lemma SettlingRowAccepted(t: Transition)
    requires t in VERDICT_ROWS || t in SETTLE_ROWS || t in TERMINAL_ROWS
    ensures AcceptedIn(t.from, t.event)
  {
  }

  lemma CancelRowAccepted(t: Transition)
    requires t in EARLY_CANCEL_ROWS || t in LATE_CANCEL_ROWS || t in FAIL_ROWS
    ensures AcceptedIn(t.from, t.event)
  {
  }

  lemma SupersedeRowAccepted(t: Transition)
    requires t in EARLY_SUPERSEDE_ROWS || t in LATE_SUPERSEDE_ROWS
    ensures AcceptedIn(t.from, t.event)
  {
  }

  lemma ExpireRowAccepted(t: Transition)
    requires t in EARLY_EXPIRE_ROWS || t in LATE_EXPIRE_ROWS
    ensures AcceptedIn(t.from, t.event)
  {
  }

  lemma EveryRowAccepted(t: Transition)
    requires t in TABLE
    ensures AcceptedIn(t.from, t.event)
  {
    hide AcceptedIn;
    TableIsItsGroups(t);
    if t in PROPOSAL_ROWS || t in VERIFICATION_ROWS {
      ForwardRowAccepted(t);
    } else if t in VERDICT_ROWS || t in SETTLE_ROWS || t in TERMINAL_ROWS {
      SettlingRowAccepted(t);
    } else if t in EARLY_CANCEL_ROWS || t in LATE_CANCEL_ROWS || t in FAIL_ROWS {
      CancelRowAccepted(t);
    } else if t in EARLY_SUPERSEDE_ROWS || t in LATE_SUPERSEDE_ROWS {
      SupersedeRowAccepted(t);
    } else {
      ExpireRowAccepted(t);
    }
  }

  lemma ForwardIsRow(p: Phase, e: Event)
    requires Place(p) < 10 && FORWARD[Place(p)] == e
    ensures var t := Transition(p, e, Destination(p, e)); t in PROPOSAL_ROWS || t in VERIFICATION_ROWS
  {
  }

  lemma SettlingIsRow(p: Phase, e: Event)
    requires e in {ProposalRetry, ProposalFail, AcceptPartial, AcceptFull, RejectAll, Commit, Rollback, Retry}
    requires AcceptedIn(p, e)
    ensures var t := Transition(p, e, Destination(p, e)); t in PROPOSAL_ROWS || t in VERDICT_ROWS || t in SETTLE_ROWS
  {
  }

  lemma CancelIsRow(p: Phase)
    requires AcceptedIn(p, Cancel)
    ensures var t := Transition(p, Cancel, CancelRequested); t in EARLY_CANCEL_ROWS || t in LATE_CANCEL_ROWS
  {
  }

  lemma SupersedeIsRow(p: Phase)
    requires AcceptedIn(p, Supersede)
    ensures var t := Transition(p, Supersede, Superseded); t in EARLY_SUPERSEDE_ROWS || t in LATE_SUPERSEDE_ROWS
  {
  }

  lemma ExpireIsRow(p: Phase)
    requires AcceptedIn(p, Expire)
    ensures var t := Transition(p, Expire, Destination(p, Expire));
            t in EARLY_EXPIRE_ROWS || t in LATE_EXPIRE_ROWS || t in LATE_CANCEL_ROWS
  {
  }

  lemma EndingIsRow(p: Phase, e: Event)
    requires (e == Fail || e == EnterTerminal) && AcceptedIn(p, e)
    ensures var t := Transition(p, e, Destination(p, e)); t in FAIL_ROWS || t in TERMINAL_ROWS
  {
  }

  lemma AcceptedIsRow(p: Phase, e: Event)
    requires AcceptedIn(p, e)
    ensures InSomeGroup(Transition(p, e, Destination(p, e)))
  {
    hide PROPOSAL_ROWS, VERIFICATION_ROWS, VERDICT_ROWS, SETTLE_ROWS, EARLY_CANCEL_ROWS, LATE_CANCEL_ROWS,
         EARLY_SUPERSEDE_ROWS, LATE_SUPERSEDE_ROWS, EARLY_EXPIRE_ROWS, LATE_EXPIRE_ROWS, FAIL_ROWS, TERMINAL_ROWS,
         FORWARD;
    match e {
      case Null =>
      case ProposalRetry | ProposalFail | AcceptPartial | AcceptFull | RejectAll | Commit | Rollback | Retry =>
        SettlingIsRow(p, e);
      case Cancel => CancelIsRow(p);
      case Supersede => SupersedeIsRow(p);
      case Expire => ExpireIsRow(p);
      case Fail | EnterTerminal => EndingIsRow(p, e);
      case _ => ForwardIsRow(p, e);
    }
  }

  /**
   * The whole table, both ways: an event is accepted in exactly these phases, and leads to its one destination. A
   * cycle can be cancelled, superseded or expired from every phase before the verdict but one, in which its
   * verification is reserved.
   */
  lemma TargetExactly(p: Phase, e: Event)
    ensures Target(p, e) == if AcceptedIn(p, e) then Some(Destination(p, e)) else None
  {
    hide Target, AcceptedIn;
    if Target(p, e).Some? {
      Declared(p, e);
      EveryRowAccepted(Transition(p, e, Target(p, e).value));
    }
    if AcceptedIn(p, e) {
      var t := Transition(p, e, Destination(p, e));
      AcceptedIsRow(p, e);
      TableIsItsGroups(t);
      TargetIffRow(p, e, t.to);
    }
  }

  // ---------------------------------------------------------------------------
  // Runs
  // ---------------------------------------------------------------------------

  /** A machine's phase together with what has happened to it. */
  datatype History = History(phase: Phase, taken: nat, retries: nat, commits: nat, sinceReady: seq<Event>)

  datatype Attempted = Attempted(event: Event, guard: bool)

  function Record(h: History, a: Attempted): History {
    match Target(h.phase, a.event)
    case None => h
    case Some(to) =>
      if !a.guard then h
      else History(to, h.taken + 1,
                   h.retries + (if a.event.Retry? then 1 else 0),
                   h.commits + (if a.event.Commit? then 1 else 0),
                   if to.Ready? then [] else h.sinceReady + [a.event])
  }

  function Replay(h: History, attempts: seq<Attempted>): History
    decreases |attempts|
  {
    if |attempts| == 0 then h else Replay(Record(h, attempts[0]), attempts[1..])
  }

  const START := History(Ready, 0, 0, 0, [])

  predicate Measured(h: History) {
    && h.taken + Rank(h.phase) <= 13 * (h.retries + 1)
    && h.commits <= 1
    && (h.commits == 1 ==> h.phase.Committed? || h.phase.Terminal?)
  }

  predicate Ordered(h: History) {
    && (Place(h.phase) <= 10 ==> h.sinceReady == FORWARD[..Place(h.phase)])
    && (h.phase.PartiallyAccepted? ==> h.sinceReady == FORWARD + [AcceptPartial])
    && (h.phase.FullyAccepted? ==> h.sinceReady == FORWARD + [AcceptFull])
    && (h.phase.Committed? ==> h.sinceReady == Canonical(AcceptFull) || h.sinceReady == Canonical(AcceptPartial))
  }

  predicate Sound(h: History) {
    Measured(h) && Ordered(h)
  }

  lemma RecordKeepsSound(h: History, a: Attempted)
    requires Sound(h)
    ensures Sound(Record(h, a))
  {
    if Target(h.phase, a.event).Some? && a.guard {
      Declared(h.phase, a.event);
      StepKeepsSound(h, Transition(h.phase, a.event, Target(h.phase, a.event).value));
    }
  }

  function Advance(h: History, t: Transition): History {
    History(t.to, h.taken + 1,
            h.retries + (if t.event.Retry? then 1 else 0),
            h.commits + (if t.event.Commit? then 1 else 0),
            if t.to.Ready? then [] else h.sinceReady + [t.event])
  }

  lemma StepKeepsSound(h: History, t: Transition)
    requires Sound(h) && h.phase == t.from && RowLaw(t)
    ensures Sound(Advance(h, t))
  {
    hide Measured, Ordered, RowLaw;
    StepKeepsMeasured(h, t);
    StepKeepsOrdered(h, t);
  }

  lemma StepKeepsMeasured(h: History, t: Transition)
    requires Measured(h) && h.phase == t.from && RowLaw(t)
    ensures Measured(Advance(h, t))
  {
    hide FORWARD, Place;
  }

  lemma StepKeepsOrdered(h: History, t: Transition)
    requires Ordered(h) && h.phase == t.from && RowLaw(t)
    ensures Ordered(Advance(h, t))
  {
    hide Rank;
    if 0 < Place(t.to) <= 10 {
      var n := Place(t.from);
      assert FORWARD[..n] + [FORWARD[n]] == FORWARD[..n + 1];
    } else if t.to.PartiallyAccepted? || t.to.FullyAccepted? {
      assert FORWARD[..10] == FORWARD;
    } else if t.to.Committed? {
      var verdict := if t.from.FullyAccepted? then AcceptFull else AcceptPartial;
      assert FORWARD + [verdict] + [Commit] == Canonical(verdict);
    }
  }

  lemma {:induction false} ReplayKeepsSound(h: History, attempts: seq<Attempted>)
    requires Sound(h)
    ensures Sound(Replay(h, attempts))
    decreases |attempts|
  {
    if |attempts| > 0 {
      RecordKeepsSound(h, attempts[0]);
      ReplayKeepsSound(Record(h, attempts[0]), attempts[1..]);
    }
  }

  /**
   * Every run from Ready, with any events and any guard answers: at most 13 transitions per Retry-free
   * stretch, at most one Commit, and a machine that stands in Committed took exactly the canonical twelve
   * events since it last entered Ready.
   */
  lemma EveryRun(attempts: seq<Attempted>)
    ensures var h := Replay(START, attempts);
            && h.taken <= 13 * (h.retries + 1)
            && h.commits <= 1
            && (h.phase.Committed? ==> h.sinceReady == Canonical(AcceptFull) || h.sinceReady == Canonical(AcceptPartial))
  {
    ReplayKeepsSound(START, attempts);
  }

  /** An event the machine accepts in each phase but Terminal. */
  function SomeExit(p: Phase): Event
    requires !p.Terminal?
  {
    match p
    case Ready => PlanProposal
    case ProposalPlanned => ReserveProposal
    case ProposalReserved => DispatchProposal
    case ProposalDispatched => ProposalStarted
    case ProposalRunning => ProposalFinished
    case ProposalProduced => PlanVerification
    case VerificationPlanned => ReserveVerification
    case VerificationReserved => DispatchVerification
    case VerificationDispatched => VerificationStarted
    case VerificationRunning => VerificationFinished
    case Verified => AcceptFull
    case PartiallyAccepted => Commit
    case FullyAccepted => Commit
    case Rejected => Rollback
    case RolledBack => Retry
    case CancelRequested => Expire
    case RetryPending => Retry
    case _ => EnterTerminal
  }

  lemma ExitIsDeclared(p: Phase)
    requires !p.Terminal?
    ensures Target(p, SomeExit(p)).Some?
  {
    var t := Transition(p, SomeExit(p), Destination(p, SomeExit(p)));
    match p {
    case Ready | ProposalPlanned | ProposalReserved | ProposalDispatched | ProposalRunning =>
      assert t in PROPOSAL_ROWS;
    case ProposalProduced | VerificationPlanned | VerificationReserved | VerificationDispatched | VerificationRunning =>
      assert t in VERIFICATION_ROWS;
    case Verified =>
      assert t in VERDICT_ROWS;
    case PartiallyAccepted | FullyAccepted | Rejected | RolledBack | RetryPending =>
      assert t in SETTLE_ROWS;
    case CancelRequested =>
      assert t in LATE_CANCEL_ROWS;
    case Cancelled | Superseded | Expired | Failed | Committed =>
      assert t in TERMINAL_ROWS;
    case Terminal =>
    }
    TableIsItsGroups(t);
    TargetIffRow(p, SomeExit(p), t.to);
  }

  /**
   * The phases called terminal are not all absorbing: a phase refuses every event exactly when it is
   * Terminal itself, and the other terminal phases take EnterTerminal and nothing else.
   */
  lemma AbsorbingIffTerminal(p: Phase)
    ensures (forall e :: Target(p, e) == None) <==> p.Terminal?
    ensures IsTerminal(p) ==> forall e :: Target(p, e).Some? <==> e.EnterTerminal? && !p.Terminal?
  {
    forall e | Target(p, e).Some?
      ensures !p.Terminal? && (IsTerminal(p) ==> e.EnterTerminal?)
    {
      Declared(p, e);
    }
    if !p.Terminal? {
      ExitIsDeclared(p);
    }
  }

  /** A cycle that has not produced a proposal yet can always be cancelled. */
  lemma EarlyCancel(p: Phase)
    requires Place(p) <= 5
    ensures Target(p, Cancel) == Some(CancelRequested)
  {
    assert Transition(p, Cancel, CancelRequested) in EARLY_CANCEL_ROWS;
    TableIsItsGroups(Transition(p, Cancel, CancelRequested));
    TargetIffRow(p, Cancel, CancelRequested);
  }
}
