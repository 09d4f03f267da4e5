/**
 `_real_deadlock_detected`: two transactions lock two rows in opposite orders, with a barrier
 between the two locks, on a server that aborts one member of a wait cycle. Timeouts are left out.
 */
module Deadlock {
  import opened Wrappers

  datatype Worker = A | B {
    function Other(): Worker {
      if A? then B else A
    }
  }

  /** What a worker appends to `states`: None after a commit, SQLSTATE 40P01 for a deadlock victim. */
  datatype Verdict = Normal | Victim40P01

  datatype Pc =
    | Starting
    | HoldsFirst            // and waits at the barrier
    | PastBarrier
    | Blocked               // waits for its second row
    | HoldsBoth
    | Ended(verdict: Verdict) // committed or rolled back; locks released
    | Recorded(verdict: Verdict)

  /** Row 901 is A's first and B's second, row 902 the other way round: rows are named after whose first they are. */
  datatype State = State(a: Pc, b: Pc, rowA: Option<Worker>, rowB: Option<Worker>, states: seq<Verdict>) {
    function Pc(w: Worker): Pc {
      if w.A? then a else b
    }

    function At(w: Worker, pc: Pc): State {
      if w.A? then this.(a := pc) else this.(b := pc)
    }

    function Row(w: Worker): Option<Worker> {
      if w.A? then rowA else rowB
    }

    function Hold(row: Worker, holder: Option<Worker>): State {
      if row.A? then this.(rowA := holder) else this.(rowB := holder)
    }

    /** Commit and rollback release every row the worker holds. */
    function Release(w: Worker): State {
      this.(rowA := if rowA == Some(w) then None else rowA, rowB := if rowB == Some(w) then None else rowB)
    }
  }

  const INITIAL := State(Starting, Starting, None, None, [])

  datatype Action =
    | LockFirst(w: Worker)
    | PassBarrier(w: Worker)
    | RequestSecond(w: Worker)
    | Grant(w: Worker)
    | Abort(w: Worker)        // the server's deadlock detector picks w as the victim
    | Commit(w: Worker)
    | Record(w: Worker)

  /** Each waits for a row that the other holds. */
  predicate WaitCycle(s: State) {
    s.a == Blocked && s.b == Blocked && s.rowB == Some(B) && s.rowA == Some(A)
  }

  predicate Enabled(s: State, t: Action) {
    match t
    case LockFirst(w) => s.Pc(w) == Starting && s.Row(w) == None
    case PassBarrier(w) => s.Pc(w) == HoldsFirst && s.Pc(w.Other()) != Starting
    case RequestSecond(w) => s.Pc(w) == PastBarrier
    case Grant(w) => s.Pc(w) == Blocked && s.Row(w.Other()) == None
    case Abort(w) => WaitCycle(s)
    case Commit(w) => s.Pc(w) == HoldsBoth
    case Record(w) => s.Pc(w).Ended?
  }

  function Do(s: State, t: Action): State
    requires Enabled(s, t)
  {
    match t
    case LockFirst(w) => s.At(w, HoldsFirst).Hold(w, Some(w))
    case PassBarrier(w) => s.At(w, PastBarrier)
    case RequestSecond(w) =>
      if s.Row(w.Other()) == None then s.At(w, HoldsBoth).Hold(w.Other(), Some(w)) else s.At(w, Blocked)
    case Grant(w) => s.At(w, HoldsBoth).Hold(w.Other(), Some(w))
    case Abort(w) => s.Release(w).At(w, Ended(Victim40P01))
    case Commit(w) => s.Release(w).At(w, Ended(Normal))
    case Record(w) => s.At(w, Recorded(s.Pc(w).verdict)).(states := s.states + [s.Pc(w).verdict])
  }

  /** A run under any scheduler: the actions taken, in order. */
  ghost predicate IsRun(s: State, run: seq<Action>)
    decreases |run|
  {
    run == [] || (Enabled(s, run[0]) && IsRun(Do(s, run[0]), run[1..]))
  }

  ghost function After(s: State, run: seq<Action>): State
    requires IsRun(s, run)
    decreases |run|
  {
    if run == [] then s else After(Do(s, run[0]), run[1..])
  }

  predicate Aborted(pc: Pc) {
    (pc.Ended? || pc.Recorded?) && pc.verdict.Victim40P01?
  }

  predicate OwnsFirst(pc: Pc) {
    pc.HoldsFirst? || pc.PastBarrier? || pc.Blocked? || pc.HoldsBoth?
  }

  predicate Won(pc: Pc) {
    pc.HoldsBoth? || ((pc.Ended? || pc.Recorded?) && pc.verdict.Normal?)
  }

  /** Whoever got both rows, or committed, did so after the other was aborted; and not both are aborted. */
  predicate WinnerNeedsVictim(s: State, w: Worker) {
    && (Won(s.Pc(w)) ==> Aborted(s.Pc(w.Other())))
    && (Aborted(s.Pc(w)) ==> s.Pc(w.Other()).Blocked? || Won(s.Pc(w.Other())))
  }

  predicate RowsMatch(s: State, w: Worker) {
    && (s.Row(w) == Some(w) <==> OwnsFirst(s.Pc(w)))
    && (s.Row(w.Other()) == Some(w) <==> s.Pc(w).HoldsBoth?)
  }

  predicate BarrierHeld(s: State, w: Worker) {
    !(s.Pc(w).Starting? || s.Pc(w).HoldsFirst?) ==> !s.Pc(w.Other()).Starting?
  }

  /** `states` holds the verdicts of the workers that have appended theirs, in the order they did. */
  predicate LogMatches(s: State) {
    if s.a.Recorded? && s.b.Recorded? then
      s.states == [s.a.verdict, s.b.verdict] || s.states == [s.b.verdict, s.a.verdict]
    else if s.a.Recorded? then s.states == [s.a.verdict]
    else if s.b.Recorded? then s.states == [s.b.verdict]
    else s.states == []
  }

  predicate Protocol(s: State) {
    && RowsMatch(s, A) && RowsMatch(s, B)
    && BarrierHeld(s, A) && BarrierHeld(s, B)
    && WinnerNeedsVictim(s, A) && WinnerNeedsVictim(s, B)
  }

  predicate Invariant(s: State) {
    Protocol(s) && LogMatches(s)
  }

  function Rank(pc: Pc): nat {
    match pc
    case Starting => 6
    case HoldsFirst => 5
    case PastBarrier => 4
    case Blocked => 3
    case HoldsBoth => 2
    case Ended(_) => 1
    case Recorded(_) => 0
  }

  function Remaining(s: State): nat {
    Rank(s.a) + Rank(s.b)
  }

  lemma StepKeepsProtocol(s: State, t: Action)
    requires Protocol(s) && Enabled(s, t)
    ensures Protocol(Do(s, t))
    ensures Remaining(Do(s, t)) < Remaining(s)
  {
    SecondRowTaken(s);
    var next := Do(s, t);
    match t
    case LockFirst(w) => if w == A {} else {}
    case PassBarrier(w) => if w == A {} else {}
    case RequestSecond(w) => if w == A {} else {}
    case Grant(w) => if w == A {} else {}
    case Abort(w) => if w == A {} else {}
    case Commit(w) => if w == A {} else {}
    case Record(w) => if w == A {} else {}
  }

  /** Until someone is aborted, a worker past the barrier finds its second row taken. */
  lemma SecondRowTaken(s: State)
    requires Protocol(s)
    ensures s.a == PastBarrier || (s.a == Blocked && !Aborted(s.b)) ==> s.rowB == Some(B)
    ensures s.b == PastBarrier || (s.b == Blocked && !Aborted(s.a)) ==> s.rowA == Some(A)
    ensures Aborted(s.a) && !s.b.HoldsBoth? ==> s.rowA == None
    ensures Aborted(s.b) && !s.a.HoldsBoth? ==> s.rowB == None
    ensures s.a.Starting? ==> s.rowA == None
    ensures s.b.Starting? ==> s.rowB == None
  {
    assert s.rowA.Some? ==> s.rowA.value.A? || s.rowA.value.B?;
    assert s.rowB.Some? ==> s.rowB.value.A? || s.rowB.value.B?;
  }

  lemma StepKeeps(s: State, t: Action)
    requires Invariant(s) && Enabled(s, t)
    ensures Invariant(Do(s, t))
    ensures Remaining(Do(s, t)) < Remaining(s)
  {
    StepKeepsProtocol(s, t);
    hide Protocol;
    match t
    case LockFirst(w) => if w == A {} else {}
    case PassBarrier(w) => if w == A {} else {}
    case RequestSecond(w) => if w == A {} else {}
    case Grant(w) => if w == A {} else {}
    case Abort(w) => if w == A {} else {}
    case Commit(w) => if w == A {} else {}
    case Record(w) => if w == A {} else {}
  }

  /** An action that can be taken while a worker is unfinished. */
  function NextAction(s: State): Option<Action> {
    if s.a == Starting then Some(LockFirst(A))
    else if s.b == Starting then Some(LockFirst(B))
    else if s.a == HoldsFirst then Some(PassBarrier(A))
    else if s.b == HoldsFirst then Some(PassBarrier(B))
    else if s.a == PastBarrier then Some(RequestSecond(A))
    else if s.b == PastBarrier then Some(RequestSecond(B))
    else if s.a == HoldsBoth then Some(Commit(A))
    else if s.b == HoldsBoth then Some(Commit(B))
    else if s.a.Ended? then Some(Record(A))
    else if s.b.Ended? then Some(Record(B))
    else if s.a == Blocked && s.b == Blocked then Some(Abort(A))
    else if s.a == Blocked then Some(Grant(A))
    else if s.b == Blocked then Some(Grant(B))
    else None
  }

  /** Exactly one victim and one normal finish, recorded in either order. */
  predicate Finished(s: State) {
    s.a.Recorded? && s.b.Recorded? && (s.states == [Normal, Victim40P01] || s.states == [Victim40P01, Normal])
  }

  /** No state of the protocol is stuck except a finished one. */
  lemma Progress(s: State)
    requires Invariant(s)
    ensures NextAction(s).Some? ==> Enabled(s, NextAction(s).value)
    ensures NextAction(s).None? ==> Finished(s)
  {
    SecondRowTaken(s);
    assert !(s.a.Blocked? && Won(s.b) && !s.b.HoldsBoth?);
    assert !(s.b.Blocked? && Won(s.a) && !s.a.HoldsBoth?);
  }

  lemma {:induction false} RunKeeps(s: State, run: seq<Action>)
    requires Invariant(s) && IsRun(s, run)
    ensures Invariant(After(s, run))
    ensures |run| + Remaining(After(s, run)) <= Remaining(s)
    decreases |run|
  {
    if run == [] {
    } else {
      StepKeeps(s, run[0]);
      RunKeeps(Do(s, run[0]), run[1..]);
    }
  }

  lemma StartHolds()
    ensures Invariant(INITIAL) && Remaining(INITIAL) == 12
  {
  }

  /**
   Every run from the start, whatever the interleaving and whichever victim is picked: it has at most
   twelve actions; at no point has a worker locked both rows or committed unless the other was aborted
   first; and if nothing more can happen, exactly one worker has recorded 40P01 and the other a normal end.
   */
  lemma EveryRun(run: seq<Action>, w: Worker)
    requires IsRun(INITIAL, run)
    ensures var last := After(INITIAL, run);
            && |run| <= 12
            && (Won(last.Pc(w)) ==> Aborted(last.Pc(w.Other())))
            && ((forall t :: !Enabled(last, t)) ==> Finished(last))
  {
    hide After, IsRun, RowsMatch, BarrierHeld, LogMatches, Finished;
    assert Invariant(INITIAL) by { StartHolds(); }
    RunKeeps(INITIAL, run);
    Progress(After(INITIAL, run));
    if w == A {} else {}
  }

  /** Without the detector the deadlock is unavoidable: every run that can go no further has both workers blocked. */
  lemma {:induction false} UnavoidableWithoutDetector(s: State, run: seq<Action>)
    requires Invariant(s) && !Aborted(s.a) && !Aborted(s.b)
    requires IsRun(s, run) && forall t | t in run :: !t.Abort?
    ensures var last := After(s, run);
            && !Aborted(last.a) && !Aborted(last.b)
            && last.states == s.states
            && ((forall t: Action :: Enabled(last, t) ==> t.Abort?) ==> WaitCycle(last))
    decreases |run|
  {
    if run == [] {
      Progress(s);
    } else {
      var t := run[0];
      StepKeeps(s, t);
      UnavoidableWithoutDetector(Do(s, t), run[1..]);
    }
  }

  /** The fixture as a whole, under any scheduler: it terminates and reports the deadlock. */
  method RealDeadlockDetected() returns (detected: bool, states: seq<Verdict>)
    ensures detected
    ensures states == [Normal, Victim40P01] || states == [Victim40P01, Normal]
  {
    var s := INITIAL;
    while NextAction(s).Some?
      invariant Invariant(s)
      decreases Remaining(s)
    {
      Progress(s);
      var t: Action :| Enabled(s, t);
      StepKeeps(s, t);
      s := Do(s, t);
    }
    Progress(s);
    states := s.states;
    detected := Victim40P01 in states;
  }
}
