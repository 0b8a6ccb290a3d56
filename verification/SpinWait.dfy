/**
 The spin wait: a loop polls a callback, looks at the clock every sixteenth time, arms a hardware monitor on the
 buffer, polls once more and only then sleeps. Another thread may store to the buffer between any two steps;
 a store wakes a sleeper whose monitor was armed before it.
 */
module SpinWait {

  const U32: nat := 0x1_0000_0000

  /** Whether the monitor can be used, and the deadline on the clock if there is one. */
  datatype Config = Config(monitor: bool, haveTimeout: bool, deadline: real)

  datatype Pc = Top | Clock | Next | Recheck | Asleep | Pausing | ExitTrue | ExitTimeout | ExitError

  /**
   `condition` is what the callback would say now; `stores`, `armedAt` and `storedAt` are times on a count of
   all steps; `late` counts the polls at the top of the loop that began after the deadline.
   */
  datatype State = State(pc: Pc, condition: bool, triggered: bool, iteration: nat, clock: real,
                         now: nat, armedAt: nat, storedAt: nat, late: nat)

  datatype Event =
    | Store(condition: bool)   // another thread writes the buffer
    | Tick(seconds: real)      // time passes
    | Run(fails: bool)         // the waiter's next step; a callback or clock call may raise
    | Wake                     // the sleeper goes on: a store was seen, or the sleep timed out

  ghost predicate Initial(s: State) {
    s.pc == Top && s.iteration == 0 && s.late == 0 && s.armedAt <= s.now && s.storedAt <= s.now
  }

  ghost predicate CanRun(s: State) {
    !(s.pc == Asleep || s.pc == ExitTrue || s.pc == ExitTimeout || s.pc == ExitError)
  }

  ghost predicate Enabled(s: State, e: Event) {
    match e
    case Store(_) => true
    case Tick(d) => d >= 0.0
    case Run(_) => CanRun(s)
    case Wake => s.pc == Asleep
  }

  ghost function RunStep(c: Config, s: State, fails: bool): State
    requires CanRun(s)
  {
    match s.pc
    case Top =>
      var polled := s.(late := if c.haveTimeout && s.clock >= c.deadline then s.late + 1 else s.late);
      if fails then polled.(pc := ExitError)
      else if s.condition then polled.(pc := ExitTrue)
      else if c.haveTimeout && s.iteration % 16 == 0 then polled.(pc := Clock)
      else polled.(pc := Next)
    case Clock =>
      if fails then s.(pc := ExitError) else if s.clock >= c.deadline then s.(pc := ExitTimeout) else s.(pc := Next)
    case Next =>
      var on := s.(iteration := (s.iteration + 1) % U32);
      if c.monitor then on.(pc := Recheck, triggered := false, armedAt := s.now + 1) else on.(pc := Pausing)
    case Recheck =>
      if fails then s.(pc := ExitError) else if s.condition then s.(pc := ExitTrue) else s.(pc := Asleep)
    case Pausing => s.(pc := Top)
  }

  ghost function Apply(c: Config, s: State, e: Event): State
    requires Enabled(s, e)
  {
    var t := match e
      case Store(b) => s.(condition := b, triggered := true, storedAt := s.now + 1)
      case Tick(d) => s.(clock := s.clock + d)
      case Run(fails) => RunStep(c, s, fails)
      case Wake => s.(pc := Top);
    t.(now := s.now + 1)
  }

  ghost predicate Reaches(c: Config, s: State, es: seq<Event>, t: State)
    decreases |es|
  {
    if es == [] then s == t else Enabled(s, es[0]) && Reaches(c, Apply(c, s, es[0]), es[1..], t)
  }

  // ------------------------------------------------------------------ the invariant

  /** How many late polls the loop may have made when it is about to poll with this iteration count. */
  ghost function LateBound(iteration: nat): nat { if iteration % 16 == 0 then 15 else iteration % 16 - 1 }

  ghost predicate Times(s: State) { s.armedAt <= s.now && s.storedAt <= s.now }

  /** Asleep with the condition true means a store since the monitor was armed, and the monitor saw it. */
  ghost predicate NotMissed(s: State) {
    && (s.pc == Asleep && s.condition ==> s.storedAt > s.armedAt)
    && (s.pc == Recheck || s.pc == Asleep ==> (s.storedAt > s.armedAt <==> s.triggered))
  }

  ghost predicate LateOk(c: Config, s: State) {
    && (s.late > 0 ==> c.haveTimeout && s.clock >= c.deadline)
    && match s.pc
       case Clock => s.late <= 16 && s.iteration % 16 == 0 && c.haveTimeout
       case Next => s.late <= LateBound(s.iteration + 1) && (s.iteration % 16 == 0 ==> s.late == 0)
       case ExitTrue => s.late <= 16
       case ExitTimeout => s.late <= 16 && c.haveTimeout && s.clock >= c.deadline
       case ExitError => s.late <= 16
       case _ => s.late <= LateBound(s.iteration)
  }

  ghost predicate Inv(c: Config, s: State) { Times(s) && NotMissed(s) && LateOk(c, s) }

  lemma WrapMod16(i: nat)
    ensures (i % U32) % 16 == i % 16
  {
    var r, k := i % U32, i / U32 * 0x1000_0000;
    assert i == r + 16 * k;
    PlusMultiple(r, k);
  }

  lemma PlusMultiple(a: nat, k: nat)
    ensures (a + 16 * k) % 16 == a % 16
  {
  }

  lemma ApplyMissed(c: Config, s: State, e: Event)
    requires Times(s) && NotMissed(s) && Enabled(s, e)
    ensures Times(Apply(c, s, e)) && NotMissed(Apply(c, s, e))
  {
  }

  lemma LateBoundNext(i: nat)
    ensures i % 16 != 0 ==> LateBound(i) + 1 == LateBound(i + 1)
    ensures LateBound(i) <= 15 && LateBound(i % U32) == LateBound(i)
  {
    WrapMod16(i);
    NextMod16(i);
  }

  lemma NextMod16(i: nat)
    ensures (i + 1) % 16 == if i % 16 == 15 then 0 else i % 16 + 1
  {
  }

  lemma RunLate(c: Config, s: State, fails: bool)
    requires LateOk(c, s) && CanRun(s)
    ensures LateOk(c, RunStep(c, s, fails))
  {
    hide LateBound;
    LateBoundNext(s.iteration);
    LateBoundNext(s.iteration + 1);
  }

  lemma ApplyLate(c: Config, s: State, e: Event)
    requires LateOk(c, s) && Enabled(s, e)
    ensures LateOk(c, Apply(c, s, e))
  {
    hide LateBound, RunStep;
    if e.Run? { RunLate(c, s, e.fails); }
  }

  lemma {:induction false} ReachInv(c: Config, s: State, es: seq<Event>, t: State)
    requires Inv(c, s) && Reaches(c, s, es, t)
    ensures Inv(c, t)
    decreases |es|
  {
    hide Times, NotMissed, LateOk, Apply, Enabled;
    if es != [] {
      ApplyMissed(c, s, es[0]);
      ApplyLate(c, s, es[0]);
      ReachInv(c, Apply(c, s, es[0]), es[1..], t);
    }
  }

  lemma InitialInv(c: Config, s: State)
    requires Initial(s)
    ensures Inv(c, s)
  {
  }

  /**
   No lost wakeup: in every interleaving, a waiter that sleeps although the condition holds does so only because
   of a store after it armed its monitor, and the monitor has seen that store.
   */
  lemma NoLostWakeup(c: Config, s: State, es: seq<Event>, t: State)
    requires Initial(s) && Reaches(c, s, es, t) && t.pc == Asleep && t.condition
    ensures t.storedAt > t.armedAt && t.triggered
  {
    InitialInv(c, s);
    ReachInv(c, s, es, t);
  }

  /** A timeout is only reported past the deadline, and past it the loop polls at most sixteen more times. */
  lemma PromptTimeout(c: Config, s: State, es: seq<Event>, t: State)
    requires Initial(s) && Reaches(c, s, es, t)
    ensures t.late <= 16
    ensures t.pc == ExitTimeout ==> c.haveTimeout && t.clock >= c.deadline
  {
    InitialInv(c, s);
    ReachInv(c, s, es, t);
  }

  // ------------------------------------------------------------------ what the wait returns

  ghost predicate Done(s: State) { s.pc == ExitTrue || s.pc == ExitTimeout || s.pc == ExitError }

  /** The poll that decides: the callback says yes, says it failed, or the clock is past the deadline. */
  ghost predicate Decides(c: Config, s: State, e: Event, exit: Pc) {
    e.Run? && match exit
      case ExitTrue => (s.pc == Top || s.pc == Recheck) && s.condition && !e.fails
      case ExitTimeout => s.pc == Clock && c.haveTimeout && s.clock >= c.deadline && !e.fails
      case ExitError => (s.pc == Top || s.pc == Clock || s.pc == Recheck) && e.fails
      case _ => false
  }

  /**
   Every way out has its reason in the run: true only after a poll that found the condition true, a timeout only after
   a look at the clock past the deadline, an error only after a call that raised.
   */
  lemma {:induction false} ReasonToReturn(c: Config, s: State, es: seq<Event>, t: State) returns (i: nat, b: State)
    requires LateOk(c, s) && !Done(s) && Reaches(c, s, es, t) && Done(t)
    ensures i < |es| && Reaches(c, s, es[..i], b) && Enabled(b, es[i]) && Decides(c, b, es[i], t.pc)
    decreases |es|
  {
    hide LateOk, Apply;
    var u := Apply(c, s, es[0]);
    ApplyLate(c, s, es[0]);
    if Done(u) {
      i, b := 0, s;
      LastStep(c, s, es[0]);
      Returned(c, u, es[1..], t);
    } else {
      i, b := ReasonToReturn(c, u, es[1..], t);
      assert es[..i + 1][1..] == es[1..][..i];
      i := i + 1;
    }
  }

  lemma LastStep(c: Config, s: State, e: Event)
    requires Enabled(s, e) && !Done(s) && Done(Apply(c, s, e)) && LateOk(c, s)
    ensures Decides(c, s, e, Apply(c, s, e).pc)
  {
  }

  /** Over every run from the start of the wait. */
  lemma ReturnsForAReason(c: Config, s: State, es: seq<Event>, t: State)
    requires Initial(s) && Reaches(c, s, es, t) && Done(t)
    ensures exists i: nat, b: State ::
              i < |es| && Reaches(c, s, es[..i], b) && Enabled(b, es[i]) && Decides(c, b, es[i], t.pc)
  {
    hide LateOk, Reaches, Enabled, Decides;
    InitialInv(c, s);
    var i, b := ReasonToReturn(c, s, es, t);
  }

  /** The waiter's own steps: those of the loop and the waking up. */
  ghost function OwnSteps(es: seq<Event>): nat {
    if es == [] then 0 else OwnSteps(es[1..]) + if es[0].Run? || es[0].Wake? then 1 else 0
  }

  /** How many steps the waiter is from its next poll, that poll included. */
  ghost function ToPoll(c: Config, s: State): nat {
    match s.pc
    case Top => 1
    case Recheck => 1
    case Asleep => 2
    case Pausing => 2
    case Next => if c.monitor then 2 else 3
    case Clock => if c.monitor then 3 else 4
    case _ => 0
  }

  /**
   A condition that holds and is left alone is noticed: after at most four steps of its own, and two if it sleeps, the
   waiter has returned, and with true unless a call raised or the deadline had passed.
   */
  lemma {:induction false} TrueIsReported(c: Config, s: State, es: seq<Event>, t: State)
    requires s.condition && !Done(s) && (s.pc == Clock ==> c.haveTimeout)
    requires Reaches(c, s, es, t) && forall e :: e in es ==> !e.Store?
    ensures OwnSteps(es) <= ToPoll(c, s) <= 4 && (Done(t) <== OwnSteps(es) == ToPoll(c, s))
    ensures (forall e :: e in es && e.Run? ==> !e.fails) && !c.haveTimeout ==> !Done(t) || t.pc == ExitTrue
    decreases |es|
  {
    if es != [] {
      var u := Apply(c, s, es[0]);
      assert es[0] in es && forall e :: e in es[1..] ==> e in es;
      if Done(u) { Returned(c, u, es[1..], t); } else { TrueIsReported(c, u, es[1..], t); }
    }
  }

  lemma {:induction false} Returned(c: Config, s: State, es: seq<Event>, t: State)
    requires Done(s) && Reaches(c, s, es, t)
    ensures t.pc == s.pc && OwnSteps(es) == 0
    decreases |es|
  {
    if es != [] { Returned(c, Apply(c, s, es[0]), es[1..], t); }
  }
}
