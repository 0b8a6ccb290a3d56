/**
 Weighted build times. Start and stop events of all build steps are swept in time order; while k steps run,
 a second of wall time counts as 1/k of a second for each of them. The reference definition shares each gap
 between consecutive event times equally among the steps that span it.
 */
module BuildSweep {
  import opened Lists
  import opened Sums

  datatype Task = Task(start: real, end: real)

  datatype Event = Event(time: real, stop: bool, task: nat)

  /** Sort key of the original: time, then "start" before "stop". */
  predicate NotAfter(a: Event, b: Event) {
    a.time < b.time || (a.time == b.time && (b.stop || !a.stop))
  }

  function StartOf(tasks: seq<Task>, i: nat): Event
    requires i < |tasks|
  {
    Event(tasks[i].start, false, i)
  }

  function StopOf(tasks: seq<Task>, i: nat): Event
    requires i < |tasks|
  {
    Event(tasks[i].end, true, i)
  }

  // ------------------------------------------------------------------ event order

  ghost predicate Sorted(es: seq<Event>) {
    forall i, j :: 0 <= i < j < |es| ==> NotAfter(es[i], es[j])
  }

  /** Inserts behind every event that may come first, which keeps equal events in arrival order. */
  function Insert(es: seq<Event>, e: Event): (r: seq<Event>)
    ensures |r| == |es| + 1
    ensures forall x :: x in r <==> x == e || x in es
  {
    if es == [] then [e]
    else if NotAfter(es[|es| - 1], e) then es + [e]
    else Insert(es[..|es| - 1], e) + [es[|es| - 1]]
  }

  lemma {:induction false} InsertSorted(es: seq<Event>, e: Event)
    requires Sorted(es)
    ensures Sorted(Insert(es, e))
  {
    if es != [] {
      var last := es[|es| - 1];
      if !NotAfter(last, e) {
        InsertSorted(es[..|es| - 1], e);
        forall x | x in Insert(es[..|es| - 1], e) ensures NotAfter(x, last) {}
      }
    }
  }

  lemma {:induction false} InsertNoDup(es: seq<Event>, e: Event)
    requires NoDup(es) && e !in es
    ensures NoDup(Insert(es, e))
  {
    if es != [] {
      var init, last := es[..|es| - 1], es[|es| - 1];
      assert es == init + [last];
      NoDupSnoc(init, last);
      if NotAfter(last, e) {
        NoDupSnoc(es, e);
      } else {
        InsertNoDup(init, e);
        NoDupSnoc(Insert(init, e), last);
      }
    }
  }

  /** The event list of a set of tasks, in the order the sweep visits it. */
  ghost predicate Timeline(tasks: seq<Task>, es: seq<Event>) {
    && |es| == 2 * |tasks| && Sorted(es) && NoDup(es)
    && (forall k :: 0 <= k < |es| ==>
          es[k].task < |tasks| && es[k].time == if es[k].stop then tasks[es[k].task].end else tasks[es[k].task].start)
    && (forall i :: 0 <= i < |tasks| ==> StartOf(tasks, i) in es && StopOf(tasks, i) in es)
  }

  method SortedEvents(tasks: seq<Task>) returns (es: seq<Event>)
    ensures Timeline(tasks, es)
  {
    es := [];
    for i := 0 to |tasks|
      invariant |es| == 2 * i && Sorted(es) && NoDup(es)
      invariant forall e :: e in es ==>
                  e.task < i && e.time == if e.stop then tasks[e.task].end else tasks[e.task].start
      invariant forall k :: 0 <= k < i ==> StartOf(tasks, k) in es && StopOf(tasks, k) in es
    {
      var a, b := StartOf(tasks, i), StopOf(tasks, i);
      InsertSorted(es, a);
      InsertNoDup(es, a);
      InsertSorted(Insert(es, a), b);
      InsertNoDup(Insert(es, a), b);
      es := Insert(Insert(es, a), b);
    }
  }

  // ------------------------------------------------------------------ reference: every gap is shared

  /** The task runs throughout the interval. */
  predicate Covers(t: Task, a: real, b: real) {
    t.start <= a && b <= t.end
  }

  function CountTo(tasks: seq<Task>, a: real, b: real, n: nat): nat
    requires n <= |tasks|
  {
    if n == 0 then 0 else CountTo(tasks, a, b, n - 1) + if Covers(tasks[n - 1], a, b) then 1 else 0
  }

  ghost function Gap(es: seq<Event>, m: int): real {
    if 0 <= m < |es| - 1 then es[m + 1].time - es[m].time else 0.0
  }

  /** How many tasks run throughout the gap between events `m` and `m + 1`. */
  ghost function Parallel(tasks: seq<Task>, es: seq<Event>, m: int): nat {
    if 0 <= m < |es| - 1 then CountTo(tasks, es[m].time, es[m + 1].time, |tasks|) else 0
  }

  /** One running task's share of the gap. */
  ghost function Rate(tasks: seq<Task>, es: seq<Event>, m: int): real {
    if Parallel(tasks, es, m) > 0 then Gap(es, m) / Parallel(tasks, es, m) as real else 0.0
  }

  ghost predicate Spans(tasks: seq<Task>, es: seq<Event>, i: int, m: int) {
    0 <= i < |tasks| && 0 <= m < |es| - 1 && Covers(tasks[i], es[m].time, es[m + 1].time)
  }

  ghost function Part(tasks: seq<Task>, es: seq<Event>, i: int, m: int): real {
    if Spans(tasks, es, i, m) then Rate(tasks, es, m) else 0.0
  }

  /** The weighted duration a task deserves. */
  ghost function Share(tasks: seq<Task>, es: seq<Event>, i: int): real
    requires es != []
  {
    Sum(|es| - 1, m => Part(tasks, es, i, m))
  }

  ghost function BusyGap(tasks: seq<Task>, es: seq<Event>, m: int): real {
    if Parallel(tasks, es, m) > 0 then Gap(es, m) else 0.0
  }

  /** The time during which at least one task was running. */
  ghost function Busy(tasks: seq<Task>, es: seq<Event>): real
    requires es != []
  {
    Sum(|es| - 1, m => BusyGap(tasks, es, m))
  }

  // ------------------------------------------------------------------ positions

  function Position(es: seq<Event>, e: Event): (k: nat)
    requires e in es
    ensures k < |es| && es[k] == e
  {
    if es[|es| - 1] == e then |es| - 1 else Position(es[..|es| - 1], e)
  }

  lemma BeforeIff(es: seq<Event>, e: Event, k: nat)
    requires NoDup(es) && e in es && k <= |es|
    ensures e in es[..k] <==> Position(es, e) < k
  {
  }

  lemma TimesOrdered(tasks: seq<Task>, es: seq<Event>, i: nat, j: nat)
    requires Timeline(tasks, es) && i <= j < |es|
    ensures es[i].time <= es[j].time
  {
  }

  /** A task's start precedes its stop in the timeline exactly when it does in time. */
  lemma StartBeforeStopIff(tasks: seq<Task>, es: seq<Event>, i: nat)
    requires Timeline(tasks, es) && i < |tasks|
    ensures Position(es, StartOf(tasks, i)) < Position(es, StopOf(tasks, i)) <==> tasks[i].start <= tasks[i].end
  {
    var p, q := Position(es, StartOf(tasks, i)), Position(es, StopOf(tasks, i));
    if p < q { assert NotAfter(es[p], es[q]); } else { assert NotAfter(es[q], es[p]); }
  }

  /** Tasks whose start, but not stop, is among the first `k` events. */
  ghost function Running(tasks: seq<Task>, es: seq<Event>, k: nat): set<nat>
    requires k <= |es|
  {
    set i: nat | i < |tasks| && StartOf(tasks, i) in es[..k] && StopOf(tasks, i) !in es[..k]
  }

  ghost function Covering(tasks: seq<Task>, a: real, b: real, n: nat): set<nat>
    requires n <= |tasks|
  {
    set i: nat | i < n && Covers(tasks[i], a, b)
  }

  lemma {:induction false} CoveringCount(tasks: seq<Task>, a: real, b: real, n: nat)
    requires n <= |tasks|
    ensures |Covering(tasks, a, b, n)| == CountTo(tasks, a, b, n)
  {
    if n == 0 {
      assert Covering(tasks, a, b, n) == {};
    } else {
      CoveringCount(tasks, a, b, n - 1);
      var small := Covering(tasks, a, b, n - 1);
      assert Covering(tasks, a, b, n) == if Covers(tasks[n - 1], a, b) then small + {n - 1} else small;
    }
  }

  /** Between two events at different times, the running tasks are the ones that span the gap. */
  lemma RunningSpan(tasks: seq<Task>, es: seq<Event>, m: nat)
    requires Timeline(tasks, es) && m + 1 < |es| && es[m].time < es[m + 1].time
    ensures Running(tasks, es, m + 1) == Covering(tasks, es[m].time, es[m + 1].time, |tasks|)
    ensures |Running(tasks, es, m + 1)| == Parallel(tasks, es, m)
  {
    forall i: nat | i < |tasks|
      ensures i in Running(tasks, es, m + 1) <==> Covers(tasks[i], es[m].time, es[m + 1].time)
    {
      var a, b := StartOf(tasks, i), StopOf(tasks, i);
      BeforeIff(es, a, m + 1);
      BeforeIff(es, b, m + 1);
      PositionSide(tasks, es, a, m);
      PositionSide(tasks, es, b, m);
    }
    CoveringCount(tasks, es[m].time, es[m + 1].time, |tasks|);
  }

  lemma PositionSide(tasks: seq<Task>, es: seq<Event>, e: Event, m: nat)
    requires Timeline(tasks, es) && e in es && m + 1 < |es| && es[m].time < es[m + 1].time
    ensures Position(es, e) < m + 1 <==> e.time <= es[m].time
    ensures Position(es, e) < m + 1 || es[m + 1].time <= e.time
  {
    var k := Position(es, e);
    if k <= m { TimesOrdered(tasks, es, k, m); } else { TimesOrdered(tasks, es, m + 1, k); }
  }

  // ------------------------------------------------------------------ the sweep

  datatype Report = Report(weighted: seq<real>, total: real)

  ghost function SumOf(ws: seq<real>): real {
    Sum(|ws|, i => if 0 <= i < |ws| then ws[i] else 0.0)
  }

  lemma SumOfUpdate(ws: seq<real>, i: nat, w: real)
    requires i < |ws| && ws[i] == 0.0
    ensures SumOf(ws[i := w]) == SumOf(ws) + w
  {
    var one: int -> real := j => if j == i then w else 0.0;
    var before: int -> real := j => if 0 <= j < |ws| then ws[j] else 0.0;
    SumAdd(|ws|, before, one);
    SumSingle(|ws|, i, w);
    var ws' := ws[i := w];
    SumEq(|ws|, j => if 0 <= j < |ws'| then ws'[j] else 0.0, j => before(j) + one(j));
  }

  lemma {:induction false} SumSingle(n: nat, i: nat, w: real)
    ensures Sum(n, j => if j == i then w else 0.0) == if i < n then w else 0.0
  {
    if n > 0 { SumSingle(n - 1, i, w); }
  }

  /** Virtual time when event `k` is reached. */
  ghost function Clock(tasks: seq<Task>, es: seq<Event>, k: nat): real {
    Sum(k, m => Rate(tasks, es, m))
  }

  /** One step of the running total: the gap before event `k`, divided by how many tasks run. */
  lemma ClockTicks(tasks: seq<Task>, es: seq<Event>, k: nat, running: nat)
    requires Timeline(tasks, es) && k < |es| && running == |Running(tasks, es, k)|
    ensures Clock(tasks, es, k) ==
            Clock(tasks, es, Prev(k)) + if running > 0 then (es[k].time - es[Prev(k)].time) / running as real else 0.0
  {
    hide Timeline, Running, Parallel;
    if k == 0 {
      NoneRunning(tasks, es);
    } else {
      TimesOrdered(tasks, es, k - 1, k);
      if es[k - 1].time < es[k].time {
        RunningSpan(tasks, es, k - 1);
      }
    }
  }

  lemma NoneRunning(tasks: seq<Task>, es: seq<Event>)
    ensures Running(tasks, es, 0) == {}
  {
  }

  function Prev(k: nat): nat {
    if k == 0 then 0 else k - 1
  }

  /** A task's share is the virtual time that passes between its start and its stop. */
  lemma ShareIsElapsed(tasks: seq<Task>, es: seq<Event>, i: nat)
    requires Timeline(tasks, es) && i < |tasks| && tasks[i].start <= tasks[i].end
    ensures Share(tasks, es, i) ==
            Clock(tasks, es, Position(es, StopOf(tasks, i))) - Clock(tasks, es, Position(es, StartOf(tasks, i)))
  {
    hide Timeline, Rate, Spans, Position, NoDup, Sorted;
    StopKnown(tasks, es, i);
    TimelineSize(tasks, es);
    var p, q := Position(es, StartOf(tasks, i)), Position(es, StopOf(tasks, i));
    StartBeforeStopIff(tasks, es, i);
    var rate: int -> real := m => Rate(tasks, es, m);
    SumWindow(|es| - 1, p, q, rate);
    forall m | 0 <= m < |es| - 1 ensures Part(tasks, es, i, m) == if p <= m < q then rate(m) else 0.0 {
      InWindow(tasks, es, i, m);
    }
    SumEq(|es| - 1, m => Part(tasks, es, i, m), m => if p <= m < q then rate(m) else 0.0);
  }

  lemma InWindow(tasks: seq<Task>, es: seq<Event>, i: nat, m: nat)
    requires Timeline(tasks, es) && i < |tasks| && m < |es| - 1
    ensures Gap(es, m) == 0.0 ==> Rate(tasks, es, m) == 0.0
    ensures Gap(es, m) != 0.0 ==>
              (Spans(tasks, es, i, m) <==> Position(es, StartOf(tasks, i)) <= m < Position(es, StopOf(tasks, i)))
  {
    TimesOrdered(tasks, es, m, m + 1);
    if es[m].time < es[m + 1].time {
      PositionSide(tasks, es, StartOf(tasks, i), m);
      PositionSide(tasks, es, StopOf(tasks, i), m);
    }
  }

  /**
   The sweep. `None` stands for the exceptions of the original: no events at all, or a stop event whose
   task is not running. Neither a leftover running task nor a wrong weight is possible otherwise.
   */
  method Sweep(tasks: seq<Task>) returns (ghost es: seq<Event>, r: Option<Report>)
    ensures Timeline(tasks, es)
    ensures r.Some? <==> tasks != [] && forall i :: 0 <= i < |tasks| ==> tasks[i].start <= tasks[i].end
    ensures r.Some? ==> |r.value.weighted| == |tasks| && es != [] && r.value.total == Busy(tasks, es)
    ensures r.Some? ==> forall i :: 0 <= i < |tasks| ==> r.value.weighted[i] == Share(tasks, es, i)
  {
    hide Timeline, Clock, Share, Position, Sorted, Busy, Swept, Running;
    var events := SortedEvents(tasks);
    es := events;
    TimelineSize(tasks, es);
    if events == [] {
      return es, None;
    }
    var running: map<nat, real> := map[];
    var weighted := seq(|tasks|, _ => 0.0);
    var total, virtual, last := 0.0, 0.0, events[0].time;
    SweepBegins(tasks, events, weighted);
    for k := 0 to |events|
      invariant last == events[Prev(k)].time && virtual == Clock(tasks, events, Prev(k))
      invariant |weighted| == |tasks| && Swept(tasks, events, k, running, weighted, total)
    {
      var e := events[k];
      RunningCount(tasks, events, k, running, weighted, total);
      ClockTicks(tasks, events, k, |running|);
      if |running| > 0 {
        virtual := virtual + (e.time - last) / |running| as real;
      }
      if !e.stop {
        SweepStart(tasks, events, k, running, weighted, total);
        running := running[e.task := virtual];
      } else {
        SweepStop(tasks, events, k, running, weighted, total);
        if e.task !in running {
          return es, None;
        }
        var w := virtual - running[e.task];
        weighted := weighted[e.task := w];
        total := total + w;
        running := running - {e.task};
      }
      last := e.time;
    }
    SweepEnds(tasks, events, running, weighted, total);
    return es, Some(Report(weighted, total));
  }

  /** The sweep's state once the first `k` events are done: who runs and since when, and what has been recorded. */
  ghost predicate Swept(tasks: seq<Task>, es: seq<Event>, k: nat, running: map<nat, real>, weighted: seq<real>,
                        total: real) {
    && es != [] && k <= |es| && running.Keys == Running(tasks, es, k)
    && (forall i :: i in running ==> i < |tasks| && running[i] == StartClock(tasks, es, i))
    && |weighted| == |tasks| && total == SumOf(weighted)
    && (forall i :: 0 <= i < |tasks| ==> weighted[i] == Recorded(tasks, es, k, i))
    && StoppedInOrder(tasks, es, k)
  }

  lemma RunningCount(tasks: seq<Task>, es: seq<Event>, k: nat, running: map<nat, real>, weighted: seq<real>,
                     total: real)
    requires Swept(tasks, es, k, running, weighted, total)
    ensures |running| == |Running(tasks, es, k)|
  {
    hide Running, Recorded, SumOf, StartClock, StoppedInOrder;
    assert |running| == |running.Keys|;
  }

  lemma SweepBegins(tasks: seq<Task>, es: seq<Event>, weighted: seq<real>)
    requires es != [] && |weighted| == |tasks| && forall i :: 0 <= i < |weighted| ==> weighted[i] == 0.0
    ensures Swept(tasks, es, 0, map[], weighted, 0.0) && Clock(tasks, es, 0) == 0.0
  {
    hide Recorded, SumOf, StartClock, StoppedInOrder, Running;
    NothingYet(tasks, es, weighted);
  }

  lemma SweepStart(tasks: seq<Task>, es: seq<Event>, k: nat, running: map<nat, real>, weighted: seq<real>, total: real)
    requires Timeline(tasks, es) && k < |es| && Swept(tasks, es, k, running, weighted, total) && !es[k].stop
    ensures Swept(tasks, es, k + 1, running[es[k].task := Clock(tasks, es, k)], weighted, total)
  {
    hide Timeline, Clock, Recorded, SumOf, StartClock, StoppedInOrder, Running;
    StartStep(tasks, es, k);
  }

  lemma SweepStop(tasks: seq<Task>, es: seq<Event>, k: nat, running: map<nat, real>, weighted: seq<real>, total: real)
    requires Timeline(tasks, es) && k < |es| && Swept(tasks, es, k, running, weighted, total) && es[k].stop
    ensures es[k].task < |tasks| && (es[k].task in running <==> tasks[es[k].task].start <= tasks[es[k].task].end)
    ensures es[k].task in running ==>
              var w := Clock(tasks, es, k) - running[es[k].task];
              |weighted| == |tasks| && Swept(tasks, es, k +
                  1, running - {es[k].task}, weighted[es[k].task := w], total + w)
  {
    hide Timeline, Clock, Recorded, SumOf, StartClock, StoppedInOrder, Running, Share;
    StopStep(tasks, es, k);
    if es[k].task in running { SumOfUpdate(weighted, es[k].task, Clock(tasks, es, k) - running[es[k].task]); }
  }

  lemma SweepEnds(tasks: seq<Task>, es: seq<Event>, running: map<nat, real>, weighted: seq<real>, total: real)
    requires Timeline(tasks, es) && Swept(tasks, es, |es|, running, weighted, total)
    ensures |weighted| == |tasks| && total == Busy(tasks, es)
    ensures forall i :: 0 <= i < |tasks| ==> tasks[i].start <= tasks[i].end && weighted[i] == Share(tasks, es, i)
  {
    hide Timeline, Recorded, SumOf, StartClock, StoppedInOrder, Running, Share, Busy;
    AllStopped(tasks, es);
    TotalIsBusy(tasks, es, weighted);
  }

  ghost predicate StoppedInOrder(tasks: seq<Task>, es: seq<Event>, k: nat)
    requires k <= |es|
  {
    forall i :: 0 <= i < |tasks| && StopOf(tasks, i) in es[..k] ==> tasks[i].start <= tasks[i].end
  }

  /** Virtual time when a task started. */
  ghost function StartClock(tasks: seq<Task>, es: seq<Event>, i: nat): real
    requires i < |tasks|
  {
    if StartOf(tasks, i) in es then Clock(tasks, es, Position(es, StartOf(tasks, i))) else 0.0
  }

  lemma TimelineSize(tasks: seq<Task>, es: seq<Event>)
    requires Timeline(tasks, es)
    ensures |es| == 2 * |tasks|
  {
  }

  lemma NothingYet(tasks: seq<Task>, es: seq<Event>, weighted: seq<real>)
    requires es != [] && |weighted| == |tasks| && forall i :: 0 <= i < |weighted| ==> weighted[i] == 0.0
    ensures Clock(tasks, es, 0) == 0.0 && SumOf(weighted) == 0.0 && Running(tasks, es, 0) == {}
    ensures forall i :: 0 <= i < |tasks| ==> Recorded(tasks, es, 0, i) == 0.0
    ensures StoppedInOrder(tasks, es, 0)
  {
    SumZero(|weighted|, i => if 0 <= i < |weighted| then weighted[i] else 0.0);
  }

  lemma AllStopped(tasks: seq<Task>, es: seq<Event>)
    requires Timeline(tasks, es) && es != []
    ensures Running(tasks, es, |es|) == {}
    ensures forall i :: 0 <= i < |tasks| ==> Recorded(tasks, es, |es|, i) == Share(tasks, es, i)
    ensures StoppedInOrder(tasks, es, |es|) ==> forall i :: 0 <= i < |tasks| ==> tasks[i].start <= tasks[i].end
  {
    assert es[..|es|] == es;
  }

  /** A start event: its task joins the running ones, nothing is recorded. */
  lemma StartStep(tasks: seq<Task>, es: seq<Event>, k: nat)
    requires Timeline(tasks, es) && k < |es| && !es[k].stop && StoppedInOrder(tasks, es, k)
    ensures es[k].task < |tasks| && Running(tasks, es, k + 1) == Running(tasks, es, k) + {es[k].task}
    ensures StartClock(tasks, es, es[k].task) == Clock(tasks, es, k)
    ensures forall i :: 0 <= i < |tasks| ==> Recorded(tasks, es, k + 1, i) == Recorded(tasks, es, k, i)
    ensures StoppedInOrder(tasks, es, k + 1)
  {
    hide Timeline, Clock, Share, NoDup, Sorted;
    EventHere(tasks, es, k);
    RunningNext(tasks, es, k);
    var i := es[k].task;
    StartBeforeStopIff(tasks, es, i);
    StopKnown(tasks, es, i);
    BeforeIff(es, StopOf(tasks, i), k);
    Distinct(tasks, es);
  }

  lemma Distinct(tasks: seq<Task>, es: seq<Event>)
    requires Timeline(tasks, es)
    ensures NoDup(es)
  {
  }

  lemma StopKnown(tasks: seq<Task>, es: seq<Event>, i: nat)
    requires Timeline(tasks, es) && i < |tasks|
    ensures StopOf(tasks, i) in es && StartOf(tasks, i) in es && NoDup(es)
  {
  }

  /** A stop event: either its task is running and gets its share, or it ends before it starts. */
  lemma StopStep(tasks: seq<Task>, es: seq<Event>, k: nat)
    requires Timeline(tasks, es) && k < |es| && es[k].stop && StoppedInOrder(tasks, es, k)
    ensures es[k].task < |tasks| && Running(tasks, es, k + 1) == Running(tasks, es, k) - {es[k].task}
    ensures es[k].task in Running(tasks, es, k) <==> tasks[es[k].task].start <= tasks[es[k].task].end
    ensures es[k].task in Running(tasks, es, k) ==> StoppedInOrder(tasks, es, k + 1)
    ensures es[k].task in Running(tasks, es, k) ==>
              Share(tasks, es, es[k].task) == Clock(tasks, es, k) - StartClock(tasks, es, es[k].task)
    ensures Recorded(tasks, es, k, es[k].task) == 0.0
    ensures forall i :: 0 <= i < |tasks| ==>
              Recorded(tasks, es, k + 1, i) == if i ==
                  es[k].task then Share(tasks, es, i) else Recorded(tasks, es, k, i)
  {
    hide Timeline, Clock, Share, NoDup, Sorted;
    EventHere(tasks, es, k);
    RunningNext(tasks, es, k);
    var i := es[k].task;
    StopKnown(tasks, es, i);
    StartBeforeStopIff(tasks, es, i);
    BeforeIff(es, StartOf(tasks, i), k);
    if tasks[i].start <= tasks[i].end { ShareIsElapsed(tasks, es, i); }
  }

  /** What has been recorded for a task once the first `k` events are done. */
  ghost function Recorded(tasks: seq<Task>, es: seq<Event>, k: nat, i: nat): real
    requires es != [] && k <= |es| && i < |tasks|
  {
    if StopOf(tasks, i) in es[..k] then Share(tasks, es, i) else 0.0
  }

  lemma EventHere(tasks: seq<Task>, es: seq<Event>, k: nat)
    requires Timeline(tasks, es) && k < |es|
    ensures es[k].task < |tasks| && es[k] ==
            if es[k].stop then StopOf(tasks, es[k].task) else StartOf(tasks, es[k].task)
    ensures Position(es, es[k]) == k
    ensures forall e :: e in es[..k + 1] <==> e in es[..k] || e == es[k]
    ensures es[k] !in es[..k]
  {
    BeforeIff(es, es[k], k);
  }

  lemma RunningNext(tasks: seq<Task>, es: seq<Event>, k: nat)
    requires Timeline(tasks, es) && k < |es|
    ensures !es[k].stop ==> (Running(tasks, es, k + 1) == Running(tasks, es, k) + {es[k].task}
                             || tasks[es[k].task].end < tasks[es[k].task].start)
    ensures es[k].stop ==> Running(tasks, es, k + 1) == Running(tasks, es, k) - {es[k].task}
  {
    EventHere(tasks, es, k);
    var i := es[k].task;
    StartBeforeStopIff(tasks, es, i);
    BeforeIff(es, StopOf(tasks, i), k);
  }

  // ------------------------------------------------------------------ conservation

  lemma {:induction false} PartsSoFar(tasks: seq<Task>, es: seq<Event>, m: nat, k: nat)
    requires m < |es| - 1 && k <= |tasks|
    ensures Sum(k, i => Part(tasks, es, i, m)) ==
            CountTo(tasks, es[m].time, es[m + 1].time, k) as real * Rate(tasks, es, m)
  {
    hide Rate;
    if k > 0 { PartsSoFar(tasks, es, m, k - 1); }
  }

  /** The shares of one gap add up to the gap, or to nothing when nobody runs. */
  lemma PartsFillGap(tasks: seq<Task>, es: seq<Event>, m: nat)
    requires m < |es| - 1
    ensures Sum(|tasks|, i => Part(tasks, es, i, m)) == BusyGap(tasks, es, m)
  {
    PartsSoFar(tasks, es, m, |tasks|);
    var c := Parallel(tasks, es, m) as real;
    if c > 0.0 {
      assert c * (Gap(es, m) / c) == Gap(es, m);
    }
  }

  /** Weighted durations add up exactly to the time at least one task was running. */
  lemma SharesConserve(tasks: seq<Task>, es: seq<Event>)
    requires es != []
    ensures Sum(|tasks|, i => Share(tasks, es, i)) == Busy(tasks, es)
  {
    hide Part, BusyGap;
    var part: (int, int) -> real := (i, m) => Part(tasks, es, i, m);
    SumSwap(|tasks|, |es| - 1, part);
    forall i | 0 <= i < |tasks| ensures Share(tasks, es, i) == Sum(|es| - 1, m => part(i, m)) {
      SumEq(|es| - 1, m => Part(tasks, es, i, m), m => part(i, m));
    }
    SumEq(|tasks|, i => Share(tasks, es, i), i => Sum(|es| - 1, m => part(i, m)));
    forall m | 0 <= m < |es| - 1 ensures Sum(|tasks|, i => part(i, m)) == BusyGap(tasks, es, m) {
      PartsFillGap(tasks, es, m);
      SumEq(|tasks|, i => Part(tasks, es, i, m), i => part(i, m));
    }
    SumEq(|es| - 1, m => Sum(|tasks|, i => part(i, m)), m => BusyGap(tasks, es, m));
  }

  lemma TotalIsBusy(tasks: seq<Task>, es: seq<Event>, weighted: seq<real>)
    requires es != [] && |weighted| == |tasks| && forall i :: 0 <= i < |tasks| ==> weighted[i] == Share(tasks, es, i)
    ensures SumOf(weighted) == Busy(tasks, es)
  {
    hide Share, Busy;
    SharesConserve(tasks, es);
    SumEq(|tasks|, i => if 0 <= i < |weighted| then weighted[i] else 0.0, i => Share(tasks, es, i));
  }

  lemma {:induction false} GapsTelescope(es: seq<Event>, k: nat)
    requires k < |es|
    ensures Sum(k, m => Gap(es, m)) == es[k].time - es[0].time
  {
    if k > 0 { GapsTelescope(es, k - 1); }
  }

  /** No task is charged more than it took. */
  lemma ShareAtMostDuration(tasks: seq<Task>, es: seq<Event>, i: nat)
    requires Timeline(tasks, es) && i < |tasks| && tasks[i].start <= tasks[i].end
    ensures 0.0 <= Share(tasks, es, i) <= tasks[i].end - tasks[i].start
  {
    hide Timeline, Part, Gap, Position;
    StopKnown(tasks, es, i);
    TimelineSize(tasks, es);
    var p, q := Position(es, StartOf(tasks, i)), Position(es, StopOf(tasks, i));
    StartBeforeStopIff(tasks, es, i);
    var gap: int -> real := m => Gap(es, m);
    SumWindow(|es| - 1, p, q, gap);
    GapsTelescope(es, p);
    GapsTelescope(es, q);
    SumEq(p, m => Gap(es, m), gap);
    SumEq(q, m => Gap(es, m), gap);
    forall m | 0 <= m < |es| - 1
      ensures 0.0 <= Part(tasks, es, i, m) <= if p <= m < q then gap(m) else 0.0
    {
      PartBounded(tasks, es, i, m);
    }
    SumLe(|es| - 1, m => Part(tasks, es, i, m), m => if p <= m < q then gap(m) else 0.0);
    SumLe(|es| - 1, m => 0.0, m => Part(tasks, es, i, m));
    SumZero(|es| - 1, m => 0.0);
  }

  /** A task is charged its whole duration if and only if it never shares a moment with another. */
  lemma FullShareIff(tasks: seq<Task>, es: seq<Event>, i: nat)
    requires Timeline(tasks, es) && i < |tasks| && tasks[i].start <= tasks[i].end
    ensures es != [] && (Share(tasks, es, i) == tasks[i].end - tasks[i].start <==> Alone(tasks, es, i))
  {
    hide Timeline, Part, Gap, Position, Alone, Sum;
    StopKnown(tasks, es, i);
    TimelineSize(tasks, es);
    var p, q := Position(es, StartOf(tasks, i)), Position(es, StopOf(tasks, i));
    StartBeforeStopIff(tasks, es, i);
    var gap: int -> real := m => Gap(es, m);
    var part: int -> real := m => Part(tasks, es, i, m);
    var whole: int -> real := m => if p <= m < q then gap(m) else 0.0;
    SumWindow(|es| - 1, p, q, gap);
    GapsTelescope(es, p);
    GapsTelescope(es, q);
    SumEq(p, m => Gap(es, m), gap);
    SumEq(q, m => Gap(es, m), gap);
    SumEq(|es| - 1, m => Part(tasks, es, i, m), part);
    forall m | 0 <= m < |es| - 1 ensures part(m) <= whole(m) { PartBounded(tasks, es, i, m); }
    SumSameIff(|es| - 1, part, whole);
    AloneIff(tasks, es, i, part, whole);
  }

  /** Whenever it runs for a positive time, no other task runs with it. */
  ghost predicate Alone(tasks: seq<Task>, es: seq<Event>, i: nat) {
    forall m :: 0 <= m < |es| - 1 && Spans(tasks, es, i, m) && Gap(es, m) > 0.0 ==> Parallel(tasks, es, m) == 1
  }

  lemma AloneIff(tasks: seq<Task>, es: seq<Event>, i: nat, part: int -> real, whole: int -> real)
    requires Timeline(tasks, es) && i < |tasks| && StartOf(tasks, i) in es && StopOf(tasks, i) in es
    requires var p, q := Position(es, StartOf(tasks, i)), Position(es, StopOf(tasks, i));
             forall m :: 0 <= m < |es| - 1 ==>
               part(m) == Part(tasks, es, i, m) && whole(m) == if p <= m < q then Gap(es, m) else 0.0
    ensures Alone(tasks, es, i) <==> forall m :: 0 <= m < |es| - 1 ==> part(m) == whole(m)
  {
    hide Timeline, Position, Part, Gap, Parallel, Spans;
    forall m | 0 <= m < |es| - 1
      ensures part(m) == whole(m) <==> (Spans(tasks, es, i, m) && Gap(es, m) > 0.0 ==> Parallel(tasks, es, m) == 1)
    {
      FullPart(tasks, es, i, m);
    }
  }

  lemma FullPart(tasks: seq<Task>, es: seq<Event>, i: nat, m: nat)
    requires Timeline(tasks, es) && i < |tasks| && m < |es| - 1 && StartOf(tasks, i) in es && StopOf(tasks, i) in es
    ensures var p, q := Position(es, StartOf(tasks, i)), Position(es, StopOf(tasks, i));
            Part(tasks, es, i, m) == (if p <= m < q then Gap(es, m) else 0.0) <==>
            (Spans(tasks, es, i, m) && Gap(es, m) > 0.0 ==> Parallel(tasks, es, m) == 1)
  {
    hide Timeline, Position, CountTo;
    TimesOrdered(tasks, es, m, m + 1);
    InWindow(tasks, es, i, m);
    if Spans(tasks, es, i, m) && Gap(es, m) > 0.0 {
      SpansCounts(tasks, es[m].time, es[m + 1].time, |tasks|, i);
      SharedGap(Gap(es, m), Parallel(tasks, es, m));
    }
  }

  lemma {:induction false} SpansCounts(tasks: seq<Task>, a: real, b: real, n: nat, i: nat)
    requires i < n <= |tasks| && Covers(tasks[i], a, b)
    ensures CountTo(tasks, a, b, n) > 0
  {
    if i < n - 1 { SpansCounts(tasks, a, b, n - 1, i); }
  }

  lemma SharedGap(gap: real, c: nat)
    requires gap > 0.0 && c > 0
    ensures gap / c as real == gap <==> c == 1
  {
    var y, d := gap / c as real, c as real - 1.0;
    assert y * c as real == gap && y > 0.0;
    assert y * c as real == y + y * d;
    if c > 1 { assert y * d > 0.0; }
  }

  lemma PartBounded(tasks: seq<Task>, es: seq<Event>, i: nat, m: nat)
    requires Timeline(tasks, es) && i < |tasks| && m < |es| - 1
    ensures 0.0 <= Part(tasks, es, i, m) <=
            if Position(es, StartOf(tasks, i)) <= m < Position(es, StopOf(tasks, i)) then Gap(es, m) else 0.0
  {
    hide Timeline, Position;
    StopKnown(tasks, es, i);
    TimesOrdered(tasks, es, m, m + 1);
    InWindow(tasks, es, i, m);
    RateBounded(tasks, es, m);
  }

  lemma RateBounded(tasks: seq<Task>, es: seq<Event>, m: nat)
    requires Timeline(tasks, es) && m < |es| - 1
    ensures 0.0 <= Rate(tasks, es, m) <= Gap(es, m)
  {
    TimesOrdered(tasks, es, m, m + 1);
    var gap, c := Gap(es, m), Parallel(tasks, es, m) as real;
    if c >= 1.0 { Divided(gap, c); }
  }

  lemma Divided(x: real, c: real)
    requires 0.0 <= x && 1.0 <= c
    ensures 0.0 <= x / c <= x
  {
    var y := x / c;
    assert x == y * c;
    assert y * c >= y * 1.0;
  }

  /** Busy time never exceeds the span of the build, and equals it when no moment was idle. */
  lemma BusyWithinSpan(tasks: seq<Task>, es: seq<Event>)
    requires Timeline(tasks, es) && es != []
    ensures Busy(tasks, es) <= es[|es| - 1].time - es[0].time
    ensures (forall m :: 0 <= m < |es| - 1 && Gap(es, m) > 0.0 ==> Parallel(tasks, es, m) > 0) ==>
              Busy(tasks, es) == es[|es| - 1].time - es[0].time
  {
    hide Timeline, Parallel, Sum;
    GapsTelescope(es, |es| - 1);
    forall m | 0 <= m < |es| - 1 ensures 0.0 <= Gap(es, m) { TimesOrdered(tasks, es, m, m + 1); }
    SumLe(|es| - 1, m => BusyGap(tasks, es, m), m => Gap(es, m));
    if forall m :: 0 <= m < |es| - 1 && Gap(es, m) > 0.0 ==> Parallel(tasks, es, m) > 0 {
      SumEq(|es| - 1, m => BusyGap(tasks, es, m), m => Gap(es, m));
    }
  }

  ghost predicate IsEarliest(tasks: seq<Task>, x: real) {
    (exists i :: 0 <= i < |tasks| && tasks[i].start == x) && forall i :: 0 <= i < |tasks| ==> x <= tasks[i].start
  }

  ghost predicate IsLatest(tasks: seq<Task>, x: real) {
    (exists i :: 0 <= i < |tasks| && tasks[i].end == x) && forall i :: 0 <= i < |tasks| ==> tasks[i].end <= x
  }

  /**
   The span the summary prints. A negative earliest time counts as unset, so the loop finds the earliest start exactly
   when no start is negative or the last one is the earliest, and the latest end exactly when some end is not negative.
   */
  method Span(tasks: seq<Task>) returns (earliest: real, latest: real)
    ensures tasks == [] ==> earliest == -1.0 && latest == 0.0
    ensures tasks != [] ==>
              (IsEarliest(tasks, earliest)
               <==> || (forall i :: 0 <= i < |tasks| ==> 0.0 <= tasks[i].start)
                    || IsEarliest(tasks, tasks[|tasks| - 1].start))
    ensures IsLatest(tasks, latest) <==> exists i :: 0 <= i < |tasks| && 0.0 <= tasks[i].end
  {
    earliest, latest := -1.0, 0.0;
    for k := 0 to |tasks|
      invariant k == 0 ==> earliest == -1.0 && latest == 0.0
      invariant k > 0 ==> exists i :: 0 <= i < k && tasks[i].start == earliest
      invariant k > 0 && earliest < 0.0 ==> earliest == tasks[k - 1].start
      invariant (forall i :: 0 <= i < k ==> 0.0 <= tasks[i].start) ==> forall i :: 0 <= i < k ==>
                earliest <= tasks[i].start
      invariant k > 0 && (forall i :: 0 <= i < k ==> tasks[k - 1].start <= tasks[i].start) ==>
                earliest == tasks[k - 1].start
      invariant 0.0 <= latest && (latest == 0.0 || exists i :: 0 <= i < k && tasks[i].end == latest)
      invariant forall i :: 0 <= i < k ==> tasks[i].end <= latest
    {
      if earliest < 0.0 || tasks[k].start < earliest { earliest := tasks[k].start; }
      if tasks[k].end > latest { latest := tasks[k].end; }
    }
  }

  /** The printed span is the distance between the first and the last event of the sweep. */
  lemma SpanIsTimeline(tasks: seq<Task>, es: seq<Event>, earliest: real, latest: real)
    requires Timeline(tasks, es) && tasks != []
    requires IsEarliest(tasks, earliest) && IsLatest(tasks, latest) && forall i :: 0 <= i < |tasks| ==>
             tasks[i].start <= tasks[i].end
    ensures es[0].time == earliest && es[|es| - 1].time == latest
  {
    var i :| 0 <= i < |tasks| && tasks[i].start == earliest;
    var j :| 0 <= j < |tasks| && tasks[j].end == latest;
    TimesOrdered(tasks, es, 0, Position(es, StartOf(tasks, i)));
    TimesOrdered(tasks, es, Position(es, StopOf(tasks, j)), |es| - 1);
    EventHere(tasks, es, 0);
    EventHere(tasks, es, |es| - 1);
  }
}
