/**
 Clients draining one queue of prompts. The queue is filled before the clients start: every prompt, then one
 sentinel per client. A client takes an item, works on a prompt and records it, and stops at a sentinel. The
 clients interleave in any way the event loop likes.
 */
module PromptQueue {
  import opened Arithmetic

  datatype Item = Prompt(idx: nat) | Sentinel

  datatype Phase = Waiting | Working(idx: nat) | Stopped

  datatype Client = Client(phase: Phase, sentinels: nat)

  datatype State = State(queue: seq<Item>, clients: seq<Client>, results: seq<nat>)

  function Filled(prompts: nat, n: nat): (q: seq<Item>)
    ensures |q| == prompts + n
    ensures forall k :: 0 <= k < prompts + n ==> q[k] == if k < prompts then Prompt(k) else Sentinel
  {
    seq(prompts + n, k requires 0 <= k < prompts + n => if k < prompts then Prompt(k) else Sentinel)
  }

  function Start(prompts: nat, n: nat): State {
    State(Filled(prompts, n), seq(n, _ => Client(Waiting, 0)), [])
  }

  /** A client that has not stopped and is not waiting for an item that is not there. */
  predicate Enabled(s: State, c: nat) {
    c < |s.clients| && match s.clients[c].phase
      case Waiting => s.queue != []
      case Working(_) => true
      case Stopped => false
  }

  function Step(s: State, c: nat): State
    requires Enabled(s, c)
  {
    match s.clients[c].phase
    case Waiting =>
      (match s.queue[0]
       case Sentinel => s.(queue := s.queue[1..],
           clients := s.clients[c := Client(Stopped, s.clients[c].sentinels + 1)])
       case Prompt(i) => s.(queue := s.queue[1..], clients := s.clients[c := s.clients[c].(phase := Working(i))]))
    case Working(i) =>
      s.(clients := s.clients[c := s.clients[c].(phase := Waiting)], results := s.results + [i])
  }

  // ------------------------------------------------------------------ counting

  /** How many clients are in a phase that `p` accepts. */
  ghost function Count(cs: seq<Client>, p: Phase -> bool): nat {
    if cs == [] then 0 else Count(cs[..|cs| - 1], p) + if p(cs[|cs| - 1].phase) then 1 else 0
  }

  const IsStopped: Phase -> bool := (p: Phase) => p.Stopped?
  const IsWorking: Phase -> bool := (p: Phase) => p.Working?
  function WorksOn(x: nat): Phase -> bool { p => p == Working(x) }

  lemma {:induction false} Recount(cs: seq<Client>, c: nat, x: Client, p: Phase -> bool)
    requires c < |cs|
    ensures Count(cs[c := x], p) + (if p(cs[c].phase) then 1 else 0) == Count(cs, p) + if p(x.phase) then 1 else 0
  {
    var n := |cs| - 1;
    if c < n {
      assert cs[c := x][..n] == cs[..n][c := x];
      Recount(cs[..n], c, x, p);
    } else {
      assert cs[c := x][..n] == cs[..n];
    }
  }

  lemma {:induction false} CountBounds(cs: seq<Client>, p: Phase -> bool)
    ensures Count(cs, p) <= |cs|
    ensures Count(cs, p) == |cs| <==> forall c :: 0 <= c < |cs| ==> p(cs[c].phase)
    ensures Count(cs, p) == 0 <==> forall c :: 0 <= c < |cs| ==> !p(cs[c].phase)
  {
    if cs != [] { CountBounds(cs[..|cs| - 1], p); }
  }

  // ------------------------------------------------------------------ the invariant

  /** How often prompt `x` is recorded or in work. */
  ghost function Held(s: State, x: nat): nat { multiset(s.results)[x] + Count(s.clients, WorksOn(x)) }

  /**
   `taken` items have left the queue: prompts first, each recorded or in work once, then a sentinel per stopped client.
   */
  ghost predicate Inv(s: State, prompts: nat, n: nat, taken: nat) {
    && taken <= prompts + n && s.queue == Filled(prompts, n)[taken..] && |s.clients| == n
    && Count(s.clients, IsStopped) == taken - Min(taken, prompts)
    && |s.results| + Count(s.clients, IsWorking) == Min(taken, prompts)
    && (forall x: nat :: Held(s, x) == if x < Min(taken, prompts) then 1 else 0)
    && forall c :: 0 <= c < n ==> s.clients[c].sentinels == if s.clients[c].phase.Stopped? then 1 else 0
  }

  lemma StartInv(prompts: nat, n: nat)
    ensures Inv(Start(prompts, n), prompts, n, 0)
  {
    var s := Start(prompts, n);
    CountBounds(s.clients, IsStopped);
    CountBounds(s.clients, IsWorking);
    forall x: nat ensures Held(s, x) == 0 { CountBounds(s.clients, WorksOn(x)); }
  }

  /** What one step takes off the queue. */
  ghost function Takes(s: State, c: nat): nat
    requires Enabled(s, c)
  {
    if s.clients[c].phase.Waiting? then 1 else 0
  }

  lemma TakeSentinel(s: State, c: nat, prompts: nat, n: nat, taken: nat)
    requires Inv(s, prompts, n, taken) && Enabled(s, c) && s.clients[c].phase.Waiting? && s.queue[0].Sentinel?
    ensures Inv(Step(s, c), prompts, n, taken + 1)
  {
    assert prompts <= taken;
    var x := Client(Stopped, s.clients[c].sentinels + 1);
    Recount(s.clients, c, x, IsStopped);
    Recount(s.clients, c, x, IsWorking);
    forall i: nat ensures Held(Step(s, c), i) == Held(s, i) { Recount(s.clients, c, x, WorksOn(i)); }
    assert Filled(prompts, n)[taken..][1..] == Filled(prompts, n)[taken + 1..];
  }

  lemma TakePrompt(s: State, c: nat, prompts: nat, n: nat, taken: nat)
    requires Inv(s, prompts, n, taken) && Enabled(s, c) && s.clients[c].phase.Waiting? && s.queue[0].Prompt?
    ensures Inv(Step(s, c), prompts, n, taken + 1)
  {
    assert taken < prompts && s.queue[0] == Prompt(taken);
    var x := s.clients[c].(phase := Working(taken));
    Recount(s.clients, c, x, IsStopped);
    Recount(s.clients, c, x, IsWorking);
    forall i: nat ensures Held(Step(s, c), i) == Held(s, i) + if i == taken then 1 else 0 {
      Recount(s.clients, c, x, WorksOn(i));
    }
    assert Filled(prompts, n)[taken..][1..] == Filled(prompts, n)[taken + 1..];
  }

  lemma RecordPrompt(s: State, c: nat, prompts: nat, n: nat, taken: nat)
    requires Inv(s, prompts, n, taken) && Enabled(s, c) && s.clients[c].phase.Working?
    ensures Inv(Step(s, c), prompts, n, taken)
  {
    var x := s.clients[c].(phase := Waiting);
    Recount(s.clients, c, x, IsStopped);
    Recount(s.clients, c, x, IsWorking);
    forall i: nat ensures Held(Step(s, c), i) == Held(s, i) { Recount(s.clients, c, x, WorksOn(i)); }
  }

  /** Every step of every client keeps the invariant. */
  lemma StepInv(s: State, c: nat, prompts: nat, n: nat, taken: nat)
    requires Inv(s, prompts, n, taken) && Enabled(s, c)
    ensures Inv(Step(s, c), prompts, n, taken + Takes(s, c))
  {
    hide Inv;
    if s.clients[c].phase.Waiting? {
      if s.queue[0].Sentinel? { TakeSentinel(s, c, prompts, n, taken); } else { TakePrompt(s, c, prompts, n, taken); }
    } else {
      RecordPrompt(s, c, prompts, n, taken);
    }
  }

  // ------------------------------------------------------------------ runs

  /** The state after the clients named in `schedule` have stepped in that order, if each could. */
  ghost predicate Runs(s: State, schedule: seq<nat>, t: State)
    decreases |schedule|
  {
    if schedule == [] then s == t else Enabled(s, schedule[0]) && Runs(Step(s, schedule[0]), schedule[1..], t)
  }

  lemma {:induction false} RunInv(s: State, schedule: seq<nat>, t: State, prompts: nat, n: nat, taken: nat)
    returns (after: nat)
    requires Inv(s, prompts, n, taken) && Runs(s, schedule, t)
    ensures Inv(t, prompts, n, after)
    decreases |schedule|
  {
    hide Inv, Step, Enabled;
    after := taken;
    if schedule != [] {
      StepInv(s, schedule[0], prompts, n, taken);
      after := RunInv(Step(s, schedule[0]), schedule[1..], t, prompts, n, taken + Takes(s, schedule[0]));
    }
  }

  /** In no reachable state does a client wait on an empty queue: whoever has not stopped can step. */
  lemma NobodyStarves(schedule: seq<nat>, t: State, prompts: nat, n: nat, c: nat)
    requires Runs(Start(prompts, n), schedule, t) && c < n
    ensures |t.clients| == n && (Enabled(t, c) <==> !t.clients[c].phase.Stopped?)
  {
    hide Runs, Start;
    StartInv(prompts, n);
    var taken := RunInv(Start(prompts, n), schedule, t, prompts, n, 0);
    CountBounds(t.clients, IsStopped);
  }

  /** At no point is a prompt recorded twice or before it was there, and no sentinel goes while a prompt is left. */
  lemma RecordedOnce(schedule: seq<nat>, t: State, prompts: nat, n: nat, x: nat)
    requires Runs(Start(prompts, n), schedule, t)
    ensures multiset(t.results)[x] <= if x < prompts then 1 else 0
    ensures (exists k :: 0 <= k < |t.queue| && t.queue[k].Prompt?) ==>
              forall c :: 0 <= c < |t.clients| ==> !t.clients[c].phase.Stopped? && t.clients[c].sentinels == 0
  {
    hide Runs, Start;
    StartInv(prompts, n);
    var taken := RunInv(Start(prompts, n), schedule, t, prompts, n, 0);
    assert Held(t, x) <= 1;
    CountBounds(t.clients, IsStopped);
  }

  ghost predicate AllStopped(s: State) { forall c :: 0 <= c < |s.clients| ==> s.clients[c].phase.Stopped? }

  /** When the gather returns, every prompt is recorded once and every client has eaten one sentinel. */
  lemma GatherComplete(schedule: seq<nat>, t: State, prompts: nat, n: nat)
    requires Runs(Start(prompts, n), schedule, t) && AllStopped(t) && n > 0
    ensures Complete(t, prompts) && t.queue == []
    ensures |t.clients| == n && forall c :: 0 <= c < n ==> t.clients[c].sentinels == 1
  {
    hide Runs, Start;
    StartInv(prompts, n);
    var taken := RunInv(Start(prompts, n), schedule, t, prompts, n, 0);
    GatheredResults(t, prompts, n, taken);
  }

  /** Each prompt recorded once and nothing else. */
  ghost predicate Complete(s: State, prompts: nat) {
    |s.results| == prompts && forall x: nat :: multiset(s.results)[x] == if x < prompts then 1 else 0
  }

  lemma GatheredResults(s: State, prompts: nat, n: nat, taken: nat)
    requires Inv(s, prompts, n, taken) && AllStopped(s) && n > 0
    ensures Complete(s, prompts) && taken == prompts + n
  {
    CountBounds(s.clients, IsStopped);
    CountBounds(s.clients, IsWorking);
    forall x: nat ensures multiset(s.results)[x] == if x < prompts then 1 else 0 {
      CountBounds(s.clients, WorksOn(x));
      assert Held(s, x) == if x < prompts then 1 else 0;
    }
  }

  // ------------------------------------------------------------------ termination

  /** Items still to take count twice, prompts in work once. */
  ghost function StepsLeft(s: State, prompts: nat, taken: nat): int {
    (prompts - Min(taken, prompts)) + Count(s.clients, IsWorking) + |s.queue|
  }

  lemma StepCounts(s: State, c: nat, prompts: nat, n: nat, taken: nat)
    requires Inv(s, prompts, n, taken) && Enabled(s, c)
    ensures StepsLeft(Step(s, c), prompts, taken + Takes(s, c)) == StepsLeft(s, prompts, taken) - 1
  {
    Recount(s.clients, c, Step(s, c).clients[c], IsWorking);
    assert s.clients[c := Step(s, c).clients[c]] == Step(s, c).clients;
  }

  lemma {:induction false} RunCounts(s: State, schedule: seq<nat>, t: State, prompts: nat, n: nat, taken: nat)
    returns (after: nat)
    requires Inv(s, prompts, n, taken) && Runs(s, schedule, t)
    ensures Inv(t, prompts, n, after) && |schedule| == StepsLeft(s, prompts, taken) - StepsLeft(t, prompts, after)
    decreases |schedule|
  {
    hide Inv, Step, Enabled, StepsLeft;
    after := taken;
    if schedule != [] {
      StepInv(s, schedule[0], prompts, n, taken);
      StepCounts(s, schedule[0], prompts, n, taken);
      after := RunCounts(Step(s, schedule[0]), schedule[1..], t, prompts, n, taken + Takes(s, schedule[0]));
    }
  }

  /** Every run is finite, at most two steps a prompt and one a client, and exactly that long when it gathers. */
  lemma RunLength(schedule: seq<nat>, t: State, prompts: nat, n: nat)
    requires Runs(Start(prompts, n), schedule, t) && n > 0
    ensures |schedule| <= 2 * prompts + n
    ensures AllStopped(t) <==> |schedule| == 2 * prompts + n
  {
    hide Runs, Start;
    StartInv(prompts, n);
    StartSteps(prompts, n);
    var taken := RunCounts(Start(prompts, n), schedule, t, prompts, n, 0);
    CountBounds(t.clients, IsStopped);
    CountBounds(t.clients, IsWorking);
  }

  lemma StartSteps(prompts: nat, n: nat)
    ensures StepsLeft(Start(prompts, n), prompts, 0) == 2 * prompts + n
  {
    CountBounds(Start(prompts, n).clients, IsWorking);
  }

  // ------------------------------------------------------------------ the clients as they run

  class Pool {
    var queue: seq<Item>
    var clients: seq<Client>
    var results: seq<nat>

    ghost function View(): State
      reads this
    {
      State(queue, clients, results)
    }

    constructor (prompts: nat, n: nat)
      ensures View() == Start(prompts, n)
    {
      queue, clients, results := Filled(prompts, n), seq(n, _ => Client(Waiting, 0)), [];
    }

    /** What client `c` does between two points where it may be suspended. */
    method Advance(c: nat)
      requires Enabled(View(), c)
      modifies this
      ensures View() == Step(old(View()), c)
    {
      match clients[c].phase {
        case Waiting =>
          var item := queue[0];
          queue := queue[1..];
          if item.Sentinel? {
            clients := clients[c := Client(Stopped, clients[c].sentinels + 1)];
          } else {
            clients := clients[c := clients[c].(phase := Working(item.idx))];
          }
        case Working(i) =>
          results := results + [i];
          clients := clients[c := clients[c].(phase := Waiting)];
      }
    }

    /** Start to gather: any client that has not stopped may be the next to run. */
    method RunToGather(ghost prompts: nat, ghost n: nat)
      requires View() == Start(prompts, n) && n > 0
      modifies this
      ensures AllStopped(View()) && Complete(View(), prompts)
    {
      hide Inv, Step, StepsLeft, Complete;
      StartInv(prompts, n);
      ghost var taken: nat := 0;
      StepsLeftBounds(View(), prompts, n, taken);
      while exists c :: 0 <= c < |clients| && !clients[c].phase.Stopped?
        invariant Inv(View(), prompts, n, taken) && StepsLeft(View(), prompts, taken) >= 0
        decreases StepsLeft(View(), prompts, taken)
      {
        var c :| 0 <= c < |clients| && !clients[c].phase.Stopped?;
        CanStep(View(), c, prompts, n, taken);
        StepInv(View(), c, prompts, n, taken);
        StepCounts(View(), c, prompts, n, taken);
        ghost var before := View();
        Advance(c);
        taken := taken + Takes(before, c);
        StepsLeftBounds(View(), prompts, n, taken);
      }
      GatheredResults(View(), prompts, n, taken);
    }
  }

  lemma StepsLeftBounds(s: State, prompts: nat, n: nat, taken: nat)
    requires Inv(s, prompts, n, taken)
    ensures StepsLeft(s, prompts, taken) >= 0
  {
  }

  lemma CanStep(s: State, c: nat, prompts: nat, n: nat, taken: nat)
    requires Inv(s, prompts, n, taken) && c < |s.clients| && !s.clients[c].phase.Stopped?
    ensures Enabled(s, c)
  {
    CountBounds(s.clients, IsStopped);
  }
}
