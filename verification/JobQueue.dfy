/**
 A Redis list as a job queue with its dead-letter list, shared by producers that check the
 length before they push and workers that pop, handle and push failures. Every Redis command
 is one step. The logs `enqueued`, `dequeued`, `done` and `failed` record what happened.
 Lists keep their head at index 0: producers push there and workers pop at the other end.
 */
module JobQueue {
  import opened Common

  const MAX_QUEUE_LEN := 10000
  const MAX_DLQ_LEN := 1000

  datatype Worker<P> = Idle | Handling(payload: P) | Trimming

  datatype State<P> = State(
    queue: seq<P>, dlq: seq<P>, checked: map<nat, P>, workers: seq<Worker<P>>,
    enqueued: seq<P>, dequeued: seq<P>, done: seq<P>, failed: seq<P>)

  datatype Step<P> =
    | Check(producer: nat, payload: P)
    | Push(producer: nat)
    | Pop(worker: nat)
    | Succeed(worker: nat)
    | Fail(worker: nat)
    | Trim(worker: nat)

  // ---- the steps ----

  /** The length check of an enqueue; a full queue turns the payload away. */
  function CheckStep<P>(st: State<P>, producer: nat, payload: P, producers: nat): State<P> {
    if producer < producers && producer !in st.checked && |st.queue| < MAX_QUEUE_LEN
    then st.(checked := st.checked[producer := payload]) else st
  }

  function PushStep<P>(st: State<P>, producer: nat): State<P> {
    if producer !in st.checked then st
    else
      var payload := st.checked[producer];
      st.(queue := [payload] + st.queue, checked := st.checked - {producer}, enqueued := st.enqueued + [payload])
  }

  function PopStep<P>(st: State<P>, w: nat): State<P> {
    if w >= |st.workers| || !st.workers[w].Idle? || st.queue == [] then st
    else
      var payload := st.queue[|st.queue| - 1];
      st.(queue := st.queue[..|st.queue| - 1], workers := st.workers[w := Handling(payload)],
          dequeued := st.dequeued + [payload])
  }

  function SucceedStep<P>(st: State<P>, w: nat): State<P> {
    if w >= |st.workers| || !st.workers[w].Handling? then st
    else st.(workers := st.workers[w := Idle], done := st.done + [st.workers[w].payload])
  }

  /** A failed job goes to the head of the dead-letter list; the trim is a command of its own. */
  function FailStep<P>(st: State<P>, w: nat): State<P> {
    if w >= |st.workers| || !st.workers[w].Handling? then st
    else
      var payload := st.workers[w].payload;
      st.(workers := st.workers[w := Trimming], dlq := [payload] + st.dlq, failed := st.failed + [payload])
  }

  function Trimmed<P>(dlq: seq<P>): seq<P> {
    if |dlq| <= MAX_DLQ_LEN then dlq else dlq[..MAX_DLQ_LEN]
  }

  function TrimStep<P>(st: State<P>, w: nat): State<P> {
    if w >= |st.workers| || !st.workers[w].Trimming? then st
    else st.(workers := st.workers[w := Idle], dlq := Trimmed(st.dlq))
  }

  function TakeStep<P>(st: State<P>, step: Step<P>, producers: nat): State<P> {
    match step
    case Check(producer, payload) => CheckStep(st, producer, payload, producers)
    case Push(producer) => PushStep(st, producer)
    case Pop(w) => PopStep(st, w)
    case Succeed(w) => SucceedStep(st, w)
    case Fail(w) => FailStep(st, w)
    case Trim(w) => TrimStep(st, w)
  }

  function Run<P>(st: State<P>, steps: seq<Step<P>>, producers: nat): State<P> {
    if steps == [] then st
    else TakeStep(Run(st, steps[..|steps| - 1], producers), steps[|steps| - 1], producers)
  }

  function Start<P>(workers: nat): State<P> {
    State([], [], map[], seq(workers, _ => Idle), [], [], [], [])
  }

  // ---- what is where ----

  function Reversed<P>(s: seq<P>): (r: seq<P>)
    ensures |r| == |s|
  {
    if s == [] then [] else Reversed(s[1..]) + [s[0]]
  }

  lemma {:induction false} ReversedSnoc<P>(s: seq<P>, x: P)
    ensures Reversed(s + [x]) == [x] + Reversed(s)
  {
    if s != [] {
      assert (s + [x])[1..] == s[1..] + [x];
      ReversedSnoc(s[1..], x);
    }
  }

  /** How many workers have `x` in hand. */
  ghost function InHands<P>(ws: seq<Worker<P>>, x: P): nat {
    if ws == [] then 0 else InHands(ws[..|ws| - 1], x) + if ws[|ws| - 1] == Handling(x) then 1 else 0
  }

  lemma {:induction false} InHandsUpdate<P>(ws: seq<Worker<P>>, i: nat, w: Worker<P>, x: P)
    requires i < |ws|
    ensures InHands(ws[i := w], x) == InHands(ws, x) - Weigh(ws[i] == Handling(x)) + Weigh(w == Handling(x))
  {
    var front := ws[..|ws| - 1];
    if i < |ws| - 1 {
      InHandsUpdate(front, i, w, x);
      assert ws[i := w][..|ws| - 1] == front[i := w];
    } else {
      assert ws[i := w][..|ws| - 1] == front;
    }
  }

  function TrimsPending<P>(ws: seq<Worker<P>>): nat {
    if ws == [] then 0 else TrimsPending(ws[..|ws| - 1]) + if ws[|ws| - 1].Trimming? then 1 else 0
  }

  lemma {:induction false} TrimsPendingUpdate<P>(ws: seq<Worker<P>>, i: nat, w: Worker<P>)
    requires i < |ws|
    ensures TrimsPending(ws[i := w]) == TrimsPending(ws) - Weigh(ws[i].Trimming?) + Weigh(w.Trimming?)
  {
    var front := ws[..|ws| - 1];
    if i < |ws| - 1 {
      TrimsPendingUpdate(front, i, w);
      assert ws[i := w][..|ws| - 1] == front[i := w];
    } else {
      assert ws[i := w][..|ws| - 1] == front;
    }
  }

  // ---- invariants ----

  /** Payloads leave in the order in which they entered. */
  ghost predicate Fifo<P>(st: State<P>) {
    st.enqueued == st.dequeued + Reversed(st.queue)
  }

  /** Each time `x` was dequeued it is now with one worker, or done, or failed. */
  ghost predicate Accounted<P>(st: State<P>, x: P) {
    multiset(st.dequeued)[x] == InHands(st.workers, x) + multiset(st.done)[x] + multiset(st.failed)[x]
  }

  ghost predicate Capped<P>(st: State<P>, producers: nat) {
    && (forall p :: p in st.checked ==> p < producers)
    && |st.queue| + |st.checked| <= (if producers == 0 then 0 else MAX_QUEUE_LEN + producers - 1)
  }

  /** The dead-letter list holds the latest failures, newest first, and drops only what exceeds its cap. */
  ghost predicate DlqIsRecent<P>(st: State<P>) {
    && |st.dlq| <= |st.failed|
    && (forall i :: 0 <= i < |st.dlq| ==> st.dlq[i] == st.failed[|st.failed| - 1 - i])
    && (|st.dlq| >= MAX_DLQ_LEN || |st.dlq| == |st.failed|)
  }

  /** Its cap is exceeded only by workers between their push and their trim. */
  ghost predicate DlqCapped<P>(st: State<P>) {
    |st.dlq| <= MAX_DLQ_LEN + TrimsPending(st.workers)
  }

  lemma StepKeepsFifo<P>(st: State<P>, step: Step<P>, producers: nat)
    requires Fifo(st)
    ensures Fifo(TakeStep(st, step, producers))
  {
    if step.Pop? && st.queue != [] {
      var n := |st.queue|;
      assert st.queue == st.queue[..n - 1] + [st.queue[n - 1]];
      ReversedSnoc(st.queue[..n - 1], st.queue[n - 1]);
    } else if step.Push? && step.producer in st.checked {
      assert ([st.checked[step.producer]] + st.queue)[1..] == st.queue;
    }
  }

  lemma StepKeepsAccounted<P>(st: State<P>, step: Step<P>, producers: nat, x: P)
    requires Accounted(st, x)
    ensures Accounted(TakeStep(st, step, producers), x)
  {
    match step
    case Pop(w) =>
      if w < |st.workers| && st.queue != [] {
        InHandsUpdate(st.workers, w, Handling(st.queue[|st.queue| - 1]), x);
      }
    case Succeed(w) =>
      if w < |st.workers| {
        InHandsUpdate(st.workers, w, Idle, x);
      }
    case Fail(w) =>
      if w < |st.workers| {
        InHandsUpdate(st.workers, w, Trimming, x);
      }
    case Trim(w) =>
      if w < |st.workers| {
        InHandsUpdate(st.workers, w, Idle, x);
      }
    case _ =>
  }

  lemma {:induction false} BelowBound(s: set<nat>, n: nat)
    requires forall x :: x in s ==> x < n
    ensures |s| <= n
  {
    if n > 0 {
      BelowBound(s - {n - 1}, n - 1);
    } else {
      assert s == {};
    }
  }

  lemma StepKeepsCapped<P>(st: State<P>, step: Step<P>, producers: nat)
    requires Capped(st, producers)
    ensures Capped(TakeStep(st, step, producers), producers)
  {
    if step.Check? && step.producer < producers && step.producer !in st.checked {
      BelowBound(st.checked.Keys + {step.producer}, producers);
      var more := st.checked[step.producer := step.payload];
      assert more.Keys == st.checked.Keys + {step.producer};
      assert |more| == |more.Keys| && |st.checked| == |st.checked.Keys|;
    } else if step.Push? && step.producer in st.checked {
      var fewer := st.checked - {step.producer};
      assert fewer.Keys == st.checked.Keys - {step.producer};
      assert |fewer| == |fewer.Keys| && |st.checked| == |st.checked.Keys|;
    }
  }

  lemma StepKeepsDlqRecent<P>(st: State<P>, step: Step<P>, producers: nat)
    requires DlqIsRecent(st)
    ensures DlqIsRecent(TakeStep(st, step, producers))
  {
  }

  lemma StepKeepsDlqCapped<P>(st: State<P>, step: Step<P>, producers: nat)
    requires DlqCapped(st)
    ensures DlqCapped(TakeStep(st, step, producers))
  {
    match step
    case Pop(w) =>
      if w < |st.workers| && st.queue != [] {
        TrimsPendingUpdate(st.workers, w, Handling(st.queue[|st.queue| - 1]));
      }
    case Succeed(w) =>
      if w < |st.workers| {
        TrimsPendingUpdate(st.workers, w, Idle);
      }
    case Fail(w) =>
      if w < |st.workers| {
        TrimsPendingUpdate(st.workers, w, Trimming);
      }
    case Trim(w) =>
      if w < |st.workers| {
        TrimsPendingUpdate(st.workers, w, Idle);
      }
    case _ =>
  }

  lemma {:induction false} AllIdle<P>(ws: seq<Worker<P>>, x: P)
    requires forall i :: 0 <= i < |ws| ==> ws[i].Idle?
    ensures InHands(ws, x) == 0 && TrimsPending(ws) == 0
  {
    if ws != [] {
      AllIdle(ws[..|ws| - 1], x);
    }
  }

  /** Every interleaving of any producers and workers keeps all five invariants. */
  lemma {:induction false} EveryRunKeepsQueue<P>(workers: nat, producers: nat, steps: seq<Step<P>>, x: P)
    ensures var st := Run(Start(workers), steps, producers);
            Fifo(st) && Accounted(st, x) && Capped(st, producers) && DlqIsRecent(st) && DlqCapped(st)
  {
    if steps == [] {
      AllIdle(Start<P>(workers).workers, x);
    } else {
      var before, last := steps[..|steps| - 1], steps[|steps| - 1];
      EveryRunKeepsQueue(workers, producers, before, x);
      var st := Run(Start(workers), before, producers);
      StepKeepsFifo(st, last, producers);
      StepKeepsAccounted(st, last, producers, x);
      StepKeepsCapped(st, last, producers);
      StepKeepsDlqRecent(st, last, producers);
      StepKeepsDlqCapped(st, last, producers);
    }
  }

  lemma {:induction false} ReversedKeepsAll<P>(s: seq<P>)
    ensures multiset(Reversed(s)) == multiset(s)
  {
    if s != [] {
      ReversedKeepsAll(s[1..]);
      assert s == [s[0]] + s[1..];
    }
  }

  /** Every accepted payload is in exactly one place: the queue, a worker, done or failed. */
  lemma OnePlaceEach<P>(workers: nat, producers: nat, steps: seq<Step<P>>, x: P)
    ensures var st := Run(Start(workers), steps, producers);
            multiset(st.enqueued)[x]
            == multiset(st.queue)[x] + InHands(st.workers, x) + multiset(st.done)[x] + multiset(st.failed)[x]
  {
    EveryRunKeepsQueue(workers, producers, steps, x);
    ReversedKeepsAll(Run(Start(workers), steps, producers).queue);
  }

  // ---- the bound is reached ----

  /** `n` complete enqueues by producer 0. */
  function Enqueues<P>(x: P, n: nat): seq<Step<P>> {
    if n == 0 then [] else Enqueues(x, n - 1) + [Check(0, x)] + [Push(0)]
  }

  function Checks<P>(x: P, n: nat): seq<Step<P>> {
    if n == 0 then [] else Checks(x, n - 1) + [Check(n - 1, x)]
  }

  function Pushes<P>(n: nat): seq<Step<P>> {
    if n == 0 then [] else Pushes(n - 1) + [Push(n - 1)]
  }

  lemma RunSnoc<P>(st: State<P>, steps: seq<Step<P>>, last: Step<P>, producers: nat)
    ensures Run(st, steps + [last], producers) == TakeStep(Run(st, steps, producers), last, producers)
  {
    assert (steps + [last])[..|steps + [last]| - 1] == steps;
  }

  lemma {:induction false} RunConcat<P>(st: State<P>, a: seq<Step<P>>, b: seq<Step<P>>, producers: nat)
    ensures Run(st, a + b, producers) == Run(Run(st, a, producers), b, producers)
  {
    if b == [] {
      assert a + b == a;
    } else {
      var front := b[..|b| - 1];
      assert a + b == a + front + [b[|b| - 1]];
      RunConcat(st, a, front, producers);
      RunSnoc(st, a + front, b[|b| - 1], producers);
    }
  }

  lemma {:induction false} EnqueuesFill<P>(x: P, n: nat, producers: nat)
    requires n <= MAX_QUEUE_LEN && producers >= 1
    ensures |Run(Start(0), Enqueues(x, n), producers).queue| == n
    ensures Run(Start(0), Enqueues(x, n), producers).checked == map[]
  {
    if n > 0 {
      EnqueuesFill(x, n - 1, producers);
      RunSnoc(Start(0), Enqueues(x, n - 1), Check(0, x), producers);
      RunSnoc(Start(0), Enqueues(x, n - 1) + [Check(0, x)], Push(0), producers);
    }
  }

  /** Exactly the producers below `n` have passed their check. */
  ghost predicate PassedBelow<P>(checked: map<nat, P>, n: nat) {
    forall p: nat :: p in checked <==> p < n
  }

  lemma CheckPasses<P>(st: State<P>, x: P, n: nat, producers: nat)
    requires n < producers && |st.queue| < MAX_QUEUE_LEN && PassedBelow(st.checked, n)
    ensures CheckStep(st, n, x, producers).queue == st.queue
    ensures PassedBelow(CheckStep(st, n, x, producers).checked, n + 1)
  {
  }

  lemma {:induction false} ChecksPass<P>(st: State<P>, x: P, n: nat, producers: nat)
    requires n <= producers && |st.queue| < MAX_QUEUE_LEN && st.checked == map[]
    ensures Run(st, Checks(x, n), producers).queue == st.queue
    ensures PassedBelow(Run(st, Checks(x, n), producers).checked, n)
  {
    if n > 0 {
      ChecksPass(st, x, n - 1, producers);
      CheckPasses(Run(st, Checks(x, n - 1), producers), x, n - 1, producers);
      RunSnoc(st, Checks(x, n - 1), Check(n - 1, x), producers);
    }
  }

  lemma {:induction false} PushesLand<P>(st: State<P>, n: nat, producers: nat)
    requires forall p: nat :: p < n ==> p in st.checked
    ensures |Run(st, Pushes(n), producers).queue| == |st.queue| + n
    ensures forall p: nat :: n <= p && p in st.checked ==> p in Run(st, Pushes(n), producers).checked
  {
    if n > 0 {
      PushesLand(st, n - 1, producers);
      RunSnoc(st, Pushes(n - 1), Push(n - 1), producers);
    }
  }

  /** With `producers` producers the queue can really exceed its nominal cap by `producers` - 1. */
  lemma OvershootIsReached<P>(x: P, producers: nat)
    requires producers >= 1
    ensures |Run(Start(0), Enqueues(x, MAX_QUEUE_LEN - 1) + Checks(x, producers) + Pushes(producers), producers).queue|
         == MAX_QUEUE_LEN + producers - 1
  {
    var filled := Run(Start(0), Enqueues(x, MAX_QUEUE_LEN - 1), producers);
    EnqueuesFill(x, MAX_QUEUE_LEN - 1, producers);
    ChecksPass(filled, x, producers, producers);
    RunConcat(Start(0), Enqueues(x, MAX_QUEUE_LEN - 1), Checks(x, producers), producers);
    PushesLand(Run(filled, Checks(x, producers), producers), producers, producers);
    RunConcat(Start(0), Enqueues(x, MAX_QUEUE_LEN - 1) + Checks(x, producers), Pushes(producers), producers);
  }

  // ---- the dead-letter bound is reached ----

  /** The first `trimming` workers are between push and trim, the others are idle, and the queue is empty. */
  ghost predicate Failing<P>(st: State<P>, workers: nat, trimming: nat, failures: nat) {
    && |st.workers| == workers && st.queue == [] && st.checked == map[] && |st.dlq| == failures
    && (forall w :: trimming <= w < workers ==> st.workers[w].Idle?)
  }

  function OneFailure<P>(st: State<P>, w: nat, x: P): State<P> {
    FailStep(PopStep(PushStep(CheckStep(st, 0, x, 1), 0), w), w)
  }

  lemma OneFailureFails<P>(st: State<P>, w: nat, x: P, workers: nat, failures: nat)
    requires Failing(st, workers, w, failures) && w < workers
    ensures Failing(OneFailure(st, w, x), workers, w + 1, failures + 1)
    ensures OneFailure(st, w, x).workers[w] == Trimming
  {
    var checked := CheckStep(st, 0, x, 1);
    var pushed := PushStep(checked, 0);
    assert checked == st.(checked := map[0 := x]);
    assert pushed.queue == [x] && pushed.checked == map[] && pushed.workers == st.workers;
    var popped := PopStep(pushed, w);
    assert popped.queue == [] && popped.workers == st.workers[w := Handling(x)];
  }

  /** Extends a run by one failure of worker `w`. */
  lemma FailOnce<P>(start: State<P>, steps: seq<Step<P>>, w: nat, x: P, workers: nat, failures: nat)
    returns (more: seq<Step<P>>)
    requires Failing(Run(start, steps, 1), workers, w, failures) && w < workers
    ensures Run(start, more, 1) == OneFailure(Run(start, steps, 1), w, x)
    ensures Failing(Run(start, more, 1), workers, w + 1, failures + 1) && Run(start, more, 1).workers[w] == Trimming
  {
    OneFailureFails(Run(start, steps, 1), w, x, workers, failures);
    RunSnoc(start, steps, Check(0, x), 1);
    RunSnoc(start, steps + [Check(0, x)], Push(0), 1);
    RunSnoc(start, steps + [Check(0, x)] + [Push(0)], Pop(w), 1);
    RunSnoc(start, steps + [Check(0, x)] + [Push(0)] + [Pop(w)], Fail(w), 1);
    more := steps + [Check(0, x)] + [Push(0)] + [Pop(w)] + [Fail(w)];
  }

  /** Extends a run by one failure of worker 0 and its trim, below the cap. */
  lemma FailAndTrim<P>(start: State<P>, steps: seq<Step<P>>, x: P, workers: nat, failures: nat)
    returns (more: seq<Step<P>>)
    requires Failing(Run(start, steps, 1), workers, 0, failures) && workers >= 1 && failures < MAX_DLQ_LEN
    ensures Failing(Run(start, more, 1), workers, 0, failures + 1)
  {
    var failed := FailOnce(start, steps, 0, x, workers, failures);
    RunSnoc(start, failed, Trim(0), 1);
    more := failed + [Trim(0)];
  }

  /** With `workers` workers the dead-letter list can really exceed its cap by `workers`. */
  lemma DlqOvershootIsReached<P>(x: P, workers: nat) returns (steps: seq<Step<P>>)
    requires workers >= 1
    ensures |Run(Start(workers), steps, 1).dlq| == MAX_DLQ_LEN + workers
  {
    steps := [];
    for i := 0 to MAX_DLQ_LEN
      invariant Failing(Run(Start(workers), steps, 1), workers, 0, i)
    {
      steps := FailAndTrim(Start(workers), steps, x, workers, i);
    }
    for w := 0 to workers
      invariant Failing(Run(Start(workers), steps, 1), workers, w, MAX_DLQ_LEN + w)
    {
      steps := FailOnce(Start(workers), steps, w, x, workers, MAX_DLQ_LEN + w);
    }
  }

  // ---- the commands as methods ----

  datatype EnqueueError = QueueFull

  /**
   The two lists, with what the other producers and workers are doing as ghost state. Each
   method is the work of one caller; between two methods the others may move.
   */
  class RedisQueue<P> {
    var queue: seq<P>
    var dlq: seq<P>
    ghost var checked: map<nat, P>
    ghost var workers: seq<Worker<P>>
    ghost var enqueued: seq<P>
    ghost var dequeued: seq<P>
    ghost var done: seq<P>
    ghost var failed: seq<P>

    ghost function View(): State<P>
      reads this
    {
      State(queue, dlq, checked, workers, enqueued, dequeued, done, failed)
    }

    /** A check and, unless the queue is full, a push. */
    method Enqueue(payload: P, ghost producer: nat, ghost producers: nat) returns (r: Result<bool, EnqueueError>)
      requires producer < producers && producer !in checked
      modifies this`queue, this`enqueued
      ensures r.Err? <==> |old(queue)| >= MAX_QUEUE_LEN
      ensures queue == if r.Ok? then [payload] + old(queue) else old(queue)
      ensures View() == PushStep(CheckStep(old(View()), producer, payload, producers), producer)
    {
      var qLen := |queue|;
      if qLen >= MAX_QUEUE_LEN {
        return Err(QueueFull);
      }
      assert checked[producer := payload] - {producer} == checked;
      queue := [payload] + queue;
      enqueued := enqueued + [payload];
      return Ok(true);
    }

    /** No job within the blocking timeout reads as `None`. */
    method Dequeue(ghost w: nat) returns (payload: Option<P>)
      requires w < |workers| && workers[w].Idle?
      modifies this`queue, this`workers, this`dequeued
      ensures View() == PopStep(old(View()), w)
      ensures payload == if old(queue) == [] then None else Some(old(queue)[|old(queue)| - 1])
    {
      if |queue| == 0 {
        return None;
      }
      payload := Some(queue[|queue| - 1]);
      queue := queue[..|queue| - 1];
      workers := workers[w := Handling(payload.value)];
      dequeued := dequeued + [payload.value];
    }

    /** Push and trim of the dead-letter list. */
    method SendToDLQ(payload: P, ghost w: nat)
      requires w < |workers| && workers[w] == Handling(payload)
      modifies this`dlq, this`workers, this`failed
      ensures View() == TrimStep(FailStep(old(View()), w), w)
    {
      assert workers[w := Trimming][w := Idle] == workers[w := Idle];
      dlq := [payload] + dlq;
      failed := failed + [payload];
      if |dlq| > MAX_DLQ_LEN {
        dlq := dlq[..MAX_DLQ_LEN];
      }
      workers := workers[w := Idle];
    }

    /** A worker that runs alone for a number of turns of its loop. */
    method RunWorker(turns: nat, fails: P -> bool, ghost w: nat)
      requires w < |workers| && workers[w].Idle?
      modifies this`queue, this`dlq, this`workers, this`dequeued, this`done, this`failed
      ensures View() == Turns(old(View()), w, turns, fails)
    {
      for turn := 0 to turns
        invariant w < |workers| && workers[w].Idle?
        invariant View() == Turns(old(View()), w, turn, fails)
      {
        HandleNext(fails, w);
      }
    }

    /** The body of the worker's loop. */
    method HandleNext(fails: P -> bool, ghost w: nat)
      requires w < |workers| && workers[w].Idle?
      modifies this`queue, this`dlq, this`workers, this`dequeued, this`done, this`failed
      ensures w < |workers| && workers[w].Idle?
      ensures View() == Turn(old(View()), w, fails)
    {
      var payload := Dequeue(w);
      if payload.Some? {
        if fails(payload.value) {
          SendToDLQ(payload.value, w);
        } else {
          done := done + [payload.value];
          workers := workers[w := Idle];
        }
      }
    }
  }

  /** One turn of the worker's loop as steps: pop, then succeed, or fail and trim. */
  function Turn<P>(st: State<P>, w: nat, fails: P -> bool): State<P> {
    var popped := PopStep(st, w);
    if w < |popped.workers| && popped.workers[w].Handling? then
      if fails(popped.workers[w].payload) then TrimStep(FailStep(popped, w), w) else SucceedStep(popped, w)
    else popped
  }

  function Turns<P>(st: State<P>, w: nat, turns: nat, fails: P -> bool): State<P> {
    if turns == 0 then st else Turn(Turns(st, w, turns - 1, fails), w, fails)
  }
}
