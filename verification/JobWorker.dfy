/** What one worker makes of the queue while nobody else moves: which payloads it takes, and what becomes of each. */
module JobWorker {
  import opened Common
  import opened JobQueue

  // ---- the oldest first ----

  lemma TurnTakesOldest<P>(st: State<P>, w: nat, fails: P -> bool)
    requires w < |st.workers| && st.workers[w].Idle?
    ensures var st', n := Turn(st, w, fails), |st.queue|;
            && |st'.workers| == |st.workers| && st'.workers[w].Idle?
            && (n == 0 ==> st'.queue == [] && st'.dequeued == st.dequeued)
            && (n > 0 ==> st'.queue == st.queue[..n - 1] && st'.dequeued == st.dequeued + [st.queue[n - 1]])
  {
  }

  lemma ReversedTail<P>(s: seq<P>, i: nat)
    requires i < |s|
    ensures Reversed(s[i..]) == Reversed(s[i + 1..]) + [s[i]]
  {
    assert s[i..][1..] == s[i + 1..];
  }

  /** How many payloads a number of turns takes. */
  function Takes<P>(st: State<P>, turns: nat): nat {
    if turns <= |st.queue| then turns else |st.queue|
  }

  /** The payloads that a number of turns takes: the oldest, in the order in which they entered. */
  function Taken<P>(st: State<P>, turns: nat): seq<P> {
    Reversed(st.queue[|st.queue| - Takes(st, turns)..])
  }

  lemma TakenNext<P>(st: State<P>, turns: nat)
    requires turns < |st.queue|
    ensures Taken(st, turns + 1) == Taken(st, turns) + [st.queue[|st.queue| - turns - 1]]
  {
    ReversedTail(st.queue, |st.queue| - turns - 1);
  }

  lemma TakenAll<P>(st: State<P>, turns: nat)
    requires turns >= |st.queue|
    ensures Taken(st, turns + 1) == Taken(st, turns)
  {
  }

  /** The queue and the log of what was taken, after a number of turns. */
  ghost predicate TookOldest<P>(st: State<P>, st': State<P>, turns: nat) {
    && st'.queue == st.queue[..|st.queue| - Takes(st, turns)]
    && st'.dequeued == st.dequeued + Taken(st, turns)
  }

  lemma TookOneMore<P>(st: State<P>, before: State<P>, st': State<P>, turns: nat)
    requires TookOldest(st, before, turns)
    requires if before.queue == [] then st'.queue == [] && st'.dequeued == before.dequeued
             else var last := |before.queue| - 1;
                  st'.queue == before.queue[..last] && st'.dequeued == before.dequeued + [before.queue[last]]
    ensures TookOldest(st, st', turns + 1)
  {
    if turns < |st.queue| {
      TakenNext(st, turns);
    } else {
      TakenAll(st, turns);
    }
  }

  // ---- handled and failed ----

  /** The payloads of `taken`, in order, for which `p` holds. */
  function Those<P>(taken: seq<P>, p: P -> bool): seq<P> {
    if taken == [] then []
    else
      var front, last := Those(taken[..|taken| - 1], p), taken[|taken| - 1];
      if p(last) then front + [last] else front
  }

  function Handled<P>(fails: P -> bool): P -> bool {
    payload => !fails(payload)
  }

  /** The dead-letter list after more failures: they come first, newest at the head, and the cap cuts the end. */
  function DlqAfter<P>(dlq: seq<P>, failures: seq<P>): seq<P> {
    if failures == [] then dlq else Trimmed(Reversed(failures) + dlq)
  }

  lemma ThoseSnoc<P>(taken: seq<P>, x: P, p: P -> bool)
    ensures Those(taken + [x], p) == if p(x) then Those(taken, p) + [x] else Those(taken, p)
  {
    assert (taken + [x])[..|taken|] == taken;
  }

  lemma TrimmedAgain<P>(x: P, s: seq<P>)
    ensures Trimmed([x] + Trimmed(s)) == Trimmed([x] + s)
  {
    if |s| > MAX_DLQ_LEN {
      assert ([x] + s[..MAX_DLQ_LEN])[..MAX_DLQ_LEN] == ([x] + s)[..MAX_DLQ_LEN];
    }
  }

  lemma DlqAfterSnoc<P>(dlq: seq<P>, failures: seq<P>, x: P)
    ensures DlqAfter(dlq, failures + [x]) == Trimmed([x] + DlqAfter(dlq, failures))
  {
    ReversedSnoc(failures, x);
    if failures == [] {
      assert failures + [x] == [x] && Reversed([x]) == [x];
    } else {
      HeadFirst(x, Reversed(failures), dlq);
    }
  }

  lemma HeadFirst<P>(x: P, newer: seq<P>, older: seq<P>)
    ensures Trimmed([x] + newer + older) == Trimmed([x] + Trimmed(newer + older))
  {
    TrimmedAgain(x, newer + older);
    assert [x] + newer + older == [x] + (newer + older);
  }

  /** One payload: handled and logged, or failed and put at the head of the dead-letter list. */
  ghost predicate Settles<P>(st: State<P>, st': State<P>, x: P, fails: P -> bool) {
    && st'.done == (if fails(x) then st.done else st.done + [x])
    && st'.failed == (if fails(x) then st.failed + [x] else st.failed)
    && st'.dlq == (if fails(x) then Trimmed([x] + st.dlq) else st.dlq)
  }

  ghost predicate SameOthers<P>(st: State<P>, st': State<P>) {
    st'.workers == st.workers && st'.checked == st.checked && st'.enqueued == st.enqueued
  }

  lemma TurnSettles<P>(st: State<P>, w: nat, fails: P -> bool)
    requires w < |st.workers| && st.workers[w].Idle? && st.queue != []
    ensures SameOthers(st, Turn(st, w, fails))
    ensures Settles(st, Turn(st, w, fails), st.queue[|st.queue| - 1], fails)
  {
    var popped := PopStep(st, w);
    assert popped.workers[w := Idle] == st.workers && popped.workers[w := Trimming][w := Idle] == st.workers;
  }

  /**
   The payloads that the handler accepts are done and the others failed, each in order; failures
   lead the dead letters.
   */
  ghost predicate SortedOut<P>(st: State<P>, st': State<P>, taken: seq<P>, fails: P -> bool) {
    && st'.done == st.done + Those(taken, Handled(fails))
    && st'.failed == st.failed + Those(taken, fails)
    && st'.dlq == DlqAfter(st.dlq, Those(taken, fails))
  }

  lemma OneMoreSorted<P>(st: State<P>, before: State<P>, st': State<P>, taken: seq<P>, x: P, fails: P -> bool)
    requires SortedOut(st, before, taken, fails) && Settles(before, st', x, fails)
    ensures SortedOut(st, st', taken + [x], fails)
  {
    ThoseSnoc(taken, x, fails);
    ThoseSnoc(taken, x, Handled(fails));
    if fails(x) {
      DlqAfterSnoc(st.dlq, Those(taken, fails), x);
      assert st.failed + Those(taken, fails) + [x] == st.failed + (Those(taken, fails) + [x]);
    } else {
      assert st.done + Those(taken, Handled(fails)) + [x] == st.done + (Those(taken, Handled(fails)) + [x]);
    }
  }

  lemma EmptyTurn<P>(st: State<P>, w: nat, fails: P -> bool)
    requires w < |st.workers| && st.workers[w].Idle? && st.queue == []
    ensures Turn(st, w, fails) == st
  {
  }

  /** The state after a number of turns of one worker. */
  ghost predicate WorkedOff<P>(st: State<P>, st': State<P>, turns: nat, fails: P -> bool) {
    TookOldest(st, st', turns) && SortedOut(st, st', Taken(st, turns), fails) && SameOthers(st, st')
  }

  lemma OneTurnOn<P>(st: State<P>, before: State<P>, w: nat, turns: nat, fails: P -> bool)
    requires w < |st.workers| && st.workers[w].Idle? && WorkedOff(st, before, turns, fails)
    ensures WorkedOff(st, Turn(before, w, fails), turns + 1, fails)
  {
    var st' := Turn(before, w, fails);
    TurnTakesOldest(before, w, fails);
    TookOneMore(st, before, st', turns);
    if turns < |st.queue| {
      TakenNext(st, turns);
      TurnSettles(before, w, fails);
      OneMoreSorted(st, before, st', Taken(st, turns), st.queue[|st.queue| - turns - 1], fails);
    } else {
      TakenAll(st, turns);
      EmptyTurn(before, w, fails);
    }
  }

  /**
   A worker alone takes the oldest payloads, one a turn, in the order in which they entered: those
   that its handler accepts are done, the others failed, and nothing else moves.
   */
  lemma {:induction false} TurnsWorkOff<P>(st: State<P>, w: nat, turns: nat, fails: P -> bool)
    requires w < |st.workers| && st.workers[w].Idle?
    ensures WorkedOff(st, Turns(st, w, turns, fails), turns, fails)
  {
    if turns > 0 {
      TurnsWorkOff(st, w, turns - 1, fails);
      OneTurnOn(st, Turns(st, w, turns - 1, fails), w, turns - 1, fails);
    }
  }

  // ---- in one end, out the other ----

  /** One producer enqueues the payloads in order. */
  function Filled<P>(st: State<P>, payloads: seq<P>): State<P> {
    if payloads == [] then st
    else PushStep(CheckStep(Filled(st, payloads[..|payloads| - 1]), 0, payloads[|payloads| - 1], 1), 0)
  }

  lemma EnqueueAdds<P>(st: State<P>, x: P)
    requires st.checked == map[] && |st.queue| < MAX_QUEUE_LEN
    ensures PushStep(CheckStep(st, 0, x, 1), 0) == st.(queue := [x] + st.queue, enqueued := st.enqueued + [x])
  {
    assert st.checked[0 := x] - {0} == st.checked;
  }

  lemma {:induction false} FilledHolds<P>(workers: nat, payloads: seq<P>)
    requires |payloads| <= MAX_QUEUE_LEN
    ensures Filled(Start(workers), payloads)
         == Start<P>(workers).(queue := Reversed(payloads), enqueued := payloads)
  {
    if payloads != [] {
      var front, last := payloads[..|payloads| - 1], payloads[|payloads| - 1];
      FilledHolds(workers, front);
      EnqueueAdds(Filled(Start(workers), front), last);
      ReversedSnoc(front, last);
      assert payloads == front + [last];
    }
  }

  lemma {:induction false} ReversedTwice<P>(s: seq<P>)
    ensures Reversed(Reversed(s)) == s
  {
    if s != [] {
      ReversedTwice(s[1..]);
      ReversedSnoc(Reversed(s[1..]), s[0]);
      assert s == [s[0]] + s[1..];
    }
  }

  /**
   Payloads that fit the queue are delivered in the order sent: those that the handler accepts are
   done, the others are the dead letters, newest first and cut at the cap, and the queue is empty.
   */
  lemma QueueDelivers<P>(workers: nat, payloads: seq<P>, w: nat, fails: P -> bool)
    requires w < workers && |payloads| <= MAX_QUEUE_LEN
    ensures var st := Turns(Filled(Start(workers), payloads), w, |payloads|, fails);
            && st.queue == [] && st.enqueued == payloads && st.dequeued == payloads
            && st.done == Those(payloads, Handled(fails)) && st.failed == Those(payloads, fails)
            && st.dlq == Trimmed(Reversed(st.failed))
  {
    var full := Filled(Start<P>(workers), payloads);
    FilledHolds<P>(workers, payloads);
    TurnsWorkOff(full, w, |payloads|, fails);
    assert full.queue[0..] == full.queue;
    ReversedTwice(payloads);
    var failures := Those(payloads, fails);
    assert Reversed(failures) + [] == Reversed(failures);
  }
}
