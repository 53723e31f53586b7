/**
 The executor's timer as a transition system: any number of threads that post, run and cancel repeated
 tasks, and the timer thread, number 0, that fires queue entries. Times are nanoseconds, periods
 microseconds. An occurrence of a repeated task - look up the id, run the task, push the successor -
 may be interleaved with everything else, step by step.
 */
module Timer {
  import opened Wrappers

  // ---- Arithmetic ----

  /** Division of a duration, truncating toward zero. */
  function Truncated(d: int, unit: nat): int
    requires unit > 0
  {
    if d >= 0 then d / unit else -((-d) / unit)
  }

  /** An entry is fired unless a whole microsecond is left. */
  predicate Due(deadline: int, now: int) {
    !(Truncated(deadline - now, 1000) > 0)
  }

  /** So it is fired less than a microsecond early. */
  lemma DueIff(deadline: int, now: int)
    ensures Due(deadline, now) <==> now > deadline - 1000
  {
  }

  const TWO31: nat := 0x8000_0000
  const TWO32: nat := 0x1_0000_0000
  const TWO64: nat := 0x1_0000_0000_0000_0000

  /** The executor takes the number of repetitions as 64 bits, unsigned; the timer as a signed int. */
  function Narrow(u: nat): int {
    var low := u % TWO32;
    if low < TWO31 then low else low - TWO32
  }

  /** The number asked for is the number used exactly below 2^31; 2^32 - k and 2^64 - k mean forever, for small k. */
  lemma NarrowIff(u: nat)
    requires u < TWO64
    ensures Narrow(u) == u <==> u < TWO31
    ensures Narrow(u) < 0 <==> u % TWO32 >= TWO31
    ensures Narrow(TWO64 - 1) == -1
    ensures -0x8000_0000 <= Narrow(u) < 0x8000_0000 && (u - Narrow(u)) % TWO32 == 0
  {
  }

  // ---- State ----

  datatype Entry =
    | Once(deadline: int, task: nat)
    | Again(deadline: int, id: nat, delta: int, left: int)

  /** Where a thread is inside an occurrence of a repeated task. */
  datatype Call =
    | NoCall
    | Entering(id: nat, delta: int, left: int)  // about to look up the id
    | Checked(id: nat, delta: int, left: int)   // about to run the task
    | Running(id: nat, delta: int, left: int)   // inside the task; left is already that of the successor
    | Ended(id: nat, delta: int, left: int)     // about to push the successor

  datatype Post = Post(num: int, delta: int)

  datatype Span = Span(start: int, end: int)

  /** posts and runs are the history: what was posted under each id, and its runs so far. */
  datatype State = State(
    queue: seq<Entry>, threads: seq<Call>, live: set<nat>, counter: nat, now: int,
    posts: map<nat, Post>, runs: map<nat, seq<Span>>, fired: seq<nat>)

  datatype Event =
    | Tick(time: int)
    | PostDelayed(task: nat, delta: int)
    | PostRepeated(t: nat, num: int, delta: int)
    | Check(t: nat)
    | Begin(t: nat)
    | End(t: nat)
    | Push(t: nat)
    | Fire(k: nat)
    | Cancel(id: nat)

  // ---- Steps ----

  function Without<T>(q: seq<T>, k: nat): (r: seq<T>)
    requires k < |q|
    ensures |r| == |q| - 1
    ensures forall i :: 0 <= i < |r| ==> r[i] == q[if i < k then i else i + 1]
  {
    q[..k] + q[k + 1..]
  }

  /** No entry of the queue is due earlier. */
  ghost predicate Earliest(queue: seq<Entry>, k: nat) {
    k < |queue| && forall i :: 0 <= i < |queue| ==> queue[i].deadline >= queue[k].deadline
  }

  function Next(left: int): int {
    if left < 0 then left else left - 1
  }

  function At(s: State, t: nat, c: Call): State
    requires t < |s.threads|
  {
    s.(threads := s.threads[t := c])
  }

  ghost function Apply(s: State, e: Event): Option<State> {
    match e
    case Tick(time) => if time >= s.now then Some(s.(now := time)) else None
    case PostDelayed(task, delta) => Some(s.(queue := s.queue + [Once(s.now + 1000 * delta, task)]))
    case PostRepeated(t, num, delta) =>
      if t < |s.threads| && s.threads[t] == NoCall then
        var id := s.counter + 1;
        Some(At(s, t, Entering(id, delta, num)).(counter := id, live := s.live + {id},
             posts := s.posts[id := Post(num, delta)], runs := s.runs[id := []]))
      else None
    case Check(t) =>
      if t < |s.threads| && s.threads[t].Entering? then
        var c := s.threads[t];
        Some(At(s, t, if c.id !in s.live || c.left == 0 then NoCall else Checked(c.id, c.delta, c.left)))
      else None
    case Begin(t) =>
      if t < |s.threads| && s.threads[t].Checked? && s.threads[t].id in s.runs then
        var c := s.threads[t];
        var rs := s.runs[c.id] + [Span(s.now, s.now)];
        Some(At(s, t, Running(c.id, c.delta, Next(c.left))).(runs := s.runs[c.id := rs]))
      else None
    case End(t) =>
      if t < |s.threads| && s.threads[t].Running? && s.threads[t].id in s.runs && s.runs[s.threads[t].id] != [] then
        var c := s.threads[t];
        var rs := s.runs[c.id];
        var last := Span(rs[|rs| - 1].start, s.now);
        Some(At(s, t, Ended(c.id, c.delta, c.left)).(runs := s.runs[c.id := rs[|rs| - 1 := last]]))
      else None
    case Push(t) =>
      if t < |s.threads| && s.threads[t].Ended? then
        var c := s.threads[t];
        Some(At(s, t, NoCall).(queue := s.queue + [Again(s.now + 1000 * c.delta, c.id, c.delta, c.left)]))
      else None
    case Fire(k) =>
      if |s.threads| > 0 && s.threads[0] == NoCall && Earliest(s.queue, k) && Due(s.queue[k].deadline, s.now) then
        var s' := s.(queue := Without(s.queue, k));
        (match s.queue[k]
         case Once(_, task) => Some(s'.(fired := s.fired + [task]))
         case Again(_, id, delta, left) => Some(At(s', 0, Entering(id, delta, left))))
      else None
    case Cancel(id) => Some(s.(live := s.live - {id}))
  }

  // ---- What is kept ----

  /** Runs done and runs left add up to the number posted; a negative number stays. */
  predicate Balance(num: int, done: nat, left: int) {
    if num >= 0 then left >= 0 && done + left == num else left == num
  }

  /** Each run starts later than a period less a microsecond after the one before it ended. */
  ghost predicate Spaced(rs: seq<Span>, delta: int) {
    forall i, j :: 0 <= i < j < |rs| && j == i + 1 ==> rs[j].start > rs[i].end + 1000 * delta - 1000
  }

  predicate Known(s: State, id: nat, delta: int, left: int) {
    && id in s.posts && id in s.runs
    && delta == s.posts[id].delta
    && Balance(s.posts[id].num, |s.runs[id]|, left)
  }

  predicate MayStart(rs: seq<Span>, delta: int, now: int) {
    rs == [] || now > rs[|rs| - 1].end + 1000 * delta - 1000
  }

  predicate CallOk(s: State, c: Call) {
    c.NoCall? ||
    (&& Known(s, c.id, c.delta, c.left)
     && (c.Entering? || c.Checked? ==> MayStart(s.runs[c.id], c.delta, s.now))
     && (c.Checked? ==> c.left != 0)
     && (c.Running? || c.Ended? ==> s.runs[c.id] != [] && s.runs[c.id][|s.runs[c.id]| - 1].end <= s.now))
  }

  predicate EntryOk(s: State, e: Entry) {
    e.Again? ==>
      && Known(s, e.id, e.delta, e.left)
      && s.runs[e.id] != []
      && e.deadline >= s.runs[e.id][|s.runs[e.id]| - 1].end + 1000 * e.delta
  }

  /** At most one occurrence or queue entry for each id. */
  ghost predicate OneEach(s: State) {
    && (forall i, j :: 0 <= i < j < |s.queue| && s.queue[i].Again? && s.queue[j].Again? ==>
          s.queue[i].id != s.queue[j].id)
    && (forall i, j :: 0 <= i < j < |s.threads| && !s.threads[i].NoCall? && !s.threads[j].NoCall? ==>
          s.threads[i].id != s.threads[j].id)
    && (forall i, j :: 0 <= i < |s.queue| && 0 <= j < |s.threads| && s.queue[i].Again? && !s.threads[j].NoCall? ==>
          s.queue[i].id != s.threads[j].id)
  }

  ghost predicate Queued(s: State, id: nat) {
    exists k :: 0 <= k < |s.queue| && s.queue[k].Again? && s.queue[k].id == id
  }

  ghost predicate Occurring(s: State, id: nat) {
    exists t :: 0 <= t < |s.threads| && !s.threads[t].NoCall? && s.threads[t].id == id
  }

  /** The task will not run again because it has run as often as asked. */
  predicate Exhausted(s: State, id: nat) {
    id in s.posts && id in s.runs && s.posts[id].num >= 0 && |s.runs[id]| == s.posts[id].num
  }

  ghost predicate Complete(s: State) {
    forall id :: id in s.live ==> Queued(s, id) || Occurring(s, id) || Exhausted(s, id)
  }

  ghost predicate HistoryOk(s: State) {
    && s.posts.Keys == s.runs.Keys
    && (forall id :: id in s.posts ==> 1 <= id <= s.counter)
    && (forall id :: id in s.posts ==> Spaced(s.runs[id], s.posts[id].delta))
  }

  ghost predicate TokensOk(s: State) {
    && (forall k :: 0 <= k < |s.queue| ==> EntryOk(s, s.queue[k]))
    && (forall t :: 0 <= t < |s.threads| ==> CallOk(s, s.threads[t]))
  }

  ghost predicate Inv(s: State) {
    && |s.threads| > 0
    && s.live <= s.posts.Keys
    && HistoryOk(s) && TokensOk(s) && OneEach(s) && Complete(s)
  }

  lemma KeepsHistory(s: State, e: Event, s': State)
    requires Inv(s) && Apply(s, e) == Some(s')
    ensures |s'.threads| > 0 && s'.live <= s'.posts.Keys && HistoryOk(s')
  {
    hide OneEach, Complete, Earliest;
  }

  lemma KeepsOneEach(s: State, e: Event, s': State)
    requires Inv(s) && Apply(s, e) == Some(s') && !e.Fire?
    ensures OneEach(s')
  {
    hide Complete, Spaced, Earliest, Due, Balance, MayStart;
  }

  lemma KeepsEntries(s: State, e: Event, s': State)
    requires Inv(s) && Apply(s, e) == Some(s') && !e.Fire?
    ensures forall k :: 0 <= k < |s'.queue| ==> EntryOk(s', s'.queue[k])
  {
    hide Complete, Spaced, Earliest, Due, MayStart;
  }

  lemma KeepsCalls(s: State, e: Event, s': State)
    requires Inv(s) && Apply(s, e) == Some(s') && !e.Fire?
    ensures forall t :: 0 <= t < |s'.threads| ==> CallOk(s', s'.threads[t])
  {
    hide Complete, Spaced, Earliest, Due;
  }

  lemma TokensTogether(s: State)
    requires forall k :: 0 <= k < |s.queue| ==> EntryOk(s, s.queue[k])
    requires forall t :: 0 <= t < |s.threads| ==> CallOk(s, s.threads[t])
    ensures TokensOk(s)
  {
    hide EntryOk, CallOk;
  }

  lemma FireKeepsTokens(s: State, e: Event, s': State)
    requires Inv(s) && Apply(s, e) == Some(s') && e.Fire?
    ensures OneEach(s') && TokensOk(s')
  {
    hide Complete, Spaced;
    DueIff(s.queue[e.k].deadline, s.now);
    assert EntryOk(s, s.queue[e.k]);
  }

  lemma QueuedMoves(s: State, e: Event, s': State, id: nat)
    requires Apply(s, e) == Some(s') && Queued(s, id)
    ensures Queued(s', id) || Occurring(s', id)
  {
    var k :| 0 <= k < |s.queue| && s.queue[k].Again? && s.queue[k].id == id;
    if e.Fire? {
      if e.k == k {
        assert s'.threads[0].id == id;
      } else {
        var j := if k < e.k then k else k - 1;
        assert s'.queue[j] == s.queue[k];
      }
    } else {
      assert s'.queue[k] == s.queue[k];
    }
  }

  lemma OccurringMoves(s: State, e: Event, s': State, id: nat)
    requires Inv(s) && Apply(s, e) == Some(s') && Occurring(s, id) && id in s'.live
    ensures Queued(s', id) || Occurring(s', id) || Exhausted(s', id)
  {
    hide Complete, Spaced, OneEach, Due;
    var t :| 0 <= t < |s.threads| && !s.threads[t].NoCall? && s.threads[t].id == id;
    if s'.threads[t] == s.threads[t] {
    } else {
      assert CallOk(s, s.threads[t]);
      if e.Push? {
        assert s'.queue[|s'.queue| - 1].id == id;
      }
    }
  }

  lemma ExhaustedStays(s: State, e: Event, s': State, id: nat)
    requires Inv(s) && Apply(s, e) == Some(s') && Exhausted(s, id)
    ensures Exhausted(s', id)
  {
    hide Complete, Spaced, OneEach, Due, Earliest, MayStart;
    if e.Begin? {
      assert CallOk(s, s.threads[e.t]);
    }
  }

  lemma KeepsComplete(s: State, e: Event, s': State)
    requires Inv(s) && Apply(s, e) == Some(s')
    ensures Complete(s')
  {
    forall id | id in s'.live
      ensures Queued(s', id) || Occurring(s', id) || Exhausted(s', id)
    {
      if id !in s.live {
        assert s'.threads[e.t].id == id;
      } else if Queued(s, id) {
        QueuedMoves(s, e, s', id);
      } else if Occurring(s, id) {
        OccurringMoves(s, e, s', id);
      } else {
        ExhaustedStays(s, e, s', id);
      }
    }
  }

  /** Every step of every thread, in any interleaving, keeps the invariant. */
  lemma InvKept(s: State, e: Event, s': State)
    requires Inv(s) && Apply(s, e) == Some(s')
    ensures Inv(s')
  {
    hide HistoryOk, TokensOk, OneEach, Complete, Apply;
    KeepsHistory(s, e, s');
    KeepsComplete(s, e, s');
    if e.Fire? {
      FireKeepsTokens(s, e, s');
    } else {
      KeepsOneEach(s, e, s');
      KeepsEntries(s, e, s');
      KeepsCalls(s, e, s');
      TokensTogether(s');
    }
  }

  // ---- Whole runs ----

  ghost function Run(s: State, events: seq<Event>): Option<State>
    decreases |events|
  {
    if events == [] then Some(s)
    else
      match Apply(s, events[0])
      case None => None
      case Some(s') => Run(s', events[1..])
  }

  /** A timer with n threads, nothing posted yet. */
  function Fresh(n: nat, now: int): State {
    State([], seq(n, i => NoCall), {}, 0, now, map[], map[], [])
  }

  lemma {:induction false} RunKeepsInv(s: State, events: seq<Event>)
    requires Inv(s) && Run(s, events).Some?
    ensures Inv(Run(s, events).value)
    decreases |events|
  {
    if events == [] {
    } else {
      InvKept(s, events[0], Apply(s, events[0]).value);
      hide Inv, Apply;
      RunKeepsInv(Apply(s, events[0]).value, events[1..]);
    }
  }

  /** No occurrence of a repeated task is queued or under way. */
  ghost predicate Drained(s: State) {
    && (forall k :: 0 <= k < |s.queue| ==> s.queue[k].Once?)
    && (forall t :: 0 <= t < |s.threads| ==> s.threads[t].NoCall?)
  }

  /**
   A repeated task that has not been cancelled: posted n >= 0 times, it has never run more often
   than that, and exactly n times once the timer is drained; posted with n < 0, it always has a
   successor queued or under way, so the timer is never drained. Its runs are at least a period less a
   microsecond apart.
   */
  lemma RepeatsExactly(n: nat, now: int, events: seq<Event>, id: nat)
    requires n >= 1 && Run(Fresh(n, now), events).Some?
    requires id in Run(Fresh(n, now), events).value.live
    ensures var s := Run(Fresh(n, now), events).value;
      && id in s.posts && id in s.runs
      && (s.posts[id].num >= 0 ==> |s.runs[id]| <= s.posts[id].num)
      && (s.posts[id].num >= 0 && Drained(s) ==> |s.runs[id]| == s.posts[id].num)
      && (s.posts[id].num < 0 ==> (Queued(s, id) || Occurring(s, id)) && !Drained(s))
      && Spaced(s.runs[id], s.posts[id].delta)
  {
    assert Inv(Fresh(n, now));
    RunKeepsInv(Fresh(n, now), events);
    var s := Run(Fresh(n, now), events).value;
    if Queued(s, id) {
      var k :| 0 <= k < |s.queue| && s.queue[k].Again? && s.queue[k].id == id;
      assert EntryOk(s, s.queue[k]);
    } else if Occurring(s, id) {
      var t :| 0 <= t < |s.threads| && !s.threads[t].NoCall? && s.threads[t].id == id;
      assert CallOk(s, s.threads[t]);
    }
  }

  // ---- Delayed tasks ----

  function TaskOf(e: Entry): multiset<nat> {
    if e.Once? then multiset{e.task} else multiset{}
  }

  /** The delayed tasks in the queue. */
  function Delayed(queue: seq<Entry>): multiset<nat> {
    if queue == [] then multiset{} else TaskOf(queue[0]) + Delayed(queue[1..])
  }

  /** The delayed tasks that the events post. */
  function PostedBy(events: seq<Event>): multiset<nat> {
    if events == [] then multiset{}
    else (if events[0].PostDelayed? then multiset{events[0].task} else multiset{}) + PostedBy(events[1..])
  }

  lemma {:induction false} DelayedAppend(a: seq<Entry>, b: seq<Entry>)
    ensures Delayed(a + b) == Delayed(a) + Delayed(b)
  {
    if a == [] {
      assert a + b == b;
    } else {
      assert (a + b)[1..] == a[1..] + b;
      DelayedAppend(a[1..], b);
    }
  }

  lemma DelayedOne(e: Entry)
    ensures Delayed([e]) == TaskOf(e)
  {
  }

  lemma {:induction false} DelayedWithout(queue: seq<Entry>, k: nat)
    requires k < |queue|
    ensures Delayed(queue) == Delayed(Without(queue, k)) + TaskOf(queue[k])
  {
    hide TaskOf;
    if k == 0 {
      assert Without(queue, 0) == queue[1..];
    } else {
      assert Without(queue, k)[1..] == Without(queue[1..], k - 1);
      DelayedWithout(queue[1..], k - 1);
    }
  }

  lemma FireStep(s: State, k: nat, s': State)
    requires Apply(s, Fire(k)) == Some(s')
    ensures multiset(s'.fired) + Delayed(s'.queue) == multiset(s.fired) + Delayed(s.queue)
  {
    hide Delayed, Due;
    DelayedWithout(s.queue, k);
  }

  /** Only firing takes an entry away; others add at most one behind the rest. */
  lemma OthersQueue(s: State, e: Event, s': State)
    requires Apply(s, e) == Some(s') && !e.Fire?
    ensures s'.fired == s.fired && s.queue <= s'.queue
    ensures e.PostDelayed? ==> s'.queue == s.queue + [Once(s.now + 1000 * e.delta, e.task)]
    ensures !e.PostDelayed? ==> |s'.queue| <= |s.queue| + 1 && (|s'.queue| > |s.queue| ==> s'.queue[|s.queue|].Again?)
  {
    hide Due, Earliest, Without;
  }

  lemma DelayedStep(s: State, e: Event, s': State)
    requires Apply(s, e) == Some(s')
    ensures multiset(s'.fired) + Delayed(s'.queue)
         == multiset(s.fired) + Delayed(s.queue) + if e.PostDelayed? then multiset{e.task} else multiset{}
  {
    hide Apply, Delayed;
    if e.Fire? {
      FireStep(s, e.k, s');
    } else {
      OthersQueue(s, e, s');
      if |s'.queue| == |s.queue| {
        assert s'.queue == s.queue;
      } else {
        var last := s'.queue[|s.queue|];
        assert s'.queue == s.queue + [last];
        DelayedAppend(s.queue, [last]);
        DelayedOne(last);
      }
    }
  }

  /** Over any run, every delayed task posted is run once or still queued, and nothing else is run as one. */
  lemma {:induction false} DelayedRunOnce(s: State, events: seq<Event>)
    requires Run(s, events).Some?
    ensures var s' := Run(s, events).value;
      multiset(s'.fired) + Delayed(s'.queue) == multiset(s.fired) + Delayed(s.queue) + PostedBy(events)
    decreases |events|
  {
    hide Apply, Delayed;
    if events == [] {
    } else {
      var s1 := Apply(s, events[0]).value;
      DelayedStep(s, events[0], s1);
      DelayedRunOnce(s1, events[1..]);
    }
  }

  // ---- Cancelling ----

  /** The id has been posted and cancelled. */
  predicate Gone(s: State, id: nat) {
    id !in s.live && id in s.runs && id <= s.counter
  }

  /** An occurrence of the task has looked up the id but not begun to run. */
  ghost predicate AboutToRun(s: State, id: nat) {
    exists t :: 0 <= t < |s.threads| && s.threads[t].Checked? && s.threads[t].id == id
  }

  function RunCount(s: State, id: nat): nat {
    if id in s.runs then |s.runs[id]| else 0
  }

  ghost function AtMostMore(s: State, id: nat): nat {
    if AboutToRun(s, id) then 1 else 0
  }

  lemma CancelledStep(s: State, e: Event, s': State, id: nat)
    requires Inv(s) && Apply(s, e) == Some(s') && Gone(s, id)
    ensures Gone(s', id)
    ensures RunCount(s', id) + AtMostMore(s', id) <= RunCount(s, id) + AtMostMore(s, id)
    ensures RunCount(s', id) >= RunCount(s, id)
  {
    hide Complete, Spaced, Due, Earliest, EntryOk, Known, MayStart;
    if AboutToRun(s', id) {
      var t :| 0 <= t < |s'.threads| && s'.threads[t].Checked? && s'.threads[t].id == id;
      assert s.threads[t] == s'.threads[t];
    }
    if e.Begin? && s.threads[e.t].id == id {
      assert AboutToRun(s, id);
      assert forall i :: 0 <= i < |s.threads| && i != e.t && !s.threads[i].NoCall? ==> s.threads[i].id != id;
    }
  }

  /** After a cancel the task runs at most once more, and not at all unless its check came before the cancel. */
  lemma {:induction false} CancelledStaysCancelled(s: State, events: seq<Event>, id: nat)
    requires Inv(s) && Gone(s, id) && Run(s, events).Some?
    ensures var s' := Run(s, events).value;
      && RunCount(s, id) <= RunCount(s', id) <= RunCount(s, id) + AtMostMore(s, id)
      && id !in s'.live
    decreases |events|
  {
    if events == [] {
    } else {
      var s1 := Apply(s, events[0]).value;
      InvKept(s, events[0], s1);
      CancelledStep(s, events[0], s1, id);
      hide Inv, Apply, AtMostMore;
      CancelledStaysCancelled(s1, events[1..], id);
    }
  }

  ghost predicate RunsAgain(s: State, events: seq<Event>, id: nat) {
    Run(s, events).Some? && RunCount(Run(s, events).value, id) > RunCount(s, id)
  }

  /** A cancelled task may still run exactly when an occurrence of it has been checked and has not begun. */
  lemma CancelFailsIff(s: State, id: nat)
    requires Inv(s) && Gone(s, id)
    ensures (exists events :: RunsAgain(s, events, id)) <==> AboutToRun(s, id)
  {
    if AboutToRun(s, id) {
      BeginRunsAgain(s, id);
    }
    hide Inv, Run, Apply;
    forall events | RunsAgain(s, events, id)
      ensures AboutToRun(s, id)
    {
      CancelledStaysCancelled(s, events, id);
    }
  }

  lemma BeginRunsAgain(s: State, id: nat)
    requires Inv(s) && Gone(s, id) && AboutToRun(s, id)
    ensures exists events :: RunsAgain(s, events, id)
  {
    var t :| 0 <= t < |s.threads| && s.threads[t].Checked? && s.threads[t].id == id;
    hide Inv;
    var s' := Apply(s, Begin(t)).value;
    assert |s'.runs[id]| == |s.runs[id]| + 1;
    assert [Begin(t)][1..] == [] && Run(s', []) == Some(s');
    assert RunsAgain(s, [Begin(t)], id);
  }

  /**
   A run that reaches such a state: a task is posted, its occurrence is checked, the id is cancelled, and the
   task runs.
   */
  lemma RunsAfterCancel(n: nat, now: int, num: int, delta: int)
    requires n >= 1 && num != 0
    ensures var s := Run(Fresh(n, now), [PostRepeated(0, num, delta), Check(0), Cancel(1)]);
      s.Some? && Gone(s.value, 1) && RunCount(s.value, 1) == 0 && RunsAgain(s.value, [Begin(0)], 1)
  {
    var s0 := Fresh(n, now);
    var s1 := Apply(s0, PostRepeated(0, num, delta)).value;
    var s2 := Apply(s1, Check(0)).value;
    var s3 := Apply(s2, Cancel(1)).value;
    assert s2.threads[0] == Checked(1, delta, num) && s3.threads[0] == s2.threads[0];
    var s4 := Apply(s3, Begin(0)).value;
    assert |s4.runs[1]| == 1;
    hide Apply;
    assert Run(s3, []) == Some(s3) && Run(s4, []) == Some(s4);
    assert [Begin(0)][1..] == [] && [Cancel(1)][1..] == [];
    assert [Check(0), Cancel(1)][1..] == [Cancel(1)];
    assert [PostRepeated(0, num, delta), Check(0), Cancel(1)][1..] == [Check(0), Cancel(1)];
    assert Run(s2, [Cancel(1)]) == Some(s3);
    assert Run(s1, [Check(0), Cancel(1)]) == Some(s3);
  }
}
