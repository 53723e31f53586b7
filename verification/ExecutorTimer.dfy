/**
 The timer object. Each of its operations, run to completion, is a run of the transition system, so
 everything proved about the latter's runs holds of the object's history.
 */
module ExecutorTimers {
  import opened Wrappers
  import opened Timer

  lemma {:induction false} RunAppend(s: State, a: seq<Event>, b: seq<Event>)
    requires Run(s, a).Some?
    ensures Run(s, a + b) == Run(Run(s, a).value, b)
    decreases |a|
  {
    hide Apply;
    if a == [] {
      assert a + b == b;
    } else {
      assert (a + b)[1..] == a[1..] + b;
      RunAppend(Apply(s, a[0]).value, a[1..], b);
    }
  }

  /** Some run leads from s to s'. */
  ghost predicate Follows(s: State, s': State) {
    exists events :: Run(s, events) == Some(s')
  }

  lemma FollowsByStep(s: State, e: Event, s': State)
    requires Inv(s) && Apply(s, e) == Some(s')
    ensures Follows(s, s') && Inv(s')
  {
    InvKept(s, e, s');
    hide Inv, Apply;
    assert Run(s, [e]) == Some(s') by {
      assert [e][1..] == [];
    }
  }

  lemma FollowsOn(a: State, b: State, c: State)
    requires Follows(a, b) && Follows(b, c)
    ensures Follows(a, c)
  {
    hide Apply;
    var es :| Run(a, es) == Some(b);
    var fs :| Run(b, fs) == Some(c);
    RunAppend(a, es, fs);
  }

  lemma FollowsItself(s: State)
    ensures Follows(s, s)
  {
    assert Run(s, []) == Some(s);
  }

  /** Clock readings of one occurrence: when it is entered, its task begins and ends, its successor is pushed. */
  datatype Clock = Clock(now: int, begin: int, end: int, push: int)

  predicate Forward(c: Clock, from: int) {
    from <= c.now <= c.begin <= c.end <= c.push
  }

  lemma TickFollows(s: State, time: int)
    requires Inv(s) && s.now <= time
    ensures Follows(s, s.(now := time)) && Inv(s.(now := time))
  {
    hide Inv, Follows;
    FollowsByStep(s, Event.Tick(time), s.(now := time));
  }

  /** Time passes, then one step is taken. */
  lemma TickThenStep(s: State, time: int, e: Event, s': State)
    requires Inv(s) && s.now <= time && Apply(s.(now := time), e) == Some(s')
    ensures Follows(s, s') && Inv(s')
  {
    hide Inv, Follows, Apply;
    TickFollows(s, time);
    FollowsByStep(s.(now := time), e, s');
    FollowsOn(s, s.(now := time), s');
  }

  /** The state after an occurrence that thread t has entered, if nobody else moves meanwhile. */
  function Occurred(s: State, t: nat, c: Clock): State
    requires t < |s.threads| && s.threads[t].Entering? && s.threads[t].id in s.runs
  {
    var call := s.threads[t];
    if call.id !in s.live || call.left == 0 then At(s, t, NoCall).(now := c.now)
    else
      At(s, t, NoCall).(
        now := c.push,
        runs := s.runs[call.id := s.runs[call.id] + [Span(c.begin, c.end)]],
        queue := s.queue + [Again(c.push + 1000 * call.delta, call.id, call.delta, Next(call.left))])
  }

  /** The state after a repeated task has been posted on thread t, its first occurrence entered. */
  function Posted(s: State, t: nat, delta: int, num: int): State
    requires t < |s.threads|
  {
    var id := s.counter + 1;
    At(s, t, Entering(id, delta, num)).(
      counter := id, live := s.live + {id}, posts := s.posts[id := Post(num, delta)], runs := s.runs[id := []])
  }

  /** The state after the timer thread has fired entry k, and run what it stands for. */
  function Fired(s: State, k: nat, c: Clock): State
    requires k < |s.queue| && |s.threads| > 0
    requires s.queue[k].Again? ==> s.queue[k].id in s.runs
  {
    match s.queue[k]
    case Once(_, task) => s.(now := c.now, queue := Without(s.queue, k), fired := s.fired + [task])
    case Again(_, id, delta, left) =>
      Occurred(At(s, 0, Entering(id, delta, left)).(now := c.now, queue := Without(s.queue, k)), 0, c)
  }

  lemma OccurrenceFollows(s: State, t: nat, c: Clock)
    requires Inv(s) && t < |s.threads| && s.threads[t].Entering? && s.threads[t].id in s.runs && Forward(c, s.now)
    ensures Follows(s, Occurred(s, t, c)) && Inv(Occurred(s, t, c))
  {
    hide Inv, Follows;
    var call := s.threads[t];
    if call.id !in s.live || call.left == 0 {
      TickThenStep(s, c.now, Check(t), Occurred(s, t, c));
    } else {
      var s1 := At(s, t, Checked(call.id, call.delta, call.left)).(now := c.now);
      TickThenStep(s, c.now, Check(t), s1);
      CheckedFollows(s1, t, c);
      assert At(s1, t, NoCall).threads == At(s, t, NoCall).threads;
      FollowsOn(s, s1, Occurred(s, t, c));
    }
  }

  lemma CheckedFollows(s: State, t: nat, c: Clock)
    requires Inv(s) && t < |s.threads| && s.threads[t].Checked? && s.threads[t].id in s.runs
    requires s.now <= c.begin <= c.end <= c.push
    ensures var call := s.threads[t];
      var s' := At(s, t, NoCall).(
        now := c.push,
        runs := s.runs[call.id := s.runs[call.id] + [Span(c.begin, c.end)]],
        queue := s.queue + [Again(c.push + 1000 * call.delta, call.id, call.delta, Next(call.left))]);
      Follows(s, s') && Inv(s')
  {
    hide Inv, Follows;
    var call := s.threads[t];
    var rs := s.runs[call.id];
    var s1 := At(s, t, Running(call.id, call.delta, Next(call.left))).(
      now := c.begin, runs := s.runs[call.id := rs + [Span(c.begin, c.begin)]]);
    TickThenStep(s, c.begin, Begin(t), s1);
    assert (rs + [Span(c.begin, c.begin)])[|rs| := Span(c.begin, c.end)] == rs + [Span(c.begin, c.end)];
    var s2 := At(s1, t, Ended(call.id, call.delta, Next(call.left))).(
      now := c.end, runs := s1.runs[call.id := rs + [Span(c.begin, c.end)]]);
    TickThenStep(s1, c.end, End(t), s2);
    FollowsOn(s, s1, s2);
    var s3 := At(s2, t, NoCall).(
      now := c.push, queue := s2.queue + [Again(c.push + 1000 * call.delta, call.id, call.delta, Next(call.left))]);
    TickThenStep(s2, c.push, Push(t), s3);
    FollowsOn(s, s2, s3);
    var running, ended := Running(call.id, call.delta, Next(call.left)), Ended(call.id, call.delta, Next(call.left));
    assert s.threads[t := running][t := ended][t := NoCall] == s.threads[t := NoCall];
    assert s1.runs[call.id := rs + [Span(c.begin, c.end)]] == s.runs[call.id := rs + [Span(c.begin, c.end)]];
  }

  predicate AllForward(clocks: seq<Clock>, from: int) {
    && (forall i :: 0 <= i < |clocks| ==> Forward(clocks[i], from))
    && (forall i, j :: 0 <= i < j < |clocks| ==> clocks[i].push <= clocks[j].now)
  }

  ghost predicate IsFired(s: State, k: nat, c: Clock, s': State) {
    && k < |s.queue| && |s.threads| > 0
    && (s.queue[k].Again? ==> s.queue[k].id in s.runs)
    && s' == Fired(s, k, c)
  }

  /** Entry k has left the queue for its task, or its repeated task, to be run, and nothing else has changed. */
  ghost predicate Taken(s: State, k: nat, c: Clock, s': State)
    requires k < |s.queue|
  {
    && s'.live == s.live && s'.counter == s.counter && s'.posts == s.posts && s'.threads == s.threads
    && match s.queue[k]
       case Once(_, task) =>
         && s'.queue == s.queue[..k] + s.queue[k + 1..] && s'.now == c.now
         && s'.fired == s.fired + [task] && s'.runs == s.runs
       case Again(_, id, delta, left) =>
         && s'.fired == s.fired
         && if id in s.live && left != 0 then
              && id in s.runs && s'.runs == s.runs[id := s.runs[id] + [Span(c.begin, c.end)]] && s'.now == c.push
              && s'.queue == s.queue[..k] + s.queue[k + 1..]
                             + [Again(c.push + 1000 * delta, id, delta, if left < 0 then left else left - 1)]
            else s'.runs == s.runs && s'.now == c.now && s'.queue == s.queue[..k] + s.queue[k + 1..]
  }

  /** A turn takes an entry with the earliest deadline, if any is due within a microsecond, and else lets time pass. */
  ghost predicate IsTurn(s: State, c: Clock, s': State) {
    if exists k :: 0 <= k < |s.queue| && s.queue[k].deadline < c.now + 1000 then
      exists k :: Earliest(s.queue, k) && Taken(s, k, c, s')
    else s' == s.(now := c.now)
  }

  lemma FiredIsTaken(s: State, k: nat, c: Clock, s': State)
    requires IsFired(s, k, c, s') && s.threads[0] == NoCall
    ensures Taken(s, k, c, s')
  {
    assert s.threads[0 := NoCall] == s.threads;
    if s.queue[k].Again? {
      var call := Entering(s.queue[k].id, s.queue[k].delta, s.queue[k].left);
      assert s.threads[0 := call][0 := NoCall] == s.threads;
    }
  }

  // ---- Turn after turn ----

  predicate AllDueOnce(queue: seq<Entry>, now: int) {
    forall k :: 0 <= k < |queue| ==> queue[k].Once? && queue[k].deadline < now + 1000
  }

  lemma DueTurn(s: State, c: Clock, s': State, now: int)
    requires IsTurn(s, c, s') && s.queue != [] && AllDueOnce(s.queue, now) && now <= c.now
    ensures |s'.queue| == |s.queue| - 1 && AllDueOnce(s'.queue, now)
    ensures |s'.fired| == |s.fired| + 1 && s.fired <= s'.fired
    ensures multiset(s'.fired) + Delayed(s'.queue) == multiset(s.fired) + Delayed(s.queue)
  {
    hide Delayed;
    assert s.queue[0].deadline < c.now + 1000;
    var k :| Earliest(s.queue, k) && Taken(s, k, c, s');
    DelayedWithout(s.queue, k);
  }

  /**
   When only delayed tasks are queued and all are due, as many turns as there are entries run every one of them,
   once, and nothing else.
   */
  lemma {:induction false} DueAreRun(trace: seq<State>, clocks: seq<Clock>, j: nat)
    requires j < |trace| && j <= |clocks| && j <= |trace[0].queue|
    requires forall i :: 0 <= i < j ==> IsTurn(trace[i], clocks[i], trace[i + 1]) && clocks[0].now <= clocks[i].now
    requires clocks != [] && AllDueOnce(trace[0].queue, clocks[0].now)
    ensures |trace[j].queue| == |trace[0].queue| - j && AllDueOnce(trace[j].queue, clocks[0].now)
    ensures |trace[j].fired| == |trace[0].fired| + j && trace[0].fired <= trace[j].fired
    ensures multiset(trace[j].fired) + Delayed(trace[j].queue)
         == multiset(trace[0].fired) + Delayed(trace[0].queue)
    ensures j == |trace[0].queue| ==>
      trace[j].queue == [] && multiset(trace[j].fired) == multiset(trace[0].fired) + Delayed(trace[0].queue)
  {
    hide IsTurn, AllDueOnce;
    if j == 0 {
    } else {
      DueAreRun(trace, clocks, j - 1);
      DueTurn(trace[j - 1], clocks[j - 1], trace[j], clocks[0].now);
    }
  }

  class ExecutorTimer {
    /** The priority queue, in no particular order. */
    var queue: seq<Entry>
    var live: set<nat>
    var counter: nat
    /** The transition system's state, which adds the history. */
    ghost var s: State

    ghost predicate Linked()
      reads this
    {
      s.queue == queue && s.live == live && s.counter == counter && Inv(s)
    }

    /** Thread t is inside c; everyone else is outside. */
    ghost predicate Inside(t: nat, c: Call)
      reads this
    {
      && t < |s.threads| && s.threads[t] == c
      && forall i :: 0 <= i < |s.threads| && i != t ==> s.threads[i] == NoCall
    }

    ghost predicate Valid()
      reads this
    {
      Linked() && Inside(0, NoCall)
    }

    constructor (ghost threads: nat, ghost now: int)
      requires threads >= 1
      ensures Valid() && s == Fresh(threads, now)
    {
      queue, live, counter := [], {}, 0;
      s := Fresh(threads, now);
    }

    /** Lets time pass, in the history. */
    ghost method Tick(now: int)
      requires Linked() && s.now <= now
      modifies this`s
      ensures Linked() && s == old(s).(now := now) && Follows(old(s), s)
    {
      hide Inv;
      FollowsByStep(s, Event.Tick(now), s.(now := now));
      s := s.(now := now);
    }

    method PostDelayedTask(task: nat, delta: int, now: int)
      requires Valid() && s.now <= now
      modifies this
      ensures Valid() && Follows(old(s), s)
      ensures queue == old(queue) + [Once(now + 1000 * delta, task)] && live == old(live)
      ensures s == old(s).(now := now, queue := queue)
    {
      hide Inv, Follows;
      ghost var s0 := s;
      Tick(now);
      queue := queue + [Once(now + 1000 * delta, task)];
      ghost var s1 := s;
      s := s.(queue := queue);
      FollowsByStep(s1, PostDelayed(task, delta), s);
      FollowsOn(s0, s1, s);
    }

    method CancelRepeatedTask(id: nat)
      requires Valid()
      modifies this
      ensures Valid() && Follows(old(s), s)
      ensures live == old(live) - {id} && queue == old(queue) && counter == old(counter)
      ensures s == old(s).(live := live)
    {
      hide Inv, Follows;
      live := live - {id};
      ghost var s0 := s;
      s := s.(live := live);
      FollowsByStep(s0, Cancel(id), s);
    }

    /** The index of an entry with the earliest deadline. */
    method Top() returns (k: nat)
      requires queue != []
      ensures Earliest(queue, k)
    {
      k := 0;
      for i := 1 to |queue|
        invariant k < i
        invariant forall j :: 0 <= j < i ==> queue[j].deadline >= queue[k].deadline
      {
        if queue[i].deadline < queue[k].deadline {
          k := i;
        }
      }
    }

    /** One occurrence of a repeated task: nothing if it is cancelled or done; otherwise a run and a successor. */
    method PostOccurrence(ghost t: nat, id: nat, delta: int, left: int, c: Clock)
      requires Linked() && Inside(t, Entering(id, delta, left)) && Forward(c, s.now)
      requires id in s.runs
      modifies this
      ensures Linked() && Inside(0, NoCall) && Follows(old(s), s)
      ensures s == Occurred(old(s), t, c)
      ensures live == old(live) && counter == old(counter)
      ensures queue ==
        if id !in live || left == 0 then old(queue)
        else old(queue) + [Again(c.push + 1000 * delta, id, delta, Next(left))]
    {
      hide Inv, Follows;
      OccurrenceFollows(s, t, c);
      s := Occurred(s, t, c);
      if id !in live || left == 0 {
        return;
      }
      var nextNum := if left < 0 then left else left - 1;
      queue := queue + [Again(c.push + 1000 * delta, id, delta, nextNum)];
    }

    /** Posts a repeated task under a new id; its first run happens at once, on the caller's thread. */
    method PostRepeatedTask(ghost t: nat, delta: int, repeatNum: int, c: Clock) returns (id: nat)
      requires Valid() && t < |s.threads| && Forward(c, s.now)
      modifies this
      ensures Valid() && Follows(old(s), s)
      ensures s == Occurred(Posted(old(s), t, delta, repeatNum), t, c)
      ensures id == old(counter) + 1 && id !in old(s.posts) && live == old(live) + {id}
      ensures id in s.posts && s.posts[id] == Post(repeatNum, delta)
      ensures id in s.runs && s.runs[id] == if repeatNum == 0 then [] else [Span(c.begin, c.end)]
      ensures queue ==
        if repeatNum == 0 then old(queue)
        else old(queue) + [Again(c.push + 1000 * delta, id, delta, Next(repeatNum))]
    {
      assert forall i :: i in s.posts ==> i <= s.counter;
      hide Inv, Follows;
      ghost var s0 := s;
      counter := counter + 1;
      id := counter;
      live := live + {id};
      s := Posted(s, t, delta, repeatNum);
      ghost var s1 := s;
      FollowsByStep(s0, PostRepeated(t, repeatNum, delta), s1);
      PostOccurrence(t, id, delta, repeatNum, c);
      FollowsOn(s0, s1, s);
      assert [] + [Span(c.begin, c.end)] == [Span(c.begin, c.end)];
    }

    /** Posting through the executor, which takes the number of repetitions as an unsigned 64-bit integer. */
    method PostThroughExecutor(ghost t: nat, delta: int, repeatNum: nat, c: Clock) returns (id: nat)
      requires Valid() && t < |s.threads| && Forward(c, s.now) && repeatNum < TWO64
      modifies this
      ensures Valid() && Follows(old(s), s)
      ensures id == old(counter) + 1 && live == old(live) + {id}
      ensures id in s.posts && s.posts[id] == Post(Narrow(repeatNum), delta)
      ensures id in s.runs && s.runs[id] == if repeatNum % TWO32 == 0 then [] else [Span(c.begin, c.end)]
      ensures queue ==
        if repeatNum % TWO32 == 0 then old(queue)
        else old(queue) + [Again(c.push + 1000 * delta, id, delta, Next(Narrow(repeatNum)))]
    {
      id := PostRepeatedTask(t, delta, Narrow(repeatNum), c);
    }

    /** One turn of the timer thread on a queue that is not empty: fires the earliest entry, if it is due. */
    method Turn(c: Clock) returns (fired: bool)
      requires Valid() && queue != [] && Forward(c, s.now)
      modifies this
      ensures Valid() && Follows(old(s), s) && s.now <= c.push
      ensures fired <==> exists k :: 0 <= k < |old(queue)| && old(queue)[k].deadline < c.now + 1000
      ensures fired ==> exists k :: Earliest(old(queue), k) && IsFired(old(s), k, c, s)
      ensures IsTurn(old(s), c, s)
      ensures !fired ==> queue == old(queue) && s == old(s).(now := c.now)
      ensures live == old(live) && counter == old(counter)
    {
      hide Inv, Follows;
      var k := Top();
      var top := queue[k];
      DueIff(top.deadline, c.now);
      ghost var s0 := s;
      Tick(c.now);
      if !Due(top.deadline, c.now) {
        return false;
      }
      queue := Without(queue, k);
      fired := true;
      ghost var s1 := s;
      match top {
        case Once(_, task) =>
          s := s.(queue := queue, fired := s.fired + [task]);
          FollowsByStep(s1, Fire(k), s);
          FollowsOn(s0, s1, s);
          assert IsFired(s0, k, c, s);
          FiredIsTaken(s0, k, c, s);
        case Again(_, id, delta, left) =>
          TopIsKnown(s1, k);
          s := At(s, 0, Entering(id, delta, left)).(queue := queue);
          ghost var s2 := s;
          FollowsByStep(s1, Fire(k), s2);
          FollowsOn(s0, s1, s2);
          PostOccurrence(0, id, delta, left, c);
          FollowsOn(s0, s2, s);
          assert IsFired(s0, k, c, s);
          FiredIsTaken(s0, k, c, s);
      }
    }

    /**
     The timer thread, turn by turn, for as long as the clock readings last and the queue holds entries. trace holds
     the states between the turns. A turn takes an entry with the earliest deadline exactly if one is due.
     */
    method RunLoop(clocks: seq<Clock>) returns (turns: nat, ghost trace: seq<State>)
      requires Valid()
      requires AllForward(clocks, s.now)
      modifies this
      ensures Valid() && Follows(old(s), s)
      ensures turns <= |clocks| && (turns < |clocks| ==> queue == [])
      ensures |trace| == turns + 1 && trace[0] == old(s) && trace[turns] == s
      ensures forall i :: 0 <= i < turns ==> trace[i].queue != [] && IsTurn(trace[i], clocks[i], trace[i + 1])
    {
      hide Inv, Follows, IsTurn;
      FollowsItself(s);
      turns := 0;
      trace := [s];
      while turns < |clocks| && queue != []
        invariant Valid() && Follows(old(s), s) && turns <= |clocks|
        invariant turns < |clocks| ==> s.now <= clocks[turns].now
        invariant |trace| == turns + 1 && trace[0] == old(s) && trace[turns] == s
        invariant forall i :: 0 <= i < turns ==> trace[i].queue != [] && IsTurn(trace[i], clocks[i], trace[i + 1])
        decreases |clocks| - turns
      {
        ghost var before := s;
        var fired := Turn(clocks[turns]);
        FollowsOn(old(s), before, s);
        turns := turns + 1;
        trace := trace + [s];
      }
    }
  }

  lemma TopIsKnown(s: State, k: nat)
    requires Inv(s) && k < |s.queue| && s.queue[k].Again?
    ensures s.queue[k].id in s.runs
  {
    assert EntryOk(s, s.queue[k]);
  }
}
