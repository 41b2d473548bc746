/**
 The reactor: timers ordered by deadline with an index for cancelling, tasks posted from other
 threads, and callbacks that may arm, cancel, post, register and stop while the loop runs.
 */
module EventLoops {
  import opened Common

  /** Tasks and callbacks are opaque to the loop; a number names one. */
  type Task = nat

  datatype Timer = Timer(deadline: int, id: nat, task: Task)

  // ----- The timer list -----

  /** Earlier deadlines first; equal deadlines in the order they were armed. */
  predicate Before(a: Timer, b: Timer)
  {
    a.deadline < b.deadline || (a.deadline == b.deadline && a.id < b.id)
  }

  predicate Sorted(timers: seq<Timer>)
  {
    forall i, j :: 0 <= i < j < |timers| ==> Before(timers[i], timers[j])
  }

  /** A multimap inserts behind all equal keys. */
  function Insert(timers: seq<Timer>, t: Timer): seq<Timer>
  {
    if timers == [] || t.deadline < timers[0].deadline then [t] + timers
    else [timers[0]] + Insert(timers[1..], t)
  }

  lemma {:induction false} InsertIs(timers: seq<Timer>, t: Timer)
    requires Sorted(timers) && forall u :: u in timers ==> u.id < t.id
    ensures Sorted(Insert(timers, t)) && forall u :: u in Insert(timers, t) <==> u in timers || u == t
  {
    if timers == [] || t.deadline < timers[0].deadline {
      assert forall i :: 0 <= i < |timers| ==> Before(t, timers[i]);
    } else {
      var rest := timers[1..];
      assert forall i :: 0 <= i < |rest| ==> rest[i] == timers[i + 1];
      InsertIs(rest, t);
      var r := Insert(rest, t);
      assert timers[0] in timers;
      forall u | u in r ensures Before(timers[0], u) {
        if u != t {
          var k :| 0 <= k < |rest| && rest[k] == u;
          assert timers[k + 1] == u;
        }
      }
      forall i, j | 0 <= i < j < |[timers[0]] + r| ensures Before(([timers[0]] + r)[i], ([timers[0]] + r)[j]) {
        if i == 0 { assert r[j - 1] in r; }
      }
      assert forall u :: u in [timers[0]] + r <==> u == timers[0] || u in r;
      assert forall u :: u in timers <==> u == timers[0] || u in rest;
    }
  }

  function Remove(timers: seq<Timer>, t: Timer): seq<Timer>
  {
    if timers == [] then [] else if timers[0] == t then timers[1..] else [timers[0]] + Remove(timers[1..], t)
  }

  lemma {:induction false} RemoveIs(timers: seq<Timer>, t: Timer)
    requires Sorted(timers)
    ensures Sorted(Remove(timers, t)) && forall u :: u in Remove(timers, t) <==> u in timers && u != t
  {
    if timers != [] {
      var rest := timers[1..];
      assert forall i :: 0 <= i < |rest| ==> rest[i] == timers[i + 1];
      assert forall u :: u in timers <==> u == timers[0] || u in rest;
      forall u | u in rest ensures Before(timers[0], u) {
        var k :| 0 <= k < |rest| && rest[k] == u;
        assert timers[k + 1] == u;
      }
      if timers[0] != t {
        RemoveIs(rest, t);
        var r := Remove(rest, t);
        forall i, j | 0 <= i < j < |[timers[0]] + r| ensures Before(([timers[0]] + r)[i], ([timers[0]] + r)[j]) {
          if i == 0 { assert r[j - 1] in r; }
        }
        assert forall u :: u in [timers[0]] + r <==> u == timers[0] || u in r;
      }
    }
  }

  /** The first timer is the minimum of all armed ones. */
  lemma HeadIsLeast(timers: seq<Timer>)
    requires Sorted(timers) && timers != []
    ensures forall u :: u in timers && u != timers[0] ==> Before(timers[0], u)
    ensures Remove(timers, timers[0]) == timers[1..]
  {}

  /** The list and its index name the same timers. */
  ghost predicate Agree(timers: seq<Timer>, index: map<nat, Timer>)
  {
    && (forall t :: t in timers ==> t.id in index && index[t.id] == t)
    && (forall id :: id in index ==> index[id] in timers && index[id].id == id)
  }

  lemma AgreeInsert(timers: seq<Timer>, index: map<nat, Timer>, t: Timer)
    requires Sorted(timers) && Agree(timers, index) && forall u :: u in timers ==> u.id < t.id
    ensures Sorted(Insert(timers, t)) && Agree(Insert(timers, t), index[t.id := t])
  {
    hide Insert, Sorted;
    InsertIs(timers, t);
  }

  lemma AgreeRemove(timers: seq<Timer>, index: map<nat, Timer>, t: Timer)
    requires Sorted(timers) && Agree(timers, index) && t in timers
    ensures Sorted(Remove(timers, t)) && Agree(Remove(timers, t), index - {t.id})
  {
    hide Remove, Sorted;
    RemoveIs(timers, t);
    var r, kept := Remove(timers, t), index - {t.id};
    forall u | u in r ensures u.id in kept && kept[u.id] == u {
      assert u in timers;
    }
    forall id | id in kept ensures kept[id] in r && kept[id].id == id {
      assert kept[id] == index[id] && index[id] in timers;
    }
  }

  /** Each timer ever armed is waiting, fired once or cancelled, and only one of these. */
  ghost predicate History(armed: set<nat>, waiting: set<nat>, cancelled: set<nat>, fired: seq<nat>)
  {
    && (forall id :: id in armed <==> id in waiting || id in cancelled || id in fired)
    && (forall id :: id in waiting ==> id !in cancelled && id !in fired)
    && (forall id :: id in cancelled ==> id !in fired)
    && (forall i, j :: 0 <= i < j < |fired| ==> fired[i] != fired[j])
  }

  lemma ArmedHistory(armed: set<nat>, waiting: set<nat>, cancelled: set<nat>, fired: seq<nat>, id: nat)
    requires History(armed, waiting, cancelled, fired)
    ensures id !in armed ==> History(armed + {id}, waiting + {id}, cancelled, fired)
    ensures id in waiting ==> History(armed, waiting - {id}, cancelled + {id}, fired)
    ensures id in waiting ==> History(armed, waiting - {id}, cancelled, fired + [id])
  {
    assert forall x :: x in fired + [id] <==> x in fired || x == id;
  }

  // ----- How long to sleep -----

  const MILLISECOND: int := 1_000_000  // in clock ticks
  const INT_MAX: int := 0x7fff_ffff

  /** Division that truncates toward zero, as the clock's conversion does. */
  function Truncate(d: int): int { if d >= 0 then d / MILLISECOND else -(-d / MILLISECOND) }

  function Clamp(x: int): int { if x < 0 then 0 else if x > INT_MAX then INT_MAX else x }

  /** The timeout handed to the kernel while the first timer is due at `deadline`. */
  function Timeout(deadline: int, now: int): int { Clamp(Truncate(deadline - now) + 1) }

  /**
   The loop does not wake before the first timer is due, except for waits beyond the kernel's range,
   and it oversleeps by at most one millisecond. It polls without waiting exactly when the timer has
   been due for a whole millisecond.
   */
  lemma TimeoutTight(deadline: int, now: int)
    ensures 0 <= Timeout(deadline, now) <= 0x7FFF_FFFF
    ensures Timeout(deadline, now) < 0x7FFF_FFFF ==> now + Timeout(deadline, now) * 1_000_000 > deadline
    ensures deadline >= now ==> now + Timeout(deadline, now) * 1_000_000 <= deadline + 1_000_000
    ensures Timeout(deadline, now) == 0 <==> deadline - now <= -1_000_000
  {
    var d := deadline - now;
    if d >= 0 {
      assert d == d / MILLISECOND * MILLISECOND + d % MILLISECOND;
    } else {
      assert -d == -d / MILLISECOND * MILLISECOND + -d % MILLISECOND;
    }
  }

  lemma Regroup(ran: seq<Task>, task: Task, rest: seq<Task>, tasks: seq<Task>, more: seq<Task>)
    ensures ran + [task] + rest + (tasks + more) == ran + ([task] + rest) + tasks + more
  {}

  // ----- The loop -----

  class EventLoop {
    var next: nat
    var watches: map<nat, Task>
    var timers: seq<Timer>
    var index: map<nat, Timer>
    var tasks: seq<Task>
    var stopping: bool
    ghost var armed: set<nat>        // every timer ever armed
    ghost var cancelled: set<nat>
    ghost var fired: seq<nat>        // in order of firing
    ghost var posted: seq<Task>      // every task ever posted
    ghost var ran: seq<Task>

    ghost predicate Valid()
      reads this
    {
      && 0 < next && Sorted(timers) && Agree(timers, index)
      && (forall id :: id in armed ==> 0 < id < next)
      && (forall token :: token in watches ==> 0 < token < next && token !in armed)
      && History(armed, index.Keys, cancelled, fired)
    }

    /** Nothing is forgotten: what fired or was cancelled stays so, and posted tasks keep their order. */
    twostate predicate Continues()
      reads this
    {
      && old(next) <= next && old(armed) <= armed && old(cancelled) <= cancelled
      && old(fired) <= fired && old(posted) <= posted && (old(stopping) ==> stopping)
    }

    constructor ()
      ensures Valid() && timers == [] && tasks == [] && posted == [] && ran == [] && fired == [] && !stopping
    {
      next := 1;
      watches, timers, index, tasks, stopping := map[], [], map[], [], false;
      armed, cancelled, fired, posted, ran := {}, {}, [], [], [];
    }

    /** Registers a descriptor; tokens and timers draw on the same counter. */
    method Add(callback: Task) returns (token: nat)
      requires Valid()
      modifies this
      ensures Valid() && Continues() && token == old(next) && watches == old(watches)[token := callback]
      ensures timers == old(timers) && tasks == old(tasks) && ran == old(ran) && posted == old(posted)
      ensures fired == old(fired)
    {
      hide Sorted, Agree;
      token := next;
      next := next + 1;
      watches := watches[token := callback];
    }

    method Unwatch(token: nat)
      requires Valid()
      modifies this`watches
      ensures Valid() && watches == old(watches) - {token}
    {
      hide Sorted, Agree;
      watches := watches - {token};
    }

    /** Arms a timer under a number that was never used before. */
    method At(deadline: int, task: Task) returns (id: nat)
      requires Valid()
      modifies this
      ensures Valid() && Continues() && id !in old(armed) && id in index && armed == old(armed) + {id}
      ensures timers == Insert(old(timers), Timer(deadline, id, task))
      ensures index == old(index)[id := Timer(deadline, id, task)]
      ensures tasks == old(tasks) && ran == old(ran) && posted == old(posted) && fired == old(fired)
    {
      hide Sorted, Insert;
      id := next;
      next := next + 1;
      var t := Timer(deadline, id, task);
      assert forall u :: u in timers ==> u.id in armed;
      AgreeInsert(timers, index, t);
      ArmedHistory(armed, index.Keys, cancelled, fired, id);
      hide Agree, History;
      assert index[id := t].Keys == index.Keys + {id};
      timers := Insert(timers, t);
      index := index[id := t];
      armed := armed + {id};
    }

    /** Cancelling an armed timer removes it; anything else has no effect. */
    method Cancel(id: nat)
      requires Valid()
      modifies this
      ensures Valid() && Continues() && id !in index && index == old(index) - {id}
      ensures id !in old(index) ==> timers == old(timers) && cancelled == old(cancelled)
      ensures id in old(index) ==> timers == Remove(old(timers), old(index)[id]) && id in cancelled
      ensures tasks == old(tasks) && ran == old(ran) && posted == old(posted) && fired == old(fired)
    {
      hide Sorted, Remove;
      if id !in index {
        assert index - {id} == index;
        return;
      }
      AgreeRemove(timers, index, index[id]);
      ArmedHistory(armed, index.Keys, cancelled, fired, id);
      hide Agree, History;
      assert (index - {id}).Keys == index.Keys - {id};
      timers := Remove(timers, index[id]);
      index := index - {id};
      cancelled := cancelled + {id};
    }

    method Post(task: Task)
      requires Valid()
      modifies this
      ensures Valid() && Continues() && tasks == old(tasks) + [task] && posted == old(posted) + [task]
      ensures timers == old(timers) && ran == old(ran) && fired == old(fired) && next == old(next)
    {
      hide Sorted, Agree;
      tasks := tasks + [task];
      posted := posted + [task];
    }

    /** Asks the loop to end and wakes it with an empty task. */
    method Stop()
      requires Valid()
      modifies this
      ensures Valid() && Continues() && stopping && tasks == old(tasks) + [0] && posted == old(posted) + [0]
      ensures timers == old(timers) && ran == old(ran) && fired == old(fired)
    {
      stopping := true;
      Post(0);
    }

    /**
     A callback may use the loop in any way. Whatever it posts goes behind what was posted before,
     and only the loop itself fires timers.
     */
    method Callback()
      requires Valid()
      modifies this
      ensures Valid() && Continues() && fired == old(fired) && ran == old(ran)
      ensures exists more :: tasks == old(tasks) + more && posted == old(posted) + more
    {
      hide Sorted, Agree, History;
      var n: int := *;
      ghost var more: seq<Task> := [];
      assert tasks == tasks + more && posted == posted + more;
      for k := 0 to if n < 0 then 0 else n
        invariant Valid() && Continues() && fired == old(fired) && ran == old(ran)
        invariant tasks == old(tasks) + more && posted == old(posted) + more
      {
        var kind: nat, x: int, y: nat := *, *, *;
        if kind == 0 {
          var id := At(x, y);
        } else if kind == 1 {
          Cancel(y);
        } else if kind == 2 {
          Post(y);
          more := more + [y];
        } else if kind == 3 {
          Stop();
          more := more + [0];
        } else if kind == 4 {
          var token := Add(y);
        } else {
          Unwatch(y);
        }
      }
    }

    /** Runs what was posted so far, in order; whatever that posts waits for the next turn. */
    method RunTasks()
      requires Valid() && ran + tasks == posted
      modifies this
      ensures Valid() && Continues() && fired == old(fired)
      ensures ran == old(ran) + old(tasks) && ran + tasks == posted
    {
      var batch := tasks;
      tasks := [];
      hide Sorted, Agree, History;
      for k := 0 to |batch|
        invariant Valid() && Continues() && fired == old(fired)
        invariant ran == old(ran) + batch[..k] && ran + batch[k..] + tasks == posted
      {
        assert batch[..k + 1] == batch[..k] + [batch[k]] && batch[k..] == [batch[k]] + batch[k + 1..];
        RunTask(batch[k], batch[k + 1..]);
      }
      assert batch[..|batch|] == batch;
    }

    method RunTask(task: Task, ghost rest: seq<Task>)
      requires Valid() && ran + ([task] + rest) + tasks == posted
      modifies this
      ensures Valid() && Continues() && fired == old(fired)
      ensures ran == old(ran) + [task] && ran + rest + tasks == posted
    {
      hide Sorted, Agree, History;
      ghost var t, p := tasks, posted;
      Callback();
      ghost var more :| tasks == t + more && posted == p + more;
      ran := ran + [task];
      Regroup(old(ran), task, rest, t, more);
    }

    /** A reported event runs its callback only if the descriptor is still registered. */
    method Notify(token: nat) returns (run: bool)
      requires Valid() && ran + tasks == posted
      modifies this
      ensures Valid() && Continues() && fired == old(fired) && ran == old(ran) && ran + tasks == posted
      ensures run <==> token in old(watches)
    {
      run := token in watches;
      if run {
        ghost var t, p := tasks, posted;
        Callback();
        ghost var more :| tasks == t + more && posted == p + more;
        assert ran + (t + more) == ran + t + more;
      }
    }

    /** Fires the first timer if it is due: it is the least of all armed ones and was not cancelled. */
    method FireFirst(now: int) returns (due: bool)
      requires Valid() && ran + tasks == posted
      modifies this
      ensures Valid() && Continues() && ran == old(ran) && ran + tasks == posted
      ensures due <==> old(timers) != [] && old(timers)[0].deadline <= now
      ensures !due ==> fired == old(fired) && timers == old(timers)
      ensures due ==> var t := old(timers)[0];
                && fired == old(fired) + [t.id] && t.id !in old(cancelled) && t.deadline <= now
                && forall u :: u in old(timers) && u != t ==> Before(t, u)
    {
      due := timers != [] && timers[0].deadline <= now;
      if !due {
        return;
      }
      var t := timers[0];
      assert t in timers;
      HeadIsLeast(timers);
      AgreeRemove(timers, index, t);
      TakeFirst(t);
      ghost var w, p := tasks, posted;
      Callback();
      ghost var more :| tasks == w + more && posted == p + more;
      assert ran + (w + more) == ran + w + more;
    }

    /** Takes the first timer off the list and its index. */
    method TakeFirst(t: Timer)
      requires Valid() && timers != [] && timers[0] == t && t.id in index
      requires Sorted(timers[1..]) && Agree(timers[1..], index - {t.id})
      modifies this`timers, this`index, this`fired
      ensures Valid() && timers == old(timers)[1..] && index == old(index) - {t.id} && fired == old(fired) + [t.id]
    {
      hide Sorted, Agree, History;
      ArmedHistory(armed, index.Keys, cancelled, fired, t.id);
      assert (index - {t.id}).Keys == index.Keys - {t.id};
      timers := timers[1..];
      index := index - {t.id};
      fired := fired + [t.id];
    }

    /** Fires due timers one by one, reading the clock before each, until none is due. */
    method FireDue(clock: seq<int>) returns (count: nat)
      requires Valid() && ran + tasks == posted
      modifies this
      ensures Valid() && Continues() && ran == old(ran) && ran + tasks == posted
      ensures count <= |clock| && |fired| == |old(fired)| + count
      ensures count < |clock| ==> timers == [] || timers[0].deadline > clock[count]
    {
      hide Sorted, Agree, History;
      for k := 0 to |clock|
        invariant Valid() && Continues() && ran == old(ran) && ran + tasks == posted
        invariant |fired| == |old(fired)| + k
      {
        var due := FireFirst(clock[k]);
        if !due {
          return k;
        }
      }
      return |clock|;
    }

    /** One turn: the reported events, the posted tasks among them, then the due timers. */
    method Turn(events: seq<nat>, clock: seq<int>) returns (count: nat)
      requires Valid() && ran + tasks == posted
      modifies this
      ensures Valid() && Continues() && ran + tasks == posted && old(ran) <= ran
      ensures 0 in events ==> old(ran) + old(tasks) <= ran
      ensures count <= |clock| && (count < |clock| ==> timers == [] || timers[0].deadline > clock[count])
    {
      hide Sorted, Agree, History;
      for k := 0 to |events|
        invariant Valid() && Continues() && ran + tasks == posted && old(ran) <= ran
        invariant 0 in events[..k] ==> old(posted) <= ran
      {
        assert events[..k + 1] == events[..k] + [events[k]];
        if events[k] == 0 {
          RunTasks();
        } else {
          var run := Notify(events[k]);
        }
      }
      assert events[..|events|] == events;
      count := FireDue(clock);
    }
  }
}
