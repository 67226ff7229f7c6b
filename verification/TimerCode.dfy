/** The timer code itself: rows relinked in place, level-by-level search, dispatch loop. */
module TimerCode {

  import opened Arithmetic
  import opened OrderedList
  import opened TimerModel
  import opened TimerDispatch
  import opened TimerRounds
  import opened TimerRuns
  import opened TimerSkipList

  class TimerService {
    const levels: nat
    const mask: nat
    const rows: array<seq<Timer>>
    /** What the callbacks do. */
    const script: Script
    var temp: seq<Timer>
    var tick: nat
    var randomNr: nat
    var fired: nat
    ghost const timers: set<Timer>
    ghost var now: nat
    ghost var log: seq<Fired>
    ghost var height: map<Timer, nat>

    /** `rt_system_timer_init`: all rows are empty. */
    constructor (n: nat, m: nat, cb: Script, ghost ts: set<Timer>)
      requires n > 0 && (m == 1 || m == 3)
      requires forall t :: t in ts ==> t.timeoutTick == Wrap(t.deadline)
      ensures Valid() && fresh(rows) && timers == ts && script == cb && now == 0
      ensures rows[levels - 1] == [] && temp == [] && log == []
    {
      levels, mask, script, timers := n, m, cb, ts;
      rows := new seq<Timer>[n](_ => []);
      temp, tick, randomNr, fired := [], 0, 0, 0;
      now, log, height := 0, [], map[];
    }

    /** Each row is meant to hold one of so many timers of the row below. */
    function Base(): (b: nat)
      ensures b > 0
    {
      mask + 1
    }

    ghost predicate Shape()
      reads this, rows, timers
    {
      && levels > 0 && rows.Length == levels && (mask == 1 || mask == 3)
      && tick == Wrap(now) && randomNr < TICKS && fired == |log|
      && forall t :: t in timers ==> t.timeoutTick == Wrap(t.deadline)
    }

    ghost predicate Valid()
      reads this, rows, timers
    {
      Shape() && RowsOk(rows[..], height)
    }

    ghost function Tms(): (m: map<Timer, Tm>)
      reads timers
      ensures m.Keys == timers
    {
      map t: Timer | t in timers :: Tm(t.initTick, t.deadline, t.periodic, t.activated)
    }

    ghost function Abs(): (s: Timers)
      requires levels > 0 && rows.Length == levels
      reads this, rows, timers
      ensures s.tm.Keys == timers
    {
      Timers(now, Tms(), rows[levels - 1], temp, log)
    }

    /** The loop of `_timer_remove`. */
    method RowsUnlink(t: Timer)
      requires rows.Length == levels
      modifies rows
      ensures forall j :: 0 <= j < levels ==> rows[j] == Remove(old(rows[j]), t)
    {
      var i := 0;
      while i < levels
        invariant i <= levels
        invariant forall j :: 0 <= j < levels ==> rows[j] == if j < i then Remove(old(rows[j]), t) else old(rows[j])
      {
        rows[i] := Remove(rows[i], t);
        i := i + 1;
      }
    }

    /** `_timer_remove`. */
    method TimerRemove(t: Timer)
      requires Valid() && NoDup(rows[levels - 1])
      modifies rows, this`temp
      ensures Valid() && Abs() == Unlink(old(Abs()), t)
    {
      ghost var was := rows[..];
      RowsUnlink(t);
      temp := Remove(temp, t);
      RowsRemove(was, rows[..], height, t);
    }

    /** All timers of the list are within half the tick range of `t`. */
    ghost predicate Near(ws: seq<Timer>, t: Timer)
      reads timers
    {
      t in timers && forall u :: u in ws ==> u in timers && -HALF <= u.deadline - t.deadline < HALF
    }

    /** The inner loop of the search: from `start` to the first timer that is due later than `t`. */
    method ScanRow(row: seq<Timer>, start: nat, t: Timer) returns (pos: nat)
      requires Shape() && Near(row, t)
      requires start <= |row| && forall i :: 0 <= i < start ==> Key(Tms())(row[i]) <= t.deadline
      ensures pos == FindPos(Key(Tms()), row, t.deadline)
    {
      pos := start;
      ghost var key := Key(Tms());
      assert forall u :: u in row ==> key(u) == u.deadline;
      while pos < |row|
        invariant pos <= |row| && forall i :: 0 <= i < pos ==> key(row[i]) <= t.deadline
      {
        var p := row[pos];
        CompareAgrees(p.deadline, t.deadline);
        var d := TickSub(p.timeoutTick, t.timeoutTick);
        if d == 0 {
        } else if d < HALF {
          break;
        }
        pos := pos + 1;
      }
      FindPosIs(key, row, t.deadline, pos);
    }

    /** The search of `rt_timer_start`: each row is scanned from where the row above left off. */
    method Search(t: Timer) returns (heads: seq<nat>)
      requires Shape() && RowsOrdered(rows[..], Key(Tms())) && forall i :: 0 <= i < levels ==> Near(rows[i], t)
      ensures |heads| == levels
      ensures forall i :: 0 <= i < levels ==> heads[i] == FindPos(Key(Tms()), rows[i], t.deadline)
    {
      hide Near, RowsOrdered, FindPos, IndexOf, Tms, Key;
      heads := [];
      var pos: nat, lvl: nat := 0, 0;
      ghost var key := Key(Tms());
      while lvl < levels
        invariant lvl <= levels && |heads| == lvl
        invariant forall i :: 0 <= i < lvl ==> heads[i] == FindPos(key, rows[i], t.deadline)
        invariant lvl < levels ==> pos <= |rows[lvl]| && forall i :: 0 <= i < pos ==> key(rows[lvl][i]) <= t.deadline
      {
        pos := ScanRow(rows[lvl], pos, t);
        heads := heads + [pos];
        if lvl != levels - 1 && pos > 0 {
          BelowStart(key, rows[..], lvl, pos, t.deadline);
          pos := IndexOf(rows[lvl + 1], rows[lvl][pos - 1]) + 1;
        }
        lvl := lvl + 1;
      }
    }

    /** The insertion loop of `rt_timer_start`: always into the bottom row, and into further rows
        while the counter's low bits are zero. */
    method RowsLink(t: Timer, heads: seq<nat>) returns (n: nat)
      requires Shape() && |heads| == levels && forall i :: 0 <= i < levels ==> heads[i] <= |rows[i]|
      modifies rows, this`randomNr
      ensures Shape() && 1 <= n <= levels && randomNr == (old(randomNr) + 1) % TICKS
      ensures forall j :: 1 <= j < levels ==> (n > j <==> PowerDivides(Base(), j, randomNr))
      ensures forall i :: 0 <= i < levels ==>
                rows[i] == (if n >= levels - i then old(rows[i][..heads[i]]) + [t] + old(rows[i][heads[i]..]) else old(rows[i]))
    {
      randomNr := (randomNr + 1) % TICKS;
      var tst := randomNr;
      rows[levels - 1] := rows[levels - 1][..heads[levels - 1]] + [t] + rows[levels - 1][heads[levels - 1]..];
      n := 1;
      while n < levels && tst % (mask + 1) == 0
        invariant Shape() && 1 <= n <= levels && randomNr == (old(randomNr) + 1) % TICKS
        invariant tst == randomNr / Power(Base(), n - 1)
        invariant forall j :: 1 <= j < n ==> PowerDivides(Base(), j, randomNr)
        invariant forall i :: 0 <= i < levels ==>
                    rows[i] == (if n >= levels - i then old(rows[i][..heads[i]]) + [t] + old(rows[i][heads[i]..]) else old(rows[i]))
      {
        DigitZero(randomNr, Base(), n);
        var r := levels - (n + 1);
        rows[r] := rows[r][..heads[r]] + [t] + rows[r][heads[r]..];
        tst := tst / (mask + 1);
        n := n + 1;
      }
      if n < levels {
        DigitZero(randomNr, Base(), n);
        forall j | n <= j < levels ensures !PowerDivides(Base(), j, randomNr) {
          HigherPowers(randomNr, Base(), n, j);
        }
      }
    }

    /** The new deadline of a start. */
    method SetDeadline(t: Timer)
      requires Shape() && t in timers
      modifies t
      ensures Shape()
      ensures Tms() == old(Tms())[t := old(Tms())[t].(deadline := now + old(t.initTick), active := false)]
    {
      WrapAdd(now, t.initTick);
      t.activated := false;
      t.timeoutTick := (tick + t.initTick) % TICKS;
      t.deadline := now + t.initTick;
    }

    /** The first half of `rt_timer_start`: out of the list, with a new deadline. */
    method Rewind(t: Timer)
      requires Valid() && NoDup(rows[levels - 1]) && t in timers
      modifies rows, this`temp, t
      ensures Valid() && Abs() == Rewound(old(Abs()), t)
    {
      hide RowsOk;
      TimerRemove(t);
      SetDeadline(t);
    }

    /** The search finds, in every row, the place where ordered insertion puts the timer. */
    method SearchFor(t: Timer) returns (heads: seq<nat>)
      requires Valid() && NoDup(rows[levels - 1])
      requires SortedBy(Key(Tms()), rows[levels - 1]) && Near(rows[levels - 1], t)
      ensures |heads| == levels && forall i :: 0 <= i < levels ==> heads[i] <= |rows[i]|
      ensures forall i :: 0 <= i < levels ==>
                rows[i][..heads[i]] + [t] + rows[i][heads[i]..] == InsertOrdered(Key(Tms()), rows[i], t)
    {
      ghost var key := Key(Tms());
      RowsAreOrdered(rows[..], height, key);
      assert forall i :: 0 <= i < levels ==> Near(rows[i], t);
      heads := Search(t);
      assert key(t) == t.deadline;
    }

    /** Search and insertion, for a timer that is in no list. */
    method Insert(t: Timer)
      requires Valid() && t in timers && t !in rows[levels - 1] && NoDup(rows[levels - 1])
      requires SortedBy(Key(Tms()), rows[levels - 1]) && Near(rows[levels - 1], t)
      modifies rows, this`randomNr, this`height
      ensures Valid()
      ensures Abs() == old(Abs()).(list := InsertOrdered(Key(old(Tms())), old(rows[levels - 1]), t))
    {
      hide InsertOrdered, Key, RowsOk, SortedBy, Near;
      ghost var was := rows[..];
      var heads := SearchFor(t);
      var n := RowsLink(t, heads);
      RowsInsert(was, rows[..], height, Key(old(Tms())), t, n);
      height := height[t := n];
    }

    /** `rt_timer_start`. */
    method TimerStart(t: Timer)
      requires Valid() && Sound(Abs()) && t in timers
      modifies rows, this`temp, t, this`randomNr, this`height
      ensures Valid() && Abs() == StartTimer(old(Abs()), t)
    {
      hide Sound, StartTimer, RowsOk;
      RewoundReady(Abs(), t);
      Rewind(t);
      RewoundNear(t);
      Insert(t);
      SetActivated(t, true);
    }

    lemma RewoundNear(t: Timer)
      requires levels > 0 && rows.Length == levels && t in timers
      requires forall u :: u in Abs().list ==> u in timers && -HALF <= Abs().tm[u].deadline - Abs().tm[t].deadline < HALF
      ensures Near(rows[levels - 1], t)
    {
      var s := Abs();
      assert s.tm[t].deadline == t.deadline;
      forall u | u in rows[levels - 1] ensures u in timers && -HALF <= u.deadline - t.deadline < HALF {
        assert u in s.list && s.tm[u].deadline == u.deadline;
      }
    }

    method SetActivated(t: Timer, on: bool)
      requires Valid() && t in timers
      modifies t`activated
      ensures Valid() && Abs() == Activate(old(Abs()), t, on)
    {
      t.activated := on;
    }

    /** `rt_timer_detach`. */
    method TimerDetach(t: Timer)
      requires Valid() && Sound(Abs()) && t in timers
      modifies rows, this`temp, t`activated
      ensures Valid() && Abs() == DetachTimer(old(Abs()), t)
    {
      hide RowsOk;
      TimerRemove(t);
      SetActivated(t, false);
    }

    /** `rt_timer_stop`; false stands for -RT_ERROR. */
    method TimerStop(t: Timer) returns (ok: bool)
      requires Valid() && Sound(Abs()) && t in timers
      modifies rows, this`temp, t`activated
      ensures Valid() && Abs() == StopTimer(old(Abs()), t) && ok == old(t.activated)
    {
      hide RowsOk;
      if !t.activated {
        return false;
      }
      TimerRemove(t);
      SetActivated(t, false);
      ok := true;
    }

    /** `rt_timer_control` with RT_TIMER_CTRL_SET_TIME. */
    method TimerSetTime(t: Timer, ticks: nat)
      requires Valid() && t in timers
      modifies t`initTick
      ensures Valid() && Abs() == old(Abs()).(tm := old(Abs()).tm[t := old(Abs()).tm[t].(init := ticks)])
    {
      hide RowsOk;
      t.initTick := ticks;
    }

    /** One operation of a callback. */
    method Perform(op: Op)
      requires Valid() && Sound(Abs()) && OpLegal(timers, op)
      modifies rows, this`temp, op.t, this`randomNr, this`height
      ensures Valid() && Abs() == Do(old(Abs()), op)
    {
      hide Sound, RowsOk, StartTimer, Unlink;
      match op
      case Start(t) => TimerStart(t);
      case Stop(t) => var ok := TimerStop(t);
      case Detach(t) => TimerDetach(t);
      case SetTime(t, ticks) => TimerSetTime(t, ticks);
    }

    /** The body of a callback. */
    method PerformAll(ops: seq<Op>)
      requires Valid() && Sound(Abs()) && OpsLegal(timers, ops)
      modifies rows, this`temp, timers, this`randomNr, this`height
      ensures Valid() && Abs() == DoAll(old(Abs()), ops)
    {
      hide Sound, RowsOk, Do, DoAll, Tms;
      assert ops[0..] == ops;
      var i := 0;
      while i < |ops|
        invariant i <= |ops| && Valid() && Sound(Abs()) && OpsLegal(Abs().tm.Keys, ops[i..])
        invariant DoAll(Abs(), ops[i..]) == old(DoAll(Abs(), ops))
      {
        OpsStep(Abs(), ops, i);
        Perform(ops[i]);
        i := i + 1;
      }
      NoOps(Abs(), ops[i..]);
    }

    /** The first half of a round of `rt_timer_check`. */
    method TakeHead(t: Timer)
      requires Valid() && NoDup(rows[levels - 1]) && rows[levels - 1] != [] && t == rows[levels - 1][0] && t in timers
      modifies rows, this`temp, this`fired, this`log, t`activated
      ensures Valid() && Abs() == Take(old(Abs()))
    {
      hide RowsOk, NoDup, Remove;
      TimerRemove(t);
      if !t.periodic {
        SetActivated(t, false);
      }
      temp := [t] + temp;
      fired := fired + 1;
      log := log + [Fired(t, now)];
    }

    /** The second half: re-arm the timer unless its callback moved or stopped it. */
    method FinishRound(t: Timer)
      requires Valid() && t in timers && FinishReady(Abs(), t)
      modifies rows, this`temp, t, this`randomNr, this`height
      ensures Valid() && Abs() == Finish(old(Abs()), t)
    {
      hide RowsOk, Sound, StartTimer;
      if temp == [] {
        return;
      }
      temp := Remove(temp, t);
      if t.periodic && t.activated {
        SetActivated(t, false);
        TimerStart(t);
      }
    }

    /** One round of `rt_timer_check`. */
    method DispatchHead()
      requires Valid() && Quiet(Abs()) && HeadDue(Abs()) && ScriptLegal(timers, script)
      modifies rows, this`temp, this`fired, this`log, this`randomNr, this`height, timers
      ensures Valid() && Abs() == Dispatch(old(Abs()), script)
    {
      hide RowsOk, Take, Finish, DoAll, OpsLegal, ScriptLegal;
      DispatchReady(Abs(), script);
      var t, k := rows[levels - 1][0], fired;
      TakeHead(t);
      PerformAll(script(t, k));
      FinishRound(t);
    }

    /** `rt_timer_check`, which ends when it comes to rest within some number of rounds. */
    method TimerCheck(ghost k: nat)
      requires Valid() && Quiet(Abs()) && ScriptLegal(timers, script) && !HeadDue(Rounds(Abs(), script, k))
      modifies rows, this`temp, this`fired, this`log, this`randomNr, this`height, timers
      ensures Valid() && Abs() == Rounds(old(Abs()), script, k)
    {
      hide RowsOk, Dispatch, ScriptLegal, TimerOk, NoDup, SortedBy, Rounds, Tms;
      ghost var n := k;
      RoundsOnce(Abs(), script, n);
      while rows[levels - 1] != []
        invariant Valid() && Quiet(Abs()) && ScriptLegal(timers, script)
        invariant Rounds(Abs(), script, n) == Rounds(old(Abs()), script, k)
        invariant RoundsUnfold(Abs(), script, n)
        decreases n
      {
        var t := rows[levels - 1][0];
        HeadDueAgrees(t);
        if TickSub(tick, t.timeoutTick) < HALF {
          DispatchKeeps(Abs(), script);
          DispatchHead();
          n := n - 1;
          RoundsOnce(Abs(), script, n);
        } else {
          break;
        }
      }
    }

    /** The wrapped comparison of the check is right for the head of the list. */
    lemma HeadDueAgrees(t: Timer)
      requires Valid() && Quiet(Abs()) && rows[levels - 1] != [] && t == rows[levels - 1][0]
      ensures t in timers && (HeadDue(Abs()) <==> TickSub(tick, t.timeoutTick) < HALF)
    {
      var s := Abs();
      assert t in s.list && TimerOk(s, t) && s.tm[t].deadline == t.deadline;
      DueAgrees(now, t.deadline);
    }

    /** `rt_tick_increase`, as far as timers are concerned, when its check comes to rest. */
    method TickIncrease(ghost k: nat)
      requires Valid() && Current(Abs()) && ScriptLegal(timers, script)
      requires RestsIn(Abs(), script, k)
      modifies rows, this`temp, this`fired, this`log, this`randomNr, this`height, this`tick, this`now, timers
      ensures Valid() && Abs() == TickRounds(old(Abs()), script, k)
    {
      hide RowsOk, Sound, Rounds, ScriptLegal;
      NextCurrent(Abs());
      WrapAdd(now, 1);
      tick := (tick + 1) % TICKS;
      now := now + 1;
      TimerCheck(k);
    }
  }

  /** What the number of rounds left says about the next one. */
  ghost predicate RoundsUnfold(s: Timers, script: Script, n: nat) {
    && Quiet(s) && ScriptLegal(s.tm.Keys, script)
    && (!HeadDue(s) ==> Rounds(s, script, n) == s)
    && (HeadDue(s) && !HeadDue(Rounds(s, script, n)) ==>
          && n > 0 && Quiet(Dispatch(s, script))
          && Rounds(s, script, n) == Rounds(Dispatch(s, script), script, n - 1))
  }

  lemma RoundsOnce(s: Timers, script: Script, n: nat)
    requires Quiet(s) && ScriptLegal(s.tm.Keys, script)
    ensures RoundsUnfold(s, script, n)
  {
    hide Dispatch, TimerOk, NoDup, SortedBy, ScriptLegal;
    if HeadDue(s) {
      DispatchKeeps(s, script);
    }
  }

  /** The next operation of a callback. */
  lemma OpsStep(s: Timers, ops: seq<Op>, i: nat)
    requires Sound(s) && i < |ops| && OpsLegal(s.tm.Keys, ops[i..])
    ensures OpLegal(s.tm.Keys, ops[i]) && ops[i].t in s.tm && Sound(Do(s, ops[i]))
    ensures OpsLegal(Do(s, ops[i]).tm.Keys, ops[i + 1..]) && DoAll(s, ops[i..]) == DoAll(Do(s, ops[i]), ops[i + 1..])
  {
    assert ops[i..][0] == ops[i] && ops[i..][1..] == ops[i + 1..];
    assert OpLegal(s.tm.Keys, ops[i..][0]);
    DoSound(s, ops[i]);
  }

  lemma NoOps(s: Timers, ops: seq<Op>)
    requires OpsLegal(s.tm.Keys, ops) && ops == []
    ensures DoAll(s, ops) == s
  {
  }

  /** The timer under dispatch is in the local list, or in no state that matters. */
  ghost predicate FinishReady(s: Timers, t: Timer) {
    t in s.tm && (s.temp == [] || Sound(Activate(s.(temp := Remove(s.temp, t)), t, false)))
  }

  lemma DispatchReady(s: Timers, script: Script)
    requires Quiet(s) && HeadDue(s) && ScriptLegal(s.tm.Keys, script)
    ensures NoDup(s.list) && Sound(Take(s))
    ensures var ops := script(s.list[0], |s.log|);
            OpsLegal(Take(s).tm.Keys, ops) && FinishReady(DoAll(Take(s), ops), s.list[0])
  {
    var t := s.list[0];
    var ops := script(t, |s.log|);
    TakeKeeps(s);
    DoAllSound(Take(s), ops);
    var d := DoAll(Take(s), ops);
    if d.temp == [t] {
      assert TimerOk(d, t);
      RemoveAbsent(d.list, t);
      UnlinkKeeps(d, t);
      assert Activate(d.(temp := Remove(d.temp, t)), t, false) == DetachTimer(d, t);
    }
  }

  /** The state of a start between removal and insertion. */
  ghost function Rewound(s: Timers, t: Timer): (r: Timers)
    requires t in s.tm
  {
    var u := Unlink(s, t);
    u.(tm := s.tm[t := s.tm[t].(deadline := s.now + s.tm[t].init, active := false)])
  }

  lemma RewoundReady(s: Timers, t: Timer)
    requires Sound(s) && t in s.tm
    ensures NoDup(s.list)
    ensures var r := Rewound(s, t);
            && NoDup(r.list) && t !in r.list && SortedBy(Key(r.tm), r.list)
            && (forall u :: u in r.list ==> u in r.tm && -HALF <= r.tm[u].deadline - r.tm[t].deadline < HALF)
            && StartTimer(s, t) == Activate(r.(list := InsertOrdered(Key(r.tm), r.list, t)), t, true)
  {
    hide SortedBy, InsertOrdered, NoDup, Remove;
    var r, u := Rewound(s, t), StartTimer(s, t);
    RemoveMembers(s.list, t);
    RewoundSorted(s, t);
    InsertSame(Key(r.tm), Key(u.tm), r.list, t);
    RewoundWindow(s, t);
  }

  lemma RewoundWindow(s: Timers, t: Timer)
    requires Sound(s) && t in s.tm
    ensures var r := Rewound(s, t);
            forall u :: u in r.list ==> u in r.tm && -HALF <= r.tm[u].deadline - r.tm[t].deadline < HALF
  {
    hide SortedBy, NoDup, Remove;
    RemoveMembersOf(s, t);
    var r := Rewound(s, t);
    assert TimerOk(s, t);
    forall x | x in r.list ensures x in r.tm && -HALF <= r.tm[x].deadline - r.tm[t].deadline < HALF {
      assert TimerOk(s, x);
    }
  }

  lemma RemoveMembersOf(s: Timers, t: Timer)
    requires Sound(s)
    ensures forall u :: u in Remove(s.list, t) ==> u in s.list && u != t
  {
    RemoveMembers(s.list, t);
  }

  lemma RewoundSorted(s: Timers, t: Timer)
    requires ListOk(s) && t in s.tm
    ensures SortedBy(Key(Rewound(s, t).tm), Remove(s.list, t))
  {
    var key := Key(Rewound(s, t).tm);
    RemoveKeeps(Key(s.tm), s.list, t);
    RemoveMembers(s.list, t);
    SameKeySorted(Key(s.tm), key, Remove(s.list, t));
  }

  lemma RowsInsert(rows: seq<seq<Timer>>, r: seq<seq<Timer>>, h: map<Timer, nat>, key: Timer -> nat, t: Timer, n: nat)
    requires RowsOk(rows, h) && NoDup(rows[|rows| - 1]) && SortedBy(key, rows[|rows| - 1]) && t !in rows[|rows| - 1]
    requires |r| == |rows| && 1 <= n <= |rows|
    requires forall i :: 0 <= i < |rows| ==> r[i] == if n >= |rows| - i then InsertOrdered(key, rows[i], t) else rows[i]
    ensures RowsOk(r, h[t := n])
  {
    hide FindPos, InsertOrdered, SortedBy, NoDup, Filter;
    InsertMembers(key, rows[|rows| - 1], t);
    forall i | 0 <= i < |r| ensures r[i] == Filter(r[|r| - 1], h[t := n], |r| - i) {
      RowInsert(rows[|rows| - 1], h, key, t, n, |rows| - i);
    }
  }

  lemma RowInsert(list: seq<Timer>, h: map<Timer, nat>, key: Timer -> nat, t: Timer, n: nat, k: nat)
    requires NoDup(list) && SortedBy(key, list) && t !in list
    ensures Filter(InsertOrdered(key, list, t), h[t := n], k)
         == if n >= k then InsertOrdered(key, Filter(list, h, k), t) else Filter(list, h, k)
  {
    hide *;
    FilterSame(list, h, h[t := n], k);
    FilterInsert(key, list, h[t := n], k, t);
  }

  /** What lies before the starting point in the row below is due no later. */
  lemma BelowStart(key: Timer -> nat, rows: seq<seq<Timer>>, lvl: nat, pos: nat, d: nat)
    requires RowsOrdered(rows, key) && lvl < |rows| - 1 && 0 < pos <= |rows[lvl]| && key(rows[lvl][pos - 1]) <= d
    ensures rows[lvl][pos - 1] in rows[lvl + 1]
    ensures var row := rows[lvl + 1]; var k := IndexOf(row, rows[lvl][pos - 1]) + 1;
            k <= |row| && forall i :: 0 <= i < k ==> key(row[i]) <= d
  {
    assert rows[lvl][pos - 1] in rows[lvl];
    var row := rows[lvl + 1];
    var k := IndexOf(row, rows[lvl][pos - 1]) + 1;
    forall i | 0 <= i < k ensures key(row[i]) <= d {
      if i < k - 1 {
        assert key(row[i]) <= key(row[k - 1]);
      }
    }
  }

  /** Rows are sorted and every timer of a row is also in the row below. */
  ghost predicate RowsOrdered(rows: seq<seq<Timer>>, key: Timer -> nat) {
    && (forall i :: 0 <= i < |rows| ==> SortedBy(key, rows[i]))
    && (forall i, t {:trigger t in rows[i]} :: 0 <= i < |rows| - 1 && t in rows[i] ==> t in rows[i + 1])
  }

  lemma RowsRemove(rows: seq<seq<Timer>>, r: seq<seq<Timer>>, h: map<Timer, nat>, t: Timer)
    requires RowsOk(rows, h) && NoDup(rows[|rows| - 1]) && |r| == |rows|
    requires forall i :: 0 <= i < |rows| ==> r[i] == Remove(rows[i], t)
    ensures RowsOk(r, h)
  {
    var list := rows[|rows| - 1];
    RemoveMembers(list, t);
    forall i | 0 <= i < |r| ensures r[i] == Filter(r[|r| - 1], h, |r| - i) {
      FilterRemove(list, h, |rows| - i, t);
    }
  }

  lemma RowsAreOrdered(rows: seq<seq<Timer>>, h: map<Timer, nat>, key: Timer -> nat)
    requires RowsOk(rows, h) && NoDup(rows[|rows| - 1]) && SortedBy(key, rows[|rows| - 1])
    ensures RowsOrdered(rows, key)
    ensures forall i, t :: 0 <= i < |rows| && t in rows[i] ==> t in rows[|rows| - 1]
  {
    hide SortedBy, NoDup, Filter;
    var n, list := |rows|, rows[|rows| - 1];
    forall i | 0 <= i < n ensures SortedBy(key, rows[i]) && forall t :: t in rows[i] ==> t in list && (i < n - 1 ==> t in rows[i + 1]) {
      FilterKeeps(key, list, h, n - i);
      FilterMembers(list, h, n - i);
      if i < n - 1 {
        FilterMembers(list, h, n - (i + 1));
      }
    }
  }
}
