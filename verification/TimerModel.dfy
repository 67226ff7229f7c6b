/** The timer service on unbounded time: a list ordered by deadline, operations on it, and the
    dispatch of due timers with callbacks that may use any of the operations. */
module TimerModel {

  import opened OrderedList

  /** RT_TICK_MAX, and half of it in integer division. */
  const TICK_MAX := 0xffff_ffff
  const HALF := TICK_MAX / 2

  /** A timer control block; `deadline` is `timeoutTick` before wrapping around. */
  class Timer {
    var initTick: nat
    var timeoutTick: nat
    var periodic: bool
    var activated: bool
    ghost var deadline: nat
  }

  datatype Tm = Tm(init: nat, deadline: nat, periodic: bool, active: bool)

  /** `temp` is the local list that holds a timer during its callback. */
  datatype Timers = Timers(now: nat, tm: map<Timer, Tm>, list: seq<Timer>, temp: seq<Timer>, log: seq<Fired>)

  datatype Fired = Fired(timer: Timer, at: nat)

  datatype Op =
    | Start(t: Timer)
    | Stop(t: Timer)
    | Detach(t: Timer)
    | SetTime(t: Timer, ticks: nat)

  /** What the callback of a timer does, at each position of the log: any behaviour at all. */
  type Script = (Timer, nat) -> seq<Op>

  ghost function Key(tm: map<Timer, Tm>): (r: Timer -> nat) {
    t => if t in tm then tm[t].deadline else 0
  }

  // ---------------------------------------------------------------- the operations

  /** `_timer_remove`: out of whatever list it is in. */
  ghost function Unlink(s: Timers, t: Timer): (r: Timers) {
    s.(list := Remove(s.list, t), temp := Remove(s.temp, t))
  }

  ghost function Activate(s: Timers, t: Timer, on: bool): (r: Timers)
    requires t in s.tm
  {
    s.(tm := s.tm[t := s.tm[t].(active := on)])
  }

  /** `rt_timer_start`: behind all timers that are due no later. */
  ghost function StartTimer(s: Timers, t: Timer): (r: Timers)
    requires t in s.tm
  {
    var u := Unlink(s, t);
    var tm := s.tm[t := s.tm[t].(deadline := s.now + s.tm[t].init, active := true)];
    u.(tm := tm, list := InsertOrdered(Key(tm), u.list, t))
  }

  ghost function StopTimer(s: Timers, t: Timer): (r: Timers)
    requires t in s.tm
  {
    if !s.tm[t].active then s else Activate(Unlink(s, t), t, false)
  }

  ghost function DetachTimer(s: Timers, t: Timer): (r: Timers)
    requires t in s.tm
  {
    Activate(Unlink(s, t), t, false)
  }

  /** What the source accepts; a time of zero ticks is not refused. */
  ghost predicate OpLegal(keys: set<Timer>, op: Op) {
    op.t in keys && (op.SetTime? ==> op.ticks < HALF)
  }

  ghost predicate OpsLegal(keys: set<Timer>, ops: seq<Op>) {
    forall i :: 0 <= i < |ops| ==> OpLegal(keys, ops[i])
  }

  /** No time of zero ticks is set. */
  ghost predicate OpOk(keys: set<Timer>, op: Op) {
    OpLegal(keys, op) && (op.SetTime? ==> op.ticks >= 1)
  }

  ghost predicate OpsOk(keys: set<Timer>, ops: seq<Op>) {
    forall i :: 0 <= i < |ops| ==> OpOk(keys, ops[i])
  }

  lemma OpsOkLegal(keys: set<Timer>, ops: seq<Op>)
    requires OpsOk(keys, ops)
    ensures OpsLegal(keys, ops)
  {
  }

  ghost function Do(s: Timers, op: Op): (r: Timers)
    requires OpLegal(s.tm.Keys, op)
    ensures r.tm.Keys == s.tm.Keys && r.now == s.now && r.log == s.log
  {
    match op
    case Start(t) => StartTimer(s, t)
    case Stop(t) => StopTimer(s, t)
    case Detach(t) => DetachTimer(s, t)
    case SetTime(t, ticks) => s.(tm := s.tm[t := s.tm[t].(init := ticks)])
  }

  ghost function DoAll(s: Timers, ops: seq<Op>): (r: Timers)
    requires OpsLegal(s.tm.Keys, ops)
    ensures r.tm.Keys == s.tm.Keys && r.now == s.now && r.log == s.log
    decreases |ops|
  {
    if ops == [] then s else DoAll(Do(s, ops[0]), ops[1..])
  }

  // ---------------------------------------------------------------- dispatch

  ghost predicate ScriptLegal(keys: set<Timer>, script: Script) {
    forall t, k :: t in keys ==> OpsLegal(keys, script(t, k))
  }

  ghost predicate ScriptOk(keys: set<Timer>, script: Script) {
    forall t, k :: t in keys ==> OpsOk(keys, script(t, k))
  }

  lemma ScriptOkLegal(keys: set<Timer>, script: Script)
    requires ScriptOk(keys, script)
    ensures ScriptLegal(keys, script)
  {
    forall t, k | t in keys ensures OpsLegal(keys, script(t, k)) {
      OpsOkLegal(keys, script(t, k));
    }
  }

  /** The first timer of the list is due: it leaves the list and goes to the local one. */
  ghost function Take(s: Timers): (r: Timers)
    requires s.list != [] && s.list[0] in s.tm
  {
    var t := s.list[0];
    var u := Unlink(s, t);
    var v := if s.tm[t].periodic then u else Activate(u, t, false);
    v.(temp := [t] + u.temp, log := s.log + [Fired(t, s.now)])
  }

  /** After the callback: re-arm the timer unless the callback moved or stopped it. */
  ghost function Finish(s: Timers, t: Timer): (r: Timers)
    requires t in s.tm
  {
    if s.temp == [] then s
    else
      var u := s.(temp := Remove(s.temp, t));
      if s.tm[t].periodic && s.tm[t].active then StartTimer(Activate(u, t, false), t) else u
  }

  ghost function Dispatch(s: Timers, script: Script): (r: Timers)
    requires ScriptLegal(s.tm.Keys, script) && s.list != [] && s.list[0] in s.tm
    ensures r.tm.Keys == s.tm.Keys && r.now == s.now && r.log == s.log + [Fired(s.list[0], s.now)]
  {
    var t := s.list[0];
    Finish(DoAll(Take(s), script(t, |s.log|)), t)
  }

  // ---------------------------------------------------------------- the invariant

  /** A timer of zero ticks, started after the check of one tick, is found one tick late by the next. */
  ghost predicate TimerOk(s: Timers, t: Timer)
    requires t in s.tm
  {
    && s.tm[t].init < HALF
    && (t in s.list ==> s.tm[t].active && s.now <= s.tm[t].deadline + 1 && s.tm[t].deadline < s.now + HALF)
    && (s.tm[t].active ==> t in s.list || t in s.temp)
    && (t in s.temp ==> t !in s.list && (s.tm[t].active ==> s.tm[t].periodic))
  }

  ghost predicate ListOk(s: Timers) {
    && NoDup(s.list) && SortedBy(Key(s.tm), s.list) && (forall t :: t in s.list ==> t in s.tm)
    && NoDup(s.temp) && (forall t :: t in s.temp ==> t in s.tm)
  }

  ghost predicate Sound(s: Timers) {
    ListOk(s) && forall t {:trigger TimerOk(s, t)} :: t in s.tm ==> TimerOk(s, t)
  }

  /** No timer has a time of zero ticks. */
  ghost predicate Positive(s: Timers) {
    forall t :: t in s.tm ==> s.tm[t].init >= 1
  }

  ghost predicate InvBusy(s: Timers) {
    Sound(s) && Positive(s)
  }

  /** Between calls nothing is left in a local list. */
  ghost predicate Quiet(s: Timers) {
    Sound(s) && s.temp == []
  }

  ghost predicate Inv(s: Timers) {
    InvBusy(s) && s.temp == []
  }

  ghost function Due(s: Timers): (r: set<Timer>)
    requires forall t :: t in s.list ==> t in s.tm
  {
    set t | t in s.list && s.tm[t].deadline <= s.now
  }

  // ---------------------------------------------------------------- operations keep it

  /** A started timer is due at once exactly when its time is zero ticks. */
  lemma StartKeeps(s: Timers, t: Timer)
    requires Sound(s) && t in s.tm
    ensures var r := StartTimer(s, t);
            && Sound(r) && (Positive(s) ==> Positive(r))
            && Due(r) == (if s.tm[t].init == 0 then Due(s) + {t} else Due(s) - {t}) && r.temp == Remove(s.temp, t) && r.tm[t].active && t in r.list
            && (forall u :: u in s.list ==> u in r.list) && (forall u :: u in r.list && u != t ==> u in s.list)
  {
    hide InsertOrdered, SortedBy, NoDup;
    var r := StartTimer(s, t);
    StartList(s, t);
    assert TimerOk(s, t);
    forall u | u in r.tm ensures TimerOk(r, u) {
      assert TimerOk(s, u);
      StartTimerOk(s, t, u);
    }
    assert t in Due(r) <==> s.tm[t].init == 0;
    assert forall u :: u != t ==> (u in Due(r) <==> u in Due(s));
  }

  /** A start sets the deadline from now and the time of the timer, and puts it behind every timer
      that is due no later, equal ones included; the others keep their order and their fields. */
  lemma StartDoes(s: Timers, t: Timer) returns (k: nat)
    requires Sound(s) && t in s.tm
    ensures var r := StartTimer(s, t);
            && r.now == s.now && r.log == s.log && r.temp == Remove(s.temp, t)
            && r.tm == s.tm[t := Tm(s.tm[t].init, s.now + s.tm[t].init, s.tm[t].periodic, true)]
            && k < |r.list| && r.list[k] == t && r.list[..k] + r.list[k + 1..] == Remove(s.list, t)
            && (forall u :: u in r.list[..k] ==> u in r.tm && r.tm[u].deadline <= r.tm[t].deadline)
            && (forall u :: u in r.list[k + 1..] ==> u in r.tm && r.tm[u].deadline > r.tm[t].deadline)
  {
    hide InsertOrdered, SortedBy, NoDup, TimerOk;
    var r, ws := StartTimer(s, t), Remove(s.list, t);
    StartList(s, t);
    RemoveMembers(s.list, t);
    RestSorted(s, t);
    k := InsertStable(Key(r.tm), ws, t);
    var before, behind := r.list[..k], r.list[k + 1..];
    assert forall u :: u in before ==> u in before + behind;
    assert forall u :: u in behind ==> u in before + behind;
  }

  lemma RestSorted(s: Timers, t: Timer)
    requires ListOk(s) && t in s.tm
    ensures SortedBy(Key(StartTimer(s, t).tm), Remove(s.list, t))
  {
    var key := Key(StartTimer(s, t).tm);
    RemoveKeeps(Key(s.tm), s.list, t);
    RemoveMembers(s.list, t);
    SameKeySorted(Key(s.tm), key, Remove(s.list, t));
  }

  /** Stopping an active timer, and detaching any, takes it out of its list and deactivates it;
      stopping an inactive one does nothing; setting the time changes the time alone. */
  lemma OthersDo(s: Timers, t: Timer, ticks: nat)
    requires Sound(s) && t in s.tm && ticks < HALF
    ensures var r := Do(s, Detach(t));
            && r.tm == s.tm[t := Tm(s.tm[t].init, s.tm[t].deadline, s.tm[t].periodic, false)]
            && t !in r.list && t !in r.temp && r.list == Remove(s.list, t) && r.temp == Remove(s.temp, t)
    ensures Do(s, Stop(t)) == if s.tm[t].active then Do(s, Detach(t)) else s
    ensures var r := Do(s, SetTime(t, ticks));
            && r.tm[t] == Tm(ticks, s.tm[t].deadline, s.tm[t].periodic, s.tm[t].active)
            && (forall u :: u in s.tm && u != t ==> r.tm[u] == s.tm[u]) && r.list == s.list && r.temp == s.temp
  {
    RemoveMembers(s.list, t);
    RemoveMembers(s.temp, t);
  }

  lemma StartTimerOk(s: Timers, t: Timer, u: Timer)
    requires ListOk(s) && t in s.tm && u in s.tm && TimerOk(s, u) && s.tm[t].init < HALF
    requires var r := StartTimer(s, t);
             && t in r.list && t !in r.temp && (forall x :: x in s.list ==> x in r.list)
             && (forall x :: x in r.list && x != t ==> x in s.list)
             && (forall x :: x in s.temp && x != t ==> x in r.temp) && (forall x :: x in r.temp ==> x in s.temp)
    ensures TimerOk(StartTimer(s, t), u)
  {
  }

  lemma StartList(s: Timers, t: Timer)
    requires ListOk(s) && t in s.tm
    ensures var r := StartTimer(s, t);
            && ListOk(r) && t in r.list && t !in r.temp && (forall x :: x in s.list ==> x in r.list)
            && (forall x :: x in r.list && x != t ==> x in s.list)
            && (forall x :: x in s.temp && x != t ==> x in r.temp) && (forall x :: x in r.temp ==> x in s.temp)
  {
    var r, ws := StartTimer(s, t), Remove(s.list, t);
    RemoveMembers(s.list, t);
    RemoveMembers(s.temp, t);
    StartSorted(Key(s.tm), Key(r.tm), s.list, t);
    InsertMembers(Key(r.tm), ws, t);
  }

  /** Re-inserting `t` under a new key keeps the list sorted. */
  lemma StartSorted(was: Timer -> nat, key: Timer -> nat, ws: seq<Timer>, t: Timer)
    requires NoDup(ws) && SortedBy(was, ws) && forall u :: u in ws && u != t ==> key(u) == was(u)
    ensures SortedBy(key, InsertOrdered(key, Remove(ws, t), t))
  {
    RemoveMembers(ws, t);
    assert SortedBut(key, ws, t) by {
      forall i, j | 0 <= i < j < |ws| && ws[i] != t && ws[j] != t ensures key(ws[i]) <= key(ws[j]) {
        assert key(ws[i]) == was(ws[i]) && key(ws[j]) == was(ws[j]);
      }
    }
    RemoveKeeps(key, ws, t);
    InsertKeeps(key, Remove(ws, t), t);
  }

  lemma UnlinkKeeps(s: Timers, t: Timer)
    requires Sound(s) && t in s.tm
    ensures var r := DetachTimer(s, t);
            && Sound(r) && (Positive(s) ==> Positive(r)) && Due(r) == Due(s) - {t} && r.temp == Remove(s.temp, t)
            && (forall u :: u in r.list ==> u in s.list && u != t) && (forall u :: u in s.list && u != t ==> u in r.list)
  {
    var r := DetachTimer(s, t);
    RemoveMembers(s.list, t);
    RemoveMembers(s.temp, t);
    RemoveKeeps(Key(s.tm), s.list, t);
    SameKeySorted(Key(s.tm), Key(r.tm), r.list);
    forall u | u in r.tm ensures TimerOk(r, u) {
      assert TimerOk(s, u);
    }
  }

  lemma SameKeySorted(a: Timer -> nat, b: Timer -> nat, ws: seq<Timer>)
    requires SortedBy(a, ws) && forall u :: u in ws ==> b(u) == a(u)
    ensures SortedBy(b, ws)
  {
    forall i, j | 0 <= i < j < |ws| ensures b(ws[i]) <= b(ws[j]) {
      assert b(ws[i]) == a(ws[i]) && b(ws[j]) == a(ws[j]);
    }
  }

  lemma SetTimeKeeps(s: Timers, t: Timer, ticks: nat)
    requires Sound(s) && t in s.tm && ticks < HALF
    ensures Sound(Do(s, SetTime(t, ticks))) && Due(Do(s, SetTime(t, ticks))) == Due(s)
  {
    var r := Do(s, SetTime(t, ticks));
    SameKeySorted(Key(s.tm), Key(r.tm), r.list);
    forall u | u in r.tm ensures TimerOk(r, u) {
      assert TimerOk(s, u);
    }
  }

  /** Whatever the times, every operation keeps the list sound. */
  lemma DoSound(s: Timers, op: Op)
    requires Sound(s) && OpLegal(s.tm.Keys, op)
    ensures Sound(Do(s, op)) && Do(s, op).tm.Keys == s.tm.Keys
    ensures Do(s, op).temp == s.temp || Do(s, op).temp == Remove(s.temp, op.t)
  {
    match op
    case Start(t) => StartKeeps(s, t);
    case Stop(t) => UnlinkKeeps(s, t);
    case Detach(t) => UnlinkKeeps(s, t);
    case SetTime(t, ticks) => SetTimeKeeps(s, t, ticks);
  }

  lemma {:induction false} DoAllSound(s: Timers, ops: seq<Op>)
    requires Sound(s) && OpsLegal(s.tm.Keys, ops) && |s.temp| <= 1
    ensures Sound(DoAll(s, ops)) && (DoAll(s, ops).temp == s.temp || DoAll(s, ops).temp == [])
    decreases |ops|
  {
    if ops != [] {
      DoSound(s, ops[0]);
      DoAllSound(Do(s, ops[0]), ops[1..]);
    }
  }

  /** With times of at least one tick, no operation makes a timer due at once. */
  lemma DoKeeps(s: Timers, op: Op)
    requires InvBusy(s) && OpOk(s.tm.Keys, op)
    ensures InvBusy(Do(s, op)) && Due(Do(s, op)) <= Due(s) && Do(s, op).tm.Keys == s.tm.Keys
    ensures Do(s, op).temp == s.temp || Do(s, op).temp == Remove(s.temp, op.t)
  {
    match op
    case Start(t) => StartKeeps(s, t);
    case Stop(t) => UnlinkKeeps(s, t);
    case Detach(t) => UnlinkKeeps(s, t);
    case SetTime(t, ticks) => SetTimeKeeps(s, t, ticks);
  }

  lemma {:induction false} DoAllKeeps(s: Timers, ops: seq<Op>)
    requires InvBusy(s) && OpsOk(s.tm.Keys, ops) && |s.temp| <= 1
    ensures InvBusy(DoAll(s, ops)) && Due(DoAll(s, ops)) <= Due(s)
    ensures DoAll(s, ops).temp == s.temp || DoAll(s, ops).temp == []
    decreases |ops|
  {
    if ops != [] {
      DoKeeps(s, ops[0]);
      DoAllKeeps(Do(s, ops[0]), ops[1..]);
    }
  }
}
