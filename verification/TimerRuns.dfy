/** What the dispatch means for one timer: whether it fires, and at which ticks over any run. */
module TimerRuns {

  import opened OrderedList
  import opened TimerModel
  import opened TimerDispatch

  ghost predicate Touches(ops: seq<Op>, t: Timer) {
    exists i :: 0 <= i < |ops| && ops[i].t == t
  }

  /** The standing of `t` in two states is the same. */
  ghost predicate SameFor(s: Timers, r: Timers, t: Timer) {
    && t in s.tm && t in r.tm && r.tm[t] == s.tm[t]
    && (t in r.list <==> t in s.list) && (t in r.temp <==> t in s.temp)
  }

  // ---------------------------------------------------------------- operations on other timers

  lemma DoOther(s: Timers, op: Op, t: Timer)
    requires Sound(s) && OpLegal(s.tm.Keys, op) && t in s.tm && op.t != t
    ensures SameFor(s, Do(s, op), t)
  {
    RemoveMembers(s.temp, op.t);
    match op
    case Start(u) => StartKeeps(s, u);
    case Stop(u) => UnlinkKeeps(s, u);
    case Detach(u) => UnlinkKeeps(s, u);
    case SetTime(u, ticks) =>
  }

  lemma {:induction false} DoAllOther(s: Timers, ops: seq<Op>, t: Timer)
    requires Sound(s) && OpsLegal(s.tm.Keys, ops) && t in s.tm && !Touches(ops, t)
    ensures SameFor(s, DoAll(s, ops), t)
    decreases |ops|
  {
    if ops != [] {
      DoSound(s, ops[0]);
      DoOther(s, ops[0], t);
      forall i | 0 <= i < |ops[1..]| ensures ops[1..][i].t != t {
        assert ops[i + 1].t != t;
      }
      DoAllOther(Do(s, ops[0]), ops[1..], t);
    }
  }

  lemma FinishOther(s: Timers, u: Timer, t: Timer)
    requires Sound(s) && u in s.tm && t in s.tm && t != u && (s.temp == [] || s.temp == [u])
    ensures SameFor(s, Finish(s, u), t)
  {
    if s.temp == [u] {
      FinishIs(s, u);
      UnlinkKeeps(s, u);
      DoOther(s, Detach(u), t);
      if s.tm[u].periodic && s.tm[u].active {
        DoOther(DetachTimer(s, u), Start(u), t);
      }
    }
  }

  lemma DispatchOther(s: Timers, script: Script, t: Timer)
    requires Quiet(s) && HeadDue(s) && ScriptLegal(s.tm.Keys, script) && t in s.tm && t != s.list[0]
    requires !Touches(script(s.list[0], |s.log|), t)
    ensures SameFor(s, Dispatch(s, script), t)
  {
    var u := s.list[0];
    var ops := script(u, |s.log|);
    TakeKeeps(s);
    TakeFields(s);
    assert s.list == [u] + s.list[1..];
    DoAllOther(Take(s), ops, t);
    DoAllSound(Take(s), ops);
    FinishOther(DoAll(Take(s), ops), u, t);
  }

  // ---------------------------------------------------------------- undisturbed timers

  /** No callback ever operates on `t`. */
  ghost predicate LeavesAlone(keys: set<Timer>, script: Script, t: Timer) {
    forall u, k :: u in keys ==> !Touches(script(u, k), t)
  }

  ghost function FireTimes(log: seq<Fired>, t: Timer): (r: seq<nat>) {
    if log == [] then []
    else
      var n := |log| - 1;
      if log[n].timer == t then FireTimes(log[..n], t) + [log[n].at] else FireTimes(log[..n], t)
  }

  lemma FireTimesAdd(log: seq<Fired>, x: Fired, t: Timer)
    ensures FireTimes(log + [x], t) == if x.timer == t then FireTimes(log, t) + [x.at] else FireTimes(log, t)
  {
    assert (log + [x])[..|log|] == log;
  }

  /** The standing of an undisturbed timer after it fired. */
  ghost predicate Rearmed(s: Timers, r: Timers, t: Timer)
    requires t in s.tm && t in r.tm
  {
    if s.tm[t].periodic then
      r.tm[t] == s.tm[t].(deadline := s.now + s.tm[t].init, active := true) && t in r.list
    else
      r.tm[t] == s.tm[t].(active := false) && t !in r.list
  }

  lemma DispatchSelf(s: Timers, script: Script, t: Timer)
    requires Quiet(s) && HeadDue(s) && ScriptLegal(s.tm.Keys, script) && t == s.list[0]
    requires !Touches(script(t, |s.log|), t)
    ensures Rearmed(s, Dispatch(s, script), t)
  {
    var ops := script(t, |s.log|);
    TakeKeeps(s);
    TakeFields(s);
    assert TimerOk(s, t);
    var u := Take(s);
    DoAllOther(u, ops, t);
    DoAllSound(u, ops);
    var d := DoAll(u, ops);
    assert d.temp == [t];
    FinishIs(d, t);
    UnlinkKeeps(d, t);
    if s.tm[t].periodic {
      StartKeeps(DetachTimer(d, t), t);
    }
  }

  // ---------------------------------------------------------------- what a callback decides

  /** The last word of a list of operations about `t`. */
  datatype Fate = Kept | Armed | Off

  function NextFate(f: Fate, op: Op, t: Timer): (r: Fate) {
    if op.t != t || op.SetTime? then f else if op.Start? then Armed else Off
  }

  function FateOf(f: Fate, ops: seq<Op>, t: Timer): (r: Fate)
    decreases |ops|
  {
    if ops == [] then f else FateOf(NextFate(f, ops[0], t), ops[1..], t)
  }

  /** How `t` stands in `r` when its fate since `s` is `f`. */
  ghost predicate Stands(s: Timers, r: Timers, f: Fate, t: Timer) {
    && t in s.tm && t in r.tm && r.tm[t].periodic == s.tm[t].periodic
    && match f
       case Kept => r.tm[t].active == s.tm[t].active && (t in r.list <==> t in s.list) && (t in r.temp <==> t in s.temp)
       case Armed => r.tm[t].active && t in r.list
       case Off => !r.tm[t].active && t !in r.list
  }

  lemma FateStep(s: Timers, r: Timers, f: Fate, op: Op, t: Timer)
    requires Sound(r) && OpLegal(r.tm.Keys, op) && Stands(s, r, f, t)
    ensures Stands(s, Do(r, op), NextFate(f, op, t), t)
  {
    hide NoDup, SortedBy, InsertOrdered, Remove;
    assert TimerOk(r, t);
    if op.t != t {
      DoOther(r, op, t);
    } else {
      StartKeeps(r, t);
      UnlinkKeeps(r, t);
    }
  }

  lemma {:induction false} FateReached(s: Timers, r: Timers, f: Fate, ops: seq<Op>, t: Timer)
    requires Sound(r) && OpsLegal(r.tm.Keys, ops) && Stands(s, r, f, t)
    ensures Stands(s, DoAll(r, ops), FateOf(f, ops, t), t)
    decreases |ops|
  {
    hide Stands, Sound, Do;
    if ops != [] {
      FateStep(s, r, f, ops[0], t);
      DoSound(r, ops[0]);
      FateReached(s, Do(r, ops[0]), NextFate(f, ops[0], t), ops[1..], t);
    }
  }

  /** The timer that fires is armed again exactly when its callback started it last, or when it is
      periodic and its callback neither started, stopped nor detached it. */
  lemma CallbackDecides(s: Timers, script: Script)
    requires Quiet(s) && HeadDue(s) && ScriptLegal(s.tm.Keys, script)
    ensures var t, r := s.list[0], Dispatch(s, script);
            var f := FateOf(Kept, script(t, |s.log|), t);
            var armed := f == Armed || (f == Kept && s.tm[t].periodic);
            (t in r.list <==> armed) && (r.tm[t].active <==> armed)
  {
    var t := s.list[0];
    var ops, u := script(t, |s.log|), Take(s);
    TakeKeeps(s);
    TakeFields(s);
    assert TimerOk(s, t) && TimerOk(u, t);
    FateReached(u, u, Kept, ops, t);
    DoAllSound(u, ops);
    FinishDecides(u, DoAll(u, ops), FateOf(Kept, ops, t), t);
  }

  lemma FinishDecides(u: Timers, d: Timers, f: Fate, t: Timer)
    requires Sound(u) && Sound(d) && t in u.temp && t in d.tm && (d.temp == [] || d.temp == [t]) && Stands(u, d, f, t)
    requires u.tm[t].active <==> u.tm[t].periodic
    ensures var r := Finish(d, t); var armed := f == Armed || (f == Kept && u.tm[t].periodic);
            (t in r.list <==> armed) && (r.tm[t].active <==> armed)
  {
    hide NoDup, SortedBy, InsertOrdered, Remove;
    assert TimerOk(u, t) && TimerOk(d, t);
    if d.temp == [t] {
      FinishIs(d, t);
      UnlinkKeeps(d, t);
      if d.tm[t].periodic && d.tm[t].active {
        StartKeeps(DetachTimer(d, t), t);
      }
    }
  }

  /** In one check an undisturbed timer fires once if it is due, and not at all otherwise. */
  lemma {:induction false} CheckUndisturbed(s: Timers, script: Script, t: Timer)
    requires Inv(s) && ScriptOk(s.tm.Keys, script) && t in s.tm && LeavesAlone(s.tm.Keys, script, t)
    ensures t in Due(s) ==> Rearmed(s, Check(s, script), t)
                            && FireTimes(Check(s, script).log, t) == FireTimes(s.log, t) + [s.now]
    ensures t !in Due(s) ==> SameFor(s, Check(s, script), t)
                             && FireTimes(Check(s, script).log, t) == FireTimes(s.log, t)
    decreases Due(s)
  {
    if HeadDue(s) {
      var r := Dispatch(s, script);
      DispatchKeeps(s, script);
      DispatchedGone(s, script);
      FireTimesAdd(s.log, Fired(s.list[0], s.now), t);
      CheckUndisturbed(r, script, t);
      if t == s.list[0] {
        DispatchSelf(s, script, t);
        HeadIsDue(s);
      } else {
        DispatchOther(s, script, t);
      }
    } else {
      CheckRests(s, script);
    }
  }

  // ---------------------------------------------------------------- many ticks

  /** `rt_tick_increase`: one more tick, then the check. */
  ghost function Tick(s: Timers, script: Script): (r: Timers)
    requires Rested(s) && ScriptOk(s.tm.Keys, script)
    ensures r.tm.Keys == s.tm.Keys && r.now == s.now + 1
  {
    NextTick(s);
    Check(s.(now := s.now + 1), script)
  }

  lemma NextTick(s: Timers)
    requires Rested(s)
    ensures Inv(s.(now := s.now + 1))
  {
    var r := s.(now := s.now + 1);
    forall u | u in r.tm ensures TimerOk(r, u) {
      assert TimerOk(s, u);
      assert u in s.list ==> u !in Due(s);
    }
  }

  lemma TickRests(s: Timers, script: Script)
    requires Rested(s) && ScriptOk(s.tm.Keys, script)
    ensures Rested(Tick(s, script))
  {
    NextTick(s);
    CheckRests(s.(now := s.now + 1), script);
  }

  lemma DoAllRests(s: Timers, ops: seq<Op>)
    requires Rested(s) && OpsOk(s.tm.Keys, ops)
    ensures Rested(DoAll(s, ops))
  {
    DoAllKeeps(s, ops);
  }

  ghost predicate InputsOk(keys: set<Timer>, inputs: seq<seq<Op>>) {
    forall i :: 0 <= i < |inputs| ==> OpsOk(keys, inputs[i])
  }

  /** A run: before each tick, threads perform some operations. */
  ghost function Run(s: Timers, inputs: seq<seq<Op>>, script: Script): (r: Timers)
    requires Rested(s) && ScriptOk(s.tm.Keys, script) && InputsOk(s.tm.Keys, inputs)
    decreases |inputs|
  {
    if inputs == [] then s
    else
      DoAllRests(s, inputs[0]);
      var m := DoAll(s, inputs[0]);
      TickRests(m, script);
      Run(Tick(m, script), inputs[1..], script)
  }

  /** The invariant survives any run, and at every tick nothing due is left over. */
  lemma {:induction false} RunRests(s: Timers, inputs: seq<seq<Op>>, script: Script)
    requires Rested(s) && ScriptOk(s.tm.Keys, script) && InputsOk(s.tm.Keys, inputs)
    ensures Rested(Run(s, inputs, script)) && Run(s, inputs, script).now == s.now + |inputs|
    decreases |inputs|
  {
    if inputs != [] {
      DoAllRests(s, inputs[0]);
      var m := DoAll(s, inputs[0]);
      TickRests(m, script);
      RunRests(Tick(m, script), inputs[1..], script);
    }
  }

  /** first, first + period, ... up to last. */
  ghost function Expected(first: nat, period: nat, last: nat): (r: seq<nat>)
    requires period > 0
    decreases last + 1 - first
  {
    if first > last then [] else [first] + Expected(first + period, period, last)
  }

  /** The k-th expected time, and how many there are. */
  lemma {:induction false} ExpectedAt(first: nat, period: nat, last: nat, k: nat)
    requires period > 0
    ensures k < |Expected(first, period, last)| <==> first + k * period <= last
    ensures k < |Expected(first, period, last)| ==> Expected(first, period, last)[k] == first + k * period
    decreases k
  {
    if k > 0 && first <= last {
      ExpectedAt(first + period, period, last, k - 1);
      assert first + period + (k - 1) * period == first + k * period;
    } else if k > 0 {
      assert k * period >= 0;
    }
  }

  /** Nobody operates on `t`, neither a thread nor a callback. */
  ghost predicate Undisturbed(keys: set<Timer>, t: Timer, inputs: seq<seq<Op>>, script: Script) {
    LeavesAlone(keys, script, t) && forall i :: 0 <= i < |inputs| ==> !Touches(inputs[i], t)
  }

  /** One tick in the life of an undisturbed timer. */
  lemma TickAlone(s: Timers, script: Script, t: Timer)
    requires Rested(s) && ScriptOk(s.tm.Keys, script) && t in s.tm && LeavesAlone(s.tm.Keys, script, t)
    ensures var r := Tick(s, script); var n := s.now + 1;
            && (t in s.list && s.tm[t].deadline == n ==>
                  Rearmed(s.(now := n), r, t) && FireTimes(r.log, t) == FireTimes(s.log, t) + [n])
            && (t !in s.list || s.tm[t].deadline != n ==>
                  SameFor(s, r, t) && FireTimes(r.log, t) == FireTimes(s.log, t))
  {
    hide Check, NoDup, SortedBy, FireTimes, Rearmed, LeavesAlone, ScriptOk, TimerOk;
    NextTick(s);
    var u := s.(now := s.now + 1);
    assert t in s.list ==> t !in Due(s);
    assert t in Due(u) <==> t in s.list && s.tm[t].deadline == s.now + 1;
    CheckUndisturbed(u, script, t);
  }

  /** The next standing of `t`: what it holds, whether it is listed, when it fired. */
  datatype Standing = Standing(c: Tm, listed: bool, fired: seq<nat>)

  ghost function StandingOf(s: Timers, t: Timer): (r: Standing)
    requires t in s.tm
  {
    Standing(s.tm[t], t in s.list, FireTimes(s.log, t))
  }

  /** What a tick to time `n` does to the standing of an undisturbed timer. */
  ghost function Advance(c: Standing, n: nat): (r: Standing) {
    if c.listed && c.c.deadline == n then
      if c.c.periodic then
        Standing(c.c.(deadline := n + c.c.init, active := true), true, c.fired + [n])
      else
        Standing(c.c.(active := false), false, c.fired + [n])
    else c
  }

  lemma RestedInv(s: Timers)
    requires Rested(s)
    ensures InvBusy(s) && s.temp == []
  {
  }

  lemma TickUndisturbed(s: Timers, ops: seq<Op>, script: Script, t: Timer)
    requires Rested(s) && ScriptOk(s.tm.Keys, script) && OpsOk(s.tm.Keys, ops)
    requires t in s.tm && LeavesAlone(s.tm.Keys, script, t) && !Touches(ops, t) && Rested(DoAll(s, ops))
    ensures StandingOf(Tick(DoAll(s, ops), script), t) == Advance(StandingOf(s, t), s.now + 1)
  {
    hide Inv, Touches, LeavesAlone, DoAll, Tick, FireTimes, ScriptOk, OpsOk;
    RestedInv(s);
    OpsOkLegal(s.tm.Keys, ops);
    DoAllRests(s, ops);
    DoAllOther(s, ops, t);
    TickAlone(DoAll(s, ops), script, t);
  }

  /** The first round of a run, for an undisturbed timer. */
  lemma RunStep(s: Timers, inputs: seq<seq<Op>>, script: Script, t: Timer) returns (r: Timers)
    requires Rested(s) && ScriptOk(s.tm.Keys, script) && InputsOk(s.tm.Keys, inputs) && inputs != []
    requires t in s.tm && Undisturbed(s.tm.Keys, t, inputs, script)
    ensures Rested(r) && r.tm.Keys == s.tm.Keys && r.now == s.now + 1
    ensures InputsOk(r.tm.Keys, inputs[1..]) && Undisturbed(r.tm.Keys, t, inputs[1..], script)
    ensures StandingOf(r, t) == Advance(StandingOf(s, t), s.now + 1)
    ensures Run(s, inputs, script) == Run(r, inputs[1..], script)
  {
    DoAllRests(s, inputs[0]);
    var m := DoAll(s, inputs[0]);
    TickUndisturbed(s, inputs[0], script, t);
    TickRests(m, script);
    r := Tick(m, script);
    hide Inv, Touches, LeavesAlone, DoAll, Tick, Due, OpsOk;
    assert forall i :: 0 <= i < |inputs[1..]| ==> inputs[1..][i] == inputs[i + 1];
  }

  lemma ListedLater(s: Timers, t: Timer)
    requires Rested(s) && t in s.tm
    ensures s.tm[t].init > 0 && (t in s.list ==> s.tm[t].deadline > s.now)
  {
    assert TimerOk(s, t);
    assert t in s.list ==> t !in Due(s);
  }

  /** Over a run of any length, an undisturbed periodic timer fires exactly at its deadline and
      then every `init` ticks. */
  lemma {:induction false} PeriodicFires(s: Timers, inputs: seq<seq<Op>>, script: Script, t: Timer)
    requires Rested(s) && ScriptOk(s.tm.Keys, script) && InputsOk(s.tm.Keys, inputs)
    requires t in s.tm && t in s.list && s.tm[t].periodic && Undisturbed(s.tm.Keys, t, inputs, script)
    ensures s.tm[t].init > 0
    ensures FireTimes(Run(s, inputs, script).log, t) == Forecast(StandingOf(s, t), s.now + |inputs|)
    decreases |inputs|
  {
    hide Forecast, Run, Rested, FireTimes, Undisturbed, InputsOk, ScriptOk;
    ListedLater(s, t);
    if inputs == [] {
      NoTicks(s, inputs, script);
      ForecastNow(StandingOf(s, t), s.now);
    } else {
      var r := RunStep(s, inputs, script, t);
      ForecastStep(StandingOf(s, t), s.now, s.now + |inputs|);
      PeriodicFires(r, inputs[1..], script, t);
    }
  }

  lemma NoTicks(s: Timers, inputs: seq<seq<Op>>, script: Script)
    requires Rested(s) && ScriptOk(s.tm.Keys, script) && InputsOk(s.tm.Keys, inputs) && inputs == []
    ensures Run(s, inputs, script) == s
  {
  }

  lemma ForecastNow(c: Standing, last: nat)
    requires c.c.init > 0 && c.c.deadline > last
    ensures Forecast(c, last) == c.fired
  {
  }

  /** The log of a periodic timer up to `last`: what it holds now, then every expected time. */
  ghost function Forecast(c: Standing, last: nat): (r: seq<nat>)
    requires c.c.init > 0
  {
    c.fired + Expected(c.c.deadline, c.c.init, last)
  }

  /** One tick moves one expected time from the future into the log. */
  lemma ForecastStep(c: Standing, now: nat, last: nat)
    requires c.listed && c.c.periodic && c.c.init > 0 && c.c.deadline > now && now < last
    ensures var d := Advance(c, now + 1);
            d.listed && d.c.periodic && d.c.init > 0 && Forecast(d, last) == Forecast(c, last)
  {
    var d := Advance(c, now + 1);
    if c.c.deadline == now + 1 {
      assert Expected(c.c.deadline, c.c.init, last) == [now + 1] + Expected(d.c.deadline, d.c.init, last);
    }
  }

  /** An undisturbed one-shot timer fires exactly once, at its deadline. */
  lemma {:induction false} OneShotFires(s: Timers, inputs: seq<seq<Op>>, script: Script, t: Timer)
    requires Rested(s) && ScriptOk(s.tm.Keys, script) && InputsOk(s.tm.Keys, inputs)
    requires t in s.tm && !s.tm[t].periodic && Undisturbed(s.tm.Keys, t, inputs, script)
    ensures FireTimes(Run(s, inputs, script).log, t)
         == FireTimes(s.log, t) + if t in s.list && s.tm[t].deadline <= s.now + |inputs| then [s.tm[t].deadline] else []
    decreases |inputs|
  {
    hide Rested, Undisturbed, InputsOk, ScriptOk, FireTimes;
    ListedLater(s, t);
    if inputs != [] {
      var r := RunStep(s, inputs, script, t);
      OneShotFires(r, inputs[1..], script, t);
    }
  }

  lemma StartRested(s: Timers, t: Timer)
    requires Rested(s) && t in s.tm
    ensures var r := StartTimer(s, t);
            && Rested(r) && t in r.list && r.tm.Keys == s.tm.Keys && r.log == s.log && r.now == s.now
            && r.tm[t] == s.tm[t].(deadline := s.now + s.tm[t].init, active := true)
  {
    hide InsertOrdered, SortedBy, NoDup, TimerOk, ListOk;
    RestedInv(s);
    ListedKnown(s);
    StartKeeps(s, t);
    assert s.tm[t].init >= 1 && Remove<Timer>([], t) == [];
  }

  lemma ListedKnown(s: Timers)
    requires Sound(s)
    ensures forall t :: t in s.list ==> t in s.tm
  {
  }

  /** Started at tick s, a periodic timer fires at s + k * init for every k >= 1, and at no other tick. */
  lemma StartedPeriodicFires(s: Timers, inputs: seq<seq<Op>>, script: Script, t: Timer, k: nat)
    requires Rested(s) && t in s.tm && s.tm[t].periodic && FireTimes(s.log, t) == []
    requires ScriptOk(s.tm.Keys, script) && InputsOk(s.tm.Keys, inputs) && Undisturbed(s.tm.Keys, t, inputs, script)
    ensures Rested(StartTimer(s, t))
    ensures var f := FireTimes(Run(StartTimer(s, t), inputs, script).log, t);
            && (k < |f| <==> (k + 1) * s.tm[t].init <= |inputs|)
            && (k < |f| ==> f[k] == s.now + (k + 1) * s.tm[t].init)
  {
    hide Rested, StartTimer, Run, FireTimes, Forecast, Undisturbed, InputsOk, ScriptOk;
    var r := StartTimer(s, t);
    StartRested(s, t);
    PeriodicFires(r, inputs, script, t);
    StartedForecast(StandingOf(r, t), s.now, s.now + |inputs|, k);
  }

  lemma StartedForecast(c: Standing, now: nat, last: nat, k: nat)
    requires c.c.init > 0 && c.c.deadline == now + c.c.init && c.fired == [] && last >= now
    ensures var f, p := Forecast(c, last), c.c.init;
            (k < |f| <==> (k + 1) * p <= last - now) && (k < |f| ==> f[k] == now + (k + 1) * p)
  {
    var p := c.c.init;
    ExpectedAt(now + p, p, last, k);
    assert p + k * p == (k + 1) * p;
  }
}
