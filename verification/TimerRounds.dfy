/** How long the check of due timers goes on: a time of zero ticks, which the source accepts, can
    keep a timer due for ever. */
module TimerRounds {

  import opened OrderedList
  import opened TimerModel
  import opened TimerDispatch
  import opened TimerRuns

  /** At most `k` rounds of the loop of `rt_timer_check`. */
  ghost function Rounds(s: Timers, script: Script, k: nat): (r: Timers)
    requires Quiet(s) && ScriptLegal(s.tm.Keys, script)
    ensures Quiet(r) && r.tm.Keys == s.tm.Keys && r.now == s.now && s.log <= r.log
    decreases k
  {
    if k == 0 || !HeadDue(s) then s
    else
      DispatchKeeps(s, script);
      Rounds(Dispatch(s, script), script, k - 1)
  }

  /** The loop comes to an end. */
  ghost predicate Rests(s: Timers, script: Script)
    requires Quiet(s)
  {
    ScriptLegal(s.tm.Keys, script) && exists k: nat :: !HeadDue(Rounds(s, script, k))
  }

  /** The loop goes on while anything is due. */
  lemma DueAtHead(s: Timers)
    requires Quiet(s)
    ensures HeadDue(s) <==> Due(s) != {}
  {
    if t :| t in Due(s) {
      var i :| 0 <= i < |s.list| && s.list[i] == t;
      assert Key(s.tm)(s.list[0]) <= Key(s.tm)(s.list[i]);
    }
    if HeadDue(s) {
      assert s.list[0] in Due(s);
    }
  }

  /** Without zero times the loop is the check. */
  lemma {:induction false} CheckRounds(s: Timers, script: Script) returns (k: nat)
    requires Inv(s) && ScriptOk(s.tm.Keys, script)
    ensures ScriptLegal(s.tm.Keys, script) && Rounds(s, script, k) == Check(s, script)
    ensures Quiet(Check(s, script)) && !HeadDue(Check(s, script))
    decreases Due(s)
  {
    ScriptOkLegal(s.tm.Keys, script);
    hide ScriptLegal, ScriptOk, Dispatch;
    if HeadDue(s) {
      DispatchKeeps(s, script);
      k := CheckRounds(Dispatch(s, script), script);
      k := k + 1;
    } else {
      k := 0;
    }
  }

  // ---------------------------------------------------------------- callbacks that do nothing

  ghost predicate Idle(keys: set<Timer>, script: Script) {
    forall t, k :: t in keys ==> script(t, k) == []
  }

  /** A timer that is due again as soon as it has fired. */
  ghost predicate Relentless(s: Timers, t: Timer)
    requires t in s.tm
  {
    s.tm[t].periodic && s.tm[t].init == 0
  }

  lemma IdleLegal(keys: set<Timer>, script: Script)
    requires Idle(keys, script)
    ensures ScriptLegal(keys, script)
  {
    forall t, k | t in keys ensures OpsLegal(keys, script(t, k)) {
      assert script(t, k) == [];
    }
  }

  lemma IdleRound(s: Timers, script: Script)
    requires Quiet(s) && HeadDue(s) && Idle(s.tm.Keys, script) && ScriptLegal(s.tm.Keys, script)
    ensures var r, t := Dispatch(s, script), s.list[0];
            && Quiet(r) && r.tm.Keys == s.tm.Keys
            && Due(r) == (if Relentless(s, t) then Due(s) else Due(s) - {t})
            && forall u :: u in s.tm ==> (Relentless(r, u) <==> Relentless(s, u))
  {
    var r, t := Dispatch(s, script), s.list[0];
    DispatchKeeps(s, script);
    assert script(t, |s.log|) == [];
    DispatchSelf(s, script, t);
    hide Quiet, ScriptLegal, Dispatch, Touches;
    forall u | u in s.tm && u != t ensures SameFor(s, r, u) {
      IdleOther(s, script, u);
    }
    DueByMember(s, r, t);
  }

  lemma IdleOther(s: Timers, script: Script, u: Timer)
    requires Quiet(s) && HeadDue(s) && ScriptLegal(s.tm.Keys, script) && u in s.tm && u != s.list[0]
    requires script(s.list[0], |s.log|) == []
    ensures SameFor(s, Dispatch(s, script), u)
  {
    assert !Touches(script(s.list[0], |s.log|), u);
    DispatchOther(s, script, u);
  }

  lemma DueByMember(s: Timers, r: Timers, t: Timer)
    requires Quiet(s) && HeadDue(s) && t == s.list[0] && Quiet(r) && r.tm.Keys == s.tm.Keys && r.now == s.now
    requires Rearmed(s, r, t) && forall u :: u in s.tm && u != t ==> SameFor(s, r, u)
    ensures Due(r) == if Relentless(s, t) then Due(s) else Due(s) - {t}
  {
    hide NoDup, SortedBy;
    assert t in Due(s) && (t in Due(r) <==> Relentless(s, t));
    forall u | u != t ensures u in Due(r) <==> u in Due(s) {
      if u in s.tm {
        assert SameFor(s, r, u);
      }
    }
  }

  lemma {:induction false} IdleEnds(s: Timers, script: Script) returns (k: nat)
    requires Quiet(s) && Idle(s.tm.Keys, script) && ScriptLegal(s.tm.Keys, script)
    requires forall t :: t in Due(s) ==> !Relentless(s, t)
    ensures !HeadDue(Rounds(s, script, k))
    decreases Due(s)
  {
    hide Idle, ScriptLegal, Dispatch;
    k := 0;
    if HeadDue(s) {
      IdleRound(s, script);
      HeadIsDue(s);
      k := IdleEnds(Dispatch(s, script), script);
      k := k + 1;
    }
  }

  lemma {:induction false} IdleSpins(s: Timers, script: Script, t: Timer, k: nat)
    requires Quiet(s) && Idle(s.tm.Keys, script) && ScriptLegal(s.tm.Keys, script) && t in Due(s) && Relentless(s, t)
    ensures HeadDue(Rounds(s, script, k))
    decreases k
  {
    hide Idle, ScriptLegal, Dispatch;
    DueAtHead(s);
    if k > 0 {
      IdleRound(s, script);
      IdleSpins(Dispatch(s, script), script, t, k - 1);
    }
  }

  /** When callbacks do nothing, the check ends if and only if no due timer is periodic with a
      period of zero ticks. */
  lemma IdleRests(s: Timers, script: Script)
    requires Quiet(s) && Idle(s.tm.Keys, script)
    ensures Rests(s, script) <==> forall t :: t in Due(s) ==> !Relentless(s, t)
  {
    IdleLegal(s.tm.Keys, script);
    hide Idle, ScriptLegal, Quiet;
    if t :| t in Due(s) && Relentless(s, t) {
      forall k: nat ensures HeadDue(Rounds(s, script, k)) {
        IdleSpins(s, script, t, k);
      }
    } else {
      var k := IdleEnds(s, script);
    }
  }

  /** Started while nothing is due, a timer of zero ticks makes the next check spin if and only if
      it is periodic. */
  lemma ZeroPeriodSpins(s: Timers, t: Timer, script: Script)
    requires Quiet(s) && Due(s) == {} && t in s.tm && s.tm[t].init == 0 && Idle(s.tm.Keys, script)
    ensures Quiet(StartTimer(s, t)) && Due(StartTimer(s, t)) == {t}
    ensures Rests(StartTimer(s, t), script) <==> !s.tm[t].periodic
  {
    hide Idle;
    var r := StartTimer(s, t);
    StartKeeps(s, t);
    assert r.temp == [] && r.tm.Keys == s.tm.Keys;
    IdleRests(r, script);
    assert t in Due(r) && (Relentless(r, t) <==> s.tm[t].periodic);
  }

  // ---------------------------------------------------------------- any callbacks

  /** The callback starts `u` with a time of zero ticks. */
  ghost predicate Rekindles(s: Timers, ops: seq<Op>, u: Timer) {
    u in s.tm && (ops == [SetTime(u, 0), Start(u)] || (ops == [Start(u)] && s.tm[u].init == 0))
  }

  lemma RekindledDue(s: Timers, ops: seq<Op>, u: Timer)
    requires Sound(s) && OpsLegal(s.tm.Keys, ops) && Rekindles(s, ops, u)
    ensures var r := DoAll(s, ops);
            u in r.tm && Sound(r) && u in r.list && u in Due(r) && r.tm[u].init == 0 && r.temp == Remove(s.temp, u)
  {
    hide NoDup, SortedBy, Remove, InsertOrdered;
    var x := if ops == [Start(u)] then s else Do(s, SetTime(u, 0));
    if ops != [Start(u)] {
      DoSound(s, SetTime(u, 0));
      assert ops[1..] == [Start(u)];
    }
    assert [Start(u)][1..] == [];
    assert DoAll(x, [Start(u)]) == StartTimer(x, u);
    StartKeeps(x, u);
  }

  /** After such a round, something is due again. */
  lemma SpinRound(s: Timers, script: Script, u: Timer)
    requires Quiet(s) && HeadDue(s) && ScriptLegal(s.tm.Keys, script) && Rekindles(s, script(s.list[0], |s.log|), u)
    ensures var r := Dispatch(s, script); Quiet(r) && u in r.tm && HeadDue(r) && r.tm[u].init == 0
  {
    var t := s.list[0];
    var ops := script(t, |s.log|);
    DispatchKeeps(s, script);
    TakeKeeps(s);
    TakeFields(s);
    var m := DoAll(Take(s), ops);
    RekindledDue(Take(s), ops, u);
    StayDue(m, t, u);
    DueAtHead(Dispatch(s, script));
  }

  lemma StayDue(m: Timers, t: Timer, u: Timer)
    requires Sound(m) && u in m.tm && u in Due(m) && m.tm[u].init == 0 && t in m.tm && m.temp == Remove([t], u)
    ensures var r := Finish(m, t); Quiet(r) && u in r.tm && u in Due(r) && r.tm[u].init == 0
  {
    hide NoDup, SortedBy, InsertOrdered;
    if t != u {
      assert Remove([t], u) == [t];
      FinishKeeps(m, t);
      FinishIs(m, t);
      UnlinkKeeps(m, t);
      StartKeeps(DetachTimer(m, t), t);
    }
  }

  /** Every callback starts `u` with a time of zero ticks. */
  ghost predicate AlwaysStarts(keys: set<Timer>, script: Script, u: Timer, reset: bool) {
    forall t, k :: t in keys ==> script(t, k) == if reset then [SetTime(u, 0), Start(u)] else [Start(u)]
  }

  lemma {:induction false} SpinsForever(s: Timers, script: Script, u: Timer, reset: bool, k: nat)
    requires Quiet(s) && HeadDue(s) && ScriptLegal(s.tm.Keys, script) && u in s.tm
    requires AlwaysStarts(s.tm.Keys, script, u, reset) && (reset || s.tm[u].init == 0)
    ensures HeadDue(Rounds(s, script, k))
    decreases k
  {
    hide ScriptLegal, Dispatch;
    if k > 0 {
      assert Rekindles(s, script(s.list[0], |s.log|), u);
      hide AlwaysStarts;
      SpinRound(s, script, u);
      SpinsForever(Dispatch(s, script), script, u, reset, k - 1);
    }
  }

  /** A script that keeps the loop busy for ever, once it is entered. */
  lemma BusyScript(s: Timers, u: Timer, reset: bool) returns (script: Script)
    requires Quiet(s) && Due(s) != {} && u in s.tm && (reset || s.tm[u].init == 0)
    ensures ScriptLegal(s.tm.Keys, script) && !Rests(s, script)
    ensures !reset ==> ScriptOk(s.tm.Keys, script)
  {
    var ops := if reset then [SetTime(u, 0), Start(u)] else [Start(u)];
    script := (t, k) => ops;
    assert OpsLegal(s.tm.Keys, ops);
    DueAtHead(s);
    forall k: nat ensures HeadDue(Rounds(s, script, k)) {
      SpinsForever(s, script, u, reset, k);
    }
  }

  /** The check ends under all callbacks that set no zero times if and only if nothing is due or
      no timer has a time of zero ticks. */
  lemma RestsUnlessZero(s: Timers)
    requires Quiet(s)
    ensures (forall script: Script :: ScriptOk(s.tm.Keys, script) ==> Rests(s, script)) <==> Due(s) == {} || Positive(s)
  {
    hide ScriptLegal, ScriptOk, Positive, TimerOk, NoDup, SortedBy;
    DueAtHead(s);
    if Due(s) == {} {
      forall script: Script | ScriptOk(s.tm.Keys, script) ensures Rests(s, script) {
        ScriptOkLegal(s.tm.Keys, script);
        assert !HeadDue(Rounds(s, script, 0));
      }
    } else if Positive(s) {
      forall script: Script | ScriptOk(s.tm.Keys, script) ensures Rests(s, script) {
        QuietInv(s);
        var k := CheckRounds(s, script);
      }
    } else {
      var u := ZeroTimer(s);
      var script := BusyScript(s, u, false);
    }
  }

  lemma ZeroTimer(s: Timers) returns (u: Timer)
    requires !Positive(s)
    ensures u in s.tm && s.tm[u].init == 0
  {
    u :| u in s.tm && s.tm[u].init == 0;
  }

  lemma QuietInv(s: Timers)
    requires Quiet(s) && Positive(s)
    ensures Inv(s)
  {
  }

  /** Under all callbacks the source allows, the check ends only when there is nothing to do. */
  lemma RestsUnderAll(s: Timers)
    requires Quiet(s)
    ensures (forall script: Script :: ScriptLegal(s.tm.Keys, script) ==> Rests(s, script)) <==> Due(s) == {}
  {
    hide ScriptLegal, TimerOk, NoDup, SortedBy;
    DueAtHead(s);
    if Due(s) == {} {
      forall script: Script | ScriptLegal(s.tm.Keys, script) ensures Rests(s, script) {
        assert !HeadDue(Rounds(s, script, 0));
      }
    } else {
      var u :| u in Due(s);
      var script := BusyScript(s, u, true);
    }
  }

  // ---------------------------------------------------------------- nothing is skipped

  ghost predicate FiredIn(f: seq<Fired>, t: Timer) {
    exists i :: 0 <= i < |f| && f[i].timer == t
  }

  /** Some callback that ran in this check operated on `t`. */
  ghost predicate TouchedIn(script: Script, f: seq<Fired>, start: nat, t: Timer) {
    exists i :: 0 <= i < |f| && Touches(script(f[i].timer, start + i), t)
  }

  /** A later entry of the log stays one when the first is put in front. */
  lemma SkippedShift(script: Script, x: Fired, g: seq<Fired>, start: nat, t: Timer)
    ensures FiredIn(g, t) ==> FiredIn([x] + g, t)
    ensures TouchedIn(script, g, start + 1, t) ==> TouchedIn(script, [x] + g, start, t)
  {
    var f := [x] + g;
    if i :| 0 <= i < |g| && g[i].timer == t {
      assert f[i + 1].timer == t;
    }
    if i :| 0 <= i < |g| && Touches(script(g[i].timer, start + 1 + i), t) {
      assert f[i + 1] == g[i] && Touches(script(f[i + 1].timer, start + (i + 1)), t);
    }
  }

  /** What fires in the given number of rounds. */
  ghost function LogOf(s: Timers, script: Script, k: nat): (f: seq<Fired>)
    requires Quiet(s) && ScriptLegal(s.tm.Keys, script)
  {
    Rounds(s, script, k).log[|s.log|..]
  }

  lemma LogGrows(s: Timers, script: Script, k: nat)
    requires Quiet(s) && ScriptLegal(s.tm.Keys, script) && HeadDue(s) && k > 0
    ensures Quiet(Dispatch(s, script)) && ScriptLegal(Dispatch(s, script).tm.Keys, script)
    ensures LogOf(s, script, k) == [Fired(s.list[0], s.now)] + LogOf(Dispatch(s, script), script, k - 1)
  {
    hide TimerOk, NoDup, SortedBy, ScriptLegal, Finish, DoAll, Take;
    DispatchKeeps(s, script);
  }

  /** When the check comes to rest, every timer that was due has fired, unless a callback that fired
      in the same check stopped, detached or restarted it first. */
  lemma {:induction false} NothingSkipped(s: Timers, script: Script, k: nat, t: Timer)
    requires Quiet(s) && ScriptLegal(s.tm.Keys, script) && !HeadDue(Rounds(s, script, k)) && t in Due(s)
    ensures FiredIn(LogOf(s, script, k), t) || TouchedIn(script, LogOf(s, script, k), |s.log|, t)
    decreases k
  {
    hide Dispatch, TimerOk, NoDup, SortedBy, Touches, TouchedIn, FiredIn, ScriptLegal;
    DueAtHead(s);
    var u, r := s.list[0], Dispatch(s, script);
    DispatchKeeps(s, script);
    var g := LogOf(r, script, k - 1);
    LogGrows(s, script, k);
    SkippedShift(script, Fired(u, s.now), g, |s.log|, t);
    if t == u || Touches(script(u, |s.log|), t) {
      FirstSkips(script, u, s.now, g, |s.log|, t);
    } else {
      DispatchOther(s, script, t);
      NothingSkipped(r, script, k - 1, t);
    }
  }

  lemma FirstSkips(script: Script, u: Timer, now: nat, g: seq<Fired>, start: nat, t: Timer)
    requires t == u || Touches(script(u, start), t)
    ensures var f := [Fired(u, now)] + g; FiredIn(f, t) || TouchedIn(script, f, start, t)
  {
    var f := [Fired(u, now)] + g;
    assert f[0].timer == u && script(f[0].timer, start + 0) == script(u, start);
  }

  // ---------------------------------------------------------------- ticks and runs

  /** Nothing is overdue; a timer of zero ticks may be due. */
  ghost predicate Current(s: Timers) {
    Quiet(s) && forall t :: t in s.list ==> s.tm[t].deadline >= s.now
  }

  lemma NextCurrent(s: Timers)
    requires Current(s)
    ensures Quiet(s.(now := s.now + 1))
  {
    var r := s.(now := s.now + 1);
    forall u | u in r.tm ensures TimerOk(r, u) {
      assert TimerOk(s, u);
    }
  }

  /** The check of the next tick comes to rest within `k` rounds. */
  ghost predicate RestsIn(s: Timers, script: Script, k: nat)
    requires Current(s) && ScriptLegal(s.tm.Keys, script)
  {
    NextCurrent(s);
    !HeadDue(Rounds(s.(now := s.now + 1), script, k))
  }

  /** `rt_tick_increase`: one more tick, then the check. */
  ghost function TickRounds(s: Timers, script: Script, k: nat): (r: Timers)
    requires Current(s) && ScriptLegal(s.tm.Keys, script)
    ensures Quiet(r) && r.tm.Keys == s.tm.Keys && r.now == s.now + 1
  {
    NextCurrent(s);
    Rounds(s.(now := s.now + 1), script, k)
  }

  lemma RestedTick(s: Timers, script: Script, k: nat)
    requires Current(s) && ScriptLegal(s.tm.Keys, script) && RestsIn(s, script, k)
    ensures Current(TickRounds(s, script, k)) && Due(TickRounds(s, script, k)) == {}
  {
    hide Rounds, TimerOk, NoDup, SortedBy, ScriptLegal;
    var r := TickRounds(s, script, k);
    DueAtHead(r);
    forall t | t in r.list ensures r.tm[t].deadline >= r.now {
      assert t !in Due(r);
    }
  }

  lemma DoCurrent(s: Timers, op: Op)
    requires Sound(s) && OpLegal(s.tm.Keys, op) && forall t :: t in s.list ==> s.tm[t].deadline >= s.now
    ensures var r := Do(s, op); Sound(r) && forall t :: t in r.list ==> r.tm[t].deadline >= r.now
  {
    hide NoDup, SortedBy, InsertOrdered, Remove, TimerOk;
    DoSound(s, op);
    StartKeeps(s, op.t);
    UnlinkKeeps(s, op.t);
  }

  lemma {:induction false} DoAllCurrent(s: Timers, ops: seq<Op>)
    requires Current(s) && OpsLegal(s.tm.Keys, ops)
    ensures Current(DoAll(s, ops))
    decreases |ops|
  {
    if ops != [] {
      DoCurrent(s, ops[0]);
      DoSound(s, ops[0]);
      DoAllCurrent(Do(s, ops[0]), ops[1..]);
    }
  }

  ghost predicate InputsLegal(keys: set<Timer>, inputs: seq<seq<Op>>) {
    forall i :: 0 <= i < |inputs| ==> OpsLegal(keys, inputs[i])
  }

  /** A run: before each tick, threads perform some operations; the check of tick `i` comes to rest
      within `ks[i]` rounds. */
  ghost predicate RestsAlong(s: Timers, inputs: seq<seq<Op>>, script: Script, ks: seq<nat>)
    requires Current(s) && ScriptLegal(s.tm.Keys, script) && InputsLegal(s.tm.Keys, inputs) && |ks| == |inputs|
    decreases |inputs|
  {
    if inputs == [] then true
    else
      DoAllCurrent(s, inputs[0]);
      var m := DoAll(s, inputs[0]);
      RestsIn(m, script, ks[0])
      && (RestedTick(m, script, ks[0]); RestsAlong(TickRounds(m, script, ks[0]), inputs[1..], script, ks[1..]))
  }

  ghost function RestingRun(s: Timers, inputs: seq<seq<Op>>, script: Script, ks: seq<nat>): (r: Timers)
    requires Current(s) && ScriptLegal(s.tm.Keys, script) && InputsLegal(s.tm.Keys, inputs) && |ks| == |inputs|
    requires RestsAlong(s, inputs, script, ks)
    decreases |inputs|
  {
    if inputs == [] then s
    else
      DoAllCurrent(s, inputs[0]);
      var m := DoAll(s, inputs[0]);
      RestedTick(m, script, ks[0]);
      RestingRun(TickRounds(m, script, ks[0]), inputs[1..], script, ks[1..])
  }

  /** As long as every check comes to rest, the rows stay sound, time goes on, and after every tick
      nothing is due, zero times included. */
  lemma {:induction false} RestingRunRests(s: Timers, inputs: seq<seq<Op>>, script: Script, ks: seq<nat>)
    requires Current(s) && ScriptLegal(s.tm.Keys, script) && InputsLegal(s.tm.Keys, inputs) && |ks| == |inputs|
    requires RestsAlong(s, inputs, script, ks)
    ensures var r := RestingRun(s, inputs, script, ks);
            Current(r) && r.now == s.now + |inputs| && (inputs != [] ==> Due(r) == {})
    decreases |inputs|
  {
    hide Current, ScriptLegal, TickRounds, RestsIn, DoAll, OpsLegal;
    if inputs != [] {
      DoAllCurrent(s, inputs[0]);
      var m := DoAll(s, inputs[0]);
      RestedTick(m, script, ks[0]);
      RestingRunRests(TickRounds(m, script, ks[0]), inputs[1..], script, ks[1..]);
    }
  }

  /** Without zero times a run comes to rest at every tick, and is the run of the check function. */
  lemma {:induction false} RunComesToRest(s: Timers, inputs: seq<seq<Op>>, script: Script) returns (ks: seq<nat>)
    requires Rested(s) && ScriptOk(s.tm.Keys, script) && InputsOk(s.tm.Keys, inputs)
    ensures Current(s) && ScriptLegal(s.tm.Keys, script) && InputsLegal(s.tm.Keys, inputs) && |ks| == |inputs|
    ensures RestsAlong(s, inputs, script, ks) && RestingRun(s, inputs, script, ks) == Run(s, inputs, script)
    decreases |inputs|
  {
    ScriptOkLegal(s.tm.Keys, script);
    RestedCurrent(s);
    InputsOkLegal(s.tm.Keys, inputs);
    hide Current, Rested, ScriptLegal, ScriptOk, Rounds, Check, DoAll, OpsLegal, OpsOk;
    ks := [];
    if inputs != [] {
      OpsOkLegal(s.tm.Keys, inputs[0]);
      DoAllRests(s, inputs[0]);
      var m := DoAll(s, inputs[0]);
      TickRests(m, script);
      var k := TickIs(m, script);
      var rest := RunComesToRest(Tick(m, script), inputs[1..], script);
      ks := [k] + rest;
      assert ks[1..] == rest;
    }
  }

  lemma InputsOkLegal(keys: set<Timer>, inputs: seq<seq<Op>>)
    requires InputsOk(keys, inputs)
    ensures InputsLegal(keys, inputs)
  {
    forall i | 0 <= i < |inputs| ensures OpsLegal(keys, inputs[i]) {
      OpsOkLegal(keys, inputs[i]);
    }
  }

  lemma RestedCurrent(s: Timers)
    requires Rested(s)
    ensures Current(s)
  {
    forall t | t in s.list ensures s.tm[t].deadline >= s.now {
      assert t !in Due(s);
    }
  }

  lemma TickIs(s: Timers, script: Script) returns (k: nat)
    requires Rested(s) && ScriptOk(s.tm.Keys, script)
    ensures Current(s) && ScriptLegal(s.tm.Keys, script)
    ensures RestsIn(s, script, k) && TickRounds(s, script, k) == Tick(s, script)
  {
    hide Rounds, Check, ScriptOk, ScriptLegal, TimerOk, NoDup, SortedBy, HeadDue, Positive, Due;
    RestedCurrent(s);
    NextTick(s);
    k := CheckRounds(s.(now := s.now + 1), script);
  }
}
