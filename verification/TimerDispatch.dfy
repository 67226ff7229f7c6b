/** Dispatch of due timers: termination, what fires and in which order, and runs of many ticks. */
module TimerDispatch {

  import opened OrderedList
  import opened TimerModel

  // ---------------------------------------------------------------- one dispatch

  ghost predicate HeadDue(s: Timers)
    requires forall t :: t in s.list ==> t in s.tm
  {
    s.list != [] && s.tm[s.list[0]].deadline <= s.now
  }

  /** What taking the head timer changes, field by field. */
  lemma TakeFields(s: Timers)
    requires s.list != [] && s.list[0] in s.tm && s.temp == []
    ensures var r, t := Take(s), s.list[0];
            && r.list == s.list[1..] && r.temp == [t] && r.now == s.now && r.tm.Keys == s.tm.Keys
            && r.tm[t] == (if s.tm[t].periodic then s.tm[t] else s.tm[t].(active := false))
            && (forall u :: u in s.tm && u != t ==> r.tm[u] == s.tm[u])
  {
  }

  lemma TakeTimer(s: Timers, u: Timer)
    requires s.list != [] && s.list[0] in s.tm && s.temp == [] && NoDup(s.list) && u in s.tm && TimerOk(s, u)
    ensures TimerOk(Take(s), u)
  {
    TakeFields(s);
    hide Take;
    assert s.list == [s.list[0]] + s.list[1..] && s.list[0] !in s.list[1..];
  }

  lemma TakeKeeps(s: Timers)
    requires Quiet(s) && HeadDue(s)
    ensures Sound(Take(s)) && (Positive(s) ==> Positive(Take(s)))
    ensures Take(s).temp == [s.list[0]] && Due(Take(s)) == Due(s) - {s.list[0]}
    ensures Take(s).list == s.list[1..]
  {
    hide Take, TimerOk, SortedBy;
    var r := Take(s);
    TakeFields(s);
    TakeList(s);
    forall u | u in r.tm ensures TimerOk(r, u) {
      TakeTimer(s, u);
    }
  }

  lemma TakeList(s: Timers)
    requires ListOk(s) && HeadDue(s) && s.temp == []
    ensures ListOk(Take(s)) && Due(Take(s)) == Due(s) - {s.list[0]}
  {
    hide Take, SortedBy;
    var t, r := s.list[0], Take(s);
    TakeFields(s);
    assert s.list == [t] + s.list[1..] && t !in s.list[1..];
    TakeSorted(s);
  }

  lemma TakeSorted(s: Timers)
    requires ListOk(s) && HeadDue(s) && s.temp == []
    ensures SortedBy(Key(Take(s).tm), Take(s).list)
  {
    hide Take;
    TakeFields(s);
    assert s.list == [s.list[0]] + s.list[1..] && s.list[0] !in s.list[1..];
    SameKeySorted(Key(s.tm), Key(Take(s).tm), Take(s).list);
  }

  /** Finishing is a detach, followed by a start when the timer is to be re-armed. */
  lemma FinishIs(s: Timers, t: Timer)
    requires Sound(s) && t in s.tm && s.temp == [t]
    ensures Finish(s, t) == if s.tm[t].periodic && s.tm[t].active then StartTimer(DetachTimer(s, t), t)
                            else DetachTimer(s, t)
  {
    assert TimerOk(s, t);
    RemoveAbsent(s.list, t);
    var u := s.(temp := Remove(s.temp, t));
    assert Unlink(s, t) == u;
    if !s.tm[t].active {
      assert Activate(u, t, false).tm == u.tm;
    }
  }

  lemma FinishKeeps(s: Timers, t: Timer)
    requires Sound(s) && t in s.tm && (s.temp == [] || s.temp == [t])
    ensures Quiet(Finish(s, t)) && (Positive(s) ==> Positive(Finish(s, t)) && Due(Finish(s, t)) <= Due(s))
  {
    if s.temp == [t] {
      FinishIs(s, t);
      UnlinkKeeps(s, t);
      if s.tm[t].periodic && s.tm[t].active {
        StartKeeps(DetachTimer(s, t), t);
      }
    }
  }

  /** A dispatch keeps the list sound whatever the callback does. When no time of zero ticks is
      about, it also uses up a due timer, and no callback can make another one due. */
  lemma DispatchKeeps(s: Timers, script: Script)
    requires Quiet(s) && HeadDue(s) && ScriptLegal(s.tm.Keys, script)
    ensures Quiet(Dispatch(s, script))
    ensures Positive(s) && ScriptOk(s.tm.Keys, script) ==> Inv(Dispatch(s, script)) && Due(Dispatch(s, script)) < Due(s)
  {
    var t := s.list[0];
    TakeKeeps(s);
    var ops := script(t, |s.log|);
    DoAllSound(Take(s), ops);
    FinishKeeps(DoAll(Take(s), ops), t);
    if Positive(s) && ScriptOk(s.tm.Keys, script) {
      DoAllKeeps(Take(s), ops);
      assert t in Due(s);
    }
  }

  /** `rt_timer_check`: it terminates because every round uses up one of the due timers. */
  ghost function Check(s: Timers, script: Script): (r: Timers)
    requires Inv(s) && ScriptOk(s.tm.Keys, script)
    ensures r.tm.Keys == s.tm.Keys && r.now == s.now && s.log <= r.log
    decreases Due(s)
  {
    if HeadDue(s) then
      DispatchKeeps(s, script);
      Check(Dispatch(s, script), script)
    else s
  }

  /** Nothing is due. */
  ghost predicate Rested(s: Timers) {
    Inv(s) && Due(s) == {}
  }

  /** No due timer is left behind. */
  lemma {:induction false} CheckRests(s: Timers, script: Script)
    requires Inv(s) && ScriptOk(s.tm.Keys, script)
    ensures Rested(Check(s, script))
    decreases Due(s)
  {
    if HeadDue(s) {
      DispatchKeeps(s, script);
      CheckRests(Dispatch(s, script), script);
    } else {
      forall t | t in s.list ensures s.tm[t].deadline > s.now {
        var i :| 0 <= i < |s.list| && s.list[i] == t;
        assert Key(s.tm)(s.list[0]) <= Key(s.tm)(s.list[i]);
      }
    }
  }

  // ---------------------------------------------------------------- what fires, in which order

  ghost predicate Before(ws: seq<Timer>, x: Timer, y: Timer) {
    exists i, j :: 0 <= i < j < |ws| && ws[i] == x && ws[j] == y
  }

  lemma {:induction false} RemoveBefore(ws: seq<Timer>, t: Timer, x: Timer, y: Timer)
    requires Before(Remove(ws, t), x, y)
    ensures Before(ws, x, y)
  {
    if ws != [] {
      if ws[0] == t {
        var i, j :| 0 <= i < j < |ws[1..]| && ws[1..][i] == x && ws[1..][j] == y;
        assert ws[i + 1] == x && ws[j + 1] == y;
      } else {
        var r := Remove(ws[1..], t);
        var i, j :| 0 <= i < j < |[ws[0]] + r| && ([ws[0]] + r)[i] == x && ([ws[0]] + r)[j] == y;
        if i > 0 {
          assert r[i - 1] == x && r[j - 1] == y;
          RemoveBefore(ws[1..], t, x, y);
          var k, l :| 0 <= k < l < |ws[1..]| && ws[1..][k] == x && ws[1..][l] == y;
          assert ws[k + 1] == x && ws[l + 1] == y;
        } else {
          assert r[j - 1] == y;
          RemoveIn(ws[1..], t, y);
          var l :| 0 <= l < |ws[1..]| && ws[1..][l] == y;
          assert ws[0] == x && ws[l + 1] == y;
        }
      }
    }
  }

  lemma {:induction false} RemoveIn(ws: seq<Timer>, t: Timer, y: Timer)
    requires y in Remove(ws, t)
    ensures y in ws
  {
    if ws != [] && ws[0] != t && ws[0] != y {
      RemoveIn(ws[1..], t, y);
    }
  }

  lemma InsertBefore(key: Timer -> nat, ws: seq<Timer>, t: Timer, x: Timer, y: Timer)
    requires Before(InsertOrdered(key, ws, t), x, y) && x != t && y != t
    ensures Before(ws, x, y)
  {
    var k, r := FindPos(key, ws, key(t)), InsertOrdered(key, ws, t);
    var i, j :| 0 <= i < j < |r| && r[i] == x && r[j] == y;
    assert r[k] == t;
    assert ws[if i < k then i else i - 1] == x && ws[if j < k then j else j - 1] == y;
  }

  /** Timers that stay due keep their order. */
  lemma DoOrder(s: Timers, op: Op, x: Timer, y: Timer)
    requires InvBusy(s) && OpOk(s.tm.Keys, op) && Before(Do(s, op).list, x, y)
    requires op.Start? ==> x != op.t && y != op.t
    ensures Before(s.list, x, y)
  {
    match op
    case Start(t) =>
      InsertBefore(Key(StartTimer(s, t).tm), Remove(s.list, t), t, x, y);
      RemoveBefore(s.list, t, x, y);
    case Stop(t) =>
      if s.tm[t].active {
        RemoveBefore(s.list, t, x, y);
      }
    case Detach(t) => RemoveBefore(s.list, t, x, y);
    case SetTime(t, ticks) =>
  }

  lemma {:induction false} DoAllOrder(s: Timers, ops: seq<Op>, x: Timer, y: Timer)
    requires InvBusy(s) && OpsOk(s.tm.Keys, ops) && |s.temp| <= 1
    requires InvBusy(DoAll(s, ops)) && x in Due(DoAll(s, ops)) && y in Due(DoAll(s, ops))
    requires Before(DoAll(s, ops).list, x, y)
    ensures Before(s.list, x, y)
    decreases |ops|
  {
    if ops != [] {
      var m := Do(s, ops[0]);
      DoKeeps(s, ops[0]);
      DoAllKeeps(m, ops[1..]);
      DoAllOrder(m, ops[1..], x, y);
      if ops[0].Start? {
        StartKeeps(s, ops[0].t);
      }
      DoOrder(s, ops[0], x, y);
    }
  }

  lemma FinishOrder(s: Timers, t: Timer, x: Timer, y: Timer)
    requires InvBusy(s) && t in s.tm && (s.temp == [] || s.temp == [t])
    requires Inv(Finish(s, t)) && x in Due(Finish(s, t)) && y in Due(Finish(s, t))
    requires Before(Finish(s, t).list, x, y)
    ensures Before(s.list, x, y)
  {
    if s.temp == [t] {
      FinishIs(s, t);
      UnlinkKeeps(s, t);
      var d := DetachTimer(s, t);
      if s.tm[t].periodic && s.tm[t].active {
        StartKeeps(d, t);
        DoOrder(d, Start(t), x, y);
      }
      DoOrder(s, Detach(t), x, y);
    }
  }

  lemma DispatchOrder(s: Timers, script: Script, x: Timer, y: Timer)
    requires Inv(s) && HeadDue(s) && ScriptOk(s.tm.Keys, script)
    requires var r := Dispatch(s, script); Inv(r) && x in Due(r) && y in Due(r) && Before(r.list, x, y)
    ensures Before(s.list, x, y)
  {
    hide DoAll, Finish, TimerOk, SortedBy;
    var t := s.list[0];
    TakeKeeps(s);
    var ops := script(t, |s.log|);
    DoAllKeeps(Take(s), ops);
    var m := DoAll(Take(s), ops);
    FinishKeeps(m, t);
    FinishOrder(m, t, x, y);
    DoAllOrder(Take(s), ops, x, y);
    var i, j :| 0 <= i < j < |s.list[1..]| && s.list[1..][i] == x && s.list[1..][j] == y;
    assert s.list[i + 1] == x && s.list[j + 1] == y;
  }

  /** An entry fired in this check: at this tick, and for a timer that was due at its beginning. */
  ghost function NewLog(s: Timers, script: Script): (r: seq<Fired>)
    requires Inv(s) && ScriptOk(s.tm.Keys, script)
  {
    Check(s, script).log[|s.log|..]
  }

  /** What fires in one check: now, once, and only timers that were due, in list order. */
  ghost predicate FiredOk(s: Timers, f: seq<Fired>)
    requires forall t :: t in s.list ==> t in s.tm
  {
    && (forall i :: 0 <= i < |f| ==> f[i].at == s.now && f[i].timer in Due(s))
    && (forall i, j :: 0 <= i < j < |f| ==> f[i].timer != f[j].timer && Before(s.list, f[i].timer, f[j].timer))
  }

  lemma {:induction false} FiresInOrder(s: Timers, script: Script)
    requires Inv(s) && ScriptOk(s.tm.Keys, script)
    ensures FiredOk(s, NewLog(s, script))
    decreases Due(s)
  {
    if HeadDue(s) {
      var r := Dispatch(s, script);
      DispatchKeeps(s, script);
      FiresInOrder(r, script);
      FirstFired(s, script, NewLog(r, script));
      assert NewLog(s, script) == [Fired(s.list[0], s.now)] + NewLog(r, script);
    }
  }

  lemma FirstFired(s: Timers, script: Script, g: seq<Fired>)
    requires Inv(s) && HeadDue(s) && ScriptOk(s.tm.Keys, script)
    requires Inv(Dispatch(s, script)) && FiredOk(Dispatch(s, script), g)
    ensures FiredOk(s, [Fired(s.list[0], s.now)] + g)
  {
    var r, f := Dispatch(s, script), [Fired(s.list[0], s.now)] + g;
    DispatchedGone(s, script);
    HeadIsDue(s);
    forall j | 0 <= j < |g| ensures g[j].at == s.now && g[j].timer in Due(s) && g[j].timer != s.list[0] {
      assert g[j].timer in Due(r);
    }
    hide Dispatch, Inv, HeadDue, Due;
    forall j | 0 <= j < |g| ensures Before(s.list, s.list[0], g[j].timer) {
      HeadBefore(s, g[j].timer);
    }
    forall i, j | 0 <= i < j < |g| ensures g[i].timer != g[j].timer && Before(s.list, g[i].timer, g[j].timer) {
      LaterFired(s, script, g, i, j);
    }
    PrependFired(s, Fired(s.list[0], s.now), g);
  }

  lemma PrependFired(s: Timers, x: Fired, g: seq<Fired>)
    requires (forall t :: t in s.list ==> t in s.tm) && x.at == s.now && x.timer in Due(s)
    requires forall j :: 0 <= j < |g| ==> g[j].at == s.now && g[j].timer in Due(s)
    requires forall j :: 0 <= j < |g| ==> g[j].timer != x.timer && Before(s.list, x.timer, g[j].timer)
    requires forall i, j :: 0 <= i < j < |g| ==> g[i].timer != g[j].timer && Before(s.list, g[i].timer, g[j].timer)
    ensures FiredOk(s, [x] + g)
  {
    hide Before, Due;
  }

  lemma LaterFired(s: Timers, script: Script, g: seq<Fired>, i: nat, j: nat)
    requires Inv(s) && HeadDue(s) && ScriptOk(s.tm.Keys, script) && i < j < |g|
    requires Inv(Dispatch(s, script)) && FiredOk(Dispatch(s, script), g)
    ensures g[i].timer != g[j].timer && Before(s.list, g[i].timer, g[j].timer)
  {
    var r := Dispatch(s, script);
    hide Dispatch;
    assert g[i].timer in Due(r) && g[j].timer in Due(r);
    DispatchOrder(s, script, g[i].timer, g[j].timer);
  }

  lemma HeadIsDue(s: Timers)
    requires (forall t :: t in s.list ==> t in s.tm) && HeadDue(s)
    ensures s.list[0] in Due(s)
  {
  }

  lemma HeadBefore(s: Timers, y: Timer)
    requires (forall t :: t in s.list ==> t in s.tm) && y in Due(s) && y != s.list[0]
    ensures Before(s.list, s.list[0], y)
  {
    var k :| 0 <= k < |s.list| && s.list[k] == y;
  }

  lemma DispatchedGone(s: Timers, script: Script)
    requires Inv(s) && HeadDue(s) && ScriptOk(s.tm.Keys, script)
    ensures var r := Dispatch(s, script); Inv(r) && s.list[0] !in Due(r) && Due(r) < Due(s)
  {
    var t := s.list[0];
    DispatchKeeps(s, script);
    TakeKeeps(s);
    var ops := script(t, |s.log|);
    DoAllKeeps(Take(s), ops);
    FinishKeeps(DoAll(Take(s), ops), t);
  }
}
