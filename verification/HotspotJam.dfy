/**
 * Jamming: a token whose run has ended, so that nobody is left to act on it. First at the coarse
 * granularity, then under the full interleaving, where other runs under way can still end the jam.
 */
module HotspotJam {
  import opened Prelude
  import opened FlowLang
  import opened HotspotFlows
  import opened HotspotWorld
  import opened HotspotSafety
  import opened HotspotGuarantees
  import opened HotspotPrefix
  import opened HotspotController

  // ---- Coarse granularity ----

  /** The token belongs to a run that has ended, so nobody is left to turn the hotspot off. */
  predicate Jammed(w: World)
  {
    Armed(w.cell) && w.cell.value.run in w.runs && 7 <= w.runs[w.cell.value.run].run.pc
  }

  predicate Cancels(m: Move)
  {
    m.Enter? && m.cancelOk
  }

  ghost predicate NoOffSince(w: World, v: World)
  {
    w.trace <= v.trace && forall id, k :: |w.trace| <= k ==> !OffAt(v.trace, k, id)
  }

  lemma JamWalk(w: World, id: RunId, readOk: bool, armOk: bool)
    requires Jammed(w) && id !in w.runs
    ensures var v := Prefix(w, id, readOk, armOk);
            Jammed(v) && v.cell == w.cell && NoOffSince(w, v)
  {
    PrefixShape(w, id, readOk, armOk);
  }

  lemma JamEnter(w: World, id: RunId, onOk: bool)
    requires Jammed(w) && id !in w.runs
    ensures var v := Make(w, Enter(id, false, onOk));
            Jammed(v) && v.cell == w.cell && NoOffSince(w, v)
  {
    EnterShape(w, id, false, onOk);
    assert |HOTSPOT_ON| != |HOTSPOT_OFF|;
  }

  lemma JamWake(w: World, m: Move)
    requires Settled(w) && Jammed(w) && m.Wake? && CanWake(w, m.id, m.waitOk)
    ensures Jammed(Make(w, m)) && Make(w, m).cell == w.cell && NoOffSince(w, Make(w, m))
  {
    TailShape(w, m.id, m.waitOk, m.readOk, m.offOk, m.clearOk);
  }

  lemma JamStep(w: World, m: Move)
    requires Settled(w) && Jammed(w) && !Cancels(m)
    ensures Jammed(Make(w, m)) && Make(w, m).cell == w.cell && NoOffSince(w, Make(w, m))
  {
    match m {
      case Enter(id, cancelOk, onOk) => if id !in w.runs { JamEnter(w, id, onOk); }
      case Walk(id, readOk, armOk) => if id !in w.runs { JamWalk(w, id, readOk, armOk); }
      case Wake(id, waitOk, _, _, _) => if CanWake(w, id, waitOk) { JamWake(w, m); }
      case Pass(_) =>
    }
  }

  /** A jammed token stays, and no hotspot-off is ever issued, until a presence_inside cancels it. */
  lemma {:induction false} JammedUntilInside(w: World, ms: seq<Move>)
    requires Settled(w) && Jammed(w) && forall m :: m in ms ==> !Cancels(m)
    ensures MakeAll(w, ms).cell == w.cell && NoOffSince(w, MakeAll(w, ms))
    decreases |ms|
  {
    if ms != [] {
      assert !Cancels(ms[0]);
      var v := Make(w, ms[0]);
      JamStep(w, ms[0]);
      MoveSettles(w, ms[0]);
      JammedUntilInside(v, ms[1..]);
      NoOffChains(w, v, MakeAll(v, ms[1..]));
    }
  }

  lemma NoOffChains(w: World, v: World, u: World)
    requires NoOffSince(w, v) && NoOffSince(v, u)
    ensures NoOffSince(w, u)
  {
    forall id, k | |w.trace| <= k ensures !OffAt(u.trace, k, id) {
      assert !OffAt(v.trace, k, id) && (|v.trace| <= k ==> !OffAt(u.trace, k, id));
    }
  }

  /** Exactly when waking the holder of the token jams: something in its tail other than the off call failed. */
  lemma WakeJamsIff(w: World, m: Move)
    requires Settled(w) && m.Wake? && CanWake(w, m.id, m.waitOk) && w.cell == Some(IdOf(m.id))
    ensures Jammed(Make(w, m)) <==> !(m.waitOk && m.readOk && m.clearOk)
  {
    TailShape(w, m.id, m.waitOk, m.readOk, m.offOk, m.clearOk);
  }

  lemma MakeTwo(w: World, a: Move, b: Move)
    ensures MakeAll(w, [a, b]) == Make(Make(w, a), b)
  {
    assert [a, b][1..] == [b];
    assert MakeAll(w, [a, b]) == MakeAll(Make(w, a), [b]);
    assert MakeAll(Make(w, a), [b]) == MakeAll(Make(Make(w, a), b), []);
  }

  /** A jam is easily reached: one run arms, and its wait fails. */
  lemma JamIsReachable()
    ensures var w := MakeAll(INITIAL, [Walk(1, true, true), Wake(1, false, true, true, true)]);
            Jammed(w) && Settled(w)
  {
    var walk, wake := Walk(1, true, true), Wake(1, false, true, true, true);
    MakeTwo(INITIAL, walk, wake);
    MoveSettles(INITIAL, walk);
    PrefixShape(INITIAL, 1, true, true);
    WakeJamsIff(Make(INITIAL, walk), wake);
    MoveSettles(Make(INITIAL, walk), wake);
  }

  // ---- Full interleaving ----

  /** This event is a cancel that takes effect. */
  predicate CancelsNow(w: World, e: Event)
  {
    e.Advance? && e.ok && e.id in w.runs && w.runs[e.id].kind == Inside && w.runs[e.id].run.pc == 0
  }

  /** No presence_inside cancel takes effect in this continuation. */
  predicate NeverCancelled(w: World, es: seq<Event>)
    decreases |es|
  {
    es != [] ==> !CancelsNow(w, es[0]) && NeverCancelled(Do(w, es[0]), es[1..])
  }

  /**
   * A run that cannot end a jam: it is not about to arm, nor past a read that saw no token before its arm;
   * and it has not re-read its own token with its off or its clear still to come.
   */
  predicate Harmless(l: Live, id: RunId)
  {
    l.kind == Away ==>
      && (l.run.pc == 1 ==> Pending in l.run.vars && l.run.vars[Pending] != Blank)
      && l.run.pc != 2
      && (l.run.pc in {5, 6} ==> !Owns(l.run.vars, id))
  }

  predicate Stuck(w: World)
  {
    Jammed(w) && forall id :: id in w.runs ==> Harmless(w.runs[id], id)
  }

  /** In a stuck world no run that could still re-read remembers a token, and those waiting have lost theirs. */
  ghost predicate Forgetful(w: World)
  {
    forall id :: id in w.runs && w.runs[id].kind == Away && w.runs[id].run.pc <= 4 ==> AwayNow !in w.runs[id].run.vars
  }

  /** The cell is as it was, and nobody turned the hotspot off. */
  ghost predicate StillJammed(w: World, v: World)
  {
    v.cell == w.cell && NoOffSince(w, v)
  }

  lemma StuckSelf(w: World, id: RunId, ok: bool)
    requires Stuck(w) && Forgetful(w) && id in w.runs && w.runs[id].kind == Away
    ensures var v := AwayStep(w, id, ok);
            && StillJammed(w, v) && Harmless(v.runs[id], id)
            && (v.runs[id].run.pc <= 4 ==> AwayNow !in v.runs[id].run.vars)
            && w.runs[id].run.pc <= v.runs[id].run.pc
  {
    assert Harmless(w.runs[id], id);
    assert w.cell != Some(IdOf(id)) || 7 <= w.runs[id].run.pc;
  }

  lemma StuckInside(w: World, id: RunId, ok: bool)
    requires Stuck(w) && id in w.runs && w.runs[id].kind == Inside && !CancelsNow(w, Advance(id, ok))
    ensures StillJammed(w, InsideStep(w, id, ok))
  {
    assert |HOTSPOT_ON| != |HOTSPOT_OFF|;
  }

  lemma StuckStep(w: World, e: Event)
    requires Stuck(w) && Forgetful(w) && !CancelsNow(w, e)
    ensures Stuck(Do(w, e)) && Forgetful(Do(w, e)) && StillJammed(w, Do(w, e))
  {
    InterpreterIsTable(w, e);
    if e.Advance? && e.id in w.runs {
      StepIsOwn(w, e.id, e.ok);
      if w.runs[e.id].kind == Away {
        StuckSelf(w, e.id, e.ok);
      } else {
        StuckInside(w, e.id, e.ok);
      }
      var v := Do(w, e);
      forall id | id in v.runs ensures Harmless(v.runs[id], id) {
        if id != e.id { assert Harmless(w.runs[id], id); }
      }
    } else {
      forall id | id in w.runs ensures Harmless(w.runs[id], id) {}
    }
  }

  lemma {:induction false} StuckRun(w: World, es: seq<Event>)
    requires Stuck(w) && Forgetful(w) && NeverCancelled(w, es)
    ensures StillJammed(w, RunAll(w, es))
    decreases |es|
  {
    if es != [] {
      var v := Do(w, es[0]);
      StuckStep(w, es[0]);
      StuckRun(v, es[1..]);
      NoOffChains(w, v, RunAll(v, es[1..]));
    }
  }

  /** One or two steps of a run that is not harmless disturb the jam, without any cancel. */
  lemma HarmDisturbs(w: World, id: RunId) returns (es: seq<Event>)
    requires Jammed(w) && id in w.runs && !Harmless(w.runs[id], id)
    ensures NeverCancelled(w, es) && !StillJammed(w, RunAll(w, es))
  {
    var step := Advance(id, true);
    var v := Do(w, step);
    InterpreterIsTable(w, step);
    assert [step][1..] == [] && RunAll(w, [step]) == RunAll(v, []);
    es := [step];
    if w.runs[id].run.pc == 1 {
      InterpreterIsTable(v, step);
      es := [step, step];
      assert es[1..] == [step];
      assert RunAll(w, es) == RunAll(v, [step]);
      assert RunAll(v, [step]) == RunAll(Do(v, step), []);
      assert Do(v, step).cell == Some(IdOf(id));
      assert NeverCancelled(v, [step]);
    } else if w.runs[id].run.pc == 5 {
      assert OffAt(v.trace, |w.trace|, id);
    }
  }

  /**
   * Under full interleaving a jam lasts, with no hotspot-off, through every continuation without a cancel
   * exactly if every run under way is harmless: none between a read that saw no token and its arm, none past
   * a re-read of its own token with its off or clear to come.
   */
  lemma JamIsPermanentIff(before: seq<Event>)
    requires Jammed(RunAll(INITIAL, before))
    ensures var w := RunAll(INITIAL, before);
            (forall es :: NeverCancelled(w, es) ==> StillJammed(w, RunAll(w, es))) <==> Stuck(w)
  {
    Reachable(before);
    var w := RunAll(INITIAL, before);
    forall id | id in w.runs && w.runs[id].kind == Away && w.runs[id].run.pc <= 4
      ensures AwayNow !in w.runs[id].run.vars
    {
      assert RunInv(w, id);
    }
    if Stuck(w) {
      forall es | NeverCancelled(w, es) ensures StillJammed(w, RunAll(w, es)) {
        StuckRun(w, es);
      }
    } else {
      var id :| id in w.runs && !Harmless(w.runs[id], id);
      var es := HarmDisturbs(w, id);
    }
  }

  /** A jam that is not permanent exists: a run that read the empty cell before it can still arm. */
  lemma JamCanPass()
    ensures exists es :: Jammed(RunAll(INITIAL, es)) && !Stuck(RunAll(INITIAL, es))
  {
    var es := TwoAtTheirArm();
    es := PlayStep(es, 1, true);
    es := PlayStep(es, 1, false);
    es := PlayStep(es, 1, true);
    var w := RunAll(INITIAL, es);
    assert w.cell == Some(IdOf(1)) && w.runs[1].run.pc == 7 && w.runs[2].run.pc == 2;
    assert !Harmless(w.runs[2], 2);
  }
}
