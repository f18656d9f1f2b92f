/** The promises of the hotspot flows under the full interleaving, and exactly where two of them stop. */
module HotspotGuarantees {
  import opened Prelude
  import opened FlowLang
  import opened HotspotFlows
  import opened HotspotWorld
  import opened HotspotSafety

  lemma Reachable(es: seq<Event>)
    ensures Inv(RunAll(INITIAL, es))
  {
    RunKeeps(INITIAL, es);
  }

  // ---- Off is earned ----

  /**
   * A hotspot-off by run `id` comes after that run armed the token, at least the away wait later, with no
   * write to the token (so no cancel that took effect) between the arm and the run's re-read.
   */
  lemma OffIsEarned(es: seq<Event>, k: nat, id: RunId) returns (i: int, j: int)
    requires OffAt(RunAll(INITIAL, es).trace, k, id)
    ensures var tr := RunAll(INITIAL, es).trace;
            i < j < k && EarnedBy(tr, i, j, id) && tr[i].at + 180 <= tr[k].at
  {
    Reachable(es);
    var tr := RunAll(INITIAL, es).trace;
    assert EarnedBefore(tr, k, id);
    j :| 0 <= j < k && Earned(tr, j, id);
    i :| EarnedBy(tr, i, j, id);
    assert tr[j].at <= tr[k].at;
  }

  /** No run issues hotspot-off twice, and none of the inside runs ever does. */
  lemma OffAtMostOnce(es: seq<Event>, i: nat, k: nat, id: RunId)
    requires OffAt(RunAll(INITIAL, es).trace, i, id) && OffAt(RunAll(INITIAL, es).trace, k, id)
    ensures i == k && id in RunAll(INITIAL, es).runs && RunAll(INITIAL, es).runs[id].kind == Away
  {
    Reachable(es);
  }

  // ---- An overwritten run is silent ----

  /** Armed once, but its token is no longer the one in the cell, or it has already read a foreign one. */
  predicate Disarmed(w: World, id: RunId)
  {
    && id in w.runs && w.runs[id].kind == Away && w.runs[id].run.pc >= 3
    && !Owns(w.runs[id].run.vars, id)
    && (w.runs[id].run.pc <= 4 ==> w.cell != Some(IdOf(id)))
  }

  /** From `w` to `v` the trace only grew, and run `id` added nothing but reads. */
  ghost predicate OnlyReads(w: World, v: World, id: RunId)
  {
    && w.trace <= v.trace
    && forall k :: |w.trace| <= k < |v.trace| && v.trace[k].who == id ==> v.trace[k].Read?
  }

  lemma DisarmedSelf(w: World, id: RunId, ok: bool)
    requires Disarmed(w, id)
    ensures Disarmed(AwayStep(w, id, ok), id) && OnlyReads(w, AwayStep(w, id, ok), id)
  {
  }

  lemma DisarmedOther(w: World, v: World, id: RunId, other: RunId)
    requires Disarmed(w, id) && id != other && OwnStep(w, v, other)
    ensures Disarmed(v, id) && OnlyReads(w, v, id)
  {
  }

  lemma DisarmedStep(w: World, e: Event, id: RunId)
    requires Disarmed(w, id)
    ensures Disarmed(Do(w, e), id) && OnlyReads(w, Do(w, e), id)
  {
    InterpreterIsTable(w, e);
    if e.Advance? && e.id in w.runs {
      if e.id == id {
        DisarmedSelf(w, id, e.ok);
      } else {
        StepIsOwn(w, e.id, e.ok);
        DisarmedOther(w, Do(w, e), id, e.id);
      }
    }
  }

  lemma {:induction false} DisarmedRun(w: World, es: seq<Event>, id: RunId)
    requires Disarmed(w, id)
    ensures Disarmed(RunAll(w, es), id) && OnlyReads(w, RunAll(w, es), id)
    decreases |es|
  {
    if es != [] {
      DisarmedStep(w, es[0], id);
      DisarmedRun(Do(w, es[0]), es[1..], id);
    }
  }

  /** Once a waiting run's token has been overwritten it never again writes the cell or commands the tether. */
  lemma SilentOnceOverwritten(before: seq<Event>, after: seq<Event>, id: RunId)
    requires var w := RunAll(INITIAL, before);
             && id in w.runs && w.runs[id].kind == Away && 3 <= w.runs[id].run.pc <= 4
             && w.cell != Some(IdOf(id))
    ensures OnlyReads(RunAll(INITIAL, before), RunAll(INITIAL, before + after), id)
  {
    Reachable(before);
    var w := RunAll(INITIAL, before);
    assert RunInv(w, id);
    RunAllConcat(INITIAL, before, after);
    DisarmedRun(w, after, id);
  }

  /** Between `w` and `v` run `id` turned the hotspot off. */
  ghost predicate NewOff(w: World, v: World, id: RunId)
  {
    exists k :: |w.trace| <= k && OffAt(v.trace, k, id)
  }

  /** A run past its off step never turns the hotspot off again. */
  lemma {:induction false} PastOff(w: World, es: seq<Event>, id: RunId)
    requires id in w.runs && w.runs[id].kind == Away && 6 <= w.runs[id].run.pc
    ensures w.trace <= RunAll(w, es).trace && !NewOff(w, RunAll(w, es), id)
    decreases |es|
  {
    if es != [] {
      var v := Do(w, es[0]);
      PastOffStep(w, es[0], id);
      PastOff(v, es[1..], id);
      forall k | |w.trace| <= k ensures !OffAt(RunAll(v, es[1..]).trace, k, id) {
        if k < |v.trace| { assert !OffAt(v.trace, k, id); }
      }
    }
  }

  lemma PastOffStep(w: World, e: Event, id: RunId)
    requires id in w.runs && w.runs[id].kind == Away && 6 <= w.runs[id].run.pc
    ensures var v := Do(w, e);
            && id in v.runs && v.runs[id].kind == Away && 6 <= v.runs[id].run.pc
            && w.trace <= v.trace && forall k :: |w.trace| <= k ==> !OffAt(v.trace, k, id)
  {
    InterpreterIsTable(w, e);
    if e.Advance? && e.id in w.runs { StepIsOwn(w, e.id, e.ok); }
  }

  /**
   * The exact split for a run whose token is not, or no longer, in the cell: it can still turn the hotspot
   * off, in some continuation, exactly if it stands at its off step and re-read its own token before.
   */
  lemma OverwrittenTurnsOffIff(before: seq<Event>, id: RunId)
    requires var w := RunAll(INITIAL, before);
             && id in w.runs && w.runs[id].kind == Away && 3 <= w.runs[id].run.pc
             && w.cell != Some(IdOf(id))
    ensures var w := RunAll(INITIAL, before);
            (exists after :: NewOff(w, RunAll(w, after), id)) <==>
            w.runs[id].run.pc == 5 && Owns(w.runs[id].run.vars, id)
  {
    Reachable(before);
    var w := RunAll(INITIAL, before);
    assert RunInv(w, id);
    if w.runs[id].run.pc == 5 && Owns(w.runs[id].run.vars, id) {
      var after := [Advance(id, true)];
      InterpreterIsTable(w, after[0]);
      assert RunAll(w, after) == RunAll(Do(w, after[0]), []);
      assert OffAt(RunAll(w, after).trace, |w.trace|, id);
    } else if 6 <= w.runs[id].run.pc {
      forall after ensures !NewOff(w, RunAll(w, after), id) {
        PastOff(w, after, id);
      }
    } else {
      forall after ensures !NewOff(w, RunAll(w, after), id) {
        DisarmedRun(w, after, id);
      }
    }
  }

  /** How often the schedule lets run `id` try a step. */
  function Turns(es: seq<Event>, id: RunId): nat
  {
    if es == [] then 0
    else (if es[0].Advance? && es[0].id == id then 1 else 0) + Turns(es[1..], id)
  }

  /** A run whose wait is due, or behind it, ends within its remaining steps whatever succeeds or fails. */
  lemma {:induction false} DueRunFinishes(w: World, es: seq<Event>, id: RunId)
    requires id in w.runs && w.runs[id].kind == Away && 3 <= w.runs[id].run.pc
    requires w.runs[id].run.pc == 3 ==> w.runs[id].run.since + AWAY_WAIT <= w.clock
    requires 7 <= w.runs[id].run.pc + Turns(es, id)
    ensures id in RunAll(w, es).runs && RunAll(w, es).runs[id].kind == Away && 7 <= RunAll(w, es).runs[id].run.pc
    decreases |es|
  {
    if es != [] {
      InterpreterIsTable(w, es[0]);
      DueRunFinishes(Do(w, es[0]), es[1..], id);
    }
  }

  // ---- The final clear tests what was read earlier ----

  /**
   * When a run is about to clear, the cell still holds its own token exactly if nobody has written since
   * the run's re-read. So the clear can only wipe another run's token through a write in that gap.
   */
  lemma ClearHitsOwnTokenIff(es: seq<Event>, id: RunId)
    requires var w := RunAll(INITIAL, es);
             id in w.runs && w.runs[id].run.pc == 6 && Owns(w.runs[id].run.vars, id)
    ensures var w := RunAll(INITIAL, es);
            w.cell == Some(IdOf(id)) <==> LastWrite(w.trace) < LastRead(w.trace, id)
  {
    Reachable(es);
    var w := RunAll(INITIAL, es);
    assert RunInv(w, id);
    var j := LastRead(w.trace, id);
    var i :| EarnedBy(w.trace, i, j, id);
    if LastWrite(w.trace) < j {
      assert LastWrite(w.trace) == i;
    } else if w.cell == Some(IdOf(id)) {
      assert ArmAt(w.trace, LastWrite(w.trace), id);
      assert false;
    }
  }

  /**
   * The clear wipes another run's token exactly if the last write to the cell is a token and comes after the
   * run's re-read. A cancel in that gap does no harm; an arm that is still live does.
   */
  lemma ClearWipesALaterTokenIff(es: seq<Event>, id: RunId)
    requires var w := RunAll(INITIAL, es);
             id in w.runs && w.runs[id].run.pc == 6 && Owns(w.runs[id].run.vars, id)
    ensures var w := RunAll(INITIAL, es);
            var k := LastWrite(w.trace);
            Armed(w.cell) && w.cell != Some(IdOf(id)) <==>
            LastRead(w.trace, id) < k && w.trace[k].value.IdOf?
  {
    Reachable(es);
    ClearHitsOwnTokenIff(es, id);
    var w := RunAll(INITIAL, es);
    assert RunInv(w, id);
    var i :| EarnedBy(w.trace, i, LastRead(w.trace, id), id);
    assert 0 <= i <= LastWrite(w.trace);
  }

  lemma Play(es: seq<Event>, e: Event)
    ensures RunAll(INITIAL, es + [e]) == Table(RunAll(INITIAL, es), e)
  {
    var w := RunAll(INITIAL, es);
    RunAllConcat(INITIAL, es, [e]);
    InterpreterIsTable(w, e);
    assert RunAll(w, [e]) == RunAll(Do(w, e), []);
  }

  /** Run `id` started away and armed the empty cell. */
  lemma PlayArm(es: seq<Event>, id: RunId) returns (fs: seq<Event>)
    requires id !in RunAll(INITIAL, es).runs && !Armed(RunAll(INITIAL, es).cell)
    ensures var w := RunAll(INITIAL, es);
            var v := RunAll(INITIAL, fs);
            && v.cell == Some(IdOf(id)) && v.clock == w.clock && id in v.runs
            && v.runs == w.runs[id := v.runs[id]]
            && v.runs[id] == Live(Away, Run(3, Bind(map[], Pending, w.cell), w.clock))
            && v.trace == w.trace + [Read(id, w.cell, w.clock), Wrote(id, IdOf(id), w.clock)]
  {
    var w := RunAll(INITIAL, es);
    var e1, e2, e3, e4 := es + [Start(id, Away)], Advance(id, true), Advance(id, true), Advance(id, true);
    Play(es, Start(id, Away));
    var w1 := RunAll(INITIAL, e1);
    Play(e1, e2);
    var w2 := RunAll(INITIAL, e1 + [e2]);
    assert w2.runs[id].run == Run(1, Bind(map[], Pending, w.cell), w.clock);
    Play(e1 + [e2], e3);
    var w3 := RunAll(INITIAL, e1 + [e2] + [e3]);
    assert w3.runs[id].run == Run(2, Bind(map[], Pending, w.cell), w.clock);
    Play(e1 + [e2] + [e3], e4);
    fs := e1 + [e2] + [e3] + [e4];
    var v := RunAll(INITIAL, fs);
    assert v.trace == w.trace + [Read(id, w.cell, w.clock), Wrote(id, IdOf(id), w.clock)];
    assert v.runs == w.runs[id := v.runs[id]];
  }

  /**
   * The gap is real: run 1 re-reads its token and turns the hotspot off, the driver returns and leaves
   * again so run 3 arms, and then run 1's clear wipes run 3's token.
   */
  lemma ClearCanWipeALaterToken()
    ensures exists es, fs ::
              && RunAll(INITIAL, es).cell == Some(IdOf(3)) && fs == es + [Advance(1, true)]
              && RunAll(INITIAL, fs).cell == Some(Blank) && Disarmed(RunAll(INITIAL, fs), 3)
  {
    var e0 := PlayArm([], 1);
    Play(e0, Tick(AWAY_WAIT));
    var e1 := e0 + [Tick(AWAY_WAIT)];
    Play(e1, Advance(1, true));
    var e2 := e1 + [Advance(1, true)];
    Play(e2, Advance(1, true));
    var e3 := e2 + [Advance(1, true)];
    Play(e3, Advance(1, true));
    var e4 := e3 + [Advance(1, true)];
    assert RunAll(INITIAL, e4).runs[1].run.pc == 6 && Owns(RunAll(INITIAL, e4).runs[1].run.vars, 1);
    Play(e4, Start(2, Inside));
    var e5 := e4 + [Start(2, Inside)];
    Play(e5, Advance(2, true));
    var e6 := e5 + [Advance(2, true)];
    var es := PlayArm(e6, 3);
    assert RunAll(INITIAL, es).runs[1] == RunAll(INITIAL, e4).runs[1];
    Play(es, Advance(1, true));
    var fs := es + [Advance(1, true)];
    assert RunAll(INITIAL, fs).cell == Some(Blank);
    assert Disarmed(RunAll(INITIAL, fs), 3);
  }

  // ---- Arming over a token ----

  /** Between its first read and its arm, a run remembers what it read, and that no token was in the cell. */
  ghost predicate PendingInv(w: World, id: RunId)
    requires id in w.runs
  {
    var r := w.runs[id].run;
    var j := LastRead(w.trace, id);
    w.runs[id].kind == Away ==>
      && (r.pc == 0 ==> r.vars == map[])
      && (1 <= r.pc <= 2 ==> 0 <= j && (LastWrite(w.trace) < j ==> w.cell == w.trace[j].seen))
      && (r.pc == 1 ==> r.vars == Bind(map[], Pending, w.trace[j].seen))
      && (r.pc == 2 ==> !Armed(w.trace[j].seen))
  }

  lemma PendingOther(w: World, v: World, id: RunId, other: RunId)
    requires id in v.runs && OwnStep(w, v, id) && other in w.runs && other != id && PendingInv(w, other)
    ensures PendingInv(v, other)
  {
    if v.trace != w.trace {
      assert v.trace == w.trace + [v.trace[|w.trace|]];
      Snoc(w.trace, v.trace[|w.trace|]);
    }
  }

  lemma PendingReads(w: World, id: RunId)
    requires id in w.runs && w.runs[id].kind == Away && w.runs[id].run.pc == 0 && PendingInv(w, id)
    ensures PendingInv(AwayStep(w, id, true), id)
  {
    Snoc(w.trace, Read(id, w.cell, w.clock));
  }

  lemma PendingSelf(w: World, id: RunId, ok: bool)
    requires id in w.runs && w.runs[id].kind == Away && PendingInv(w, id)
    ensures PendingInv(AwayStep(w, id, ok), id)
  {
    var pc := w.runs[id].run.pc;
    if pc == 0 && ok {
      PendingReads(w, id);
    } else if pc <= 1 {
      assert AwayStep(w, id, ok).trace == w.trace;
    } else {
      assert 3 <= AwayStep(w, id, ok).runs[id].run.pc;
    }
  }

  lemma PendingStep(w: World, e: Event, other: RunId)
    requires forall id :: id in w.runs ==> PendingInv(w, id)
    requires other in Do(w, e).runs
    ensures PendingInv(Do(w, e), other)
  {
    InterpreterIsTable(w, e);
    if other in w.runs {
      assert PendingInv(w, other);
      if e.Advance? && e.id in w.runs {
        StepIsOwn(w, e.id, e.ok);
        if e.id != other {
          PendingOther(w, Table(w, e), e.id, other);
        } else if w.runs[other].kind == Away {
          PendingSelf(w, other, e.ok);
        }
      }
    }
  }

  lemma {:induction false} PendingRun(w: World, es: seq<Event>)
    requires forall id :: id in w.runs ==> PendingInv(w, id)
    ensures forall id :: id in RunAll(w, es).runs ==> PendingInv(RunAll(w, es), id)
    decreases |es|
  {
    if es != [] {
      forall id | id in Do(w, es[0]).runs ensures PendingInv(Do(w, es[0]), id) {
        PendingStep(w, es[0], id);
      }
      PendingRun(Do(w, es[0]), es[1..]);
    }
  }

  /**
   * A run about to arm would overwrite a live token exactly if another run armed after this run's read and
   * nobody has cleared it since: reading, skipping and arming is only safe when nothing comes between.
   */
  lemma ArmOverwritesTokenIff(es: seq<Event>, id: RunId)
    requires var w := RunAll(INITIAL, es);
             id in w.runs && w.runs[id].kind == Away && w.runs[id].run.pc == 2
    ensures var w := RunAll(INITIAL, es);
            var k := LastWrite(w.trace);
            Armed(w.cell) <==> LastRead(w.trace, id) < k && w.trace[k].value.IdOf?
  {
    Reachable(es);
    PendingRun(INITIAL, es);
    assert PendingInv(RunAll(INITIAL, es), id);
  }

  /** It happens: two runs read the empty cell before either arms, and both arm. */
  lemma TwoRunsCanBothArm()
    ensures exists es :: var tr := RunAll(INITIAL, es).trace;
              |tr| == 4 && ArmAt(tr, 2, 1) && ArmAt(tr, 3, 2) && Disarmed(RunAll(INITIAL, es), 1)
  {
    var e1 := [] + [Start(1, Away)];
    Play([], Start(1, Away));
    var e2 := e1 + [Start(2, Away)];
    Play(e1, Start(2, Away));
    var e3 := e2 + [Advance(1, true)];
    Play(e2, Advance(1, true));
    var e4 := e3 + [Advance(1, true)];
    Play(e3, Advance(1, true));
    var e5 := e4 + [Advance(2, true)];
    Play(e4, Advance(2, true));
    var e6 := e5 + [Advance(2, true)];
    Play(e5, Advance(2, true));
    var e7 := e6 + [Advance(1, true)];
    Play(e6, Advance(1, true));
    var e8 := e7 + [Advance(2, true)];
    Play(e7, Advance(2, true));
    var w := RunAll(INITIAL, e8);
    assert |w.trace| == 4 && ArmAt(w.trace, 2, 1) && ArmAt(w.trace, 3, 2) && Disarmed(w, 1);
  }

  /** One more step of run `id`, by the table. */
  lemma PlayStep(es: seq<Event>, id: RunId, ok: bool) returns (fs: seq<Event>)
    ensures fs == es + [Advance(id, ok)]
    ensures RunAll(INITIAL, fs) == Table(RunAll(INITIAL, es), Advance(id, ok))
  {
    Play(es, Advance(id, ok));
    fs := es + [Advance(id, ok)];
  }

  lemma Later(es: seq<Event>) returns (fs: seq<Event>)
    ensures RunAll(INITIAL, fs) == RunAll(INITIAL, es).(clock := RunAll(INITIAL, es).clock + AWAY_WAIT)
  {
    Play(es, Tick(AWAY_WAIT));
    fs := es + [Tick(AWAY_WAIT)];
  }

  /** Two away runs that both read the empty cell and are about to arm. */
  lemma TwoAtTheirArm() returns (es: seq<Event>)
    ensures var w := RunAll(INITIAL, es);
            && w.cell == None && w.clock == 0 && w.runs.Keys == {1, 2} && |w.trace| == 2
            && w.runs[1] == Live(Away, Run(2, map[], 0)) && w.runs[2] == Live(Away, Run(2, map[], 0))
  {
    Play([], Start(1, Away));
    es := [] + [Start(1, Away)];
    Play(es, Start(2, Away));
    es := es + [Start(2, Away)];
    es := PlayStep(es, 1, true);
    es := PlayStep(es, 1, true);
    es := PlayStep(es, 2, true);
    es := PlayStep(es, 2, true);
  }

  /**
   * An arm over a live token comes too late for a run that has already re-read it: run 1 still turns the
   * hotspot off, its clear fails, and three minutes later run 2 turns it off again.
   */
  lemma TwoRunsCanBothTurnOff()
    ensures exists es, i, k :: var tr := RunAll(INITIAL, es).trace; i < k && OffAt(tr, i, 1) && OffAt(tr, k, 2)
  {
    var es := TwoAtTheirArm();
    es := PlayStep(es, 1, true);
    es := Later(es);
    es := PlayStep(es, 1, true);
    es := PlayStep(es, 1, true);
    var w1 := RunAll(INITIAL, es);
    assert w1.runs[1].run.pc == 5 && Owns(w1.runs[1].run.vars, 1) && w1.runs[2].run.pc == 2 && |w1.trace| == 4;
    es := PlayStep(es, 2, true);
    es := PlayStep(es, 1, true);
    var w2 := RunAll(INITIAL, es);
    assert OffAt(w2.trace, 5, 1) && |w2.trace| == 6;
    es := PlayStep(es, 1, false);
    es := Later(es);
    es := PlayStep(es, 2, true);
    es := PlayStep(es, 2, true);
    var w3 := RunAll(INITIAL, es);
    assert w3.runs[2].run.pc == 5 && Owns(w3.runs[2].run.vars, 2);
    assert |w3.trace| == 7 && w3.trace[5] == w2.trace[5];
    es := PlayStep(es, 2, true);
    var tr := RunAll(INITIAL, es).trace;
    assert OffAt(tr, 5, 1) && OffAt(tr, 7, 2);
  }

  // ---- A tail in one go ----

  /**
   * The tail of a waiting run, taken in one go (a wait can fail at any time, but succeeds only when due): it
   * turns the hotspot off exactly if the wait and the re-read succeed and the token is its own, and it clears
   * the token exactly if, on top of that, the clear succeeds. Every other outcome leaves the cell as it was.
   */
  lemma TailOutcome(es: seq<Event>, id: RunId, waitOk: bool, readOk: bool, offOk: bool, clearOk: bool)
    requires var w := RunAll(INITIAL, es);
             && id in w.runs && w.runs[id].kind == Away && w.runs[id].run.pc == 3
             && (waitOk ==> w.runs[id].run.since + AWAY_WAIT <= w.clock)
    ensures var w := RunAll(INITIAL, es);
            var v := RunAll(w, Tail(id, waitOk, readOk, offOk, clearOk));
            var off := waitOk && readOk && w.cell == Some(IdOf(id));
            && v.cell == (if off && clearOk then Some(Blank) else w.cell)
            && (exists k :: |w.trace| <= k && OffAt(v.trace, k, id)) == off
            && id in v.runs && v.runs[id].kind == Away && v.runs[id].run.pc >= 7
            && w.trace <= v.trace && v.clock == w.clock && v.runs == w.runs[id := v.runs[id]]
  {
    Reachable(es);
    var w := RunAll(INITIAL, es);
    assert RunInv(w, id);
    TailShape(w, id, waitOk, readOk, offOk, clearOk);
    var v := RunAll(w, Tail(id, waitOk, readOk, offOk, clearOk));
    if waitOk && readOk && w.cell == Some(IdOf(id)) {
      assert OffAt(v.trace, |w.trace| + 1, id);
    }
  }

  function Tail(id: RunId, waitOk: bool, readOk: bool, offOk: bool, clearOk: bool): seq<Event>
  {
    [Advance(id, waitOk), Advance(id, readOk), Advance(id, offOk), Advance(id, clearOk)]
  }

  lemma RunFour(w: World, a: Event, b: Event, c: Event, d: Event)
    ensures RunAll(w, [a, b, c, d]) == Table(Table(Table(Table(w, a), b), c), d)
  {
    var w1 := Table(w, a);
    var w2 := Table(w1, b);
    var w3 := Table(w2, c);
    InterpreterIsTable(w, a);
    InterpreterIsTable(w1, b);
    InterpreterIsTable(w2, c);
    InterpreterIsTable(w3, d);
    assert [a, b, c, d][1..] == [b, c, d] && [b, c, d][1..] == [c, d] && [c, d][1..] == [d];
    assert RunAll(w, [a, b, c, d]) == RunAll(w1, [b, c, d]);
    assert RunAll(w1, [b, c, d]) == RunAll(w2, [c, d]);
    assert RunAll(w2, [c, d]) == RunAll(w3, [d]);
    assert RunAll(w3, [d]) == RunAll(Table(w3, d), []);
  }

  /** What the four steps of a tail come to. */
  ghost predicate TailResult(w: World, v: World, id: RunId, off: bool, rereads: bool, clears: bool)
  {
    && v.cell == (if clears then Some(Blank) else w.cell)
    && v.clock == w.clock && id in v.runs && v.runs == w.runs[id := v.runs[id]]
    && v.runs[id].kind == Away && v.runs[id].run.pc == 7
    && v.trace == w.trace + (if rereads then [Read(id, w.cell, w.clock)] else [])
                  + (if off then [Issued(id, HOTSPOT_OFF, w.clock)] else [])
                  + (if clears then [Wrote(id, Blank, w.clock)] else [])
  }

  /** The same four steps, by value. */
  lemma TailShape(w: World, id: RunId, waitOk: bool, readOk: bool, offOk: bool, clearOk: bool)
    requires id in w.runs && w.runs[id].kind == Away && w.runs[id].run.pc == 3
    requires waitOk ==> w.runs[id].run.since + AWAY_WAIT <= w.clock
    requires AwayNow !in w.runs[id].run.vars
    ensures var off := waitOk && readOk && w.cell == Some(IdOf(id));
            TailResult(w, RunAll(w, Tail(id, waitOk, readOk, offOk, clearOk)), id,
                       off, waitOk && readOk, off && clearOk)
  {
    RunFour(w, Advance(id, waitOk), Advance(id, readOk), Advance(id, offOk), Advance(id, clearOk));
    if !waitOk {
      TailAfterWait(w, id, readOk, offOk, clearOk);
    } else if !readOk {
      TailAfterReading(w, id, offOk, clearOk);
    } else {
      TailFromRead(w, id, offOk, clearOk);
    }
  }

  lemma TailAfterWait(w: World, id: RunId, a: bool, b: bool, c: bool)
    requires id in w.runs && w.runs[id].kind == Away && w.runs[id].run.pc == 3 && AwayNow !in w.runs[id].run.vars
    ensures TailResult(w, Table(Table(Table(Table(w, Advance(id, false)), Advance(id, a)),
                                      Advance(id, b)), Advance(id, c)),
                       id, false, false, false)
  {
    var w1 := Put(w, id, Away, 6, w.runs[id].run.vars, w.cell, []);
    assert Table(w, Advance(id, false)) == w1;
    TailFromClear(w1, id, a, b, c);
  }

  lemma TailAfterReading(w: World, id: RunId, b: bool, c: bool)
    requires id in w.runs && w.runs[id].kind == Away && w.runs[id].run.pc == 3 && AwayNow !in w.runs[id].run.vars
    requires w.runs[id].run.since + AWAY_WAIT <= w.clock
    ensures TailResult(w, Table(Table(Table(Table(w, Advance(id, true)), Advance(id, false)),
                                      Advance(id, b)), Advance(id, c)),
                       id, false, false, false)
  {
    var w1 := Put(w, id, Away, 4, w.runs[id].run.vars, w.cell, []);
    assert Table(w, Advance(id, true)) == w1;
    var w2 := Put(w1, id, Away, 6, w.runs[id].run.vars, w.cell, []);
    assert Table(w1, Advance(id, false)) == w2;
    TailFromClear(w2, id, b, c, c);
  }

  /** A run at its clear step without its token just ends. */
  lemma TailFromClear(w: World, id: RunId, a: bool, b: bool, c: bool)
    requires id in w.runs && w.runs[id].kind == Away && w.runs[id].run.pc == 6 && !Owns(w.runs[id].run.vars, id)
    ensures var v := Table(w, Advance(id, a));
            && v == Put(w, id, Away, 7, w.runs[id].run.vars, w.cell, [])
            && Table(v, Advance(id, b)) == v && Table(Table(v, Advance(id, b)), Advance(id, c)) == v
  {
  }

  lemma TailFromRead(w: World, id: RunId, offOk: bool, clearOk: bool)
    requires id in w.runs && w.runs[id].kind == Away && w.runs[id].run.pc == 3 && AwayNow !in w.runs[id].run.vars
    requires w.runs[id].run.since + AWAY_WAIT <= w.clock
    ensures var own := w.cell == Some(IdOf(id));
            TailResult(w, Table(Table(Table(Table(w, Advance(id, true)), Advance(id, true)), Advance(id, offOk)),
                                Advance(id, clearOk)), id, own, true, own && clearOk)
  {
    var w1 := Put(w, id, Away, 4, w.runs[id].run.vars, w.cell, []);
    var vars := Bind(w.runs[id].run.vars, AwayNow, w.cell);
    assert Owns(vars, id) <==> w.cell == Some(IdOf(id));
    assert Table(w, Advance(id, true)) == w1;
    var w2 := Put(w1, id, Away, 5, vars, w.cell, [Read(id, w.cell, w.clock)]);
    assert Table(w1, Advance(id, true)) == w2;
    TailFromOff(w2, id, offOk, clearOk);
  }

  lemma TailFromOff(w: World, id: RunId, offOk: bool, clearOk: bool)
    requires id in w.runs && w.runs[id].kind == Away && w.runs[id].run.pc == 5
    ensures var own := Owns(w.runs[id].run.vars, id);
            TailResult(w, Table(Table(w, Advance(id, offOk)), Advance(id, clearOk)), id, own, false, own && clearOk)
  {
  }
}
