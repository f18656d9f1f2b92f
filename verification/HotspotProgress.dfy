/** What the hotspot flows do get done, under the full interleaving. */
module HotspotProgress {
  import opened Prelude
  import opened FlowLang
  import opened HotspotFlows
  import opened HotspotWorld
  import opened HotspotSafety
  import opened HotspotGuarantees

  // ---- A run that keeps its token turns the hotspot off ----

  ghost predicate ReadBy(tr: seq<Entry>, j: int, id: RunId)
  {
    0 <= j < |tr| && tr[j].Read? && tr[j].who == id
  }

  /** Run `id` armed at `i` and read the cell at `j`, later. */
  ghost predicate ReReads(tr: seq<Entry>, i: int, j: int, id: RunId)
  {
    ArmAt(tr, i, id) && ReadBy(tr, j, id) && i < j
  }

  /** Every read shows the last value written before it. */
  ghost predicate ReadsAreTrue(tr: seq<Entry>)
  {
    forall j :: 0 <= j < |tr| && tr[j].Read? ==> tr[j].seen == CellOf(tr[..j])
  }

  /** A run makes no read between its arm and its re-read, acts on the re-read, and keeps what it read. */
  ghost predicate ActsInv(w: World, id: RunId)
    requires id in w.runs
  {
    var r := w.runs[id].run;
    w.runs[id].kind == Away ==>
      && (r.pc <= 4 ==> forall i, j :: !ReReads(w.trace, i, j, id))
      && (r.pc >= 5 ==> forall i, j :: ReReads(w.trace, i, j, id) && w.trace[j].seen == Some(IdOf(id)) ==>
                          Owns(r.vars, id))
      && (r.pc >= 6 && Owns(r.vars, id) ==> exists k :: OffAt(w.trace, k, id))
  }

  lemma ReadsSnoc(tr: seq<Entry>, e: Entry)
    requires ReadsAreTrue(tr) && (e.Read? ==> e.seen == CellOf(tr))
    ensures ReadsAreTrue(tr + [e])
    ensures forall j, id :: 0 <= j < |tr| ==> (ReadBy(tr + [e], j, id) <==> ReadBy(tr, j, id))
  {
    var t := tr + [e];
    forall j | 0 <= j < |t| && t[j].Read? ensures t[j].seen == CellOf(t[..j]) {
      assert t[..j] == tr[..j];
      assert tr[..|tr|] == tr;
    }
  }

  lemma ReadsStep(w: World, e: Event)
    requires Inv(w) && ReadsAreTrue(w.trace)
    ensures ReadsAreTrue(Do(w, e).trace)
  {
    InterpreterIsTable(w, e);
    var v := Do(w, e);
    if |v.trace| > |w.trace| {
      assert v.trace == w.trace + [v.trace[|w.trace|]];
      ReadsSnoc(w.trace, v.trace[|w.trace|]);
    } else {
      assert v.trace == w.trace;
    }
  }

  /** Appending an entry makes a re-read only if it is a read by a run that armed before. */
  lemma ReReadsSnoc(tr: seq<Entry>, e: Entry, id: RunId)
    ensures forall i, j :: 0 <= j < |tr| ==> (ReReads(tr + [e], i, j, id) <==> ReReads(tr, i, j, id))
    ensures forall i :: ReReads(tr + [e], i, |tr|, id) <==> ArmAt(tr, i, id) && e.Read? && e.who == id
  {
    var t := tr + [e];
    forall i | 0 <= i < |tr| ensures ArmAt(t, i, id) <==> ArmAt(tr, i, id) {}
    forall j | 0 <= j < |tr| ensures ReadBy(t, j, id) <==> ReadBy(tr, j, id) {}
  }

  lemma ActsOther(w: World, v: World, id: RunId, other: RunId)
    requires OwnStep(w, v, id) && other in w.runs && other != id && ActsInv(w, other)
    ensures ActsInv(v, other)
  {
    if v.trace != w.trace {
      var e := v.trace[|w.trace|];
      assert v.trace == w.trace + [e];
      ReReadsSnoc(w.trace, e, other);
      forall k | OffAt(w.trace, k, other) ensures OffAt(v.trace, k, other) {}
    }
  }

  lemma ActsSilent(w: World, id: RunId, ok: bool)
    requires id in w.runs && w.runs[id].kind == Away && RunInv(w, id) && ActsInv(w, id)
    requires AwayStep(w, id, ok).trace == w.trace
    ensures ActsInv(AwayStep(w, id, ok), id)
  {
  }

  lemma ActsEarly(w: World, id: RunId)
    requires id in w.runs && w.runs[id].kind == Away && RunInv(w, id) && w.runs[id].run.pc in {0, 2}
    ensures ActsInv(AwayStep(w, id, true), id)
  {
    var v := AwayStep(w, id, true);
    ReReadsSnoc(w.trace, v.trace[|w.trace|], id);
    assert v.trace == w.trace + [v.trace[|w.trace|]];
  }

  lemma ActsReRead(w: World, id: RunId)
    requires id in w.runs && w.runs[id].kind == Away && ActsInv(w, id) && w.runs[id].run.pc == 4
    ensures ActsInv(AwayStep(w, id, true), id)
  {
    ReReadsSnoc(w.trace, Read(id, w.cell, w.clock), id);
  }

  lemma ActsLate(w: World, id: RunId, ok: bool)
    requires id in w.runs && w.runs[id].kind == Away && ActsInv(w, id) && w.runs[id].run.pc in {5, 6}
    requires AwayStep(w, id, ok).trace != w.trace
    ensures ActsInv(AwayStep(w, id, ok), id)
  {
    var v := AwayStep(w, id, ok);
    var e := v.trace[|w.trace|];
    assert v.trace == w.trace + [e];
    ReReadsSnoc(w.trace, e, id);
    if w.runs[id].run.pc == 5 {
      assert OffAt(v.trace, |w.trace|, id);
    } else {
      var k :| OffAt(w.trace, k, id);
      assert OffAt(v.trace, k, id);
    }
  }

  lemma ActsStep(w: World, e: Event, id: RunId)
    requires Inv(w) && (id in w.runs ==> ActsInv(w, id)) && id in Do(w, e).runs
    ensures ActsInv(Do(w, e), id)
  {
    InterpreterIsTable(w, e);
    if id !in w.runs {
      forall i ensures !ArmAt(w.trace, i, id) {}
    } else if e.Advance? && e.id in w.runs {
      assert RunInv(w, id);
      StepIsOwn(w, e.id, e.ok);
      if e.id != id {
        ActsOther(w, Do(w, e), e.id, id);
      } else if w.runs[id].kind == Away {
        var pc := w.runs[id].run.pc;
        if AwayStep(w, id, e.ok).trace == w.trace {
          ActsSilent(w, id, e.ok);
        } else if pc in {0, 2} {
          ActsEarly(w, id);
        } else if pc == 4 {
          ActsReRead(w, id);
        } else {
          ActsLate(w, id, e.ok);
        }
      }
    }
  }

  lemma {:induction false} ActsRun(w: World, es: seq<Event>, id: RunId)
    requires Inv(w) && ReadsAreTrue(w.trace) && (id in w.runs ==> ActsInv(w, id))
    ensures ReadsAreTrue(RunAll(w, es).trace)
    ensures id in RunAll(w, es).runs ==> ActsInv(RunAll(w, es), id)
    decreases |es|
  {
    if es != [] {
      StepKeeps(w, es[0]);
      ReadsStep(w, es[0]);
      if id in Do(w, es[0]).runs { ActsStep(w, es[0], id); }
      ActsRun(Do(w, es[0]), es[1..], id);
    }
  }

  /** The run re-read the cell after its arm, and nobody wrote in between. */
  ghost predicate UntouchedReRead(tr: seq<Entry>, i: int, j: int, id: RunId)
  {
    ReReads(tr, i, j, id) && NoWriteBetween(tr, i, j)
  }

  lemma UntouchedShowsToken(tr: seq<Entry>, i: int, j: int, id: RunId)
    requires ReadsAreTrue(tr) && UntouchedReRead(tr, i, j, id)
    ensures tr[j].seen == Some(IdOf(id))
  {
    var before := tr[..j];
    assert before[i] == tr[i];
    assert forall m :: i < m < j ==> !before[m].Wrote?;
    assert LastWrite(before) == i;
  }

  /**
   * A run past its off step has turned the hotspot off (once, by OffAtMostOnce) exactly if it got to re-read
   * the cell with its token untouched since it armed.
   */
  lemma OffIssuedIff(es: seq<Event>, id: RunId)
    requires var w := RunAll(INITIAL, es);
             id in w.runs && w.runs[id].kind == Away && 6 <= w.runs[id].run.pc
    ensures var tr := RunAll(INITIAL, es).trace;
            (exists k :: OffAt(tr, k, id)) <==> (exists i, j :: UntouchedReRead(tr, i, j, id))
  {
    Reachable(es);
    ActsRun(INITIAL, es, id);
    var w := RunAll(INITIAL, es);
    var tr := w.trace;
    if k :| OffAt(tr, k, id) {
      var i, j := OffIsEarned(es, k, id);
      assert UntouchedReRead(tr, i, j, id);
    }
    if i, j :| UntouchedReRead(tr, i, j, id) {
      UntouchedShowsToken(tr, i, j, id);
      assert Owns(w.runs[id].run.vars, id);
    }
  }

  // ---- A cancel makes room for the next away run ----

  /** Between `w` and `v` nobody armed. */
  ghost predicate NobodyArmed(w: World, v: World)
  {
    forall k :: |w.trace| <= k < |v.trace| && v.trace[k].Wrote? ==> v.trace[k].value == Blank
  }

  lemma {:induction false} TraceGrows(w: World, es: seq<Event>)
    ensures w.trace <= RunAll(w, es).trace
    decreases |es|
  {
    if es != [] {
      InterpreterIsTable(w, es[0]);
      TraceGrows(Do(w, es[0]), es[1..]);
    }
  }

  /** A cell without a token stays without one as long as nobody arms, whatever else happens. */
  lemma StaysUnarmed(w: World, es: seq<Event>)
    requires Inv(w) && !Armed(w.cell) && NobodyArmed(w, RunAll(w, es))
    ensures Inv(RunAll(w, es)) && !Armed(RunAll(w, es).cell)
  {
    RunKeeps(w, es);
    TraceGrows(w, es);
    var v := RunAll(w, es);
    var k := LastWrite(v.trace);
    if 0 <= k < |w.trace| {
      assert LastWrite(w.trace) == k;
    }
  }

  /** The schedule does not touch run `id`. */
  ghost predicate LeavesAlone(es: seq<Event>, id: RunId)
  {
    forall e :: e in es ==> !(e.Advance? && e.id == id)
  }

  lemma {:induction false} UntouchedRun(w: World, es: seq<Event>, id: RunId)
    requires id in w.runs && LeavesAlone(es, id)
    ensures id in RunAll(w, es).runs && RunAll(w, es).runs[id] == w.runs[id]
    decreases |es|
  {
    if es != [] {
      assert es[0] in es;
      UntouchedRun(Do(w, es[0]), es[1..], id);
    }
  }

  /** From its read of a cell without a token on, an away run arms, whatever others do between its steps. */
  lemma UnarmedReadArms(w: World, gap1: seq<Event>, gap2: seq<Event>, away: RunId, skipOk: bool)
    requires away in w.runs && w.runs[away].kind == Away && w.runs[away].run.pc == 0
    requires !Armed(w.cell) && Pending !in w.runs[away].run.vars
    requires LeavesAlone(gap1, away) && LeavesAlone(gap2, away)
    ensures var read := RunAll(Do(w, Advance(away, true)), gap1);
            var skipped := RunAll(Do(read, Advance(away, skipOk)), gap2);
            var v := Do(skipped, Advance(away, true));
            && v.cell == Some(IdOf(away)) && away in v.runs
            && v.runs[away].kind == Away && v.runs[away].run.pc == 3 && v.runs[away].run.since == skipped.clock
            && v.trace == skipped.trace + [Wrote(away, IdOf(away), skipped.clock)]
  {
    InterpreterIsTable(w, Advance(away, true));
    UntouchedRun(Do(w, Advance(away, true)), gap1, away);
    var read := RunAll(Do(w, Advance(away, true)), gap1);
    InterpreterIsTable(read, Advance(away, skipOk));
    UntouchedRun(Do(read, Advance(away, skipOk)), gap2, away);
    var skipped := RunAll(Do(read, Advance(away, skipOk)), gap2);
    assert skipped.runs[away].run.pc == 2;
    InterpreterIsTable(skipped, Advance(away, true));
  }

  /**
   * From every reachable world, jammed or not, a presence_inside whose cancel takes effect leaves the cell
   * without a token for as long as nobody arms, whatever other runs do meanwhile; and the next presence_far
   * run that reads the cell in that time arms a fresh wait, whatever other runs do between its steps.
   */
  lemma InsideRestoresArming(before: seq<Event>, inside: RunId, meanwhile: seq<Event>, away: RunId,
                             gap1: seq<Event>, gap2: seq<Event>, skipOk: bool)
    requires var w := RunAll(INITIAL, before);
             inside in w.runs && w.runs[inside].kind == Inside && w.runs[inside].run.pc == 0
    requires var cancelled := Do(RunAll(INITIAL, before), Advance(inside, true));
             var w := RunAll(cancelled, meanwhile);
             && NobodyArmed(cancelled, w)
             && away in w.runs && w.runs[away].kind == Away && w.runs[away].run.pc == 0
    requires LeavesAlone(gap1, away) && LeavesAlone(gap2, away)
    ensures var w := RunAll(Do(RunAll(INITIAL, before), Advance(inside, true)), meanwhile);
            var read := RunAll(Do(w, Advance(away, true)), gap1);
            var skipped := RunAll(Do(read, Advance(away, skipOk)), gap2);
            var v := Do(skipped, Advance(away, true));
            && !Armed(w.cell)
            && v.cell == Some(IdOf(away)) && away in v.runs
            && v.runs[away].kind == Away && v.runs[away].run.pc == 3 && v.runs[away].run.since == skipped.clock
  {
    Reachable(before);
    var w0 := RunAll(INITIAL, before);
    var cancelled := Do(w0, Advance(inside, true));
    var w := RunAll(cancelled, meanwhile);
    InterpreterIsTable(w0, Advance(inside, true));
    StepKeeps(w0, Advance(inside, true));
    StaysUnarmed(cancelled, meanwhile);
    FreshVars(before, Advance(inside, true), meanwhile, away);
    UnarmedReadArms(w, gap1, gap2, away, skipOk);
  }

  /** A run at its first step has read nothing. */
  lemma FreshVars(before: seq<Event>, e: Event, after: seq<Event>, away: RunId)
    requires var w := RunAll(Do(RunAll(INITIAL, before), e), after);
             away in w.runs && w.runs[away].kind == Away && w.runs[away].run.pc == 0
    ensures RunAll(Do(RunAll(INITIAL, before), e), after).runs[away].run.vars == map[]
  {
    var es := [e] + after;
    assert es[1..] == after;
    RunAllConcat(INITIAL, before, es);
    assert RunAll(RunAll(INITIAL, before), es) == RunAll(Do(RunAll(INITIAL, before), e), after);
    PendingRun(INITIAL, before + es);
    assert PendingInv(RunAll(INITIAL, before + es), away);
  }
}
