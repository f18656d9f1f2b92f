/** What holds under the full interleaving, with every step free to fail. */
module HotspotSafety {
  import opened Prelude
  import opened FlowLang
  import opened HotspotFlows
  import opened HotspotWorld

  // ---- Reading the trace ----

  /** Position of the last write to the cell, or -1. */
  function LastWrite(tr: seq<Entry>): (k: int)
    ensures -1 <= k < |tr|
    ensures k >= 0 ==> tr[k].Wrote?
    ensures forall m :: k < m < |tr| ==> !tr[m].Wrote?
  {
    if tr == [] then -1
    else if tr[|tr| - 1].Wrote? then |tr| - 1
    else LastWrite(tr[..|tr| - 1])
  }

  /** Position of the last read by run `id`, or -1. */
  function LastRead(tr: seq<Entry>, id: RunId): (k: int)
    ensures -1 <= k < |tr|
    ensures k >= 0 ==> tr[k].Read? && tr[k].who == id
    ensures forall m :: k < m < |tr| ==> !(tr[m].Read? && tr[m].who == id)
  {
    if tr == [] then -1
    else if tr[|tr| - 1].Read? && tr[|tr| - 1].who == id then |tr| - 1
    else LastRead(tr[..|tr| - 1], id)
  }

  function CellOf(tr: seq<Entry>): Option<Text>
  {
    if LastWrite(tr) < 0 then None else Some(tr[LastWrite(tr)].value)
  }

  ghost predicate ArmAt(tr: seq<Entry>, i: int, id: RunId)
  {
    0 <= i < |tr| && tr[i].Wrote? && tr[i].who == id && tr[i].value == IdOf(id)
  }

  ghost predicate OffAt(tr: seq<Entry>, k: int, id: RunId)
  {
    0 <= k < |tr| && tr[k].Issued? && tr[k].who == id && tr[k].action == HOTSPOT_OFF
  }

  ghost predicate NoWriteBetween(tr: seq<Entry>, i: int, j: int)
  {
    forall m :: 0 <= m < |tr| && i < m < j ==> !tr[m].Wrote?
  }

  /** At `j` run `id` read its own token, armed at least the away wait earlier and untouched since. */
  ghost predicate EarnedBy(tr: seq<Entry>, i: int, j: int, id: RunId)
  {
    && ArmAt(tr, i, id)
    && i < j < |tr|
    && tr[j] == Read(id, Some(IdOf(id)), tr[j].at)
    && tr[i].at + AWAY_WAIT <= tr[j].at
    && NoWriteBetween(tr, i, j)
  }

  ghost predicate Earned(tr: seq<Entry>, j: int, id: RunId)
  {
    exists i :: EarnedBy(tr, i, j, id)
  }

  lemma Snoc(tr: seq<Entry>, e: Entry)
    ensures LastWrite(tr + [e]) == if e.Wrote? then |tr| else LastWrite(tr)
    ensures CellOf(tr + [e]) == if e.Wrote? then Some(e.value) else CellOf(tr)
    ensures forall id :: LastRead(tr + [e], id) == if e.Read? && e.who == id then |tr| else LastRead(tr, id)
    ensures forall i, id :: 0 <= i < |tr| ==> (ArmAt(tr + [e], i, id) <==> ArmAt(tr, i, id))
    ensures forall i, id :: 0 <= i < |tr| ==> (OffAt(tr + [e], i, id) <==> OffAt(tr, i, id))
    ensures forall j, id :: Earned(tr, j, id) ==> Earned(tr + [e], j, id)
  {
    assert (tr + [e])[..|tr|] == tr;
    forall j, id | Earned(tr, j, id)
      ensures Earned(tr + [e], j, id)
    {
      var i :| EarnedBy(tr, i, j, id);
      assert EarnedBy(tr + [e], i, j, id);
    }
  }

  // ---- The invariant ----

  ghost predicate RunInv(w: World, id: RunId)
    requires id in w.runs
  {
    var r := w.runs[id].run;
    && r.since <= w.clock
    && (w.runs[id].kind == Away && r.pc <= 2 ==> forall i :: !ArmAt(w.trace, i, id))
    && (w.runs[id].kind == Away && r.pc == 3 ==> exists i :: ArmAt(w.trace, i, id) && w.trace[i].at == r.since)
    && (w.runs[id].kind == Away && r.pc == 4 ==>
          exists i :: ArmAt(w.trace, i, id) && w.trace[i].at + AWAY_WAIT <= r.since)
    && (w.runs[id].kind == Away && r.pc <= 4 ==> AwayNow !in r.vars)
    && (w.runs[id].kind == Inside ==> AwayNow !in r.vars)
    && (w.runs[id].kind == Away && r.pc <= 5 ==> forall k :: !OffAt(w.trace, k, id))
    && (Owns(r.vars, id) ==> Earned(w.trace, LastRead(w.trace, id), id))
  }

  ghost predicate Stamped(w: World)
  {
    && w.cell == CellOf(w.trace)
    && (forall k :: 0 <= k < |w.trace| ==> w.trace[k].at <= w.clock && w.trace[k].who in w.runs)
    && (forall i, k :: 0 <= i <= k < |w.trace| ==> w.trace[i].at <= w.trace[k].at)
  }

  /** Only run `id` writes the token `id`, and only once. */
  ghost predicate ArmsInv(w: World)
  {
    && (forall k :: 0 <= k < |w.trace| && w.trace[k].Wrote? && w.trace[k].value.IdOf? ==>
          w.trace[k].value == IdOf(w.trace[k].who))
    && (forall id, k :: ArmAt(w.trace, k, id) ==> id in w.runs && w.runs[id].kind == Away)
    && (forall id, i, k :: ArmAt(w.trace, i, id) && ArmAt(w.trace, k, id) ==> i == k)
  }

  ghost predicate EarnedBefore(tr: seq<Entry>, k: int, id: RunId)
  {
    exists j :: 0 <= j < k && Earned(tr, j, id)
  }

  ghost predicate OffsInv(w: World)
  {
    && (forall id, k :: OffAt(w.trace, k, id) ==>
          id in w.runs && w.runs[id].kind == Away && EarnedBefore(w.trace, k, id))
    && (forall id, i, k :: OffAt(w.trace, i, id) && OffAt(w.trace, k, id) ==> i == k)
  }

  ghost predicate TraceInv(w: World)
  {
    Stamped(w) && ArmsInv(w) && OffsInv(w)
  }

  ghost predicate Inv(w: World)
  {
    TraceInv(w) && forall id :: id in w.runs ==> RunInv(w, id)
  }

  /** What a step of run `id` can do: move only that run, add at most one entry, write no foreign token. */
  ghost predicate OwnStep(w: World, v: World, id: RunId)
  {
    && id in w.runs && id in v.runs && v.clock == w.clock
    && v.runs == w.runs[id := v.runs[id]] && v.runs[id].kind == w.runs[id].kind
    && (v.trace == w.trace
        || (|v.trace| == |w.trace| + 1 && v.trace[..|w.trace|] == w.trace && v.trace[|w.trace|].who == id
            && (v.trace[|w.trace|].Wrote? ==>
                  v.trace[|w.trace|].value == Blank || v.trace[|w.trace|].value == IdOf(id))))
    && v.cell == (if |v.trace| > |w.trace| && v.trace[|w.trace|].Wrote?
                  then Some(v.trace[|w.trace|].value) else w.cell)
  }

  lemma OthersKeep(w: World, v: World, id: RunId, other: RunId)
    requires Inv(w) && OwnStep(w, v, id) && other in w.runs && other != id
    ensures RunInv(v, other)
  {
    assert RunInv(w, other);
    if v.trace != w.trace {
      var e := v.trace[|w.trace|];
      assert v.trace == w.trace + [e];
      Snoc(w.trace, e);
      forall i ensures ArmAt(v.trace, i, other) <==> ArmAt(w.trace, i, other) {}
      forall k ensures OffAt(v.trace, k, other) <==> OffAt(w.trace, k, other) {}
      var r := w.runs[other].run;
      if w.runs[other].kind == Away && r.pc == 3 {
        var i :| ArmAt(w.trace, i, other) && w.trace[i].at == r.since;
        assert ArmAt(v.trace, i, other);
      }
      if w.runs[other].kind == Away && r.pc == 4 {
        var i :| ArmAt(w.trace, i, other) && w.trace[i].at + AWAY_WAIT <= r.since;
        assert ArmAt(v.trace, i, other);
      }
    }
  }

  lemma Assemble(w: World, v: World, id: RunId)
    requires Inv(w) && OwnStep(w, v, id) && TraceInv(v) && RunInv(v, id)
    ensures Inv(v)
  {
    forall other | other in v.runs && other != id
      ensures RunInv(v, other)
    {
      OthersKeep(w, v, id, other);
    }
  }

  lemma StepIsOwn(w: World, id: RunId, ok: bool)
    requires id in w.runs
    ensures w.runs[id].kind == Away ==> OwnStep(w, AwayStep(w, id, ok), id)
    ensures w.runs[id].kind == Inside ==> OwnStep(w, InsideStep(w, id, ok), id)
  {
  }

  /** Re-reading one's own token proves it was armed long enough ago and not touched since. */
  lemma ReReadEarns(w: World, id: RunId)
    requires Inv(w) && id in w.runs && w.runs[id].kind == Away && w.runs[id].run.pc == 4
    requires w.cell == Some(IdOf(id))
    ensures Earned(w.trace + [Read(id, w.cell, w.clock)], |w.trace|, id)
  {
    assert RunInv(w, id);
    var e := Read(id, w.cell, w.clock);
    Snoc(w.trace, e);
    var i :| ArmAt(w.trace, i, id) && w.trace[i].at + AWAY_WAIT <= w.runs[id].run.since;
    var k := LastWrite(w.trace);
    assert ArmAt(w.trace, k, id);
    assert i == k;
    assert EarnedBy(w.trace + [e], i, |w.trace|, id);
  }

  ghost predicate SameRuns(w: World, v: World)
  {
    w.runs.Keys == v.runs.Keys && forall x :: x in w.runs ==> v.runs[x].kind == w.runs[x].kind
  }

  lemma AppendKeepsArms(w: World, v: World, e: Entry)
    requires ArmsInv(w) && SameRuns(w, v) && v.trace == w.trace + [e] && e.who in w.runs
    requires e.Wrote? && e.value.IdOf? ==>
               e.value == IdOf(e.who) && w.runs[e.who].kind == Away && forall i :: !ArmAt(w.trace, i, e.who)
    ensures ArmsInv(v)
  {
    forall id, k | ArmAt(v.trace, k, id)
      ensures id in v.runs && v.runs[id].kind == Away && (k < |w.trace| ==> ArmAt(w.trace, k, id))
    {
      assert k < |w.trace| ==> ArmAt(w.trace, k, id);
    }
  }

  lemma AppendKeepsOffs(w: World, v: World, e: Entry)
    requires OffsInv(w) && SameRuns(w, v) && v.trace == w.trace + [e] && e.who in w.runs
    requires e.Issued? && e.action == HOTSPOT_OFF ==>
               && w.runs[e.who].kind == Away && (forall i :: !OffAt(w.trace, i, e.who))
               && EarnedBefore(w.trace, |w.trace|, e.who)
    ensures OffsInv(v)
  {
    Snoc(w.trace, e);
    forall id, k | OffAt(v.trace, k, id)
      ensures id in v.runs && v.runs[id].kind == Away && EarnedBefore(v.trace, k, id)
      ensures k < |w.trace| ==> OffAt(w.trace, k, id)
    {
      assert k < |w.trace| ==> OffAt(w.trace, k, id);
      assert EarnedBefore(w.trace, k, id);
      var j :| 0 <= j < k && Earned(w.trace, j, id);
      assert Earned(v.trace, j, id);
    }
  }

  /** Appending one entry keeps the trace facts, given what that entry needs. */
  lemma AppendKeeps(w: World, v: World, e: Entry)
    requires TraceInv(w) && SameRuns(w, v) && v.trace == w.trace + [e] && v.clock == w.clock
    requires e.who in w.runs && e.at == w.clock
    requires v.cell == if e.Wrote? then Some(e.value) else w.cell
    requires e.Wrote? && e.value.IdOf? ==>
               e.value == IdOf(e.who) && w.runs[e.who].kind == Away && forall i :: !ArmAt(w.trace, i, e.who)
    requires e.Issued? && e.action == HOTSPOT_OFF ==>
               && w.runs[e.who].kind == Away && (forall i :: !OffAt(w.trace, i, e.who))
               && EarnedBefore(w.trace, |w.trace|, e.who)
    ensures TraceInv(v)
  {
    AppendKeepsArms(w, v, e);
    AppendKeepsOffs(w, v, e);
    Snoc(w.trace, e);
  }

  lemma SilentKeeps(w: World, v: World)
    requires TraceInv(w) && SameRuns(w, v) && v.trace == w.trace && v.clock == w.clock && v.cell == w.cell
    ensures TraceInv(v)
  {
  }

  lemma SelfSilent(w: World, id: RunId, ok: bool)
    requires id in w.runs && w.runs[id].kind == Away && RunInv(w, id)
    requires AwayStep(w, id, ok).trace == w.trace
    ensures RunInv(AwayStep(w, id, ok), id)
  {
    if w.runs[id].run.pc == 3 {
      var i :| ArmAt(w.trace, i, id) && w.trace[i].at == w.runs[id].run.since;
      assert ArmAt(AwayStep(w, id, ok).trace, i, id);
    }
  }

  lemma SelfReads(w: World, id: RunId)
    requires Inv(w) && id in w.runs && w.runs[id].kind == Away && w.runs[id].run.pc in {0, 4}
    ensures RunInv(AwayStep(w, id, true), id)
  {
    assert RunInv(w, id);
    Snoc(w.trace, Read(id, w.cell, w.clock));
    if w.runs[id].run.pc == 4 && w.cell == Some(IdOf(id)) {
      ReReadEarns(w, id);
    }
  }

  lemma SelfArms(w: World, id: RunId)
    requires Inv(w) && id in w.runs && w.runs[id].kind == Away && w.runs[id].run.pc == 2
    ensures RunInv(AwayStep(w, id, true), id)
  {
    assert RunInv(w, id);
    Snoc(w.trace, Wrote(id, IdOf(id), w.clock));
    assert ArmAt(AwayStep(w, id, true).trace, |w.trace|, id);
  }

  lemma SelfEnds(w: World, id: RunId, ok: bool)
    requires Inv(w) && id in w.runs && w.runs[id].kind == Away && w.runs[id].run.pc in {5, 6}
    requires |AwayStep(w, id, ok).trace| > |w.trace|
    ensures RunInv(AwayStep(w, id, ok), id)
  {
    assert RunInv(w, id);
    Snoc(w.trace, AwayStep(w, id, ok).trace[|w.trace|]);
  }

  lemma AwaySelfKeeps(w: World, id: RunId, ok: bool)
    requires Inv(w) && id in w.runs && w.runs[id].kind == Away
    ensures RunInv(AwayStep(w, id, ok), id)
  {
    assert RunInv(w, id);
    var pc := w.runs[id].run.pc;
    if |AwayStep(w, id, ok).trace| == |w.trace| {
      assert AwayStep(w, id, ok).trace == w.trace;
      SelfSilent(w, id, ok);
    } else if pc == 2 {
      SelfArms(w, id);
    } else if pc in {0, 4} {
      SelfReads(w, id);
    } else {
      SelfEnds(w, id, ok);
    }
  }

  lemma AwayEntry(w: World, id: RunId, ok: bool)
    requires id in w.runs && w.runs[id].kind == Away && RunInv(w, id)
    requires |AwayStep(w, id, ok).trace| > |w.trace|
    ensures var v := AwayStep(w, id, ok);
            var e := v.trace[|w.trace|];
            && v.trace == w.trace + [e] && e.who == id && e.at == w.clock
            && v.cell == (if e.Wrote? then Some(e.value) else w.cell)
            && (e.Wrote? && e.value.IdOf? ==> e.value == IdOf(id) && forall i :: !ArmAt(w.trace, i, id))
            && (e.Issued? ==> Earned(w.trace, LastRead(w.trace, id), id) && forall i :: !OffAt(w.trace, i, id))
  {
  }

  lemma AwayTraceKeeps(w: World, id: RunId, ok: bool)
    requires Inv(w) && id in w.runs && w.runs[id].kind == Away
    ensures TraceInv(AwayStep(w, id, ok))
  {
    StepIsOwn(w, id, ok);
    if |AwayStep(w, id, ok).trace| > |w.trace| {
      AwayEntry(w, id, ok);
      AppendKeeps(w, AwayStep(w, id, ok), AwayStep(w, id, ok).trace[|w.trace|]);
    } else {
      SilentKeeps(w, AwayStep(w, id, ok));
    }
  }

  lemma AwayStepKeeps(w: World, id: RunId, ok: bool)
    requires Inv(w) && id in w.runs && w.runs[id].kind == Away
    ensures Inv(AwayStep(w, id, ok))
  {
    AwaySelfKeeps(w, id, ok);
    AwayTraceKeeps(w, id, ok);
    StepIsOwn(w, id, ok);
    Assemble(w, AwayStep(w, id, ok), id);
  }

  lemma InsideTraceKeeps(w: World, id: RunId, ok: bool)
    requires Inv(w) && id in w.runs && w.runs[id].kind == Inside
    ensures TraceInv(InsideStep(w, id, ok))
  {
    var v := InsideStep(w, id, ok);
    StepIsOwn(w, id, ok);
    if |v.trace| > |w.trace| {
      assert |HOTSPOT_ON| != |HOTSPOT_OFF|;
      AppendKeeps(w, v, v.trace[|w.trace|]);
    } else {
      SilentKeeps(w, v);
    }
  }

  lemma InsideSelfKeeps(w: World, id: RunId, ok: bool)
    requires Inv(w) && id in w.runs && w.runs[id].kind == Inside
    ensures RunInv(InsideStep(w, id, ok), id)
  {
    assert RunInv(w, id);
  }

  lemma InsideStepKeeps(w: World, id: RunId, ok: bool)
    requires Inv(w) && id in w.runs && w.runs[id].kind == Inside
    ensures Inv(InsideStep(w, id, ok))
  {
    InsideSelfKeeps(w, id, ok);
    InsideTraceKeeps(w, id, ok);
    StepIsOwn(w, id, ok);
    Assemble(w, InsideStep(w, id, ok), id);
  }

  lemma StartKeeps(w: World, id: RunId, kind: Kind)
    requires Inv(w) && id !in w.runs
    ensures Inv(Table(w, Start(id, kind)))
  {
    var v := Table(w, Start(id, kind));
    forall i ensures !ArmAt(v.trace, i, id) && !OffAt(v.trace, i, id) {}
    forall other | other in w.runs ensures RunInv(v, other) {
      assert RunInv(w, other);
    }
  }

  lemma TickKeeps(w: World, seconds: nat)
    requires Inv(w)
    ensures Inv(Table(w, Tick(seconds)))
  {
    var v := Table(w, Tick(seconds));
    forall other | other in w.runs ensures RunInv(v, other) {
      assert RunInv(w, other);
    }
  }

  lemma StepKeeps(w: World, e: Event)
    requires Inv(w)
    ensures Inv(Do(w, e))
  {
    InterpreterIsTable(w, e);
    match e {
      case Start(id, kind) => if id !in w.runs { StartKeeps(w, id, kind); }
      case Advance(id, ok) =>
        if id in w.runs {
          if w.runs[id].kind == Away { AwayStepKeeps(w, id, ok); } else { InsideStepKeeps(w, id, ok); }
        }
      case Tick(s) => TickKeeps(w, s);
    }
  }

  /** The invariant holds in every world the interleaving can reach. */
  lemma {:induction false} RunKeeps(w: World, es: seq<Event>)
    requires Inv(w)
    ensures Inv(RunAll(w, es))
    decreases |es|
  {
    if es != [] {
      StepKeeps(w, es[0]);
      RunKeeps(Do(w, es[0]), es[1..]);
    }
  }
}
