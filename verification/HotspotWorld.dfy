/**
 * Any number of live runs of the two hotspot flows around the one shared state cell.
 *
 * Two granularities. Events are the full interleaving: one step of one run at a time, with every step
 * free to fail. Moves are the coarse one: the prefix of an away run (read, skip, arm), its tail (wake,
 * re-read, off, clear) and a whole inside run each happen without another run in between.
 */
module HotspotWorld {
  import opened Prelude
  import opened FlowLang
  import opened HotspotFlows

  datatype Live = Live(kind: Kind, run: Run)

  datatype World = World(cell: Option<Text>, clock: nat, runs: map<RunId, Live>, trace: seq<Entry>)

  datatype Event =
    | Start(id: RunId, kind: Kind)
    | Advance(id: RunId, ok: bool)
    | Tick(seconds: nat)

  /** Nothing has run yet and the state has never been set. */
  const INITIAL := World(None, 0, map[], [])

  predicate Enabled(w: World, e: Event)
  {
    match e
    case Start(id, _) => id !in w.runs
    case Advance(id, ok) => id in w.runs && Ready(Program(w.runs[id].kind), w.runs[id].run, w.clock, ok)
    case Tick(_) => true
  }

  /** One event of the interleaving, by the flow interpreter; an event that is not enabled does nothing. */
  function Do(w: World, e: Event): World
  {
    if !Enabled(w, e) then w
    else match e
      case Start(id, kind) => w.(runs := w.runs[id := Live(kind, Run(0, map[], w.clock))])
      case Advance(id, ok) =>
        var live := w.runs[id];
        var x := Exec(Program(live.kind), id, live.run, w.cell, w.clock, ok);
        World(x.cell, w.clock, w.runs[id := Live(live.kind, x.run)], w.trace + x.out)
      case Tick(s) => w.(clock := w.clock + s)
  }

  function RunAll(w: World, es: seq<Event>): World
    decreases |es|
  {
    if es == [] then w else RunAll(Do(w, es[0]), es[1..])
  }

  lemma {:induction false} RunAllConcat(w: World, a: seq<Event>, b: seq<Event>)
    ensures RunAll(w, a + b) == RunAll(RunAll(w, a), b)
    decreases |a|
  {
    if a == [] {
      assert a + b == b;
    } else {
      assert (a + b)[1..] == a[1..] + b;
      RunAllConcat(Do(w, a[0]), a[1..], b);
    }
  }

  // ---- The same machine written out position by position ----

  predicate Armed(cell: Option<Text>)
  {
    cell.Some? && cell.value.IdOf?
  }

  predicate Owns(vars: map<Var, Text>, me: RunId)
  {
    AwayNow in vars && vars[AwayNow] == IdOf(me)
  }

  function Bind(vars: map<Var, Text>, v: Var, cell: Option<Text>): map<Var, Text>
  {
    if cell.Some? then vars[v := cell.value] else vars
  }

  function Put(w: World, id: RunId, kind: Kind, pc: nat, vars: map<Var, Text>,
               cell: Option<Text>, out: seq<Entry>): World
  {
    World(cell, w.clock, w.runs[id := Live(kind, Run(pc, vars, w.clock))], w.trace + out)
  }

  function AwayStep(w: World, id: RunId, ok: bool): World
    requires id in w.runs
  {
    var r := w.runs[id].run;
    if r.pc == 0 then
      if ok then Put(w, id, Away, 1, Bind(r.vars, Pending, w.cell), w.cell, [Read(id, w.cell, w.clock)])
      else Put(w, id, Away, 7, r.vars, w.cell, [])
    else if r.pc == 1 then
      Put(w, id, Away, if Pending in r.vars && r.vars[Pending] != Blank then 7 else 2, r.vars, w.cell, [])
    else if r.pc == 2 then
      if ok then Put(w, id, Away, 3, r.vars, Some(IdOf(id)), [Wrote(id, IdOf(id), w.clock)])
      else Put(w, id, Away, 7, r.vars, w.cell, [])
    else if r.pc == 3 then
      if !ok then Put(w, id, Away, 6, r.vars, w.cell, [])
      else if r.since + AWAY_WAIT <= w.clock then Put(w, id, Away, 4, r.vars, w.cell, [])
      else w
    else if r.pc == 4 then
      if ok then Put(w, id, Away, 5, Bind(r.vars, AwayNow, w.cell), w.cell, [Read(id, w.cell, w.clock)])
      else Put(w, id, Away, 6, r.vars, w.cell, [])
    else if r.pc == 5 then
      Put(w, id, Away, 6, r.vars, w.cell,
          if Owns(r.vars, id) then [Issued(id, HOTSPOT_OFF, w.clock)] else [])
    else if r.pc == 6 then
      if Owns(r.vars, id) && ok then Put(w, id, Away, 7, r.vars, Some(Blank), [Wrote(id, Blank, w.clock)])
      else Put(w, id, Away, 7, r.vars, w.cell, [])
    else w
  }

  function InsideStep(w: World, id: RunId, ok: bool): World
    requires id in w.runs
  {
    var r := w.runs[id].run;
    if r.pc == 0 then
      if ok then Put(w, id, Inside, 1, r.vars, Some(Blank), [Wrote(id, Blank, w.clock)])
      else Put(w, id, Inside, 1, r.vars, w.cell, [])
    else if r.pc == 1 then Put(w, id, Inside, 2, r.vars, w.cell, [Issued(id, HOTSPOT_ON, w.clock)])
    else w
  }

  function Table(w: World, e: Event): World
  {
    match e
    case Start(id, kind) =>
      if id in w.runs then w else w.(runs := w.runs[id := Live(kind, Run(0, map[], w.clock))])
    case Advance(id, ok) =>
      if id !in w.runs then w
      else if w.runs[id].kind == Away then AwayStep(w, id, ok)
      else InsideStep(w, id, ok)
    case Tick(s) => w.(clock := w.clock + s)
  }

  lemma GuardIsOwnership(me: RunId, vars: map<Var, Text>)
    ensures AllHold(me, vars, StillThisAwayRun()) <==> Owns(vars, me)
  {
    var own := StillThisAwayRun();
    assert AllHold(me, vars, own) <==> Holds(me, vars, own[0]);
  }

  lemma SkipIsArmed(me: RunId, vars: map<Var, Text>)
    ensures AllHold(me, vars, SkipIfAwayPending("").conditions) <==> Pending in vars && vars[Pending] != Blank
  {
    var cs := SkipIfAwayPending("").conditions;
    assert AllHold(me, vars, cs) <==> Holds(me, vars, cs[0]) && Holds(me, vars, cs[1]);
  }

  lemma EarlyAwayStep(w: World, id: RunId, ok: bool)
    requires id in w.runs && w.runs[id].kind == Away && w.runs[id].run.pc <= 2
    ensures Do(w, Advance(id, ok)) == AwayStep(w, id, ok)
  {
    AwayTargets();
    var r := w.runs[id].run;
    assert AllHold(id, r.vars, []);
    SkipIsArmed(id, r.vars);
    assert w.trace + [] == w.trace;
  }

  lemma LateAwayStep(w: World, id: RunId, ok: bool)
    requires id in w.runs && w.runs[id].kind == Away && 3 <= w.runs[id].run.pc
    ensures Do(w, Advance(id, ok)) == AwayStep(w, id, ok)
  {
    AwayTargets();
    var r := w.runs[id].run;
    assert AllHold(id, r.vars, []);
    GuardIsOwnership(id, r.vars);
    assert w.trace + [] == w.trace;
  }

  lemma InsideStepIsInterpreted(w: World, id: RunId, ok: bool)
    requires id in w.runs && w.runs[id].kind == Inside
    ensures Do(w, Advance(id, ok)) == InsideStep(w, id, ok)
  {
    InsideTargets();
    var r := w.runs[id].run;
    assert AllHold(id, r.vars, []);
    assert w.trace + [] == w.trace;
  }

  /** Interpreting the two step programs is exactly the hand-written table. */
  lemma InterpreterIsTable(w: World, e: Event)
    ensures Do(w, e) == Table(w, e)
  {
    if e.Advance? && e.id in w.runs {
      if w.runs[e.id].kind == Away {
        if w.runs[e.id].run.pc <= 2 { EarlyAwayStep(w, e.id, e.ok); } else { LateAwayStep(w, e.id, e.ok); }
      } else {
        InsideStepIsInterpreted(w, e.id, e.ok);
      }
    }
  }

  // ---- Every run ends ----

  /** How many steps run `id` really takes in a schedule. */
  function Moves(w: World, es: seq<Event>, id: RunId): nat
    decreases |es|
  {
    if es == [] then 0
    else (if es[0].Advance? && es[0].id == id && Enabled(w, es[0]) then 1 else 0) + Moves(Do(w, es[0]), es[1..], id)
  }

  lemma StepAdvances(w: World, id: RunId, ok: bool)
    requires Enabled(w, Advance(id, ok))
    ensures id in Do(w, Advance(id, ok)).runs && Do(w, Advance(id, ok)).runs[id].kind == w.runs[id].kind
    ensures w.runs[id].run.pc < Do(w, Advance(id, ok)).runs[id].run.pc <= |Program(w.runs[id].kind)|
  {
    match w.runs[id].kind {
      case Inside =>
        InsideFlowIsForward();
        ExecAdvances(InsideFlow(), id, w.runs[id].run, w.cell, w.clock, ok);
      case Away =>
        AwayFlowIsForward();
        ExecAdvances(AwayFlow(), id, w.runs[id].run, w.cell, w.clock, ok);
    }
  }

  /**
   * Full interleaving: in every world and schedule a run of either flow, wherever it is, moves on with each
   * step it takes and never takes more than its flow has left; having taken that many it has ended. Only a
   * wait that is not due keeps it from taking a step (StepIsPossible).
   */
  lemma {:induction false} RunFinishes(w: World, es: seq<Event>, id: RunId)
    requires id in w.runs && w.runs[id].run.pc <= |Program(w.runs[id].kind)|
    ensures var v := RunAll(w, es);
            && id in v.runs && v.runs[id].kind == w.runs[id].kind
            && w.runs[id].run.pc + Moves(w, es, id) <= v.runs[id].run.pc <= |Program(w.runs[id].kind)|
    decreases |es|
  {
    if es != [] {
      if es[0].Advance? && es[0].id == id && Enabled(w, es[0]) {
        StepAdvances(w, id, es[0].ok);
      }
      RunFinishes(Do(w, es[0]), es[1..], id);
    }
  }

  /** A run that has not ended can take its next step, unless that completes a wait before it is due. */
  lemma StepIsPossible(w: World, id: RunId, ok: bool)
    requires id in w.runs && w.runs[id].run.pc < |Program(w.runs[id].kind)|
    ensures Enabled(w, Advance(id, ok)) <==>
            !(ok && w.runs[id].kind == Away && w.runs[id].run.pc == 3 && w.clock < w.runs[id].run.since + AWAY_WAIT)
  {
  }
}
