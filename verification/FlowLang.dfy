/**
 * Automagic flows as data, and what one step of one run of a flow does.
 *
 * The engine that executes flows is a separate program, so its meaning is taken from what the flow
 * builders say about it (app/src/automagicsetup.cpp:89-93, 140-141, 383-384, 427-428): a step whose
 * `if` is false, or which fails, continues at `goto_alt`; an omitted target falls through; reading a
 * state that is missing leaves the variable unset, and a comparison with an unset variable is false;
 * `_run_id` is unique to a run and never empty.
 */
module FlowLang {
  import opened Prelude

  type RunId = nat

  /** What a run variable or the shared state cell can hold: the empty text or the id of a run. */
  datatype Text = Blank | IdOf(run: RunId)

  datatype Var = Pending | AwayNow | OwnRunId

  datatype Cond =
    | Exists(v: Var)
    | Differs(v: Var, text: Text)
    | Same(left: Var, right: Var)

  /** `goto` / `goto_alt`: omitted, "end", or the id of a step. */
  datatype Target = Next | End | To(id: string)

  datatype Op =
    | Act(action: string)
    | SetStatic(value: Text)
    | SetTemplate(v: Var)
    | Get(v: Var)
    | Branch
    | Wait(duration: nat)

  datatype Step = Step(id: string, op: Op, conditions: seq<Cond>, go: Target, alt: Target)

  type Flow = seq<Step>

  // ---- Control: where a run goes next ----

  /** Index of the first step with this id, or the length of the flow (the end) when there is none. */
  function Find(flow: Flow, id: string): (k: nat)
    ensures k <= |flow|
    ensures k < |flow| ==> flow[k].id == id
    ensures forall j :: 0 <= j < k ==> flow[j].id != id
  {
    if flow == [] then 0
    else if flow[0].id == id then 0
    else 1 + Find(flow[1..], id)
  }

  function Land(flow: Flow, pc: nat, target: Target): (k: nat)
    requires pc < |flow|
    ensures k <= |flow|
  {
    match target
    case Next => pc + 1
    case End => |flow|
    case To(id) => Find(flow, id)
  }

  function NextPc(flow: Flow, pc: nat, good: bool): nat
    requires pc < |flow|
  {
    Land(flow, pc, if good then flow[pc].go else flow[pc].alt)
  }

  /** Every jump of the flow, taken or not, goes to a later step or to the end. */
  ghost predicate Forward(flow: Flow)
  {
    forall pc, good :: 0 <= pc < |flow| ==> pc < NextPc(flow, pc, good)
  }

  // ---- Data: what a step reads, writes and issues ----

  /** One run: its position, its own variables, and when it arrived at its position. */
  datatype Run = Run(pc: nat, vars: map<Var, Text>, since: nat)

  /** What an observer of the state cell and of the system bus sees. */
  datatype Entry =
    | Read(who: RunId, seen: Option<Text>, at: nat)
    | Wrote(who: RunId, value: Text, at: nat)
    | Issued(who: RunId, action: string, at: nat)

  datatype Effect = Effect(run: Run, cell: Option<Text>, out: seq<Entry>)

  function ValueOf(me: RunId, vars: map<Var, Text>, v: Var): Option<Text>
  {
    if v == OwnRunId then Some(IdOf(me))
    else if v in vars then Some(vars[v]) else None
  }

  predicate Holds(me: RunId, vars: map<Var, Text>, c: Cond)
  {
    match c
    case Exists(v) => ValueOf(me, vars, v).Some?
    case Differs(v, t) => ValueOf(me, vars, v).Some? && ValueOf(me, vars, v).value != t
    case Same(l, r) => ValueOf(me, vars, l).Some? && ValueOf(me, vars, l) == ValueOf(me, vars, r)
  }

  predicate AllHold(me: RunId, vars: map<Var, Text>, cs: seq<Cond>)
  {
    forall k :: 0 <= k < |cs| ==> Holds(me, vars, cs[k])
  }

  /** A run can take its next step unless it has ended, or would complete a wait that is not due yet. */
  predicate Ready(flow: Flow, run: Run, clock: nat, ok: bool)
  {
    && run.pc < |flow|
    && (flow[run.pc].op.Wait? && ok ==> run.since + flow[run.pc].op.duration <= clock)
  }

  /**
   * One step. `ok` is whether the step's own operation succeeds; a branch has no operation that could
   * fail. A failed state write changes nothing; an action counts as issued even when its call fails.
   */
  function Exec(flow: Flow, me: RunId, run: Run, cell: Option<Text>, clock: nat, ok: bool): Effect
    requires run.pc < |flow|
  {
    var step := flow[run.pc];
    var holds := AllHold(me, run.vars, step.conditions);
    var there := NextPc(flow, run.pc, holds && (ok || step.op.Branch?));
    var moved := Run(there, run.vars, clock);
    if !holds then Effect(moved, cell, [])
    else match step.op
      case Act(action) => Effect(moved, cell, [Issued(me, action, clock)])
      case SetStatic(value) =>
        if ok then Effect(moved, Some(value), [Wrote(me, value, clock)]) else Effect(moved, cell, [])
      case SetTemplate(v) =>
        var value := if ValueOf(me, run.vars, v).Some? then ValueOf(me, run.vars, v).value else Blank;
        if ok then Effect(moved, Some(value), [Wrote(me, value, clock)]) else Effect(moved, cell, [])
      case Get(v) =>
        if !ok then Effect(moved, cell, [])
        else Effect(if cell.Some? then moved.(vars := run.vars[v := cell.value]) else moved,
                    cell, [Read(me, cell, clock)])
      case Branch => Effect(moved, cell, [])
      case Wait(_) => Effect(moved, cell, [])
  }

  // ---- A run on its own ----

  /** What one step finds around it: the cell, the clock, and whether its own operation succeeds. */
  datatype Surroundings = Surroundings(cell: Option<Text>, clock: nat, ok: bool)

  /** The interpreter iterated on one run, whatever each of its steps finds around it. */
  function Interpret(flow: Flow, me: RunId, run: Run, found: seq<Surroundings>): Run
    decreases |found|
  {
    if found == [] || |flow| <= run.pc then run
    else Interpret(flow, me, Exec(flow, me, run, found[0].cell, found[0].clock, found[0].ok).run, found[1..])
  }

  lemma ExecAdvances(flow: Flow, me: RunId, run: Run, cell: Option<Text>, clock: nat, ok: bool)
    requires Forward(flow) && run.pc < |flow|
    ensures run.pc < Exec(flow, me, run, cell, clock, ok).run.pc <= |flow|
  {
    var there := Exec(flow, me, run, cell, clock, ok).run.pc;
    assert there == NextPc(flow, run.pc, true) || there == NextPc(flow, run.pc, false);
  }

  /** A forward flow ends within as many steps as it has, whatever succeeds, fails or is read on the way. */
  lemma {:induction false} ForwardFlowHalts(flow: Flow, me: RunId, run: Run, found: seq<Surroundings>)
    requires Forward(flow) && run.pc <= |flow|
    requires |flow| - run.pc <= |found|
    ensures Interpret(flow, me, run, found).pc == |flow|
    decreases |found|
  {
    if run.pc < |flow| {
      ExecAdvances(flow, me, run, found[0].cell, found[0].clock, found[0].ok);
      ForwardFlowHalts(flow, me, Exec(flow, me, run, found[0].cell, found[0].clock, found[0].ok).run, found[1..]);
    }
  }
}
