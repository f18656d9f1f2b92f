/**
 * The coarse granularity: whole inside runs, whole away prefixes and whole away tails happen in one go.
 * With reads, writes and waits succeeding, the flows refine a two-state controller.
 */
module HotspotController {
  import opened Prelude
  import opened FlowLang
  import opened HotspotFlows
  import opened HotspotWorld
  import opened HotspotSafety
  import opened HotspotGuarantees
  import opened HotspotPrefix

  // ---- The controller ----

  datatype Control = Idle | Waiting(deadline: nat)

  datatype Command = Command(action: string, at: nat)

  datatype Controller = Controller(state: Control, clock: nat, commands: seq<Command>)

  datatype Input = CarEntered | WalkedAway | Expired | Passed(seconds: nat)

  function React(c: Controller, i: Input): Controller
  {
    match i
    case CarEntered => c.(state := Idle, commands := c.commands + [Command(HOTSPOT_ON, c.clock)])
    case WalkedAway => if c.state == Idle then c.(state := Waiting(c.clock + 180)) else c
    case Expired =>
      if c.state.Waiting? && c.state.deadline <= c.clock
      then c.(state := Idle, commands := c.commands + [Command(HOTSPOT_OFF, c.clock)])
      else c
    case Passed(s) => c.(clock := c.clock + s)
  }

  function ReactAll(c: Controller, inputs: seq<Input>): Controller
    decreases |inputs|
  {
    if inputs == [] then c else ReactAll(React(c, inputs[0]), inputs[1..])
  }

  // ---- Moves of the flows ----

  datatype Move =
    | Enter(id: RunId, cancelOk: bool, onOk: bool)
    | Walk(id: RunId, readOk: bool, armOk: bool)
    | Wake(id: RunId, waitOk: bool, readOk: bool, offOk: bool, clearOk: bool)
    | Pass(seconds: nat)

  predicate CanWake(w: World, id: RunId, waitOk: bool)
  {
    && id in w.runs && w.runs[id].kind == Away && w.runs[id].run.pc == 3
    && (waitOk ==> w.runs[id].run.since + AWAY_WAIT <= w.clock)
  }

  function Make(w: World, m: Move): World
  {
    match m
    case Enter(id, cancelOk, onOk) =>
      if id in w.runs then w
      else RunAll(w, [Start(id, Inside), Advance(id, cancelOk), Advance(id, onOk), Tick(0)])
    case Walk(id, readOk, armOk) => Prefix(w, id, readOk, armOk)
    case Wake(id, waitOk, readOk, offOk, clearOk) =>
      if CanWake(w, id, waitOk) then RunAll(w, Tail(id, waitOk, readOk, offOk, clearOk)) else w
    case Pass(s) => Do(w, Tick(s))
  }

  function MakeAll(w: World, ms: seq<Move>): World
    decreases |ms|
  {
    if ms == [] then w else MakeAll(Make(w, ms[0]), ms[1..])
  }

  /** Moves are events: every world the moves reach, the full interleaving reaches too. */
  lemma {:induction false} MovesAreEvents(w: World, ms: seq<Move>) returns (es: seq<Event>)
    ensures MakeAll(w, ms) == RunAll(w, es)
    decreases |ms|
  {
    if ms == [] {
      es := [];
    } else {
      var first := [];
      match ms[0] {
        case Enter(id, cancelOk, onOk) =>
          if id !in w.runs { first := [Start(id, Inside), Advance(id, cancelOk), Advance(id, onOk), Tick(0)]; }
        case Walk(id, readOk, armOk) =>
          if id !in w.runs {
            first := [Start(id, Away), Advance(id, readOk), Advance(id, true), Advance(id, armOk), Tick(0)];
            assert first[1..] == [Advance(id, readOk), Advance(id, true), Advance(id, armOk), Tick(0)];
          }
        case Wake(id, waitOk, readOk, offOk, clearOk) =>
          if CanWake(w, id, waitOk) { first := Tail(id, waitOk, readOk, offOk, clearOk); }
        case Pass(s) =>
          first := [Tick(s)];
          assert RunAll(w, first) == RunAll(Do(w, Tick(s)), []);
      }
      assert Make(w, ms[0]) == RunAll(w, first);
      var rest := MovesAreEvents(Make(w, ms[0]), ms[1..]);
      es := first + rest;
      RunAllConcat(w, first, rest);
    }
  }

  lemma EnterShape(w: World, id: RunId, cancelOk: bool, onOk: bool)
    requires id !in w.runs
    ensures var v := Make(w, Enter(id, cancelOk, onOk));
            && id in v.runs && v.runs == w.runs[id := v.runs[id]] && v.clock == w.clock
            && v.runs[id].kind == Inside && v.runs[id].run.pc == 2
            && v.cell == (if cancelOk then Some(Blank) else w.cell)
            && v.trace == w.trace + (if cancelOk then [Wrote(id, Blank, w.clock)] else [])
                          + [Issued(id, HOTSPOT_ON, w.clock)]
  {
    RunFour(w, Start(id, Inside), Advance(id, cancelOk), Advance(id, onOk), Tick(0));
    var w1 := Table(w, Start(id, Inside));
    var w2 := Table(w1, Advance(id, cancelOk));
    var w3 := Table(w2, Advance(id, onOk));
    assert w2.runs[id].run.pc == 1;
    assert w3.runs == w.runs[id := w3.runs[id]];
  }

  // ---- Between moves every run sleeps or has ended ----

  ghost predicate Settled(w: World)
  {
    forall id :: id in w.runs ==> AtRest(w.runs[id])
  }

  predicate AtRest(l: Live)
  {
    if l.kind == Inside then l.run.pc == 2 else l.run.pc == 7 || (l.run.pc == 3 && AwayNow !in l.run.vars)
  }

  lemma SettledWith(w: World, v: World, id: RunId)
    requires Settled(w) && id in v.runs && v.runs == w.runs[id := v.runs[id]] && AtRest(v.runs[id])
    ensures Settled(v)
  {
  }

  lemma MoveSettles(w: World, m: Move)
    requires Settled(w)
    ensures Settled(Make(w, m))
  {
    match m {
      case Enter(id, cancelOk, onOk) =>
        if id !in w.runs { EnterShape(w, id, cancelOk, onOk); SettledWith(w, Make(w, m), id); }
      case Walk(id, readOk, armOk) =>
        if id !in w.runs { PrefixShape(w, id, readOk, armOk); SettledWith(w, Make(w, m), id); }
      case Wake(id, waitOk, readOk, offOk, clearOk) =>
        if CanWake(w, id, waitOk) {
          TailShape(w, id, waitOk, readOk, offOk, clearOk);
          SettledWith(w, Make(w, m), id);
        }
      case Pass(_) =>
    }
  }

  /** Between coarse moves every run sleeps or has ended, whatever failed. */
  lemma {:induction false} MovesSettle(w: World, ms: seq<Move>)
    requires Settled(w)
    ensures Settled(MakeAll(w, ms))
    decreases |ms|
  {
    if ms != [] {
      MoveSettles(w, ms[0]);
      MovesSettle(Make(w, ms[0]), ms[1..]);
    }
  }

  // ---- Refinement ----

  /** Every state read, state write and wait succeeds; the tether calls themselves may still fail. */
  predicate Healthy(m: Move)
  {
    match m
    case Enter(_, cancelOk, _) => cancelOk
    case Walk(_, readOk, armOk) => readOk && armOk
    case Wake(_, waitOk, readOk, _, clearOk) => waitOk && readOk && clearOk
    case Pass(_) => true
  }

  /** A token in the cell belongs to a run that is asleep. */
  predicate HolderSleeps(w: World)
  {
    Armed(w.cell) ==>
      w.cell.value.run in w.runs && w.runs[w.cell.value.run].kind == Away && w.runs[w.cell.value.run].run.pc == 3
  }

  function Commands(tr: seq<Entry>): seq<Command>
  {
    if tr == [] then []
    else Commands(tr[..|tr| - 1])
         + (if tr[|tr| - 1].Issued? then [Command(tr[|tr| - 1].action, tr[|tr| - 1].at)] else [])
  }

  lemma CommandsSnoc(tr: seq<Entry>, e: Entry)
    ensures Commands(tr + [e]) == Commands(tr) + (if e.Issued? then [Command(e.action, e.at)] else [])
  {
    assert (tr + [e])[..|tr|] == tr;
  }

  function Abstract(w: World): Controller
    requires HolderSleeps(w)
  {
    Controller(if Armed(w.cell) then Waiting(w.runs[w.cell.value.run].run.since + AWAY_WAIT) else Idle,
               w.clock, Commands(w.trace))
  }

  /** What a move means to the controller; waking a cancelled run, or too early, means nothing. */
  function Meaning(w: World, m: Move): seq<Input>
  {
    match m
    case Enter(id, _, _) => if id in w.runs then [] else [CarEntered]
    case Walk(id, _, _) => if id in w.runs then [] else [WalkedAway]
    case Wake(id, waitOk, _, _, _) =>
      if CanWake(w, id, waitOk) && w.cell == Some(IdOf(id)) then [Expired] else []
    case Pass(s) => [Passed(s)]
  }

  function MeaningAll(w: World, ms: seq<Move>): seq<Input>
    decreases |ms|
  {
    if ms == [] then [] else Meaning(w, ms[0]) + MeaningAll(Make(w, ms[0]), ms[1..])
  }

  lemma EnterRefines(w: World, m: Move)
    requires Settled(w) && HolderSleeps(w) && m.Enter? && Healthy(m)
    ensures HolderSleeps(Make(w, m)) && Abstract(Make(w, m)) == ReactAll(Abstract(w), Meaning(w, m))
  {
    if m.id !in w.runs {
      EnterShape(w, m.id, m.cancelOk, m.onOk);
      CommandsSnoc(w.trace, Wrote(m.id, Blank, w.clock));
      CommandsSnoc(w.trace + [Wrote(m.id, Blank, w.clock)], Issued(m.id, HOTSPOT_ON, w.clock));
      ReactOne(Abstract(w), CarEntered);
    }
  }

  lemma ReactOne(c: Controller, i: Input)
    ensures ReactAll(c, [i]) == React(c, i)
  {
    assert ReactAll(c, [i]) == ReactAll(React(c, i), []);
  }

  lemma WalkCommands(w: World, id: RunId)
    requires id !in w.runs
    ensures Commands(Prefix(w, id, true, true).trace) == Commands(w.trace)
  {
    PrefixShape(w, id, true, true);
    var read := Read(id, w.cell, w.clock);
    CommandsSnoc(w.trace, read);
    if Armed(w.cell) {
      assert Prefix(w, id, true, true).trace == w.trace + [read];
    } else {
      CommandsSnoc(w.trace + [read], Wrote(id, IdOf(id), w.clock));
    }
  }

  /** What a walk's outcome means to the controller, from its parts. */
  lemma WalkAbstracts(w: World, v: World, id: RunId)
    requires HolderSleeps(w) && id !in w.runs && id in v.runs && v.runs == w.runs[id := v.runs[id]]
    requires v.clock == w.clock && Commands(v.trace) == Commands(w.trace)
    requires v.runs[id].kind == Away && v.runs[id].run.since == w.clock
    requires if Armed(w.cell) then v.cell == w.cell else v.cell == Some(IdOf(id)) && v.runs[id].run.pc == 3
    ensures HolderSleeps(v) && Abstract(v) == React(Abstract(w), WalkedAway)
  {
  }

  lemma WalkRefines(w: World, m: Move)
    requires HolderSleeps(w) && m.Walk? && Healthy(m)
    ensures HolderSleeps(Make(w, m)) && Abstract(Make(w, m)) == ReactAll(Abstract(w), Meaning(w, m))
  {
    if m.id !in w.runs {
      var v := Prefix(w, m.id, true, true);
      WalkCommands(w, m.id);
      PrefixShape(w, m.id, true, true);
      WalkAbstracts(w, v, m.id);
      ReactOne(Abstract(w), WalkedAway);
    }
  }

  lemma TailCommands(tr: seq<Entry>, read: Entry, off: Entry, clear: Entry, own: bool)
    requires read.Read? && off.Issued? && clear.Wrote?
    ensures Commands(tr + [read] + (if own then [off] else []) + (if own then [clear] else [])) ==
            Commands(tr) + if own then [Command(off.action, off.at)] else []
  {
    CommandsSnoc(tr, read);
    if own {
      CommandsSnoc(tr + [read], off);
      CommandsSnoc(tr + [read] + [off], clear);
    } else {
      assert tr + [read] + [] + [] == tr + [read];
    }
  }

  lemma WakeCommands(w: World, id: RunId, offOk: bool)
    requires CanWake(w, id, true) && AwayNow !in w.runs[id].run.vars
    ensures Commands(RunAll(w, Tail(id, true, true, offOk, true)).trace) ==
            Commands(w.trace) + if w.cell == Some(IdOf(id)) then [Command(HOTSPOT_OFF, w.clock)] else []
  {
    TailShape(w, id, true, true, offOk, true);
    TailCommands(w.trace, Read(id, w.cell, w.clock), Issued(id, HOTSPOT_OFF, w.clock), Wrote(id, Blank, w.clock),
                 w.cell == Some(IdOf(id)));
  }

  lemma WakeAbstracts(w: World, v: World, id: RunId)
    requires HolderSleeps(w) && CanWake(w, id, true) && id in v.runs && v.runs == w.runs[id := v.runs[id]]
    requires v.clock == w.clock
    requires var own := w.cell == Some(IdOf(id));
             && v.cell == (if own then Some(Blank) else w.cell)
             && Commands(v.trace) == Commands(w.trace) + if own then [Command(HOTSPOT_OFF, w.clock)] else []
    ensures HolderSleeps(v)
    ensures Abstract(v) == if w.cell == Some(IdOf(id)) then React(Abstract(w), Expired) else Abstract(w)
  {
  }

  lemma WakeRefines(w: World, m: Move)
    requires Settled(w) && HolderSleeps(w) && m.Wake? && Healthy(m)
    ensures HolderSleeps(Make(w, m)) && Abstract(Make(w, m)) == ReactAll(Abstract(w), Meaning(w, m))
  {
    if CanWake(w, m.id, true) {
      assert AtRest(w.runs[m.id]);
      var v := RunAll(w, Tail(m.id, true, true, m.offOk, true));
      WakeCommands(w, m.id, m.offOk);
      TailShape(w, m.id, true, true, m.offOk, true);
      WakeAbstracts(w, v, m.id);
      ReactOne(Abstract(w), Expired);
    }
  }

  lemma MoveRefines(w: World, m: Move)
    requires Settled(w) && HolderSleeps(w) && Healthy(m)
    ensures HolderSleeps(Make(w, m)) && Abstract(Make(w, m)) == ReactAll(Abstract(w), Meaning(w, m))
  {
    match m {
      case Enter(_, _, _) => EnterRefines(w, m);
      case Walk(_, _, _) => WalkRefines(w, m);
      case Wake(_, _, _, _, _) => WakeRefines(w, m);
      case Pass(s) => ReactOne(Abstract(w), Passed(s));
    }
  }

  lemma {:induction false} ReactAllConcat(c: Controller, a: seq<Input>, b: seq<Input>)
    ensures ReactAll(c, a + b) == ReactAll(ReactAll(c, a), b)
    decreases |a|
  {
    if a == [] {
      assert a + b == b;
    } else {
      assert (a + b)[1..] == a[1..] + b;
      ReactAllConcat(React(c, a[0]), a[1..], b);
    }
  }

  lemma {:induction false} MovesRefine(w: World, ms: seq<Move>)
    requires Settled(w) && HolderSleeps(w) && forall m :: m in ms ==> Healthy(m)
    ensures HolderSleeps(MakeAll(w, ms))
    ensures Abstract(MakeAll(w, ms)) == ReactAll(Abstract(w), MeaningAll(w, ms))
    decreases |ms|
  {
    if ms != [] {
      assert Healthy(ms[0]);
      MoveRefines(w, ms[0]);
      MoveSettles(w, ms[0]);
      MovesRefine(Make(w, ms[0]), ms[1..]);
      ReactAllConcat(Abstract(w), Meaning(w, ms[0]), MeaningAll(Make(w, ms[0]), ms[1..]));
    }
  }

  /**
   * The two flows, over any number of live runs, are the two-state controller: same state and deadline,
   * and the same tether commands at the same times, after every run of healthy moves.
   */
  lemma FlowsRefineController(ms: seq<Move>)
    requires forall m :: m in ms ==> Healthy(m)
    ensures HolderSleeps(MakeAll(INITIAL, ms))
    ensures Abstract(MakeAll(INITIAL, ms)) == ReactAll(Controller(Idle, 0, []), MeaningAll(INITIAL, ms))
  {
    MovesRefine(INITIAL, ms);
  }

  /** Expiry is never lost: when the controller's deadline has passed, some sleeping run can act it out. */
  lemma ExpiryIsAlwaysPossible(ms: seq<Move>) returns (id: RunId)
    requires forall m :: m in ms ==> Healthy(m)
    requires var c := ReactAll(Controller(Idle, 0, []), MeaningAll(INITIAL, ms));
             c.state.Waiting? && c.state.deadline <= c.clock
    ensures Meaning(MakeAll(INITIAL, ms), Wake(id, true, true, true, true)) == [Expired]
  {
    FlowsRefineController(ms);
    id := MakeAll(INITIAL, ms).cell.value.run;
  }
}
