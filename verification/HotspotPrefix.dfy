/** The promises that need the read-skip-arm prefix of an away run to happen in one go. */
module HotspotPrefix {
  import opened Prelude
  import opened FlowLang
  import opened HotspotFlows
  import opened HotspotWorld
  import opened HotspotSafety
  import opened HotspotGuarantees

  /** Read, skip, arm by a new away run, with no other run in between; nothing if the id is taken. */
  function Prefix(w: World, id: RunId, readOk: bool, armOk: bool): World
  {
    if id in w.runs then w
    else RunAll(Do(w, Start(id, Away)), [Advance(id, readOk), Advance(id, true), Advance(id, armOk), Tick(0)])
  }

  lemma PrefixShape(w: World, id: RunId, readOk: bool, armOk: bool)
    requires id !in w.runs
    ensures var v := Prefix(w, id, readOk, armOk);
            var armed := readOk && armOk && !Armed(w.cell);
            && id in v.runs && v.runs == w.runs[id := v.runs[id]] && v.clock == w.clock
            && v.runs[id].kind == Away && v.runs[id].run.since == w.clock && AwayNow !in v.runs[id].run.vars
            && v.runs[id].run.pc == (if armed then 3 else 7)
            && v.cell == (if armed then Some(IdOf(id)) else w.cell)
            && v.trace == w.trace + (if readOk then [Read(id, w.cell, w.clock)] else [])
                          + (if armed then [Wrote(id, IdOf(id), w.clock)] else [])
  {
    InterpreterIsTable(w, Start(id, Away));
    var w0 := Table(w, Start(id, Away));
    RunFour(w0, Advance(id, readOk), Advance(id, true), Advance(id, armOk), Tick(0));
    var w1 := Table(w0, Advance(id, readOk));
    var w2 := Table(w1, Advance(id, true));
    var w3 := Table(w2, Advance(id, armOk));
    var vars := Bind(map[], Pending, w.cell);
    if !readOk {
      assert w1 == Put(w0, id, Away, 7, map[], w.cell, []);
      assert w2 == w1 && w3 == w1;
    } else {
      assert w1 == Put(w0, id, Away, 1, vars, w.cell, [Read(id, w.cell, w.clock)]);
      assert w2 == Put(w1, id, Away, if Armed(w.cell) then 7 else 2, vars, w.cell, []);
    }
    assert w3.runs == w.runs[id := w3.runs[id]];
  }

  // ---- Atomic prefix, everything else interleaved ----

  /** A turn is an atomic prefix of a new away run, or one event of the full interleaving. */
  datatype Turn = Leave(id: RunId, readOk: bool, armOk: bool) | Single(e: Event)

  function Take(w: World, t: Turn): World
  {
    match t
    case Leave(id, readOk, armOk) => Prefix(w, id, readOk, armOk)
    case Single(e) => Do(w, e)
  }

  function TakeAll(w: World, ts: seq<Turn>): World
    decreases |ts|
  {
    if ts == [] then w else TakeAll(Take(w, ts[0]), ts[1..])
  }

  /** Away runs start by atomic prefixes only. */
  predicate Disciplined(t: Turn)
  {
    t.Single? ==> !(t.e.Start? && t.e.kind == Away)
  }

  ghost predicate TokenWriteAt(tr: seq<Entry>, i: int)
  {
    0 <= i < |tr| && tr[i].Wrote? && tr[i].value.IdOf?
  }

  ghost predicate BlankWriteAt(tr: seq<Entry>, i: int)
  {
    0 <= i < |tr| && tr[i].Wrote? && tr[i].value == Blank
  }

  ghost predicate Separated(tr: seq<Entry>)
  {
    forall i, j :: TokenWriteAt(tr, i) && TokenWriteAt(tr, j) && i < j ==>
      exists k :: i < k < j && BlankWriteAt(tr, k)
  }

  ghost predicate PrefixInv(w: World)
  {
    && w.cell == CellOf(w.trace)
    && Separated(w.trace)
    && forall id :: id in w.runs && w.runs[id].kind == Away ==> 3 <= w.runs[id].run.pc
  }

  lemma SeparatedSnoc(tr: seq<Entry>, e: Entry)
    requires Separated(tr)
    requires TokenWriteAt([e], 0) ==> !Armed(CellOf(tr))
    ensures Separated(tr + [e])
  {
    var t := tr + [e];
    forall i, j | TokenWriteAt(t, i) && TokenWriteAt(t, j) && i < j
      ensures exists k :: i < k < j && BlankWriteAt(t, k)
    {
      assert TokenWriteAt(tr, i);
      if j < |tr| {
        assert TokenWriteAt(tr, j);
        var k :| i < k < j && BlankWriteAt(tr, k);
        assert BlankWriteAt(t, k);
      } else {
        assert [e][0] == t[j];
        var k := LastWrite(tr);
        assert i <= k && BlankWriteAt(t, k);
      }
    }
  }

  lemma LeaveKeepsPrefixInv(w: World, id: RunId, readOk: bool, armOk: bool)
    requires PrefixInv(w) && id !in w.runs
    ensures PrefixInv(Prefix(w, id, readOk, armOk))
  {
    PrefixShape(w, id, readOk, armOk);
    var v := Prefix(w, id, readOk, armOk);
    var read, arm := Read(id, w.cell, w.clock), Wrote(id, IdOf(id), w.clock);
    if readOk {
      Snoc(w.trace, read);
      SeparatedSnoc(w.trace, read);
      if armOk && !Armed(w.cell) {
        Snoc(w.trace + [read], arm);
        SeparatedSnoc(w.trace + [read], arm);
      } else {
        assert v.trace == w.trace + [read];
      }
    } else {
      assert v.trace == w.trace;
    }
  }

  /** A single event adds at most one entry, and never arms when every away run is past its prefix. */
  lemma SingleShape(w: World, e: Event)
    requires !(e.Start? && e.kind == Away)
    requires forall id :: id in w.runs && w.runs[id].kind == Away ==> 3 <= w.runs[id].run.pc
    ensures var v := Do(w, e);
            && (forall id :: id in v.runs && v.runs[id].kind == Away ==> 3 <= v.runs[id].run.pc)
            && ((v.trace == w.trace && v.cell == w.cell)
                || (|v.trace| == |w.trace| + 1 && v.trace == w.trace + [v.trace[|w.trace|]]
                    && (if v.trace[|w.trace|].Wrote?
                        then v.trace[|w.trace|].value == Blank && v.cell == Some(Blank)
                        else v.cell == w.cell)))
  {
    InterpreterIsTable(w, e);
  }

  lemma TurnKeepsPrefixInv(w: World, t: Turn)
    requires PrefixInv(w) && Disciplined(t)
    ensures PrefixInv(Take(w, t))
  {
    var v := Take(w, t);
    if t.Leave? {
      if t.id !in w.runs { LeaveKeepsPrefixInv(w, t.id, t.readOk, t.armOk); }
    } else if v != w {
      SingleShape(w, t.e);
      if v.trace != w.trace {
        Snoc(w.trace, v.trace[|w.trace|]);
        SeparatedSnoc(w.trace, v.trace[|w.trace|]);
      }
    }
  }

  lemma {:induction false} TurnsKeepPrefixInv(w: World, ts: seq<Turn>)
    requires PrefixInv(w) && forall t :: t in ts ==> Disciplined(t)
    ensures PrefixInv(TakeAll(w, ts))
    decreases |ts|
  {
    if ts != [] {
      assert Disciplined(ts[0]);
      TurnKeepsPrefixInv(w, ts[0]);
      TurnsKeepPrefixInv(Take(w, ts[0]), ts[1..]);
    }
  }

  /** With atomic prefixes, a write of the empty token lies between any two arms, whatever fails. */
  lemma ArmsAreSeparated(ts: seq<Turn>, i: nat, j: nat) returns (k: nat)
    requires forall t :: t in ts ==> Disciplined(t)
    requires var tr := TakeAll(INITIAL, ts).trace;
             TokenWriteAt(tr, i) && TokenWriteAt(tr, j) && i < j
    ensures i < k < j && BlankWriteAt(TakeAll(INITIAL, ts).trace, k)
  {
    TurnsKeepPrefixInv(INITIAL, ts);
    k :| i < k < j && BlankWriteAt(TakeAll(INITIAL, ts).trace, k);
  }

  // ---- A further presence_far in a pending window ----

  function Outside(ids: set<RunId>): Entry -> bool
  {
    (e: Entry) => e.who !in ids
  }

  function IsCommand(): Entry -> bool
  {
    (e: Entry) => e.Issued?
  }

  predicate Mentions(e: Event, ids: set<RunId>)
  {
    !e.Tick? && e.id in ids
  }

  /** `v` is `w` plus finished away runs with ids in `extra` that did nothing but read. */
  ghost predicate SameBut(w: World, v: World, extra: set<RunId>)
  {
    && v.cell == w.cell && v.clock == w.clock && w.runs.Keys !! extra
    && (forall id :: id in w.runs ==> id in v.runs && v.runs[id] == w.runs[id])
    && (forall id :: id in v.runs ==> id in w.runs || id in extra)
    && Filter(v.trace, Outside(extra)) == w.trace
    && (forall k :: 0 <= k < |v.trace| && v.trace[k].who in extra ==> v.trace[k].Read?)
  }

  /** The same run takes the same step in both worlds: same outcome, same entry. */
  lemma SameMove(w: World, v: World, id: RunId, ok: bool)
    requires id in w.runs && id in v.runs && v.runs[id] == w.runs[id] && v.cell == w.cell && v.clock == w.clock
    ensures var w', v' := Do(w, Advance(id, ok)), Do(v, Advance(id, ok));
            && OwnStep(w, w', id) && OwnStep(v, v', id)
            && v'.cell == w'.cell && v'.runs[id] == w'.runs[id]
            && w'.trace[|w.trace|..] == v'.trace[|v.trace|..]
  {
    InterpreterIsTable(w, Advance(id, ok));
    InterpreterIsTable(v, Advance(id, ok));
    StepIsOwn(w, id, ok);
    StepIsOwn(v, id, ok);
    SameStep(w, v, id, ok);
  }

  lemma SameStep(w: World, v: World, id: RunId, ok: bool)
    requires id in w.runs && id in v.runs && v.runs[id] == w.runs[id] && v.cell == w.cell && v.clock == w.clock
    ensures var w', v' := Do(w, Advance(id, ok)), Do(v, Advance(id, ok));
            && v'.cell == w'.cell && id in w'.runs && id in v'.runs && v'.runs[id] == w'.runs[id]
            && exists out :: w'.trace == w.trace + out && v'.trace == v.trace + out
  {
    var kind := w.runs[id].kind;
    if Enabled(w, Advance(id, ok)) {
      var x := Exec(Program(kind), id, w.runs[id].run, w.cell, w.clock, ok);
      assert Do(w, Advance(id, ok)).trace == w.trace + x.out;
      assert Do(v, Advance(id, ok)).trace == v.trace + x.out;
    } else {
      assert Do(w, Advance(id, ok)).trace == w.trace + [] && Do(v, Advance(id, ok)).trace == v.trace + [];
    }
  }

  lemma SameButExtended(w: World, v: World, w': World, v': World, id: RunId, extra: set<RunId>)
    requires SameBut(w, v, extra) && id in w.runs
    requires OwnStep(w, w', id) && OwnStep(v, v', id) && v'.cell == w'.cell && v'.runs[id] == w'.runs[id]
    requires w'.trace[|w.trace|..] == v'.trace[|v.trace|..]
    ensures SameBut(w', v', extra)
  {
    if w'.trace != w.trace {
      var x := w'.trace[|w.trace|];
      assert w'.trace[|w.trace|..] == [x] && v'.trace[|v.trace|..] == [x];
      assert w'.trace == w.trace + [x] && v'.trace == v.trace + [x];
      FilterSnoc(v.trace, x, Outside(extra));
    } else {
      assert v'.trace == v.trace;
    }
  }

  lemma SameButStep(w: World, v: World, e: Event, extra: set<RunId>)
    requires SameBut(w, v, extra) && !Mentions(e, extra)
    ensures SameBut(Do(w, e), Do(v, e), extra)
  {
    if e.Advance? && e.id in w.runs {
      SameMove(w, v, e.id, e.ok);
      SameButExtended(w, v, Do(w, e), Do(v, e), e.id, extra);
    } else {
      InterpreterIsTable(w, e);
      InterpreterIsTable(v, e);
    }
  }

  lemma {:induction false} SameButRun(w: World, v: World, es: seq<Event>, extra: set<RunId>)
    requires SameBut(w, v, extra) && forall e :: e in es ==> !Mentions(e, extra)
    ensures SameBut(RunAll(w, es), RunAll(v, es), extra)
    decreases |es|
  {
    if es != [] {
      SameButStep(w, v, es[0], extra);
      SameButRun(Do(w, es[0]), Do(v, es[0]), es[1..], extra);
    }
  }

  /** A leave that finds a token ends at once; it adds a finished run and at most a read. */
  lemma ExtraLeave(w: World, v: World, t: Turn, extra: set<RunId>)
    requires SameBut(w, v, extra) && Armed(v.cell) && t.Leave? && t.id in extra
    ensures SameBut(w, Take(v, t), extra)
  {
    if t.id !in v.runs {
      PrefixShape(v, t.id, t.readOk, t.armOk);
      var x := Read(t.id, v.cell, v.clock);
      FilterSnoc(v.trace, x, Outside(extra));
      assert Take(v, t).trace == if t.readOk then v.trace + [x] else v.trace;
    }
  }

  /** The turns that are not leaves of the runs `extra`. */
  function Without(ts: seq<Turn>, extra: set<RunId>): seq<Turn>
  {
    if ts == [] then []
    else if ts[0].Leave? && ts[0].id in extra then Without(ts[1..], extra)
    else [ts[0]] + Without(ts[1..], extra)
  }

  /** Along this execution the runs `extra` only come in by leaves, each while a token is armed. */
  ghost predicate OnlyWhileArmed(v: World, ts: seq<Turn>, extra: set<RunId>)
    decreases |ts|
  {
    ts != [] ==>
    && (ts[0].Leave? && ts[0].id in extra ==> Armed(v.cell))
    && (ts[0].Single? ==> !Mentions(ts[0].e, extra))
    && OnlyWhileArmed(Take(v, ts[0]), ts[1..], extra)
  }

  lemma SameButTurn(w: World, v: World, t: Turn, extra: set<RunId>)
    requires SameBut(w, v, extra)
    requires if t.Leave? then t.id !in extra else !Mentions(t.e, extra)
    ensures SameBut(Take(w, t), Take(v, t), extra)
  {
    if t.Single? {
      SameButStep(w, v, t.e, extra);
    } else {
      var steps := [Advance(t.id, t.readOk), Advance(t.id, true), Advance(t.id, t.armOk), Tick(0)];
      SameButStep(w, v, Start(t.id, Away), extra);
      SameButRun(Do(w, Start(t.id, Away)), Do(v, Start(t.id, Away)), steps, extra);
    }
  }

  lemma {:induction false} ExtraLeavesLeaveSame(w: World, v: World, ts: seq<Turn>, extra: set<RunId>)
    requires SameBut(w, v, extra) && OnlyWhileArmed(v, ts, extra)
    ensures SameBut(TakeAll(w, Without(ts, extra)), TakeAll(v, ts), extra)
    decreases |ts|
  {
    if ts != [] {
      var t, rest := ts[0], Without(ts[1..], extra);
      if t.Leave? && t.id in extra {
        ExtraLeave(w, v, t, extra);
        ExtraLeavesLeaveSame(w, Take(v, t), ts[1..], extra);
      } else {
        SameButTurn(w, v, t, extra);
        ExtraLeavesLeaveSame(Take(w, t), Take(v, t), ts[1..], extra);
        assert ([t] + rest)[0] == t && ([t] + rest)[1..] == rest;
      }
    }
  }

  lemma {:induction false} FilterFilter(tr: seq<Entry>, extra: set<RunId>)
    requires forall k :: 0 <= k < |tr| && tr[k].who in extra ==> tr[k].Read?
    ensures Filter(Filter(tr, Outside(extra)), IsCommand()) == Filter(tr, IsCommand())
  {
    if tr != [] {
      FilterFilter(tr[1..], extra);
      assert tr[0] in tr;
    }
  }

  /**
   * Take any execution, with any number of presence_far runs `extra` scattered over it, each starting while
   * a token is armed. Leaving them all out changes nothing: not the token, not any other run (so not the
   * deadline), not the sequence of tether commands. Everything else interleaves and fails freely.
   */
  lemma FurtherLeavesChangeNothing(ts: seq<Turn>, extra: set<RunId>)
    requires OnlyWhileArmed(INITIAL, ts, extra)
    ensures var w, v := TakeAll(INITIAL, Without(ts, extra)), TakeAll(INITIAL, ts);
            && v.cell == w.cell && v.clock == w.clock
            && (forall id :: id in w.runs ==> id in v.runs && v.runs[id] == w.runs[id])
            && (forall id :: id in v.runs ==> id in w.runs || id in extra)
            && Filter(v.trace, Outside(extra)) == w.trace
            && Filter(v.trace, IsCommand()) == Filter(w.trace, IsCommand())
  {
    ExtraLeavesLeaveSame(INITIAL, INITIAL, ts, extra);
    FilterFilter(TakeAll(INITIAL, ts).trace, extra);
  }
}
