/** The step builders and the two flows that `AutomagicSetup::install` writes. */
module HotspotFlows {
  import opened FlowLang

  datatype Kind = Inside | Away

  /** "3m", in seconds. */
  const AWAY_WAIT: nat := 180

  const HOTSPOT_ON := "eel_hotspot_on"
  const HOTSPOT_OFF := "eel_hotspot_off"

  function ActionStep(id: string, action: string, conditions: seq<Cond>): Step
  {
    Step(id, Act(action), conditions, Next, End)
  }

  function StateStep(id: string, value: Op): Step
    requires value.SetStatic? || value.SetTemplate?
  {
    Step(id, value, [], Next, End)
  }

  function ReadAwayState(id: string, variable: Var): Step
  {
    Step(id, Get(variable), [], Next, End)
  }

  function SkipIfAwayPending(id: string): Step
  {
    Step(id, Branch, [Exists(Pending), Differs(Pending, Blank)], End, Next)
  }

  function WaitStep(id: string, duration: nat): Step
  {
    Step(id, Wait(duration), [], Next, End)
  }

  function StillThisAwayRun(): seq<Cond>
  {
    [Same(AwayNow, OwnRunId)]
  }

  function InsideFlow(): Flow
  {
    [ StateStep("eel_step_cancel_away", SetStatic(Blank)).(alt := To("eel_step_hotspot_on")),
      ActionStep("eel_step_hotspot_on", HOTSPOT_ON, []) ]
  }

  function AwayFlow(): Flow
  {
    [ ReadAwayState("eel_step_read_pending", Pending),
      SkipIfAwayPending("eel_step_away_already"),
      StateStep("eel_step_arm_away", SetTemplate(OwnRunId)),
      WaitStep("eel_step_wait_away", AWAY_WAIT).(alt := To("eel_step_clear_away")),
      ReadAwayState("eel_step_read_away", AwayNow).(alt := To("eel_step_clear_away")),
      ActionStep("eel_step_hotspot_off", HOTSPOT_OFF, StillThisAwayRun()).(alt := To("eel_step_clear_away")),
      StateStep("eel_step_clear_away", SetStatic(Blank)).(conditions := StillThisAwayRun()) ]
  }

  function Program(kind: Kind): Flow
  {
    match kind
    case Inside => InsideFlow()
    case Away => AwayFlow()
  }

  /** Where each step of the away flow leads, as positions. */
  function AwayNext(pc: nat, good: bool): nat
  {
    match pc
    case 0 => if good then 1 else 7
    case 1 => if good then 7 else 2
    case 2 => if good then 3 else 7
    case 3 => if good then 4 else 6
    case 4 => if good then 5 else 6
    case 5 => 6
    case _ => 7
  }

  lemma AwayTargets()
    ensures Find(AwayFlow(), "eel_step_clear_away") == 6
    ensures |AwayFlow()| == 7
    ensures forall pc, good :: 0 <= pc < 7 ==> NextPc(AwayFlow(), pc, good) == AwayNext(pc, good)
  {
    var f := AwayFlow();
    assert |f| == 7;
    assert f[6].id == "eel_step_clear_away";
    var k := Find(f, "eel_step_clear_away");
    assert forall j :: 0 <= j < 6 ==> |f[j].id| != |"eel_step_clear_away"|;
    assert k == 6;
    forall pc, good | 0 <= pc < 7
      ensures NextPc(f, pc, good) == AwayNext(pc, good)
    {
      if pc == 0 {} else if pc == 1 {} else if pc == 2 {} else if pc == 3 {}
      else if pc == 4 {} else if pc == 5 {} else {}
    }
  }

  lemma InsideTargets()
    ensures |InsideFlow()| == 2
    ensures forall pc, good :: 0 <= pc < 2 ==> NextPc(InsideFlow(), pc, good) == pc + 1
  {
    var f := InsideFlow();
    assert f[1].id == "eel_step_hotspot_on";
    assert |f[0].id| != |"eel_step_hotspot_on"|;
    assert Find(f, "eel_step_hotspot_on") == 1;
  }

  lemma ForwardByTable(f: Flow)
    requires |f| == 7 && forall pc, good :: 0 <= pc < 7 ==> NextPc(f, pc, good) == AwayNext(pc, good)
    ensures Forward(f)
  {
    forall pc, good | 0 <= pc < |f| ensures pc < NextPc(f, pc, good) {
      assert NextPc(f, pc, good) == AwayNext(pc, good);
    }
  }

  lemma AwayFlowIsForward()
    ensures Forward(AwayFlow())
  {
    AwayTargets();
    ForwardByTable(AwayFlow());
  }

  lemma InsideFlowIsForward()
    ensures Forward(InsideFlow())
  {
    InsideTargets();
    forall pc, good | 0 <= pc < |InsideFlow()| ensures pc < NextPc(InsideFlow(), pc, good) {
      assert NextPc(InsideFlow(), pc, good) == pc + 1;
    }
  }

  /** Both installed flows only jump forward, so every run of either ends within its number of steps. */
  lemma InstalledFlowsHalt(kind: Kind, me: RunId, run: Run, found: seq<Surroundings>)
    requires run.pc <= |Program(kind)| && |Program(kind)| - run.pc <= |found|
    ensures Interpret(Program(kind), me, run, found).pc == |Program(kind)|
  {
    match kind {
      case Inside =>
        InsideFlowIsForward();
        ForwardFlowHalts(InsideFlow(), me, run, found);
      case Away =>
        AwayFlowIsForward();
        ForwardFlowHalts(AwayFlow(), me, run, found);
    }
  }
}
