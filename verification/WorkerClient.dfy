/** The worker's signals as the client's inputs: what the client shows after any sequence of slots. */
module WorkerClient {
  import opened Prelude
  import opened TeslaClient
  import opened CoreWorker

  /** The client slot a worker signal is connected to, among those that touch the phone-key status. */
  function InputOf(x: Signal): seq<Input>
  {
    match x
    case PhoneKeyStarted(active, error) => [Started(active, error)]
    case PhoneKeyEmitted(event) => [Event(event)]
    case _ => []
  }

  /** What reaches the client, in the order of emission. */
  function Inputs(signals: seq<Signal>): seq<Input>
  {
    if signals == [] then [] else Inputs(signals[..|signals| - 1]) + InputOf(signals[|signals| - 1])
  }

  /** The client as it starts, after the signals a worker has emitted. */
  function Shown(s: State): View
  {
    OnInputs(View(false, ""), Inputs(s.signals))
  }

  // ---- What each slot reports ----

  function Events(queue: seq<PhoneKeyEvent>, clock: seq<string>, n: nat): (r: seq<Input>)
    requires n <= |queue|
    ensures |r| == n && forall k :: 0 <= k < n ==> r[k] == Event(Stamped(queue[k], clock, k))
  {
    seq(n, k requires 0 <= k < n => Event(Stamped(queue[k], clock, k)))
  }

  /**
   * A refresh reports the phone key's state: after creating the core, after a key or pairing call that
   * worked, after saving a configuration, after a resume. A failed resume reports it inactive. A poll
   * reports the events it delivers. Nothing else does, and nothing does without a core.
   */
  function Reports(s: State, slot: Slot): seq<Input>
  {
    match slot
    case Initialize(created, key) => if created then [Started(key.active, key.error)] else []
    case GenerateKey(rcOk, _, key) => if s.core.Some? && rcOk then [Started(key.active, key.error)] else []
    case Pair(rcOk, _, key) => if s.core.Some? && rcOk then [Started(key.active, key.error)] else []
    case SetConfig(rcOk, ok, key) => if s.core.Some? && rcOk && ok then [Started(key.active, key.error)] else []
    case HandleResume(rcOk, key) =>
      if s.core.None? then []
      else if rcOk then [Started(key.active, key.error)]
      else [Started(false, "Resume failed")]
    case PollEvents(queue, failsAfter, clock) =>
      if s.core.None? then [] else Events(queue, clock, Delivered(queue, failsAfter))
    case _ => []
  }

  lemma InputsSnoc(signals: seq<Signal>, x: Signal)
    ensures Inputs(signals + [x]) == Inputs(signals) + InputOf(x)
  {
    assert (signals + [x])[..|signals|] == signals;
  }

  /** A signal that is no input, and perhaps a refresh behind it. */
  lemma InputsOfAnswer(before: seq<Signal>, after: seq<Signal>, x: Signal, key: KeyState, refreshes: bool)
    requires InputOf(x) == []
    requires after == before + [x] + if refreshes then [PhoneKeyStarted(key.active, key.error)] else []
    ensures Inputs(after) == Inputs(before) + if refreshes then [Started(key.active, key.error)] else []
  {
    InputsSnoc(before, x);
    if refreshes {
      InputsSnoc(before + [x], PhoneKeyStarted(key.active, key.error));
      assert Inputs(before) + [] == Inputs(before);
    } else {
      assert after == before + [x];
    }
  }

  lemma MoreForwarded(before: seq<Signal>, queue: seq<PhoneKeyEvent>, clock: seq<string>, n: nat)
    requires 0 < n <= |queue|
    ensures before + Forwarded(queue, clock, n) ==
            before + Forwarded(queue, clock, n - 1) + [PhoneKeyEmitted(Stamped(queue[n - 1], clock, n - 1))]
    ensures Events(queue, clock, n) ==
            Events(queue, clock, n - 1) + [Event(Stamped(queue[n - 1], clock, n - 1))]
  {
  }

  lemma OneMoreEvent(before: seq<Signal>, signals: seq<Signal>, seen: seq<Input>, x: Signal, y: Input)
    requires InputOf(x) == [y] && Inputs(signals) == Inputs(before) + seen
    ensures Inputs(signals + [x]) == Inputs(before) + (seen + [y])
  {
    InputsSnoc(signals, x);
  }

  lemma {:induction false} PollInputs(before: seq<Signal>, queue: seq<PhoneKeyEvent>, clock: seq<string>, n: nat)
    requires n <= |queue|
    ensures Inputs(before + Forwarded(queue, clock, n)) == Inputs(before) + Events(queue, clock, n)
  {
    if n == 0 {
      assert before + Forwarded(queue, clock, 0) == before;
      assert Inputs(before) + Events(queue, clock, 0) == Inputs(before);
    } else {
      var e := Stamped(queue[n - 1], clock, n - 1);
      PollInputs(before, queue, clock, n - 1);
      MoreForwarded(before, queue, clock, n);
      OneMoreEvent(before, before + Forwarded(queue, clock, n - 1), Events(queue, clock, n - 1),
                   PhoneKeyEmitted(e), Event(e));
    }
  }

  lemma InitializeReports(s: State, created: bool, key: KeyState)
    ensures Inputs(Process(s, Initialize(created, key)).signals) ==
            Inputs(s.signals) + Reports(s, Initialize(created, key))
  {
    if created {
      InputsSnoc(s.signals, PhoneKeyStarted(key.active, key.error));
      InputsSnoc(s.signals + [PhoneKeyStarted(key.active, key.error)], Initialized(true));
    } else {
      InputsSnoc(s.signals, Initialized(false));
    }
  }

  lemma ResumeSignals(s: State, rcOk: bool, key: KeyState)
    ensures Process(s, HandleResume(rcOk, key)).signals ==
            if s.core.None? then s.signals
            else s.signals + [if rcOk then PhoneKeyStarted(key.active, key.error)
                              else PhoneKeyStarted(false, "Resume failed")]
  {
  }

  lemma ResumeReports(s: State, rcOk: bool, key: KeyState)
    ensures Inputs(Process(s, HandleResume(rcOk, key)).signals) ==
            Inputs(s.signals) + Reports(s, HandleResume(rcOk, key))
  {
    ResumeSignals(s, rcOk, key);
    if s.core.None? {
      assert Inputs(s.signals) + [] == Inputs(s.signals);
    } else if rcOk {
      InputsSnoc(s.signals, PhoneKeyStarted(key.active, key.error));
    } else {
      InputsSnoc(s.signals, PhoneKeyStarted(false, "Resume failed"));
    }
  }

  /** A key, pairing or configuration slot answers first and refreshes after. */
  lemma KeyWorkReports(s: State, slot: Slot)
    requires slot.GenerateKey? || slot.Pair? || slot.SetConfig?
    ensures Inputs(Process(s, slot).signals) == Inputs(s.signals) + Reports(s, slot)
  {
    var held := s.core.Some?;
    var good := held && slot.rcOk && slot.ok;
    var x := if slot.GenerateKey? then KeyGenerated(good) else if slot.Pair? then Paired(good) else ConfigSaved(good);
    InputsOfAnswer(s.signals, Process(s, slot).signals, x, slot.key,
                   if slot.SetConfig? then good else held && slot.rcOk);
  }

  lemma RequestReports(s: State, slot: Slot)
    requires slot.RunCommand? || slot.PreviewDestination? || slot.ShareDestination? || slot.RefreshConfig?
    ensures Inputs(Process(s, slot).signals) == Inputs(s.signals)
  {
    var held := s.core.Some?;
    var x := match slot {
      case RunCommand(id, rcOk, hardError) =>
        if held && rcOk && !hardError then CommandFinished(id) else CommandError(id)
      case PreviewDestination(id, rcOk, ok) => DestinationPreviewed(id, held && rcOk && ok)
      case ShareDestination(id, rcOk, ok) => ShareFinished(id, held && rcOk && ok)
      case _ => ConfigLoaded
    };
    assert Process(s, slot).signals == s.signals + [x];
    InputsSnoc(s.signals, x);
    assert InputOf(x) == [] && Inputs(s.signals) + [] == Inputs(s.signals);
  }

  lemma SlotReports(s: State, slot: Slot)
    ensures Inputs(Process(s, slot).signals) == Inputs(s.signals) + Reports(s, slot)
  {
    if slot.Initialize? {
      InitializeReports(s, slot.created, slot.key);
    } else if slot.HandleResume? {
      ResumeReports(s, slot.rcOk, slot.key);
    } else if slot.PollEvents? {
      PollInputs(s.signals, slot.queue, slot.clock, Delivered(slot.queue, slot.failsAfter));
    } else if slot.GenerateKey? || slot.Pair? || slot.SetConfig? {
      KeyWorkReports(s, slot);
    } else if !slot.Shutdown? && !slot.Destroy? {
      RequestReports(s, slot);
    }
  }

  // ---- Whole runs ----

  /** What slot `k` of a run reports. */
  function ReportAt(slots: seq<Slot>, k: nat): seq<Input>
    requires k < |slots|
  {
    Reports(ProcessAll(START, slots[..k]), slots[k])
  }

  function AllReports(slots: seq<Slot>): seq<Input>
  {
    if slots == [] then [] else AllReports(slots[..|slots| - 1]) + ReportAt(slots, |slots| - 1)
  }

  /** After any slots the client shows what their reports, in slot order, make of it. */
  lemma {:induction false} ClientFollowsWorker(slots: seq<Slot>)
    ensures Inputs(ProcessAll(START, slots).signals) == AllReports(slots)
    ensures Shown(ProcessAll(START, slots)) == OnInputs(View(false, ""), AllReports(slots))
  {
    if slots != [] {
      var n := |slots| - 1;
      ClientFollowsWorker(slots[..n]);
      SlotReports(ProcessAll(START, slots[..n]), slots[n]);
    }
  }

  lemma ReportOfPrefix(slots: seq<Slot>, n: nat, k: nat)
    requires k < n <= |slots|
    ensures ReportAt(slots[..n], k) == ReportAt(slots, k)
  {
    assert slots[..n][..k] == slots[..k];
  }

  lemma {:induction false} LaterSilence(slots: seq<Slot>, k: nat)
    requires k <= |slots|
    requires forall j :: k <= j < |slots| ==> ReportAt(slots, j) == []
    ensures AllReports(slots) == AllReports(slots[..k])
  {
    var n := |slots| - 1;
    if k == |slots| {
      assert slots[..k] == slots;
    } else {
      var init := slots[..n];
      forall j | k <= j < n ensures ReportAt(init, j) == [] {
        ReportOfPrefix(slots, n, j);
      }
      LaterSilence(init, k);
      assert init[..k] == slots[..k];
      assert AllReports(slots) == AllReports(init) + [];
    }
  }

  /**
   * The client shows the last report: if slot `k` reported a start result and no later slot reported
   * anything, the flag is the reported one and the text is the one that result stands for.
   */
  lemma ClientShowsLastReport(slots: seq<Slot>, k: nat, active: bool, error: string)
    requires k < |slots| && ReportAt(slots, k) == [Started(active, error)]
    requires forall j :: k < j < |slots| ==> ReportAt(slots, j) == []
    ensures Shown(ProcessAll(START, slots)).active == active
    ensures Shown(ProcessAll(START, slots)).status ==
            if active then "Phone key scanning" else if error == "" then "Phone key inactive" else error
  {
    ClientFollowsWorker(slots);
    LaterSilence(slots, k + 1);
    ReportsUpTo(slots, k);
    EndsInStart(AllReports(slots[..k + 1]), active, error);
  }

  lemma ReportsUpTo(slots: seq<Slot>, k: nat)
    requires k < |slots|
    ensures AllReports(slots[..k + 1]) == AllReports(slots[..k]) + ReportAt(slots, k)
  {
    ReportOfPrefix(slots, k + 1, k);
    assert slots[..k + 1][..k] == slots[..k];
  }

  lemma EndsInStart(inputs: seq<Input>, active: bool, error: string)
    requires inputs != [] && inputs[|inputs| - 1] == Started(active, error)
    ensures OnInputs(View(false, ""), inputs).active == active
    ensures OnInputs(View(false, ""), inputs).status ==
            if active then "Phone key scanning" else if error == "" then "Phone key inactive" else error
  {
    LastActiveWins(View(false, ""), inputs, |inputs| - 1);
    LastStatusWins(View(false, ""), inputs, |inputs| - 1);
  }

  // ---- Signal by signal ----

  predicate SignalsFlag(x: Signal)
  {
    x.PhoneKeyStarted? || (x.PhoneKeyEmitted? && CarriesFlag(Event(x.event)))
  }

  predicate SignalsText(x: Signal)
  {
    x.PhoneKeyStarted? || (x.PhoneKeyEmitted? && CarriesText(Event(x.event)))
  }

  /** Signal `i` reaches the client as this input. */
  predicate Brings(signals: seq<Signal>, i: int, x: Input)
  {
    0 <= i < |signals| && InputOf(signals[i]) == [x]
  }

  ghost predicate BroughtAfter(signals: seq<Signal>, k: int, x: Input)
  {
    exists i :: k < i && Brings(signals, i, x)
  }

  /** Where the input of a signal stands among the inputs; the later ones come from later signals. */
  lemma {:induction false} InputAt(signals: seq<Signal>, k: nat) returns (m: nat)
    requires k < |signals| && InputOf(signals[k]) != []
    ensures m < |Inputs(signals)| && Brings(signals, k, Inputs(signals)[m])
    ensures forall j :: m < j < |Inputs(signals)| ==> BroughtAfter(signals, k, Inputs(signals)[j])
  {
    var n := |signals| - 1;
    var init := signals[..n];
    var before, all := Inputs(init), Inputs(signals);
    assert all == before + InputOf(signals[n]);
    assert |InputOf(signals[n])| <= 1;
    if k == n {
      m := |before|;
      assert |all| == m + 1;
    } else {
      m := InputAt(init, k);
      forall j | m < j < |Inputs(signals)| ensures BroughtAfter(signals, k, Inputs(signals)[j]) {
        if j < |before| {
          assert all[j] == before[j] && BroughtAfter(init, k, before[j]);
          var i :| k < i && Brings(init, i, before[j]);
          assert Brings(signals, i, all[j]);
        } else {
          assert Brings(signals, n, all[j]);
        }
      }
    }
  }

  /**
   * After any slots the client's flag is that of the last signal the worker emitted that carries one: as a
   * start result reported it, off by "stopped", on by "restarted" and "near".
   */
  lemma ClientShowsLastFlag(slots: seq<Slot>, k: nat)
    requires var signals := ProcessAll(START, slots).signals;
             && k < |signals| && SignalsFlag(signals[k])
             && forall j :: k < j < |signals| ==> !SignalsFlag(signals[j])
    ensures var s := ProcessAll(START, slots);
            && (s.signals[k].PhoneKeyStarted? ==> Shown(s).active == s.signals[k].active)
            && (s.signals[k].PhoneKeyEmitted? ==> Shown(s).active == (s.signals[k].event.kind != Stopped))
  {
    var signals := ProcessAll(START, slots).signals;
    var m := InputAt(signals, k);
    forall j | m < j < |Inputs(signals)| ensures !CarriesFlag(Inputs(signals)[j]) {
      var i :| k < i && Brings(signals, i, Inputs(signals)[j]);
      assert !SignalsFlag(signals[i]);
    }
    LastActiveWins(View(false, ""), Inputs(signals), m);
  }

  lemma LastTextInput(signals: seq<Signal>, k: nat) returns (m: nat)
    requires k < |signals| && SignalsText(signals[k])
    requires forall j :: k < j < |signals| ==> !SignalsText(signals[j])
    ensures m < |Inputs(signals)| && Brings(signals, k, Inputs(signals)[m]) && CarriesText(Inputs(signals)[m])
    ensures forall j :: m < j < |Inputs(signals)| ==> !CarriesText(Inputs(signals)[j])
  {
    m := InputAt(signals, k);
    forall j | m < j < |Inputs(signals)| ensures !CarriesText(Inputs(signals)[j]) {
      var i :| k < i && Brings(signals, i, Inputs(signals)[j]);
      assert !SignalsText(signals[i]);
    }
  }

  /** And its text is that of the last signal that carries a text. */
  lemma ClientShowsLastText(slots: seq<Slot>, k: nat)
    requires var signals := ProcessAll(START, slots).signals;
             && k < |signals| && SignalsText(signals[k])
             && forall j :: k < j < |signals| ==> !SignalsText(signals[j])
    ensures var s := ProcessAll(START, slots);
            var x := s.signals[k];
            && (x.PhoneKeyStarted? ==>
                  Shown(s).status == if x.active then "Phone key scanning"
                                     else if x.error == "" then "Phone key inactive" else x.error)
            && (x.PhoneKeyEmitted? ==>
                  && (x.event.kind == Near ==> Shown(s).status == "Phone key connected")
                  && (x.event.kind in {Far, Restarted, Disconnected} ==> Shown(s).status == "Phone key scanning")
                  && (x.event.kind == AuthOk ==> Shown(s).status == "Phone key authorized")
                  && (x.event.kind == Stopped ==>
                        Shown(s).status == "Phone key stopped"
                                           + if x.event.error == "" then "" else ": " + x.event.error)
                  && (x.event.kind in {Error, AuthFailed} ==>
                        Shown(s).status == "Phone key error"
                                           + if x.event.error == "" then "" else ": " + x.event.error))
  {
    var signals := ProcessAll(START, slots).signals;
    var m := LastTextInput(signals, k);
    var inputs := Inputs(signals);
    assert inputs[m] == if signals[k].PhoneKeyStarted? then Started(signals[k].active, signals[k].error)
                        else Event(signals[k].event);
    LastStatusWins(View(false, ""), inputs, m);
  }

  lemma {:induction false} BroughtBy(signals: seq<Signal>, i: Input)
    requires i in Inputs(signals)
    ensures exists k :: Brings(signals, k, i)
  {
    var n := |signals| - 1;
    var init := signals[..n];
    if i in Inputs(init) {
      BroughtBy(init, i);
      var k :| Brings(init, k, i);
      assert Brings(signals, k, i);
    } else {
      assert Brings(signals, n, i);
    }
  }

  /** The flag is off, and the text empty, as long as no signal carried one. */
  lemma ClientShowsNothingYet(slots: seq<Slot>)
    ensures var s := ProcessAll(START, slots);
            && ((forall j :: 0 <= j < |s.signals| ==> !SignalsFlag(s.signals[j])) ==> !Shown(s).active)
            && ((forall j :: 0 <= j < |s.signals| ==> !SignalsText(s.signals[j])) ==> Shown(s).status == "")
  {
    var signals := ProcessAll(START, slots).signals;
    var inputs := Inputs(signals);
    if forall j :: 0 <= j < |signals| ==> !SignalsFlag(signals[j]) {
      forall j | 0 <= j < |inputs| ensures !CarriesFlag(inputs[j]) {
        BroughtBy(signals, inputs[j]);
        var k :| Brings(signals, k, inputs[j]);
        assert !SignalsFlag(signals[k]);
      }
      LastActiveWins(View(false, ""), inputs, -1);
    }
    if forall j :: 0 <= j < |signals| ==> !SignalsText(signals[j]) {
      forall j | 0 <= j < |inputs| ensures !CarriesText(inputs[j]) {
        BroughtBy(signals, inputs[j]);
        var k :| Brings(signals, k, inputs[j]);
        assert !SignalsText(signals[k]);
      }
      LastStatusWins(View(false, ""), inputs, -1);
    }
  }
}
