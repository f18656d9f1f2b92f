/** The GUI side: the suspend/resume latch and the phone-key status (app/src/teslaclient.cpp). */
module TeslaClient {
  import opened Prelude

  // ---- Resume latch ----

  datatype AppState = Suspended | Hidden | Inactive | Active

  /** The latch and the number of `handleResume` calls queued so far. */
  datatype Latch = Latch(suspended: bool, resumes: nat)

  function OnState(l: Latch, s: AppState): Latch
  {
    if s == Suspended then l.(suspended := true)
    else if s == Active && l.suspended then Latch(false, l.resumes + 1)
    else l
  }

  function OnStates(l: Latch, trace: seq<AppState>): Latch
  {
    if trace == [] then l else OnState(OnStates(l, trace[..|trace| - 1]), trace[|trace| - 1])
  }

  /** Suspended at some point (or from the start) and not active since, just before position `i`. */
  ghost predicate AsleepBefore(trace: seq<AppState>, initially: bool, i: nat)
    requires i <= |trace|
  {
    || (exists j :: 0 <= j < i && trace[j] == Suspended && forall k :: j < k < i ==> trace[k] != Active)
    || (initially && forall k :: 0 <= k < i ==> trace[k] != Active)
  }

  /** The first activation after a suspension. */
  ghost predicate WakesAt(trace: seq<AppState>, initially: bool, i: nat)
  {
    i < |trace| && trace[i] == Active && AsleepBefore(trace, initially, i)
  }

  ghost function Wakes(trace: seq<AppState>, initially: bool): set<nat>
  {
    set i: nat | i < |trace| && WakesAt(trace, initially, i)
  }

  lemma AsleepOfPrefix(trace: seq<AppState>, s: AppState, initially: bool, i: nat)
    requires i <= |trace|
    ensures AsleepBefore(trace + [s], initially, i) <==> AsleepBefore(trace, initially, i)
  {
    var t := trace + [s];
    assert forall k :: 0 <= k < i ==> t[k] == trace[k];
    if AsleepBefore(trace, initially, i) {
      if j :| 0 <= j < i && trace[j] == Suspended && forall k :: j < k < i ==> trace[k] != Active {
        assert t[j] == Suspended;
      }
    }
    if AsleepBefore(t, initially, i) {
      if j :| 0 <= j < i && t[j] == Suspended && forall k :: j < k < i ==> t[k] != Active {
        assert trace[j] == Suspended;
      }
    }
  }

  lemma AsleepNext(trace: seq<AppState>, s: AppState, initially: bool)
    ensures AsleepBefore(trace + [s], initially, |trace| + 1) <==>
            s == Suspended || (s != Active && AsleepBefore(trace, initially, |trace|))
  {
    var t, n := trace + [s], |trace|;
    assert t[n] == s;
    AsleepOfPrefix(trace, s, initially, n);
    if AsleepBefore(t, initially, n + 1) && s != Suspended {
      if j :| 0 <= j < n + 1 && t[j] == Suspended && forall k :: j < k < n + 1 ==> t[k] != Active {
        assert j < n;
      }
    }
    if s != Active && AsleepBefore(t, initially, n) {
      if j :| 0 <= j < n && t[j] == Suspended && forall k :: j < k < n ==> t[k] != Active {
        assert forall k :: j < k < n + 1 ==> t[k] != Active;
      }
    }
  }

  lemma WakesSnoc(trace: seq<AppState>, s: AppState, initially: bool)
    ensures Wakes(trace + [s], initially) ==
            Wakes(trace, initially)
            + if s == Active && AsleepBefore(trace, initially, |trace|) then {|trace|} else {}
  {
    var t := trace + [s];
    forall i: nat | i <= |trace| ensures AsleepBefore(t, initially, i) <==> AsleepBefore(trace, initially, i) {
      AsleepOfPrefix(trace, s, initially, i);
    }
    forall i: nat | i < |trace| ensures WakesAt(t, initially, i) <==> WakesAt(trace, initially, i) {
      assert t[i] == trace[i];
    }
    assert WakesAt(t, initially, |trace|) <==> s == Active && AsleepBefore(trace, initially, |trace|);
  }

  /** Over every trace, one resume is queued for each first activation after a suspension, and no other. */
  lemma {:induction false} ResumesAreWakes(trace: seq<AppState>, initially: bool)
    ensures OnStates(Latch(initially, 0), trace).resumes == |Wakes(trace, initially)|
    ensures OnStates(Latch(initially, 0), trace).suspended <==> AsleepBefore(trace, initially, |trace|)
  {
    if trace == [] {
      assert Wakes(trace, initially) == {};
    } else {
      var n := |trace| - 1;
      ResumesAreWakes(trace[..n], initially);
      AsleepNext(trace[..n], trace[n], initially);
      WakesSnoc(trace[..n], trace[n], initially);
      assert trace[..n] + [trace[n]] == trace;
    }
  }

  function Matters(): AppState -> bool
  {
    (s: AppState) => s == Suspended || s == Active
  }

  /** Being hidden or inactive in between changes nothing. */
  lemma {:induction false} BackgroundIsIrrelevant(l: Latch, trace: seq<AppState>)
    ensures OnStates(l, Filter(trace, Matters())) == OnStates(l, trace)
  {
    if trace != [] {
      var init, s := trace[..|trace| - 1], trace[|trace| - 1];
      BackgroundIsIrrelevant(l, init);
      assert trace == init + [s];
      FilterSnoc(init, s, Matters());
      var kept := Filter(init, Matters());
      assert (kept + [s])[..|kept|] == kept && kept + [] == kept;
    }
  }

  // ---- Phone-key status ----

  datatype EventKind =
    | Near | Inside | AuthOk | AuthFailed | Disconnected | Far | Error | Stopped | Restarted
    | Other(name: string)

  datatype PhoneKeyEvent = PhoneKeyEvent(kind: EventKind, vin: string, time: string, error: string)

  datatype Input = Started(active: bool, error: string) | Event(event: PhoneKeyEvent)

  /** What an input sets the active flag to, if anything. */
  function ActiveSetBy(i: Input): Option<bool>
  {
    match i
    case Started(active, _) => Some(active)
    case Event(e) =>
      if e.kind == Stopped then Some(false)
      else if e.kind == Restarted || e.kind == Near then Some(true)
      else None
  }

  function WithError(text: string, error: string): string
  {
    if error == "" then text else text + ": " + error
  }

  /** The status text an input carries, if any. */
  function StatusSetBy(i: Input): Option<string>
  {
    match i
    case Started(active, error) =>
      Some(if active then "Phone key scanning" else if error == "" then "Phone key inactive" else error)
    case Event(e) =>
      match e.kind
      case Near => Some("Phone key connected")
      case Far => Some("Phone key scanning")
      case Restarted => Some("Phone key scanning")
      case Disconnected => Some("Phone key scanning")
      case AuthOk => Some("Phone key authorized")
      case Stopped => Some(WithError("Phone key stopped", e.error))
      case Error => Some(WithError("Phone key error", e.error))
      case AuthFailed => Some(WithError("Phone key error", e.error))
      case Inside => None
      case Other(_) => None
  }

  function Or<T>(o: Option<T>, otherwise: T): T
  {
    if o.Some? then o.value else otherwise
  }

  datatype View = View(active: bool, status: string)

  function OnInput(v: View, i: Input): View
  {
    View(Or(ActiveSetBy(i), v.active), Or(StatusSetBy(i), v.status))
  }

  function OnInputs(v: View, inputs: seq<Input>): View
  {
    if inputs == [] then v else OnInput(OnInputs(v, inputs[..|inputs| - 1]), inputs[|inputs| - 1])
  }

  /** The inputs that carry the active flag, and those that carry a text. */
  predicate CarriesFlag(i: Input)
  {
    i.Started? || i.event.kind in {Stopped, Restarted, Near}
  }

  predicate CarriesText(i: Input)
  {
    i.Started? || i.event.kind in {Near, Far, Restarted, Disconnected, AuthOk, Stopped, Error, AuthFailed}
  }

  /**
   * After any interleaving of start results and events, the flag is that of the last input that carries one:
   * as a start result reported it, off by "stopped", on by "restarted" and "near". No other event changes it.
   */
  lemma {:induction false} LastActiveWins(v: View, inputs: seq<Input>, k: int)
    requires -1 <= k < |inputs| && (k >= 0 ==> CarriesFlag(inputs[k]))
    requires forall j :: k < j < |inputs| ==> !CarriesFlag(inputs[j])
    ensures k == -1 ==> OnInputs(v, inputs).active == v.active
    ensures k >= 0 && inputs[k].Started? ==> OnInputs(v, inputs).active == inputs[k].active
    ensures k >= 0 && inputs[k].Event? && inputs[k].event.kind == Stopped ==> !OnInputs(v, inputs).active
    ensures k >= 0 && inputs[k].Event? && inputs[k].event.kind in {Restarted, Near} ==> OnInputs(v, inputs).active
  {
    if inputs != [] && k < |inputs| - 1 {
      LastActiveWins(v, inputs[..|inputs| - 1], k);
    }
  }

  lemma SuffixOf(text: string, error: string)
    ensures WithError(text, error) == text + if error == "" then "" else ": " + error
  {
    assert text + "" == text;
  }

  /**
   * And the text is that of the last input that carries one: a failure's text ends in its error, if it has
   * one; an inactive start shows its error alone.
   */
  lemma {:induction false} LastStatusWins(v: View, inputs: seq<Input>, k: int)
    requires -1 <= k < |inputs| && (k >= 0 ==> CarriesText(inputs[k]))
    requires forall j :: k < j < |inputs| ==> !CarriesText(inputs[j])
    ensures k == -1 ==> OnInputs(v, inputs).status == v.status
    ensures k >= 0 && inputs[k].Started? ==>
              OnInputs(v, inputs).status ==
              if inputs[k].active then "Phone key scanning"
              else if inputs[k].error == "" then "Phone key inactive" else inputs[k].error
    ensures k >= 0 && inputs[k].Event? ==>
              var e, status := inputs[k].event, OnInputs(v, inputs).status;
              && (e.kind == Near ==> status == "Phone key connected")
              && (e.kind in {Far, Restarted, Disconnected} ==> status == "Phone key scanning")
              && (e.kind == AuthOk ==> status == "Phone key authorized")
              && (e.kind == Stopped ==> status == "Phone key stopped" + if e.error == "" then "" else ": " + e.error)
              && (e.kind in {Error, AuthFailed} ==>
                    status == "Phone key error" + if e.error == "" then "" else ": " + e.error)
  {
    if inputs != [] && k < |inputs| - 1 {
      LastStatusWins(v, inputs[..|inputs| - 1], k);
    } else if k >= 0 && inputs[k].Event? {
      SuffixOf("Phone key stopped", inputs[k].event.error);
      SuffixOf("Phone key error", inputs[k].event.error);
    }
  }

  class TeslaClient {
    var suspended: bool
    var resumesQueued: nat
    var active: bool
    var status: string
    var forwarded: seq<PhoneKeyEvent>
    /** What an observer holds that reads a property only when told that it changed. */
    var seenActive: bool
    var seenStatus: string
    var activeNotices: nat
    var statusNotices: nat

    constructor (startSuspended: bool)
      ensures TheLatch() == Latch(startSuspended, 0) && TheView() == View(false, "") && Synced()
      ensures forwarded == []
    {
      suspended, resumesQueued := startSuspended, 0;
      active, status, forwarded := false, "", [];
      seenActive, seenStatus, activeNotices, statusNotices := false, "", 0, 0;
    }

    function TheLatch(): Latch reads this { Latch(suspended, resumesQueued) }

    function TheView(): View reads this { View(active, status) }

    predicate Synced() reads this { seenActive == active && seenStatus == status }

    method OnApplicationStateChanged(state: AppState)
      modifies `suspended, `resumesQueued
      ensures TheLatch() == OnState(old(TheLatch()), state)
    {
      if state == Suspended {
        suspended := true;
        return;
      }
      if state == Active && suspended {
        suspended := false;
        resumesQueued := resumesQueued + 1;
        return;
      }
      if state == Active {
        suspended := false;
      }
    }

    method SetPhoneKeyActive(value: bool)
      modifies `active, `seenActive, `activeNotices
      ensures active == value
      ensures activeNotices == old(activeNotices) + if value != old(active) then 1 else 0
      ensures seenActive == if value != old(active) then value else old(seenActive)
    {
      if active == value {
        return;
      }
      active := value;
      activeNotices := activeNotices + 1;
      seenActive := active;
    }

    method SetStatus(value: string)
      modifies `status, `seenStatus, `statusNotices
      ensures status == value
      ensures statusNotices == old(statusNotices) + if value != old(status) then 1 else 0
      ensures seenStatus == if value != old(status) then value else old(seenStatus)
    {
      if status == value {
        return;
      }
      status := value;
      statusNotices := statusNotices + 1;
      seenStatus := status;
    }

    method OnPhoneKeyStarted(isActive: bool, error: string)
      requires Synced()
      modifies `active, `seenActive, `activeNotices, `status, `seenStatus, `statusNotices
      ensures TheView() == OnInput(old(TheView()), Started(isActive, error)) && Synced()
      ensures activeNotices == old(activeNotices) + if active != old(active) then 1 else 0
      ensures statusNotices == old(statusNotices) + if status != old(status) then 1 else 0
    {
      SetPhoneKeyActive(isActive);
      var text := if isActive then "Phone key scanning" else if error == "" then "Phone key inactive" else error;
      SetStatus(text);
    }

    /** Every event is forwarded, also one that changes neither flag nor text. */
    method OnPhoneKeyEvent(e: PhoneKeyEvent)
      requires Synced()
      modifies `active, `seenActive, `activeNotices, `status, `seenStatus, `statusNotices, `forwarded
      ensures forwarded == old(forwarded) + [e]
      ensures TheView() == OnInput(old(TheView()), Event(e)) && Synced()
      ensures activeNotices == old(activeNotices) + if active != old(active) then 1 else 0
      ensures statusNotices == old(statusNotices) + if status != old(status) then 1 else 0
    {
      forwarded := forwarded + [e];
      if e.kind == Stopped {
        SetPhoneKeyActive(false);
      } else if e.kind == Restarted || e.kind == Near {
        SetPhoneKeyActive(true);
      }
      var text := "";
      if e.kind == Near {
        text := "Phone key connected";
      } else if e.kind == Far || e.kind == Restarted || e.kind == Disconnected {
        text := "Phone key scanning";
      } else if e.kind == AuthOk {
        text := "Phone key authorized";
      } else if e.kind == Stopped {
        text := WithError("Phone key stopped", e.error);
      } else if e.kind == Error || e.kind == AuthFailed {
        text := WithError("Phone key error", e.error);
      } else {
        return;
      }
      SetStatus(text);
    }
  }
}
