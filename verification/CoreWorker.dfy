/**
 * The worker that owns the control core (app/src/teslaclient.cpp). Its slots run one after another; what the
 * core answers to each call is a parameter of the slot. Core handles are numbers, handed out in order.
 */
module CoreWorker {
  import opened Prelude
  import opened TeslaClient

  /** Everything done to core handles, in order. */
  datatype Call = New(handle: nat) | Use(handle: nat) | Free(handle: nat)

  datatype Signal =
    | Initialized(ok: bool)
    | CommandFinished(id: string)
    | CommandError(id: string)
    | DestinationPreviewed(id: string, ok: bool)
    | ShareFinished(id: string, ok: bool)
    | KeyGenerated(ok: bool)
    | Paired(ok: bool)
    | ConfigSaved(ok: bool)
    | ConfigLoaded
    | PhoneKeyStarted(active: bool, error: string)
    | PhoneKeyEmitted(event: PhoneKeyEvent)

  /** Whether the phone key runs, and the message that came with it. */
  datatype KeyState = KeyState(active: bool, error: string)

  /** `rcOk`: the call itself worked; `ok`: what it reported; `key`: the phone key's state on a refresh. */
  datatype Slot =
    | Initialize(created: bool, key: KeyState)
    | RunCommand(id: string, rcOk: bool, hardError: bool)
    | PreviewDestination(id: string, rcOk: bool, ok: bool)
    | ShareDestination(id: string, rcOk: bool, ok: bool)
    | GenerateKey(rcOk: bool, ok: bool, key: KeyState)
    | Pair(rcOk: bool, ok: bool, key: KeyState)
    | SetConfig(rcOk: bool, ok: bool, key: KeyState)
    | RefreshConfig(rcOk: bool)
    | PollEvents(queue: seq<PhoneKeyEvent>, failsAfter: Option<nat>, clock: seq<string>)
    | HandleResume(rcOk: bool, key: KeyState)
    | Shutdown
    | Destroy

  /** `timer`: whether the poll timer runs. */
  datatype State = State(core: Option<nat>, timer: bool, next: nat, calls: seq<Call>, signals: seq<Signal>)

  const START := State(None, false, 0, [], [])

  // ---- What a slot does ----

  function Says(s: State, out: seq<Signal>): State
  {
    s.(signals := s.signals + out)
  }

  function Calls(s: State, n: nat): State
    requires s.core.Some?
  {
    s.(calls := s.calls + seq(n, _ => Use(s.core.value)))
  }

  function Refresh(s: State, key: KeyState): State
    requires s.core.Some?
  {
    Says(Calls(s, 1), [PhoneKeyStarted(key.active, key.error)])
  }

  function Release(s: State): State
  {
    if s.core.None? then s else s.(core := None, calls := s.calls + [Free(s.core.value)])
  }

  /** How many events a poll delivers before the queue is empty or a call fails. */
  function Delivered(queue: seq<PhoneKeyEvent>, failsAfter: Option<nat>): (n: nat)
    ensures n <= |queue|
  {
    if failsAfter.Some? && failsAfter.value < |queue| then failsAfter.value else |queue|
  }

  /** An event without a time gets the time of its delivery. */
  function Stamped(e: PhoneKeyEvent, clock: seq<string>, k: nat): PhoneKeyEvent
  {
    if e.time == "" then e.(time := if k < |clock| then clock[k] else "now") else e
  }

  function Forwarded(queue: seq<PhoneKeyEvent>, clock: seq<string>, n: nat): (r: seq<Signal>)
    requires n <= |queue|
    ensures |r| == n && forall k :: 0 <= k < n ==> r[k] == PhoneKeyEmitted(Stamped(queue[k], clock, k))
  {
    seq(n, k requires 0 <= k < n => PhoneKeyEmitted(Stamped(queue[k], clock, k)))
  }

  lemma ForwardedOneMore(queue: seq<PhoneKeyEvent>, clock: seq<string>, n: nat)
    requires n < |queue|
    ensures Forwarded(queue, clock, n + 1) ==
            Forwarded(queue, clock, n) + [PhoneKeyEmitted(Stamped(queue[n], clock, n))]
  {
  }

  function Process(s: State, slot: Slot): State
  {
    match slot
    case Initialize(created, key) =>
      if !created then Says(s.(core := None), [Initialized(false)])
      else
        var on := s.(core := Some(s.next), next := s.next + 1, calls := s.calls + [New(s.next)]);
        Says(Refresh(on, key).(timer := true), [Initialized(true)])
    case RunCommand(id, rcOk, hardError) =>
      if s.core.None? then Says(s, [CommandError(id)])
      else Says(Calls(s, 1), [if rcOk && !hardError then CommandFinished(id) else CommandError(id)])
    case PreviewDestination(id, rcOk, ok) =>
      if s.core.None? then Says(s, [DestinationPreviewed(id, false)])
      else Says(Calls(s, 1), [DestinationPreviewed(id, rcOk && ok)])
    case ShareDestination(id, rcOk, ok) =>
      if s.core.None? then Says(s, [ShareFinished(id, false)])
      else Says(Calls(s, 1), [ShareFinished(id, rcOk && ok)])
    case GenerateKey(rcOk, ok, key) =>
      if s.core.None? then Says(s, [KeyGenerated(false)])
      else
        var out := Says(Calls(s, 1), [KeyGenerated(rcOk && ok)]);
        if rcOk then Refresh(out, key) else out
    case Pair(rcOk, ok, key) =>
      if s.core.None? then Says(s, [Paired(false)])
      else
        var out := Says(Calls(s, 1), [Paired(rcOk && ok)]);
        if rcOk then Refresh(out, key) else out
    case SetConfig(rcOk, ok, key) =>
      if s.core.None? then Says(s, [ConfigSaved(false)])
      else
        var out := Says(Calls(s, 1), [ConfigSaved(rcOk && ok)]);
        if rcOk && ok then Refresh(out, key) else out
    case RefreshConfig(_) =>
      if s.core.None? then Says(s, [ConfigLoaded]) else Says(Calls(s, 1), [ConfigLoaded])
    case PollEvents(queue, failsAfter, clock) =>
      if s.core.None? then s
      else
        var n := Delivered(queue, failsAfter);
        Says(Calls(s, n + 1), Forwarded(queue, clock, n))
    case HandleResume(rcOk, key) =>
      if s.core.None? then s
      else if rcOk then Refresh(Calls(s, 1), key)
      else Says(Calls(s, 1), [PhoneKeyStarted(false, "Resume failed")])
    case Shutdown => Release(s).(timer := false)
    case Destroy => Release(s)
  }

  function ProcessAll(s: State, slots: seq<Slot>): State
  {
    if slots == [] then s else Process(ProcessAll(s, slots[..|slots| - 1]), slots[|slots| - 1])
  }

  // ---- One reply per request, in order ----

  datatype Request = Command(id: string) | Preview(id: string) | Share(id: string)

  function RequestOf(slot: Slot): seq<Request>
  {
    match slot
    case RunCommand(id, _, _) => [Command(id)]
    case PreviewDestination(id, _, _) => [Preview(id)]
    case ShareDestination(id, _, _) => [Share(id)]
    case _ => []
  }

  function ReplyTo(signal: Signal): seq<Request>
  {
    match signal
    case CommandFinished(id) => [Command(id)]
    case CommandError(id) => [Command(id)]
    case DestinationPreviewed(id, _) => [Preview(id)]
    case ShareFinished(id, _) => [Share(id)]
    case _ => []
  }

  function Requests(slots: seq<Slot>): seq<Request>
  {
    if slots == [] then [] else Requests(slots[..|slots| - 1]) + RequestOf(slots[|slots| - 1])
  }

  function Replies(signals: seq<Signal>): seq<Request>
  {
    if signals == [] then [] else Replies(signals[..|signals| - 1]) + ReplyTo(signals[|signals| - 1])
  }

  lemma RepliesSnoc(signals: seq<Signal>, x: Signal)
    ensures Replies(signals + [x]) == Replies(signals) + ReplyTo(x)
  {
    assert (signals + [x])[..|signals|] == signals;
  }

  /** Signals that answer nothing add no replies. */
  lemma {:induction false} QuietTail(signals: seq<Signal>, n: nat)
    requires n <= |signals| && forall k :: n <= k < |signals| ==> ReplyTo(signals[k]) == []
    ensures Replies(signals) == Replies(signals[..n])
  {
    if n < |signals| {
      var init := signals[..|signals| - 1];
      QuietTail(init, n);
      assert init[..n] == signals[..n];
    } else {
      assert signals[..n] == signals;
    }
  }

  ghost predicate Quietly(s: State, t: State)
  {
    && |s.signals| <= |t.signals| && t.signals[..|s.signals|] == s.signals
    && forall k :: |s.signals| <= k < |t.signals| ==> ReplyTo(t.signals[k]) == []
  }

  lemma QuietPoll(s: State, queue: seq<PhoneKeyEvent>, failsAfter: Option<nat>, clock: seq<string>)
    ensures Quietly(s, Process(s, PollEvents(queue, failsAfter, clock)))
  {
  }

  lemma QuietKeyWork(before: seq<Signal>, after: seq<Signal>, x: Signal, key: KeyState)
    requires x.KeyGenerated? || x.Paired? || x.ConfigSaved?
    requires after == before + [x] || after == before + [x] + [PhoneKeyStarted(key.active, key.error)]
    ensures Replies(after) == Replies(before)
  {
    RepliesSnoc(before, x);
    RepliesSnoc(before + [x], PhoneKeyStarted(key.active, key.error));
  }

  lemma QuietAppend(s: State, t: State, out: seq<Signal>)
    requires t.signals == s.signals + out && forall k :: 0 <= k < |out| ==> ReplyTo(out[k]) == []
    ensures Quietly(s, t)
  {
    forall k | |s.signals| <= k < |t.signals| ensures ReplyTo(t.signals[k]) == [] {
      assert t.signals[k] == out[k - |s.signals|];
    }
  }

  lemma QuietInitialize(s: State, created: bool, key: KeyState)
    ensures Quietly(s, Process(s, Initialize(created, key)))
  {
    QuietAppend(s, Process(s, Initialize(created, key)),
                if created then [PhoneKeyStarted(key.active, key.error), Initialized(true)]
                else [Initialized(false)]);
  }

  lemma QuietResume(s: State, rcOk: bool, key: KeyState)
    ensures Quietly(s, Process(s, HandleResume(rcOk, key)))
  {
    QuietAppend(s, Process(s, HandleResume(rcOk, key)),
                if s.core.None? then []
                else if rcOk then [PhoneKeyStarted(key.active, key.error)]
                else [PhoneKeyStarted(false, "Resume failed")]);
  }

  lemma QuietSignals(s: State, slot: Slot)
    requires RequestOf(slot) == [] && !slot.GenerateKey? && !slot.Pair? && !slot.SetConfig?
    ensures Quietly(s, Process(s, slot))
  {
    match slot {
      case Initialize(created, key) => QuietInitialize(s, created, key);
      case RefreshConfig(_) => QuietAppend(s, Process(s, slot), [ConfigLoaded]);
      case PollEvents(queue, failsAfter, clock) => QuietPoll(s, queue, failsAfter, clock);
      case HandleResume(rcOk, key) => QuietResume(s, rcOk, key);
      case Shutdown => QuietAppend(s, Process(s, slot), []);
      case Destroy => QuietAppend(s, Process(s, slot), []);
    }
  }

  lemma QuietSlot(s: State, slot: Slot)
    requires RequestOf(slot) == []
    ensures Replies(Process(s, slot).signals) == Replies(s.signals)
  {
    var held, after := s.core.Some?, Process(s, slot).signals;
    if slot.GenerateKey? {
      QuietKeyWork(s.signals, after, KeyGenerated(held && slot.rcOk && slot.ok), slot.key);
    } else if slot.Pair? {
      QuietKeyWork(s.signals, after, Paired(held && slot.rcOk && slot.ok), slot.key);
    } else if slot.SetConfig? {
      QuietKeyWork(s.signals, after, ConfigSaved(held && slot.rcOk && slot.ok), slot.key);
    } else {
      QuietSignals(s, slot);
      QuietTail(after, |s.signals|);
    }
  }

  lemma RequestSlot(s: State, slot: Slot)
    requires RequestOf(slot) != []
    ensures Replies(Process(s, slot).signals) == Replies(s.signals) + RequestOf(slot)
  {
    var t := Process(s, slot);
    var x := t.signals[|s.signals|];
    assert t.signals == s.signals + [x] && ReplyTo(x) == RequestOf(slot);
    RepliesSnoc(s.signals, x);
  }

  lemma SlotReplies(s: State, slot: Slot)
    ensures Replies(Process(s, slot).signals) == Replies(s.signals) + RequestOf(slot)
  {
    if RequestOf(slot) == [] { QuietSlot(s, slot); } else { RequestSlot(s, slot); }
  }

  /** Each command, preview and share request gets exactly one reply, with its id, in request order. */
  lemma {:induction false} OneReplyEach(slots: seq<Slot>)
    ensures Replies(ProcessAll(START, slots).signals) == Requests(slots)
  {
    if slots != [] {
      OneReplyEach(slots[..|slots| - 1]);
      SlotReplies(ProcessAll(START, slots[..|slots| - 1]), slots[|slots| - 1]);
    }
  }

  // ---- What the replies and events say ----

  /** A core is held since slot `k`: created there, and neither replaced nor given up afterwards. */
  ghost predicate HeldSince(slots: seq<Slot>, k: int)
  {
    && 0 <= k < |slots| && slots[k].Initialize? && slots[k].created
    && forall j :: k < j < |slots| ==> !slots[j].Initialize? && !slots[j].Shutdown? && !slots[j].Destroy?
  }

  lemma HeldNext(slots: seq<Slot>)
    requires slots != []
    ensures var n := |slots| - 1;
            (exists k :: HeldSince(slots, k)) <==>
            if slots[n].Initialize? then slots[n].created
            else !slots[n].Shutdown? && !slots[n].Destroy? && exists k :: HeldSince(slots[..n], k)
  {
    var n := |slots| - 1;
    if slots[n].Initialize? && slots[n].created {
      assert HeldSince(slots, n);
    }
    if k :| HeldSince(slots[..n], k) {
      if !slots[n].Initialize? && !slots[n].Shutdown? && !slots[n].Destroy? { assert HeldSince(slots, k); }
    }
    if k :| HeldSince(slots, k) {
      if k < n { assert HeldSince(slots[..n], k); }
    }
  }

  lemma HeldAfter(s: State, slot: Slot)
    ensures Process(s, slot).core.Some? <==>
            if slot.Initialize? then slot.created else !slot.Shutdown? && !slot.Destroy? && s.core.Some?
  {
  }

  lemma {:induction false} HeldIff(slots: seq<Slot>)
    ensures ProcessAll(START, slots).core.Some? <==> exists k :: HeldSince(slots, k)
  {
    if slots != [] {
      var n := |slots| - 1;
      HeldIff(slots[..n]);
      HeldNext(slots);
      HeldAfter(ProcessAll(START, slots[..n]), slots[n]);
    }
  }

  lemma ProcessedNext(slots: seq<Slot>, k: nat)
    requires k < |slots|
    ensures ProcessAll(START, slots[..k + 1]) == Process(ProcessAll(START, slots[..k]), slots[k])
  {
    assert slots[..k + 1][..k] == slots[..k];
  }

  /**
   * What each request is answered: a command has finished exactly if a core is held, the call works and it
   * reports no hard error; a preview or a share is fine exactly if a core is held, the call works and says so.
   */
  lemma RepliesSay(slots: seq<Slot>, k: nat)
    requires k < |slots|
    ensures var before, after := ProcessAll(START, slots[..k]).signals, ProcessAll(START, slots[..k + 1]).signals;
            var held := exists j :: HeldSince(slots[..k], j);
            match slots[k]
            case RunCommand(id, rcOk, hardError) =>
              after == before + [if held && rcOk && !hardError then CommandFinished(id) else CommandError(id)]
            case PreviewDestination(id, rcOk, ok) =>
              after == before + [DestinationPreviewed(id, held && rcOk && ok)]
            case ShareDestination(id, rcOk, ok) => after == before + [ShareFinished(id, held && rcOk && ok)]
            case _ => true
  {
    HeldIff(slots[..k]);
    ProcessedNext(slots, k);
  }

  /**
   * What the other slots report, and when the phone key is asked for and reported again: after creating the
   * core, after every key or pairing call and every resume that worked, but after a configuration only if it
   * was saved. A resume that failed reports the phone key inactive.
   */
  lemma ReportsSay(slots: seq<Slot>, k: nat)
    requires k < |slots|
    ensures var before, after := ProcessAll(START, slots[..k]).signals, ProcessAll(START, slots[..k + 1]).signals;
            var held := exists j :: HeldSince(slots[..k], j);
            match slots[k]
            case GenerateKey(rcOk, ok, key) =>
              after == before + [KeyGenerated(held && rcOk && ok)]
                       + if held && rcOk then [PhoneKeyStarted(key.active, key.error)] else []
            case Pair(rcOk, ok, key) =>
              after == before + [Paired(held && rcOk && ok)]
                       + if held && rcOk then [PhoneKeyStarted(key.active, key.error)] else []
            case SetConfig(rcOk, ok, key) =>
              after == before + [ConfigSaved(held && rcOk && ok)]
                       + if held && rcOk && ok then [PhoneKeyStarted(key.active, key.error)] else []
            case Initialize(created, key) =>
              after == before + if created then [PhoneKeyStarted(key.active, key.error), Initialized(true)]
                                else [Initialized(false)]
            case HandleResume(rcOk, key) =>
              after == before + if !held then []
                                else if rcOk then [PhoneKeyStarted(key.active, key.error)]
                                else [PhoneKeyStarted(false, "Resume failed")]
            case RefreshConfig(_) => after == before + [ConfigLoaded]
            case Shutdown => after == before
            case Destroy => after == before
            case _ => true
  {
    HeldIff(slots[..k]);
    ProcessedNext(slots, k);
  }

  /**
   * A poll delivers the queued events in order, each once, up to the first call that fails, if any: kind, vin
   * and error as queued, and the time as queued unless it is empty; without a core it delivers nothing.
   */
  lemma PollDelivers(s: State, queue: seq<PhoneKeyEvent>, failsAfter: Option<nat>, clock: seq<string>)
    ensures var t := Process(s, PollEvents(queue, failsAfter, clock));
            var n := if s.core.None? then 0
                     else if failsAfter.Some? && failsAfter.value < |queue| then failsAfter.value else |queue|;
            && |t.signals| == |s.signals| + n && t.signals[..|s.signals|] == s.signals
            && forall k :: 0 <= k < n ==>
                 var x := t.signals[|s.signals| + k];
                 && x.PhoneKeyEmitted? && x.event.kind == queue[k].kind
                 && x.event.vin == queue[k].vin && x.event.error == queue[k].error
                 && (queue[k].time != "" ==> x.event.time == queue[k].time)
                 && (queue[k].time == "" && k < |clock| ==> x.event.time == clock[k])
  {
    var t := Process(s, PollEvents(queue, failsAfter, clock));
    if s.core.Some? {
      var n := Delivered(queue, failsAfter);
      forall k | 0 <= k < n
        ensures t.signals[|s.signals| + k] == PhoneKeyEmitted(Stamped(queue[k], clock, k))
      {
        assert t.signals[|s.signals| + k] == Forwarded(queue, clock, n)[k];
      }
    }
  }

  // ---- The life of a handle ----

  ghost predicate Live(calls: seq<Call>, handle: nat)
  {
    New(handle) in calls && Free(handle) !in calls
  }

  /** Every use and every free is of a handle that was created before and not freed before. */
  ghost predicate WellUsed(calls: seq<Call>)
  {
    forall k :: 0 <= k < |calls| && !calls[k].New? ==> Live(calls[..k], calls[k].handle)
  }

  ghost predicate Sound(s: State)
  {
    && WellUsed(s.calls)
    && (s.core.Some? ==> s.core.value < s.next && Live(s.calls, s.core.value))
    && (forall c :: c in s.calls ==> c.handle < s.next)
    && (forall i, j :: 0 <= i < j < |s.calls| && s.calls[i].New? && s.calls[j].New? ==> s.calls[i] != s.calls[j])
  }

  lemma WellUsedAppend(calls: seq<Call>, more: seq<Call>)
    requires WellUsed(calls)
    requires forall k :: 0 <= k < |more| && !more[k].New? ==> Live(calls + more[..k], more[k].handle)
    ensures WellUsed(calls + more)
  {
    var all := calls + more;
    forall k | 0 <= k < |all| && !all[k].New? ensures Live(all[..k], all[k].handle) {
      if k < |calls| {
        assert all[..k] == calls[..k];
      } else {
        assert all[..k] == calls + more[..k - |calls|];
      }
    }
  }

  lemma UsesAreSound(s: State, n: nat)
    requires Sound(s) && s.core.Some?
    ensures Sound(Calls(s, n))
  {
    var h := s.core.value;
    var more := seq(n, _ => Use(h));
    forall k | 0 <= k < n ensures Live(s.calls + more[..k], h) {
      assert Free(h) !in more[..k];
      assert New(h) in s.calls + more[..k];
    }
    WellUsedAppend(s.calls, more);
    assert New(h) in s.calls + more;
  }

  lemma NewIsSound(s: State)
    requires Sound(s)
    ensures Sound(s.(core := Some(s.next), next := s.next + 1, calls := s.calls + [New(s.next)]))
  {
    WellUsedAppend(s.calls, [New(s.next)]);
    assert New(s.next) in s.calls + [New(s.next)];
    assert Free(s.next) !in s.calls;
  }

  lemma FreeIsSound(s: State)
    requires Sound(s)
    ensures Sound(Release(s))
  {
    if s.core.Some? {
      assert s.calls + [Free(s.core.value)][..0] == s.calls;
      WellUsedAppend(s.calls, [Free(s.core.value)]);
    }
  }

  lemma SoundByHandles(s: State, t: State)
    requires Sound(s) && t.core == s.core && t.next == s.next && t.calls == s.calls
    ensures Sound(t)
  {
  }

  lemma InitializeIsSound(s: State, created: bool, key: KeyState)
    requires Sound(s)
    ensures Sound(Process(s, Initialize(created, key)))
  {
    if created {
      var on := s.(core := Some(s.next), next := s.next + 1, calls := s.calls + [New(s.next)]);
      NewIsSound(s);
      UsesAreSound(on, 1);
      SoundByHandles(Calls(on, 1), Process(s, Initialize(created, key)));
    }
  }

  lemma UsingIsSound(s: State, slot: Slot)
    requires Sound(s) && s.core.Some? && !slot.Initialize? && !slot.Shutdown? && !slot.Destroy?
    ensures Sound(Process(s, slot))
  {
    var t := Process(s, slot);
    if slot.PollEvents? {
      UsesAreSound(s, Delivered(slot.queue, slot.failsAfter) + 1);
      SoundByHandles(Calls(s, Delivered(slot.queue, slot.failsAfter) + 1), t);
    } else {
      UsesAreSound(s, 1);
      UsesAreSound(Calls(s, 1), 1);
      SoundByHandles(if t.calls == Calls(s, 1).calls then Calls(s, 1) else Calls(Calls(s, 1), 1), t);
    }
  }

  lemma SlotIsSound(s: State, slot: Slot)
    requires Sound(s)
    ensures Sound(Process(s, slot))
  {
    if slot.Initialize? {
      InitializeIsSound(s, slot.created, slot.key);
    } else if slot.Shutdown? || slot.Destroy? {
      FreeIsSound(s);
    } else if s.core.Some? {
      UsingIsSound(s, slot);
    } else {
      SoundByHandles(s, Process(s, slot));
    }
  }

  lemma {:induction false} SlotsAreSound(slots: seq<Slot>)
    ensures Sound(ProcessAll(START, slots))
  {
    if slots != [] {
      SlotsAreSound(slots[..|slots| - 1]);
      SlotIsSound(ProcessAll(START, slots[..|slots| - 1]), slots[|slots| - 1]);
    }
  }

  /** No handle is used or freed unless it was created and not yet freed: no use after free, no double free. */
  lemma NoUseAfterFree(slots: seq<Slot>, k: nat)
    requires k < |ProcessAll(START, slots).calls| && !ProcessAll(START, slots).calls[k].New?
    ensures var calls := ProcessAll(START, slots).calls;
            && New(calls[k].handle) in calls[..k]
            && forall j :: 0 <= j < k ==> calls[j] != Free(calls[k].handle)
  {
    SlotsAreSound(slots);
    var calls := ProcessAll(START, slots).calls;
    assert Live(calls[..k], calls[k].handle);
    forall j | 0 <= j < k ensures calls[j] != Free(calls[k].handle) {
      assert calls[..k][j] in calls[..k];
    }
  }

  // ---- Leaks ----

  /** Some `initialize` ran while a core was held, losing that core's handle. */
  predicate Overwrites(slots: seq<Slot>)
  {
    slots != [] &&
    var n := |slots| - 1;
    Overwrites(slots[..n]) || (slots[n].Initialize? && ProcessAll(START, slots[..n]).core.Some?)
  }

  ghost predicate Leaked(s: State, h: nat)
  {
    Live(s.calls, h) && s.core != Some(h)
  }

  /** What a slot adds to the calls: at most one new handle, then uses, or the freeing of the core held. */
  ghost predicate AddedBy(s: State, slot: Slot, c: Call)
  {
    match c
    case New(h) => slot.Initialize? && slot.created && h == s.next
    case Use(_) => true
    case Free(h) => (slot.Shutdown? || slot.Destroy?) && s.core == Some(h)
  }

  lemma SlotCalls(s: State, slot: Slot)
    ensures var t := Process(s, slot);
            && s.calls <= t.calls
            && (forall k :: |s.calls| <= k < |t.calls| ==> AddedBy(s, slot, t.calls[k]))
            && (slot.Initialize? ==> t.core == if slot.created then Some(s.next) else None)
            && (slot.Shutdown? || slot.Destroy? ==>
                  t.core.None? && (s.core.Some? ==> Free(s.core.value) in t.calls))
            && (!slot.Initialize? && !slot.Shutdown? && !slot.Destroy? ==> t.core == s.core)
  {
  }

  /** A leak lasts, and overwriting a core makes one. */
  lemma LeaksStay(s: State, slot: Slot, h: nat)
    requires Sound(s)
    requires Leaked(s, h) || (slot.Initialize? && s.core == Some(h))
    ensures Leaked(Process(s, slot), h)
  {
    SlotCalls(s, slot);
    assert New(h) in s.calls && h < s.next;
  }

  /** Nothing else makes one. */
  lemma NoNewLeak(s: State, slot: Slot, h: nat)
    requires Sound(s) && !(slot.Initialize? && s.core.Some?)
    requires Leaked(Process(s, slot), h)
    ensures Leaked(s, h)
  {
    SlotCalls(s, slot);
  }

  lemma {:induction false} OverwritingLeaks(slots: seq<Slot>) returns (h: nat)
    requires Overwrites(slots)
    ensures Leaked(ProcessAll(START, slots), h)
  {
    var n := |slots| - 1;
    var s := ProcessAll(START, slots[..n]);
    SlotsAreSound(slots[..n]);
    if Overwrites(slots[..n]) {
      h := OverwritingLeaks(slots[..n]);
    } else {
      h := s.core.value;
    }
    LeaksStay(s, slots[n], h);
  }

  lemma {:induction false} LeakMeansOverwritten(slots: seq<Slot>, h: nat)
    requires Leaked(ProcessAll(START, slots), h)
    ensures Overwrites(slots)
  {
    var n := |slots| - 1;
    var s := ProcessAll(START, slots[..n]);
    SlotsAreSound(slots[..n]);
    if !(slots[n].Initialize? && s.core.Some?) {
      NoNewLeak(s, slots[n], h);
      LeakMeansOverwritten(slots[..n], h);
    }
  }

  /**
   * After the destructor every core that was ever created has been freed, exactly if no `initialize` ran
   * while a core was held. The client queues `initialize` once, so its worker frees its core exactly once.
   */
  lemma FreedInTheEndIff(slots: seq<Slot>)
    ensures var calls := ProcessAll(START, slots + [Destroy]).calls;
            (forall h: nat :: New(h) in calls ==> Free(h) in calls) <==> !Overwrites(slots)
  {
    var s, t := ProcessAll(START, slots), ProcessAll(START, slots + [Destroy]);
    assert (slots + [Destroy])[..|slots|] == slots;
    assert t == Process(s, Destroy) && t.core.None?;
    SlotsAreSound(slots);
    if Overwrites(slots) {
      var h := OverwritingLeaks(slots);
      LeaksStay(s, Destroy, h);
      assert New(h) in t.calls && Free(h) !in t.calls;
    }
    if h: nat :| New(h) in t.calls && Free(h) !in t.calls {
      NoNewLeak(s, Destroy, h);
      LeakMeansOverwritten(slots, h);
    }
  }

  /** With a single `initialize` there is nothing to overwrite. */
  lemma {:induction false} OneInitializeNeverOverwrites(slots: seq<Slot>)
    requires forall i, j :: 0 <= i < j < |slots| && slots[i].Initialize? ==> !slots[j].Initialize?
    ensures !Overwrites(slots)
  {
    if slots != [] {
      OneInitializeNeverOverwrites(slots[..|slots| - 1]);
      if slots[|slots| - 1].Initialize? {
        NoCoreYet(slots[..|slots| - 1]);
      }
    }
  }

  lemma {:induction false} NoCoreYet(slots: seq<Slot>)
    requires forall i :: 0 <= i < |slots| ==> !slots[i].Initialize?
    ensures ProcessAll(START, slots).core.None?
  {
    if slots != [] {
      NoCoreYet(slots[..|slots| - 1]);
    }
  }

  /** With a single `initialize`, and before the destructor, the poll timer runs exactly while a core is held. */
  lemma {:induction false} TimerRunsWhileHeld(slots: seq<Slot>)
    requires forall i, j :: 0 <= i < j < |slots| && slots[i].Initialize? ==> !slots[j].Initialize?
    requires forall i :: 0 <= i < |slots| ==> !slots[i].Destroy?
    ensures ProcessAll(START, slots).timer <==> ProcessAll(START, slots).core.Some?
  {
    if slots != [] {
      var n := |slots| - 1;
      TimerRunsWhileHeld(slots[..n]);
      if slots[n].Initialize? {
        NoCoreYet(slots[..n]);
      }
    }
  }

  // ---- The worker itself ----

  class Worker {
    var core: Option<nat>
    var timer: bool
    var next: nat
    /** The calls made into the core and the signals emitted so far. */
    var calls: seq<Call>
    var signals: seq<Signal>

    constructor ()
      ensures TheState() == START
    {
      core, timer, next, calls, signals := None, false, 0, [], [];
    }

    function TheState(): State reads this { State(core, timer, next, calls, signals) }

    method Emit(x: Signal)
      modifies `signals
      ensures signals == old(signals) + [x]
    {
      signals := signals + [x];
    }

    /** A call on the core that is held. */
    method CallCore()
      requires core.Some?
      modifies `calls
      ensures calls == old(calls) + [Use(core.value)]
    {
      calls := calls + [Use(core.value)];
    }

    method RefreshPhoneKeyState(key: KeyState)
      requires core.Some?
      modifies this
      ensures TheState() == Refresh(old(TheState()), key)
    {
      CallCore();
      Emit(PhoneKeyStarted(key.active, key.error));
      assert Calls(old(TheState()), 1).calls == calls;
    }

    method Initialize(created: bool, key: KeyState)
      modifies this
      ensures TheState() == Process(old(TheState()), Slot.Initialize(created, key))
    {
      if !created {
        core := None;
        Emit(Initialized(false));
        return;
      }
      core := Some(next);
      calls := calls + [New(next)];
      next := next + 1;
      RefreshPhoneKeyState(key);
      timer := true;
      Emit(Initialized(true));
    }

    method RunCommand(id: string, rcOk: bool, hardError: bool)
      modifies this
      ensures TheState() == Process(old(TheState()), Slot.RunCommand(id, rcOk, hardError))
    {
      if core.None? {
        Emit(CommandError(id));
        return;
      }
      CallCore();
      assert Calls(old(TheState()), 1).calls == calls;
      if !rcOk {
        Emit(CommandError(id));
        return;
      }
      if hardError {
        Emit(CommandError(id));
        return;
      }
      Emit(CommandFinished(id));
    }

    method PreviewDestination(id: string, rcOk: bool, ok: bool)
      modifies this
      ensures TheState() == Process(old(TheState()), Slot.PreviewDestination(id, rcOk, ok))
    {
      if core.None? {
        Emit(DestinationPreviewed(id, false));
        return;
      }
      CallCore();
      assert Calls(old(TheState()), 1).calls == calls;
      if !rcOk {
        Emit(DestinationPreviewed(id, false));
        return;
      }
      Emit(DestinationPreviewed(id, ok));
    }

    method ShareDestination(id: string, rcOk: bool, ok: bool)
      modifies this
      ensures TheState() == Process(old(TheState()), Slot.ShareDestination(id, rcOk, ok))
    {
      if core.None? {
        Emit(ShareFinished(id, false));
        return;
      }
      CallCore();
      assert Calls(old(TheState()), 1).calls == calls;
      if !rcOk {
        Emit(ShareFinished(id, false));
        return;
      }
      Emit(ShareFinished(id, ok));
    }

    method GenerateKey(rcOk: bool, ok: bool, key: KeyState)
      modifies this
      ensures TheState() == Process(old(TheState()), Slot.GenerateKey(rcOk, ok, key))
    {
      if core.None? {
        Emit(KeyGenerated(false));
        return;
      }
      CallCore();
      assert Calls(old(TheState()), 1).calls == calls;
      if !rcOk {
        Emit(KeyGenerated(false));
        return;
      }
      Emit(KeyGenerated(ok));
      RefreshPhoneKeyState(key);
    }

    method Pair(rcOk: bool, ok: bool, key: KeyState)
      modifies this
      ensures TheState() == Process(old(TheState()), Slot.Pair(rcOk, ok, key))
    {
      if core.None? {
        Emit(Paired(false));
        return;
      }
      CallCore();
      assert Calls(old(TheState()), 1).calls == calls;
      if !rcOk {
        Emit(Paired(false));
        return;
      }
      Emit(Paired(ok));
      RefreshPhoneKeyState(key);
    }

    method SetConfig(rcOk: bool, ok: bool, key: KeyState)
      modifies this
      ensures TheState() == Process(old(TheState()), Slot.SetConfig(rcOk, ok, key))
    {
      if core.None? {
        Emit(ConfigSaved(false));
        return;
      }
      CallCore();
      assert Calls(old(TheState()), 1).calls == calls;
      if !rcOk {
        Emit(ConfigSaved(false));
        return;
      }
      Emit(ConfigSaved(ok));
      if ok {
        RefreshPhoneKeyState(key);
      }
    }

    method RefreshConfig(rcOk: bool)
      modifies this
      ensures TheState() == Process(old(TheState()), Slot.RefreshConfig(rcOk))
    {
      if core.Some? {
        CallCore();
        assert Calls(old(TheState()), 1).calls == calls;
      }
      Emit(ConfigLoaded);
    }

    /** Polls until the core has no more events or a call fails; what is left stays in the core's queue. */
    method PollPhoneKeyEvents(queue: seq<PhoneKeyEvent>, failsAfter: Option<nat>, clock: seq<string>)
      returns (rest: seq<PhoneKeyEvent>)
      modifies this
      ensures TheState() == Process(old(TheState()), PollEvents(queue, failsAfter, clock))
      ensures rest == if old(core).None? then queue else queue[Delivered(queue, failsAfter)..]
    {
      rest := queue;
      if core.None? {
        return;
      }
      var n := 0;
      while true
        invariant n <= Delivered(queue, failsAfter) && rest == queue[n..]
        invariant core == old(core) && timer == old(timer) && next == old(next)
        invariant calls == Calls(old(TheState()), n).calls
        invariant signals == old(signals) + Forwarded(queue, clock, n)
        decreases |rest|
      {
        CallCore();
        assert Calls(old(TheState()), n + 1).calls == calls;
        if failsAfter == Some(n) {
          return;
        }
        if rest == [] {
          return;
        }
        Emit(PhoneKeyEmitted(Stamped(rest[0], clock, n)));
        ForwardedOneMore(queue, clock, n);
        rest := rest[1..];
        n := n + 1;
      }
    }

    method HandleResume(rcOk: bool, key: KeyState)
      modifies this
      ensures TheState() == Process(old(TheState()), Slot.HandleResume(rcOk, key))
    {
      if core.None? {
        return;
      }
      CallCore();
      assert Calls(old(TheState()), 1).calls == calls;
      if !rcOk {
        Emit(PhoneKeyStarted(false, "Resume failed"));
        return;
      }
      RefreshPhoneKeyState(key);
    }

    method Shutdown()
      modifies this
      ensures TheState() == Process(old(TheState()), Slot.Shutdown)
    {
      timer := false;
      if core.Some? {
        calls := calls + [Free(core.value)];
        core := None;
      }
    }

    method Destroy()
      modifies this
      ensures TheState() == Process(old(TheState()), Slot.Destroy)
    {
      if core.Some? {
        calls := calls + [Free(core.value)];
        core := None;
      }
    }
  }
}
