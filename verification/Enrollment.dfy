/**
 * Waiting for a key to be enrolled (helper/session/pairing.go), with the clock, the files and the vehicle
 * as parameters. Times are milliseconds; computing takes none, and timers fire when due.
 */
module Enrollment {
  import opened Prelude

  /** Each attempt has at most this long, and never past the deadline of the whole wait. */
  const ATTEMPT_LIMIT: nat := 3000
  const RETRY_INTERVAL: nat := 1000
  /** How long pairing keeps the link open for the approval. */
  const GRACE_PERIOD: nat := 90000

  function Min(a: nat, b: nat): nat
  {
    if a < b then a else b
  }

  // ---- The retry loop ----

  /** How an attempt ended: when, and with which error if any. */
  datatype Reply = Reply(finish: nat, error: Option<string>)

  /** The n-th attempt, started at a time and told a deadline. */
  type Verify = (nat, nat, nat) -> Reply

  /** An attempt respects its context: it returns no later than the deadline it was given. */
  ghost predicate Respects(verify: Verify)
  {
    forall n: nat, start: nat, limit: nat :: start <= limit ==> start <= verify(n, start, limit).finish <= limit
  }

  datatype Attempt = Attempt(start: nat, reply: Reply)

  datatype Result = Confirmed | NotConfirmed(lastError: Option<string>)

  function AttemptAt(verify: Verify, n: nat, start: nat, deadline: nat): Attempt
  {
    Attempt(start, verify(n, start, Min(deadline, start + ATTEMPT_LIMIT)))
  }

  /**
   * The attempts a wait makes: one right away, each next one an interval after the failure before it, none
   * at or past the deadline, none after a success.
   */
  ghost predicate Attempts(log: seq<Attempt>, verify: Verify, now: nat, deadline: nat, interval: nat)
  {
    && (forall k :: 0 <= k < |log| ==>
          log[k].start < deadline && log[k] == AttemptAt(verify, k, log[k].start, deadline))
    && (log != [] ==> log[0].start == now)
    && (forall k :: 0 <= k < |log| - 1 ==>
          log[k].reply.error.Some? && log[k + 1].start == log[k].reply.finish + interval)
  }

  /** No further attempt is due: the last one succeeded, or the next would start at or past the deadline. */
  ghost predicate Complete(log: seq<Attempt>, now: nat, deadline: nat, interval: nat)
  {
    if log == [] then deadline <= now
    else log[|log| - 1].reply.error.None? || deadline <= log[|log| - 1].reply.finish + interval
  }

  lemma OneMoreAttempt(log: seq<Attempt>, a: Attempt, verify: Verify, now: nat, deadline: nat, interval: nat)
    requires Attempts(log, verify, now, deadline, interval)
    requires a == AttemptAt(verify, |log|, a.start, deadline) && a.start < deadline
    requires if log == [] then a.start == now
             else log[|log| - 1].reply.error.Some? && a.start == log[|log| - 1].reply.finish + interval
    ensures Attempts(log + [a], verify, now, deadline, interval)
  {
  }

  method WaitForEnrollment(now: nat, deadline: nat, interval: nat, verify: Verify)
    returns (result: Result, log: seq<Attempt>, end: nat)
    requires 0 < interval && Respects(verify)
    ensures Attempts(log, verify, now, deadline, interval) && Complete(log, now, deadline, interval)
    ensures result.Confirmed? <==> log != [] && log[|log| - 1].reply.error.None?
    ensures result.Confirmed? ==> end == log[|log| - 1].reply.finish
    ensures result.NotConfirmed? ==> end == if now < deadline then deadline else now
    ensures result.NotConfirmed? ==>
              result.lastError == if log == [] then None else log[|log| - 1].reply.error
    ensures now < deadline ==> end <= deadline
  {
    log, end := [], now;
    var lastError: Option<string> := None;
    while true
      invariant Attempts(log, verify, now, deadline, interval)
      invariant lastError == if log == [] then None else log[|log| - 1].reply.error
      invariant log == [] ==> end == now
      invariant log != [] ==> lastError.Some? && now < deadline
                              && end == Min(deadline, log[|log| - 1].reply.finish + interval)
      decreases if end < deadline then deadline - end else 0, if end < deadline then 1 else 0
    {
      if deadline <= end {
        return NotConfirmed(lastError), log, end;
      }
      var reply := verify(|log|, end, Min(deadline, end + ATTEMPT_LIMIT));
      OneMoreAttempt(log, Attempt(end, reply), verify, now, deadline, interval);
      log := log + [Attempt(end, reply)];
      lastError := reply.error;
      if lastError.None? {
        return Confirmed, log, reply.finish;
      }
      end := Min(deadline, reply.finish + interval);
    }
  }

  /** Attempts are an interval apart, so fewer than the time left divided by the interval, rounded up, fit. */
  lemma {:induction false} AttemptsAreBounded(log: seq<Attempt>, verify: Verify, now: nat, deadline: nat,
                                              interval: nat, k: nat)
    requires Respects(verify) && Attempts(log, verify, now, deadline, interval) && k < |log|
    ensures now + k * interval <= log[k].start < deadline
    ensures log[k].reply == verify(k, log[k].start,
                                   if log[k].start + 3000 <= deadline then log[k].start + 3000 else deadline)
  {
    assert log[k] == AttemptAt(verify, k, log[k].start, deadline);
    if k > 0 {
      AttemptsAreBounded(log, verify, now, deadline, interval, k - 1);
      assert log[k].start == log[k - 1].reply.finish + interval;
      assert log[k - 1] == AttemptAt(verify, k - 1, log[k - 1].start, deadline);
      assert k * interval == (k - 1) * interval + interval;
    }
  }

  lemma FailsBeforeNext(log: seq<Attempt>, verify: Verify, now: nat, deadline: nat, interval: nat, k: nat)
    requires Attempts(log, verify, now, deadline, interval) && k < |log|
    ensures k + 1 < |log| ==> log[k].reply.error.Some? && log[k].reply.finish + interval < deadline
  {
    if k + 1 < |log| { assert log[k + 1].start == log[k].reply.finish + interval; }
  }

  /** The contract leaves the loop no choice: two complete records of one wait are the same. */
  lemma {:induction false} AttemptsAreDetermined(a: seq<Attempt>, b: seq<Attempt>, verify: Verify,
                                                 now: nat, deadline: nat, interval: nat)
    requires Attempts(a, verify, now, deadline, interval) && Complete(a, now, deadline, interval)
    requires Attempts(b, verify, now, deadline, interval) && Complete(b, now, deadline, interval)
    ensures a == b
  {
    var k := 0;
    while k < |a| && k < |b|
      invariant k <= |a| && k <= |b|
      invariant forall j :: 0 <= j < k ==> a[j] == b[j]
    {
      if k > 0 {
        assert a[k - 1] == b[k - 1];
      }
      k := k + 1;
    }
    if k > 0 {
      FailsBeforeNext(a, verify, now, deadline, interval, k - 1);
      FailsBeforeNext(b, verify, now, deadline, interval, k - 1);
    }
    assert |a| == k && |b| == k;
  }

  /** An attempt that would succeed is enough, if the wait gets to make it. */
  lemma ReachedSuccessConfirms(log: seq<Attempt>, verify: Verify, now: nat, deadline: nat, interval: nat, k: nat)
    requires Attempts(log, verify, now, deadline, interval) && k < |log|
    requires verify(k, log[k].start, Min(deadline, log[k].start + ATTEMPT_LIMIT)).error.None?
    ensures k == |log| - 1 && log[|log| - 1].reply.error.None?
  {
    assert log[k] == AttemptAt(verify, k, log[k].start, deadline);
  }

  // ---- What one attempt verifies ----

  /** The bytes of a public key. */
  type Key = seq<bv8>

  datatype Info = InfoError(text: string) | Status(ok: bool, name: string)

  /** The vehicle's answers in one attempt: to the query about a key, and to opening a session. */
  datatype Answer = Answer(finish: nat, info: Info, sessionError: Option<string>)

  type Vehicle = (nat, nat, nat, Key) -> Answer

  ghost predicate VehicleRespects(car: Vehicle)
  {
    forall n: nat, start: nat, limit: nat, key: Key :: start <= limit ==>
      start <= car(n, start, limit, key).finish <= limit
  }

  function Verdict(answer: Answer, key: Key, ownKey: Key): Reply
  {
    Reply(answer.finish,
          if answer.info.InfoError? then Some(answer.info.text)
          else if !answer.info.ok then Some("vehicle has not enrolled the requested key (" + answer.info.name + ")")
          else if key == ownKey then answer.sessionError
          else None)
  }

  function Query(car: Vehicle, key: Key, ownKey: Key): Verify
  {
    (n: nat, start: nat, limit: nat) => Verdict(car(n, start, limit, key), key, ownKey)
  }

  lemma QueryRespects(car: Vehicle, key: Key, ownKey: Key)
    requires VehicleRespects(car)
    ensures Respects(Query(car, key, ownKey))
  {
  }

  /** This single attempt saw the requested key enrolled and, if it is the phone's own, opened a session. */
  ghost predicate SawEnrolled(car: Vehicle, n: nat, a: Attempt, deadline: nat, key: Key, ownKey: Key)
  {
    var answer := car(n, a.start, Min(deadline, a.start + ATTEMPT_LIMIT), key);
    && answer.info.Status? && answer.info.ok
    && (key == ownKey ==> answer.sessionError.None?)
    && answer.finish == a.reply.finish <= Min(deadline, a.start + ATTEMPT_LIMIT)
  }

  /** The last attempt of a wait succeeded exactly if it saw the key enrolled. */
  lemma LastAttemptSaw(log: seq<Attempt>, car: Vehicle, key: Key, ownKey: Key, now: nat, deadline: nat)
    requires VehicleRespects(car) && log != []
    requires Attempts(log, Query(car, key, ownKey), now, deadline, RETRY_INTERVAL)
    ensures log[|log| - 1].reply.error.None? <==>
            SawEnrolled(car, |log| - 1, log[|log| - 1], deadline, key, ownKey)
    ensures var a := log[|log| - 1];
            var answer := car(|log| - 1, a.start, Min(deadline, a.start + 3000), key);
            a.reply.error == if answer.info.InfoError? then Some(answer.info.text)
                             else if !answer.info.ok
                             then Some("vehicle has not enrolled the requested key (" + answer.info.name + ")")
                             else if key == ownKey then answer.sessionError else None
  {
    var n := |log| - 1;
    assert log[n] == AttemptAt(Query(car, key, ownKey), n, log[n].start, deadline);
  }

  /** A minute and a half leaves room for ninety attempts at most. */
  lemma AttemptsAreFew(log: seq<Attempt>, car: Vehicle, key: Key, ownKey: Key, now: nat)
    requires VehicleRespects(car)
    requires Attempts(log, Query(car, key, ownKey), now, now + GRACE_PERIOD, RETRY_INTERVAL)
    ensures |log| <= 90
  {
    if log != [] {
      QueryRespects(car, key, ownKey);
      AttemptsAreBounded(log, Query(car, key, ownKey), now, now + GRACE_PERIOD, RETRY_INTERVAL, |log| - 1);
    }
  }

  datatype Confirmation = KeysUnreadable | Waited(result: Result)

  method ConfirmEnrollment(publicKey: Option<Key>, ownKey: Option<Key>, now: nat, deadline: nat, car: Vehicle)
    returns (c: Confirmation, log: seq<Attempt>, end: nat)
    requires VehicleRespects(car)
    ensures c.KeysUnreadable? <==> publicKey.None? || ownKey.None?
    ensures c.KeysUnreadable? ==> log == [] && end == now
    ensures c.Waited? ==>
              && Attempts(log, Query(car, publicKey.value, ownKey.value), now, deadline, 1000)
              && Complete(log, now, deadline, 1000)
    ensures c == Waited(Confirmed) <==>
              publicKey.Some? && ownKey.Some? && log != []
              && SawEnrolled(car, |log| - 1, log[|log| - 1], deadline, publicKey.value, ownKey.value)
    ensures c.Waited? && c.result.NotConfirmed? ==> deadline <= end
    ensures now < deadline ==> end <= deadline
  {
    if publicKey.None? || ownKey.None? {
      return KeysUnreadable, [], now;
    }
    var verify := Query(car, publicKey.value, ownKey.value);
    QueryRespects(car, publicKey.value, ownKey.value);
    var result;
    result, log, end := WaitForEnrollment(now, deadline, RETRY_INTERVAL, verify);
    if log != [] {
      LastAttemptSaw(log, car, publicKey.value, ownKey.value, now, deadline);
    }
    c := Waited(result);
  }

  // ---- The pairing gate ----

  /** What the key files hold at one moment: public keys by path, and the phone's own public key. */
  datatype KeyFiles = KeyFiles(publicKey: string -> Option<Key>, ownKey: Option<Key>)

  /** Exit codes of the reply. */
  const OK_CODE: int := 0
  const FAILED_CODE: int := 1
  const REFUSED_CODE: int := 2

  /** Pairing is refused before any radio traffic unless the offered key is the phone's own. */
  predicate MayPair(args: seq<string>, files: KeyFiles)
  {
    |args| == 3 && files.publicKey(args[0]).Some? && files.publicKey(args[0]) == files.ownKey
  }

  /** The attempts made: the complete record of a wait if one began, otherwise none. */
  ghost predicate Record(log: seq<Attempt>, sent: bool, files: KeyFiles, path: string, now: nat, car: Vehicle)
  {
    if sent && files.publicKey(path).Some? && files.ownKey.Some? then
      && Attempts(log, Query(car, files.publicKey(path).value, files.ownKey.value),
                  now, now + 90_000, 1000)
      && Complete(log, now, now + 90_000, 1000)
    else log == []
  }

  class Session {
    /** Whether a link to the vehicle is up, and how many add-key requests were sent over it. */
    var linked: bool
    var requested: nat

    constructor ()
      ensures !linked && requested == 0
    {
      linked, requested := false, 0;
    }

    /** `add-key-request`: connect unless linked, send, wait for the approval, always drop the link. */
    method DispatchAddKey(args: seq<string>, connects: bool, sends: bool, files: KeyFiles, now: nat, car: Vehicle)
      returns (exitCode: int, log: seq<Attempt>, end: nat)
      requires |args| == 3 && VehicleRespects(car)
      modifies this
      ensures requested == old(requested) + if (old(linked) || connects) && sends then 1 else 0
      ensures !linked
      ensures exitCode == 0 <==>
                && (old(linked) || connects) && sends
                && files.publicKey(args[0]).Some? && files.ownKey.Some? && log != []
                && SawEnrolled(car, |log| - 1, log[|log| - 1], now + GRACE_PERIOD,
                               files.publicKey(args[0]).value, files.ownKey.value)
      ensures exitCode == 0 || exitCode == 1
      ensures Record(log, (old(linked) || connects) && sends, files, args[0], now, car)
      ensures end <= now + 90_000 && |log| <= 90
    {
      log, end := [], now;
      if !linked && !connects {
        return FAILED_CODE, log, end;
      }
      linked := true;
      var c := KeysUnreadable;
      if sends {
        requested := requested + 1;
        c, log, end := ConfirmEnrollment(files.publicKey(args[0]), files.ownKey, now, now + GRACE_PERIOD, car);
        if c.Waited? {
          AttemptsAreFew(log, car, files.publicKey(args[0]).value, files.ownKey.value, now);
        }
      }
      linked := false;
      exitCode := if c == Waited(Confirmed) then OK_CODE else FAILED_CODE;
    }

    /** `pair`: the gate, then the command above; `later` is what the key files hold once the car answers. */
    method DispatchPair(args: seq<string>, files: KeyFiles, connects: bool, sends: bool, later: KeyFiles,
                        now: nat, car: Vehicle)
      returns (exitCode: int, log: seq<Attempt>, end: nat)
      requires VehicleRespects(car)
      modifies this
      ensures exitCode == 2 <==>
                || |args| != 3 || files.publicKey(args[0]).None? || files.ownKey.None?
                || files.publicKey(args[0]).value != files.ownKey.value
      ensures exitCode in {0, 1, 2}
      ensures exitCode != REFUSED_CODE ==> !linked
      ensures exitCode == REFUSED_CODE ==> linked == old(linked) && requested == old(requested) && log == []
      ensures exitCode == 0 <==>
                && MayPair(args, files) && (old(linked) || connects) && sends
                && later.publicKey(args[0]).Some? && later.ownKey.Some? && log != []
                && SawEnrolled(car, |log| - 1, log[|log| - 1], now + GRACE_PERIOD,
                               later.publicKey(args[0]).value, later.ownKey.value)
      ensures exitCode == OK_CODE && later.ownKey == files.ownKey
              && later.publicKey(args[0]) == files.publicKey(args[0]) ==>
                car(|log| - 1, log[|log| - 1].start, Min(now + GRACE_PERIOD, log[|log| - 1].start + ATTEMPT_LIMIT),
                    files.ownKey.value).sessionError.None?
      ensures MayPair(args, files) ==> Record(log, (old(linked) || connects) && sends, later, args[0], now, car)
      ensures end <= now + 90_000 && |log| <= 90
    {
      if |args| != 3 {
        return REFUSED_CODE, [], now;
      }
      var publicKey := files.publicKey(args[0]);
      if publicKey.None? || files.ownKey.None? || publicKey.value != files.ownKey.value {
        return REFUSED_CODE, [], now;
      }
      exitCode, log, end := DispatchAddKey(args, connects, sends, later, now, car);
    }
  }
}
