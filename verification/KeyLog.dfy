/** The daily phone-key log: rotation and retention (helper/session/keylog.go). */
module KeyLog {
  import opened Prelude
  import opened LogDates

  // ---- Rotation ----

  datatype Line = Header(day: Date) | Entry(text: string)

  /** One call of `keylog`: the local date and the line, and whether opening and the two writes would work. */
  datatype Call = Call(day: Date, text: string, opens: bool, headerWrites: bool, writes: bool)

  /**
   * `day` is the recorded day, `file` the day whose file the open handle appends to, `open` all handles
   * that were opened and not closed.
   */
  datatype State = State(day: Option<Date>, file: Option<Date>, open: multiset<Date>, disk: map<Date, seq<Line>>)

  function Begin(disk: map<Date, seq<Line>>): State
  {
    State(None, None, multiset{}, disk)
  }

  function Append(disk: map<Date, seq<Line>>, day: Date, line: Line): map<Date, seq<Line>>
    requires day in disk
  {
    disk[day := disk[day] + [line]]
  }

  /** Reuse today's handle, or close the old one and open (perhaps create) today's file. */
  function OpenFor(s: State, c: Call): State
  {
    if s.file.Some? && s.day == Some(c.day) then s
    else
      var closed := if s.file.Some? then s.(file := None, open := s.open - multiset{s.file.value}) else s;
      if !c.opens then closed
      else
        var created := c.day !in s.disk;
        var disk := if created then s.disk[c.day := if c.headerWrites then [Header(c.day)] else []] else s.disk;
        State(Some(c.day), Some(c.day), closed.open + multiset{c.day}, disk)
  }

  function Log(s: State, c: Call): State
  {
    var t := OpenFor(s, c);
    if t.file.Some? && c.writes && t.file.value in t.disk
    then t.(disk := Append(t.disk, t.file.value, Entry(c.text))) else t
  }

  function LogAll(s: State, calls: seq<Call>): State
  {
    if calls == [] then s else Log(LogAll(s, calls[..|calls| - 1]), calls[|calls| - 1])
  }

  class KeyLogger {
    /** Whether the log directory has been set; before that nothing is logged to files. */
    var hasDir: bool
    var day: Option<Date>
    var file: Option<Date>
    var open: multiset<Date>
    var disk: map<Date, seq<Line>>
    var stderr: seq<string>

    constructor (existing: map<Date, seq<Line>>)
      ensures TheState() == Begin(existing) && !hasDir && stderr == []
    {
      hasDir, day, file, open, disk, stderr := false, None, None, multiset{}, existing, [];
    }

    function TheState(): State reads this { State(day, file, open, disk) }

    ghost predicate Valid() reads this { file.Some? ==> file.value in disk && file.value in open }

    method InitKeyLog()
      modifies `hasDir
      ensures hasDir
    {
      hasDir := true;
    }

    /** A new file, with its header unless writing that fails. */
    method Create(d: Date, headerWrites: bool)
      modifies `disk
      ensures disk == old(disk)[d := if headerWrites then [Header(d)] else []]
    {
      disk := disk[d := []];
      if headerWrites {
        disk := disk[d := disk[d] + [Header(d)]];
        assert disk[d] == [Header(d)];
      }
    }

    method OpenKeyLog(c: Call) returns (f: Option<Date>)
      requires Valid() && hasDir
      modifies `day, `file, `open, `disk
      ensures TheState() == OpenFor(old(TheState()), c) && Valid()
      ensures f == file
    {
      if file.Some? && day == Some(c.day) {
        return file;
      }
      if file.Some? {
        open := open - multiset{file.value};
        file := None;
      }
      var created := c.day !in disk;
      if !c.opens {
        return None;
      }
      if created {
        Create(c.day, c.headerWrites);
      }
      open := open + multiset{c.day};
      file := Some(c.day);
      day := Some(c.day);
      return file;
    }

    /** The line always reaches standard error, whatever happens to the file. */
    method Keylog(c: Call)
      requires Valid()
      modifies `day, `file, `open, `disk, `stderr
      ensures TheState() == if hasDir then Log(old(TheState()), c) else old(TheState())
      ensures stderr == old(stderr) + [c.text]
      ensures Valid()
    {
      if hasDir {
        var f := OpenKeyLog(c);
        if f.Some? && c.writes {
          disk := disk[f.value := disk[f.value] + [Entry(c.text)]];
        }
      }
      stderr := stderr + [c.text];
    }
  }

  // ---- What rotation promises ----

  /** From some call of the unbroken run of same-day calls that ends at `i` on, opening the file worked. */
  ghost predicate Accepted(calls: seq<Call>, i: int)
  {
    0 <= i < |calls| && exists j :: OpensUntil(calls, j, i)
  }

  ghost predicate OpensUntil(calls: seq<Call>, j: int, i: int)
  {
    0 <= j <= i < |calls| && calls[j].opens && forall k :: j <= k <= i ==> calls[k].day == calls[i].day
  }

  /** What the last call adds to the file of day `d`. */
  ghost function LastLine(calls: seq<Call>, d: Date): seq<Line>
    requires calls != []
  {
    var n := |calls| - 1;
    if calls[n].day == d && calls[n].writes && Accepted(calls, n) then [Entry(calls[n].text)] else []
  }

  /** The lines that reach the file of day `d`, in call order. */
  ghost function LinesFor(calls: seq<Call>, d: Date): seq<Line>
  {
    if calls == [] then [] else LinesFor(calls[..|calls| - 1], d) + LastLine(calls, d)
  }

  lemma AcceptedOfPrefix(calls: seq<Call>, n: nat, i: int)
    requires i < n <= |calls|
    ensures Accepted(calls[..n], i) <==> Accepted(calls, i)
  {
    if Accepted(calls, i) {
      var j :| OpensUntil(calls, j, i);
      assert OpensUntil(calls[..n], j, i);
    }
    if Accepted(calls[..n], i) {
      var j :| OpensUntil(calls[..n], j, i);
      assert OpensUntil(calls, j, i);
    }
  }

  lemma AcceptedNext(calls: seq<Call>)
    requires calls != []
    ensures var n := |calls| - 1;
            Accepted(calls, n) <==>
            calls[n].opens || (n > 0 && calls[n - 1].day == calls[n].day && Accepted(calls, n - 1))
  {
    var n := |calls| - 1;
    if Accepted(calls, n) && !calls[n].opens {
      var j :| OpensUntil(calls, j, n);
      assert OpensUntil(calls, j, n - 1);
    }
    if calls[n].opens {
      assert OpensUntil(calls, n, n);
    } else if n > 0 && calls[n - 1].day == calls[n].day && Accepted(calls, n - 1) {
      var j :| OpensUntil(calls, j, n - 1);
      assert OpensUntil(calls, j, n);
    }
  }

  /** The open handles are the current one or none, and it is that of the recorded day's file. */
  predicate Tidy(s: State)
  {
    && s.open == (if s.file.Some? then multiset{s.file.value} else multiset{})
    && (s.file.Some? ==> s.day == s.file && s.file.value in s.disk)
  }

  lemma StepIsTidy(s: State, c: Call)
    requires Tidy(s)
    ensures Tidy(Log(s, c))
    ensures Log(s, c).file == if c.opens || s.file == Some(c.day) then Some(c.day) else None
  {
    if s.file.Some? { assert multiset{s.file.value} - multiset{s.file.value} == multiset{}; }
    assert multiset{} + multiset{c.day} == multiset{c.day};
  }

  lemma OpenOnDisk(s: State, c: Call, d: Date)
    requires Tidy(s)
    ensures var t := OpenFor(s, c);
            && t.file == (if c.opens || s.file == Some(c.day) then Some(c.day) else None)
            && (t.file.Some? ==> c.day in t.disk)
            && if t.file == Some(d) && d !in s.disk
               then t.disk[d] == if c.headerWrites then [Header(d)] else []
               else (d in t.disk <==> d in s.disk) && (d in s.disk ==> t.disk[d] == s.disk[d])
  {
  }

  /** What a call does to the file of day `d`, given whether its line may go there. */
  ghost predicate DiskEffect(s: State, t: State, c: Call, takes: bool, d: Date)
  {
    if takes then
      && d in t.disk
      && t.disk[d] == (if d in s.disk then s.disk[d] else if c.headerWrites then [Header(d)] else [])
                      + if c.writes then [Entry(c.text)] else []
    else (d in t.disk <==> d in s.disk) && (d in s.disk ==> t.disk[d] == s.disk[d])
  }

  lemma StepOnDisk(s: State, c: Call, d: Date)
    requires Tidy(s)
    ensures DiskEffect(s, Log(s, c), c, c.day == d && (c.opens || s.file == Some(d)), d)
  {
    OpenOnDisk(s, c, d);
  }

  /** At most one handle is open; it is the current file's, of the recorded day and of the last call's day. */
  lemma {:induction false} OneHandle(disk: map<Date, seq<Line>>, calls: seq<Call>)
    ensures Tidy(LogAll(Begin(disk), calls))
    ensures LogAll(Begin(disk), calls).file ==
            if calls != [] && Accepted(calls, |calls| - 1) then Some(calls[|calls| - 1].day) else None
  {
    if calls != [] {
      var n := |calls| - 1;
      OneHandle(disk, calls[..n]);
      AcceptedNext(calls);
      if n > 0 { AcceptedOfPrefix(calls, n, n - 1); }
      StepIsTidy(LogAll(Begin(disk), calls[..n]), calls[n]);
    }
  }

  /** The first call whose line could go to the file of day `d`: the one that opened it first. */
  ghost predicate FirstFor(calls: seq<Call>, d: Date, i: int)
  {
    && Accepted(calls, i) && calls[i].day == d
    && forall j :: 0 <= j < i && calls[j].day == d ==> !Accepted(calls, j)
  }

  lemma AcceptedByState(disk: map<Date, seq<Line>>, calls: seq<Call>)
    requires calls != []
    ensures var n := |calls| - 1;
            Accepted(calls, n) <==> calls[n].opens || LogAll(Begin(disk), calls[..n]).file == Some(calls[n].day)
  {
    var n := |calls| - 1;
    OneHandle(disk, calls[..n]);
    AcceptedNext(calls);
    if n > 0 { AcceptedOfPrefix(calls, n, n - 1); }
  }

  lemma LogEffect(disk: map<Date, seq<Line>>, calls: seq<Call>, d: Date)
    requires calls != []
    ensures var n := |calls| - 1;
            DiskEffect(LogAll(Begin(disk), calls[..n]), LogAll(Begin(disk), calls), calls[n],
                       calls[n].day == d && Accepted(calls, n), d)
  {
    var n := |calls| - 1;
    AcceptedByState(disk, calls);
    OneHandle(disk, calls[..n]);
    StepOnDisk(LogAll(Begin(disk), calls[..n]), calls[n], d);
  }

  /** A file that exists takes the last call's line at its end. */
  lemma LogAppends(disk: map<Date, seq<Line>>, calls: seq<Call>, d: Date)
    requires calls != [] && d in LogAll(Begin(disk), calls[..|calls| - 1]).disk
    ensures var s, t := LogAll(Begin(disk), calls[..|calls| - 1]), LogAll(Begin(disk), calls);
            d in t.disk && t.disk[d] == s.disk[d] + LastLine(calls, d)
  {
    LogEffect(disk, calls, d);
  }

  /** A file that was there before only grows, by its day's accepted lines in call order. */
  lemma {:induction false} ExistingFileGrows(disk: map<Date, seq<Line>>, calls: seq<Call>, d: Date)
    requires d in disk
    ensures var s := LogAll(Begin(disk), calls);
            d in s.disk && s.disk[d] == disk[d] + LinesFor(calls, d)
  {
    if calls != [] {
      ExistingFileGrows(disk, calls[..|calls| - 1], d);
      LaterLine(disk, calls, d, disk[d]);
    }
  }

  lemma NotYet(disk: map<Date, seq<Line>>, calls: seq<Call>, d: Date)
    requires d !in disk && forall i :: 0 <= i < |calls| && calls[i].day == d ==> !Accepted(calls, i)
    ensures d !in LogAll(Begin(disk), calls).disk && LinesFor(calls, d) == []
  {
    if calls != [] {
      var n := |calls| - 1;
      forall i | 0 <= i < n && calls[..n][i].day == d ensures !Accepted(calls[..n], i) {
        AcceptedOfPrefix(calls, n, i);
      }
      NotYet(disk, calls[..n], d);
      LogEffect(disk, calls, d);
    }
  }

  /**
   * A file this logger creates starts with its header, once (unless writing the header failed), and goes on
   * with its day's accepted lines in call order; it is not created before its first accepted call.
   */
  lemma {:induction false} CreatedFileIsHeaderAndLines(disk: map<Date, seq<Line>>, calls: seq<Call>, d: Date,
                                                       first: nat)
    requires d !in disk && FirstFor(calls, d, first)
    ensures var s := LogAll(Begin(disk), calls);
            d in s.disk
            && s.disk[d] == (if calls[first].headerWrites then [Header(d)] else []) + LinesFor(calls, d)
  {
    var n := |calls| - 1;
    var init := calls[..n];
    if first == n {
      NotBefore(calls, init, d);
      NotYet(disk, init, d);
      LogEffect(disk, calls, d);
    } else {
      FirstOfPrefix(calls, d, first);
      CreatedFileIsHeaderAndLines(disk, init, d, first);
      LaterLine(disk, calls, d, if calls[first].headerWrites then [Header(d)] else []);
    }
  }

  lemma NotBefore(calls: seq<Call>, init: seq<Call>, d: Date)
    requires calls != [] && init == calls[..|calls| - 1] && FirstFor(calls, d, |init|)
    ensures forall i :: 0 <= i < |init| && init[i].day == d ==> !Accepted(init, i)
  {
    forall i | 0 <= i < |init| && init[i].day == d ensures !Accepted(init, i) {
      AcceptedOfPrefix(calls, |init|, i);
    }
  }

  lemma FirstOfPrefix(calls: seq<Call>, d: Date, first: nat)
    requires first < |calls| - 1 && FirstFor(calls, d, first)
    ensures FirstFor(calls[..|calls| - 1], d, first)
  {
    var n := |calls| - 1;
    AcceptedOfPrefix(calls, n, first);
    forall j | 0 <= j < first && calls[..n][j].day == d ensures !Accepted(calls[..n], j) {
      AcceptedOfPrefix(calls, n, j);
    }
  }

  lemma LaterLine(disk: map<Date, seq<Line>>, calls: seq<Call>, d: Date, front: seq<Line>)
    requires calls != []
    requires var s := LogAll(Begin(disk), calls[..|calls| - 1]);
             d in s.disk && s.disk[d] == front + LinesFor(calls[..|calls| - 1], d)
    ensures var s := LogAll(Begin(disk), calls);
            d in s.disk && s.disk[d] == front + LinesFor(calls, d)
  {
    LogAppends(disk, calls, d);
    Associate(front, LinesFor(calls[..|calls| - 1], d), LastLine(calls, d));
  }

  lemma Associate(a: seq<Line>, b: seq<Line>, c: seq<Line>)
    ensures a + b + c == a + (b + c)
  {
  }

  // ---- Retention ----

  /** Nanoseconds. */
  const DAY: int := 86_400_000_000_000
  const HOUR: int := 3_600_000_000_000
  const KEEP_DAYS: int := 7

  /**
   * "Seven days ago": the local date minus seven days at the local time of day, as an instant. `zone` is the
   * offset from UTC in force there; it may differ from today's.
   */
  function Cutoff(today: CivilDate, timeOfDay: int, zone: int): int
    requires OnCalendar(today)
  {
    (DayNumber(today) - KEEP_DAYS) * DAY + timeOfDay - zone
  }

  /** A log file is stale if the UTC midnight of its date lies before the cutoff. */
  predicate Stale(name: string, cutoff: int)
  {
    DateOf(name).Some? && DayNumber(DateOf(name).value) * DAY < cutoff
  }

  function IsStale(cutoff: int): string -> bool
  {
    (name: string) => Stale(name, cutoff)
  }

  /** The entries whose removal is attempted, in directory order; an unreadable directory has none. */
  method PruneKeyLogs(entries: Option<seq<string>>, today: CivilDate, timeOfDay: int, zone: int)
    returns (attempted: seq<string>)
    requires OnCalendar(today)
    ensures attempted == if entries.None? then []
                         else Filter(entries.value, IsStale(Cutoff(today, timeOfDay, zone)))
  {
    attempted := [];
    if entries.None? {
      return;
    }
    var cutoff := Cutoff(today, timeOfDay, zone);
    var names := entries.value;
    assert names[..0] == [];
    for k := 0 to |names|
      invariant attempted == Filter(names[..k], IsStale(cutoff))
    {
      var name := names[k];
      assert names[..k + 1] == names[..k] + [name];
      FilterSnoc(names[..k], name, IsStale(cutoff));
      if !(PREFIX <= name) || !HasSuffix(name, SUFFIX) {
        continue;
      }
      var day := Parse(TrimSuffix(TrimPrefix(name, PREFIX), SUFFIX));
      if day.None? {
        continue;
      }
      if DayNumber(day.value) * DAY < cutoff {
        attempted := attempted + [name];
      }
    }
    assert names[..|names|] == names;
  }

  predicate Clock(timeOfDay: int, zone: int)
  {
    0 <= timeOfDay < DAY && -12 * HOUR <= zone <= 14 * HOUR
  }

  /** Staleness in nanoseconds of the clock, `age` days after the log's date. */
  lemma StaleByClock(d: Date, today: CivilDate, age: int, timeOfDay: int, zone: int)
    requires OnCalendar(today) && DayNumber(today) == DayNumber(d) + age
    ensures Stale(LogName(d), Cutoff(today, timeOfDay, zone)) <==>
            (7 - age) * 86_400_000_000_000 < timeOfDay - zone
  {
    DateOfIff(LogName(d), d);
  }

  /**
   * At every time of day and in every zone, a log dated at most five days before the local date is kept and
   * one dated at least eight days before it goes. Whether one in between goes depends on the clock alone.
   */
  lemma RetentionBounds(d: Date, age: nat, timeOfDay: int, zone: int)
    requires Clock(timeOfDay, zone)
    ensures var gone := Stale(LogName(d), Cutoff(After(d, age), timeOfDay, zone));
            && (age <= 5 ==> !gone) && (8 <= age ==> gone)
            && (age == 6 ==> (gone <==> 86_400_000_000_000 < timeOfDay - zone))
            && (age == 7 ==> (gone <==> zone < timeOfDay))
  {
    DayNumberAfter(d, age);
    StaleByClock(d, After(d, age), age, timeOfDay, zone);
    if age <= 5 {
      assert 2 * DAY <= (KEEP_DAYS - age) * DAY;
    } else if 8 <= age {
      assert (KEEP_DAYS - age) * DAY <= -DAY;
    }
  }

  /** A log dated after the local date stays. */
  lemma FutureLogsStay(d: Date, today: CivilDate, ahead: nat, timeOfDay: int, zone: int)
    requires Clock(timeOfDay, zone) && OnCalendar(today) && d == After(today, ahead)
    ensures !Stale(LogName(d), Cutoff(today, timeOfDay, zone))
  {
    DayNumberAfter(today, ahead);
    StaleByClock(d, today, 0 - ahead as int, timeOfDay, zone);
    assert 7 * DAY <= (7 + ahead) * DAY;
  }

  /** Both ends are reached: a log of six days ago can go, and one of seven days ago can stay. */
  lemma BoundsAreTight(d: Date)
    ensures exists timeOfDay, zone :: Clock(timeOfDay, zone)
              && Stale(LogName(d), Cutoff(After(d, 6), timeOfDay, zone))
    ensures exists timeOfDay, zone :: Clock(timeOfDay, zone)
              && !Stale(LogName(d), Cutoff(After(d, 7), timeOfDay, zone))
  {
    RetentionBounds(d, 6, 18 * HOUR, -12 * HOUR);
    RetentionBounds(d, 7, 0, 0);
    assert Clock(18 * HOUR, -12 * HOUR) && Clock(0, 0);
  }

  /** Nothing but a log file of the logger's own naming is ever touched. */
  lemma OnlyLogsArePruned(entries: seq<string>, cutoff: int, name: string)
    requires name in Filter(entries, IsStale(cutoff))
    ensures name in entries && exists d: Date :: name == LogName(d)
  {
    var d := DateOf(name).value;
    DateOfIff(name, d);
    assert name == LogName(d);
  }
}
