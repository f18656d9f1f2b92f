/** `AutomagicSetup::install` as an update of three JSON files that can stop after any of them. */
module Install {
  import opened Prelude
  import opened Upsert
  import opened FlowLang
  import opened HotspotFlows
  import opened HotspotJson

  // ---- What is installed ----

  const SOURCES := "data_sources.json"
  const ACTIONS := "actions.json"
  const FLOWS := "flows.json"

  function SourceItems(): seq<Json>
  {
    [ DbusSource("eel_inside", "ElectricEel inside car", "presence_inside"),
      DbusSource("eel_far", "ElectricEel walked away", "presence_far"),
      DbusSource("eel_near", "ElectricEel connected", "presence_near"),
      DbusSource("eel_auth_ok", "ElectricEel authorized", "presence_auth_ok"),
      DbusSource("eel_presence", "ElectricEel presence", "") ]
  }

  function ActionItems(): seq<Json>
  {
    [ TetherAction(HOTSPOT_ON, "ElectricEel hotspot on", true),
      TetherAction(HOTSPOT_OFF, "ElectricEel hotspot off", false) ]
  }

  function OnFlow(): FlowSpec
  {
    FlowSpec("eel_flow_hotspot_on", "ElectricEel hotspot on", "eel_inside", InsideFlow())
  }

  function OffFlow(): FlowSpec
  {
    FlowSpec("eel_flow_hotspot_off", "ElectricEel hotspot off", "eel_far", AwayFlow())
  }

  function FlowItems(): seq<Json>
  {
    [FlowJson(OnFlow()), FlowJson(OffFlow())]
  }

  // ---- One file ----

  datatype File = Missing | NotAnObject | Document(root: map<string, Json>)

  /** What the file system lets one update do. */
  datatype Io = Fine | CannotRead | CannotWrite | CannotSave

  datatype Failure = Unreadable | NotAutomagicJson | Unwritable | NotCommitted

  /** `toInt(1)`: an integral number in the range of a 32-bit int, otherwise 1. */
  function Version(root: map<string, Json>): int
  {
    if "version" in root && root["version"].Num? && root["version"].r.Floor as real == root["version"].r
       && -0x8000_0000 <= root["version"].r.Floor <= 0x7fff_ffff
    then root["version"].r.Floor else 1
  }

  /** `toArray()`: the empty list for anything that is no list. */
  function Data(f: File): seq<Json>
  {
    if f.Document? && "data" in f.root && f.root["data"].Arr? then f.root["data"].items else []
  }

  function Merged(f: File, items: seq<Json>): File
  {
    var version := if f.Document? then Version(f.root) else 1;
    Document(map["version" := Num(version as real), "data" := Arr(UpsertAll(Data(f), items))])
  }

  function FailureOf(f: File, io: Io): Option<Failure>
  {
    if !f.Missing? && io == CannotRead then Some(Unreadable)
    else if f.NotAnObject? then Some(NotAutomagicJson)
    else if io == CannotWrite then Some(Unwritable)
    else if io == CannotSave then Some(NotCommitted)
    else None
  }

  /**
   * One successful update, on the JSON itself. Whatever other keys the file has: a list under "data" becomes
   * its merge, in which entries with other ids keep contents and order; anything else there, or nothing,
   * becomes the merge of the empty list. An integral version that fits 32 bits is kept; any other becomes 1.
   */
  lemma UpdateOnRoot(root: map<string, Json>, items: seq<Json>, ids: set<string>)
    requires forall x :: x in items ==> Id(x) in ids
    ensures Merged(Document(root), items).Document?
    ensures Merged(Document(root), items).root.Keys == {"version", "data"}
    ensures forall xs :: "data" in root && root["data"] == Arr(xs) ==>
              && Merged(Document(root), items).root["data"] == Arr(UpsertAll(xs, items))
              && Filter(UpsertAll(xs, items), NotIn(ids)) == Filter(xs, NotIn(ids))
    ensures "data" !in root || !root["data"].Arr? ==>
              Merged(Document(root), items).root["data"] == Arr(UpsertAll([], items))
    ensures Merged(Document(root), items).root["version"] ==
            if "version" in root && root["version"].Num? && root["version"].r.Floor as real == root["version"].r
               && -2147483648.0 <= root["version"].r <= 2147483647.0
            then root["version"] else Num(1.0)
  {
    assert |"version"| == 7 && |"data"| == 4;
    if "data" in root && root["data"].Arr? { MergeKeepsTheRest(root["data"].items, items, ids); }
  }

  /** A file that is missing is created with version 1 and the items alone. */
  lemma UpdateOfMissing(items: seq<Json>)
    ensures Merged(Missing, items) == Document(map["version" := Num(1.0), "data" := Arr(UpsertAll([], items))])
  {
  }

  /** Which failure stops an update: reading, then the kind of file, then writing, then committing. */
  lemma FailureIs(f: File, io: Io)
    ensures FailureOf(f, io) == Some(Unreadable) <==> f != Missing && io == CannotRead
    ensures FailureOf(f, io) == Some(NotAutomagicJson) <==> f == NotAnObject && io != CannotRead
    ensures FailureOf(f, io) == Some(Unwritable) <==> f != NotAnObject && io == CannotWrite
    ensures FailureOf(f, io) == Some(NotCommitted) <==> f != NotAnObject && io == CannotSave
    ensures FailureOf(f, io) == None <==>
            (f == Missing && io == CannotRead) || (f != NotAnObject && io == Fine)
  {
  }

  lemma MergedData(f: File, items: seq<Json>)
    ensures Data(Merged(f, items)) == UpsertAll(Data(f), items)
    ensures Merged(f, items).Document?
  {
  }

  /** The version survives, everything else at the top level but the list is dropped. */
  lemma MergedRoot(f: File, items: seq<Json>)
    ensures Merged(f, items).root.Keys == {"version", "data"}
    ensures f.Document? ==> Version(Merged(f, items).root) == Version(f.root)
    ensures !f.Document? ==> Version(Merged(f, items).root) == 1
  {
    var version := if f.Document? then Version(f.root) else 1;
    assert |"version"| != |"data"|;
    assert (version as real).Floor == version;
    assert Merged(f, items).root["version"] == Num(version as real);
  }

  /** Updating a file a second time with the same items writes the same file. */
  lemma MergedTwice(f: File, items: seq<Json>)
    ensures Merged(Merged(f, items), items) == Merged(f, items)
  {
    MergeIsIdempotent(Data(f), items);
    var version := if f.Document? then Version(f.root) else 1;
    assert (version as real).Floor == version;
    assert "version" in Merged(f, items).root && Merged(f, items).root["version"] == Num(version as real);
    assert Version(Merged(f, items).root) == version;
  }

  // ---- The three files ----

  type Files = map<string, File>

  function FileAt(files: Files, name: string): File
  {
    if name in files then files[name] else Missing
  }

  datatype Update = Update(name: string, items: seq<Json>)

  function Plan(): seq<Update>
  {
    [Update(SOURCES, SourceItems()), Update(ACTIONS, ActionItems()), Update(FLOWS, FlowItems())]
  }

  datatype Outcome = Outcome(files: Files, failure: Option<Failure>)

  /** Updates in order, stopping at the first that fails; `ios[k]` is what happens to the k-th. */
  function Perform(files: Files, plan: seq<Update>, ios: seq<Io>): Outcome
    requires |ios| == |plan|
    decreases |plan|
  {
    if plan == [] then Outcome(files, None)
    else
      var f := FileAt(files, plan[0].name);
      if FailureOf(f, ios[0]).Some? then Outcome(files, FailureOf(f, ios[0]))
      else Perform(files[plan[0].name := Merged(f, plan[0].items)], plan[1..], ios[1..])
  }

  /** The configuration directory and the methods that rewrite its files. */
  class AutomagicSetup {
    var files: Files

    constructor (existing: Files)
      ensures files == existing
    {
      files := existing;
    }

    /** A failed update leaves every file as it was; a successful one replaces exactly this file. */
    method UpsertFile(name: string, items: seq<Json>, io: Io) returns (failure: Option<Failure>)
      modifies this
      ensures failure == FailureOf(FileAt(old(files), name), io)
      ensures failure.None? <==>
                if name !in old(files) || old(files)[name] == Missing then io in {Fine, CannotRead}
                else old(files)[name].Document? && io == Fine
      ensures files == if failure.Some? then old(files)
                       else old(files)[name := Merged(FileAt(old(files), name), items)]
    {
      var data := [];
      var version := 1;
      var f := if name in files then files[name] else Missing;
      if !f.Missing? {
        if io == CannotRead {
          return Some(Unreadable);
        }
        if !f.Document? {
          return Some(NotAutomagicJson);
        }
        version := Version(f.root);
        data := if "data" in f.root && f.root["data"].Arr? then f.root["data"].items else [];
      }
      var merged := MergeItems(data, items);
      if io == CannotWrite {
        return Some(Unwritable);
      }
      if io == CannotSave {
        return Some(NotCommitted);
      }
      files := files[name := Document(map["version" := Num(version as real), "data" := Arr(merged)])];
      return None;
    }

    method Install(dirExists: bool, io0: Io, io1: Io, io2: Io) returns (ok: bool, failure: Option<Failure>)
      modifies this
      ensures !dirExists ==> !ok && files == old(files)
      ensures dirExists ==> Outcome(files, failure) == Perform(old(files), Plan(), [io0, io1, io2])
      ensures dirExists ==> ok == failure.None?
    {
      failure := None;
      if !dirExists {
        return false, None;
      }
      PerformThree(files, Plan(), [io0, io1, io2]);
      failure := UpsertFile(SOURCES, SourceItems(), io0);
      if failure.None? {
        failure := UpsertFile(ACTIONS, ActionItems(), io1);
      }
      if failure.None? {
        failure := UpsertFile(FLOWS, FlowItems(), io2);
      }
      ok := failure.None?;
    }
  }

  function Single(files: Files, u: Update, io: Io): Outcome
  {
    var f := FileAt(files, u.name);
    if FailureOf(f, io).Some? then Outcome(files, FailureOf(f, io))
    else Outcome(files[u.name := Merged(f, u.items)], None)
  }

  lemma PerformStep(files: Files, plan: seq<Update>, ios: seq<Io>)
    requires |ios| == |plan| > 0
    ensures var a := Single(files, plan[0], ios[0]);
            Perform(files, plan, ios) == if a.failure.Some? then a else Perform(a.files, plan[1..], ios[1..])
  {
  }

  lemma PerformThree(files: Files, p: seq<Update>, ios: seq<Io>)
    requires |p| == |ios| == 3
    ensures Perform(files, p, ios) ==
            var a := Single(files, p[0], ios[0]);
            if a.failure.Some? then a else
            var b := Single(a.files, p[1], ios[1]);
            if b.failure.Some? then b else Single(b.files, p[2], ios[2])
  {
    var a := Single(files, p[0], ios[0]);
    var b := Single(a.files, p[1], ios[1]);
    PerformStep(files, p, ios);
    PerformStep(a.files, p[1..], ios[1..]);
    PerformStep(b.files, p[1..][1..], ios[1..][1..]);
  }

  // ---- Convergence ----

  predicate DistinctNames(plan: seq<Update>)
  {
    forall i, j :: 0 <= i < j < |plan| ==> plan[i].name != plan[j].name
  }

  /** Every file is either as it was or, if an object or missing before, holds exactly its own update. */
  ghost predicate Underway(was: Files, now: Files, plan: seq<Update>)
  {
    && (forall name :: (forall k :: 0 <= k < |plan| ==> plan[k].name != name) ==>
          FileAt(now, name) == FileAt(was, name))
    && (forall k :: 0 <= k < |plan| ==>
          || FileAt(now, plan[k].name) == FileAt(was, plan[k].name)
          || (FileAt(now, plan[k].name) == Merged(FileAt(was, plan[k].name), plan[k].items)
              && !FileAt(was, plan[k].name).NotAnObject?))
  }

  /** A performed tail of the plan touches only the names in that tail. */
  lemma {:induction false} PerformFrames(files: Files, plan: seq<Update>, ios: seq<Io>, name: string)
    requires |ios| == |plan| && forall k :: 0 <= k < |plan| ==> plan[k].name != name
    ensures FileAt(Perform(files, plan, ios).files, name) == FileAt(files, name)
    decreases |plan|
  {
    if plan != [] && FailureOf(FileAt(files, plan[0].name), ios[0]).None? {
      var merged := Merged(FileAt(files, plan[0].name), plan[0].items);
      PerformFrames(files[plan[0].name := merged], plan[1..], ios[1..], name);
    }
  }

  /** The file of the k-th update ends up merged or untouched; it is merged if nothing fails. */
  lemma {:induction false} PerformAt(files: Files, plan: seq<Update>, ios: seq<Io>, k: nat)
    requires |ios| == |plan| && DistinctNames(plan) && k < |plan|
    ensures var now := FileAt(Perform(files, plan, ios).files, plan[k].name);
            var merged := Merged(FileAt(files, plan[k].name), plan[k].items);
            && (now == FileAt(files, plan[k].name) || (now == merged && !FileAt(files, plan[k].name).NotAnObject?))
            && (Perform(files, plan, ios).failure.None? ==> now == merged)
    decreases |plan|
  {
    var f := FileAt(files, plan[0].name);
    if FailureOf(f, ios[0]).None? {
      var next := files[plan[0].name := Merged(f, plan[0].items)];
      if k == 0 {
        PerformFrames(next, plan[1..], ios[1..], plan[0].name);
      } else {
        PerformAt(next, plan[1..], ios[1..], k - 1);
      }
    }
  }

  lemma {:induction false} NoneFails(files: Files, plan: seq<Update>, ios: seq<Io>)
    requires |ios| == |plan| && DistinctNames(plan)
    ensures Perform(files, plan, ios).failure.None? <==>
            forall k :: 0 <= k < |plan| ==> FailureOf(FileAt(files, plan[k].name), ios[k]).None?
    decreases |plan|
  {
    if plan != [] && FailureOf(FileAt(files, plan[0].name), ios[0]).None? {
      var next := files[plan[0].name := Merged(FileAt(files, plan[0].name), plan[0].items)];
      NoneFails(next, plan[1..], ios[1..]);
      forall k | 1 <= k < |plan| ensures FileAt(next, plan[k].name) == FileAt(files, plan[k].name) {}
      assert forall k :: 1 <= k < |plan| ==> plan[1..][k - 1] == plan[k] && ios[1..][k - 1] == ios[k];
    }
  }

  /**
   * The updates succeed exactly if every file involved is missing or a JSON object, and every operation on it
   * works; a file that is missing is never read.
   */
  lemma SucceedsIff(files: Files, plan: seq<Update>, ios: seq<Io>)
    requires |ios| == |plan| && DistinctNames(plan)
    ensures Perform(files, plan, ios).failure.None? <==>
            forall k :: 0 <= k < |plan| ==>
              if plan[k].name !in files || files[plan[k].name] == Missing then ios[k] in {Fine, CannotRead}
              else files[plan[k].name].Document? && ios[k] == Fine
  {
    NoneFails(files, plan, ios);
    forall k | 0 <= k < |plan|
      ensures FailureOf(FileAt(files, plan[k].name), ios[k]).None? <==>
              if plan[k].name !in files || files[plan[k].name] == Missing then ios[k] in {Fine, CannotRead}
              else files[plan[k].name].Document? && ios[k] == Fine
    {
      FailureIs(FileAt(files, plan[k].name), ios[k]);
    }
  }

  /** An interrupted installation keeps every file either as it was or completely updated. */
  lemma PerformStaysUnderway(was: Files, files: Files, plan: seq<Update>, ios: seq<Io>)
    requires |ios| == |plan| && DistinctNames(plan) && Underway(was, files, plan)
    ensures Underway(was, Perform(files, plan, ios).files, plan)
  {
    forall k | 0 <= k < |plan|
      ensures || FileAt(Perform(files, plan, ios).files, plan[k].name) == FileAt(was, plan[k].name)
              || (FileAt(Perform(files, plan, ios).files, plan[k].name)
                    == Merged(FileAt(was, plan[k].name), plan[k].items)
                  && !FileAt(was, plan[k].name).NotAnObject?)
    {
      PerformAt(files, plan, ios, k);
      MergedTwice(FileAt(was, plan[k].name), plan[k].items);
    }
    forall name | forall k :: 0 <= k < |plan| ==> plan[k].name != name
      ensures FileAt(Perform(files, plan, ios).files, name) == FileAt(was, name)
    {
      PerformFrames(files, plan, ios, name);
    }
  }

  /** Any number of installations, each stopping wherever it does. */
  function Attempts(files: Files, plan: seq<Update>, tries: seq<seq<Io>>): Files
    requires forall t :: t in tries ==> |t| == |plan|
    decreases |tries|
  {
    if tries == [] then files
    else
      assert tries[0] in tries;
      Attempts(Perform(files, plan, tries[0]).files, plan, tries[1..])
  }

  lemma {:induction false} AttemptsStayUnderway(was: Files, files: Files, plan: seq<Update>, tries: seq<seq<Io>>)
    requires (forall t :: t in tries ==> |t| == |plan|) && DistinctNames(plan) && Underway(was, files, plan)
    ensures Underway(was, Attempts(files, plan, tries), plan)
    decreases |tries|
  {
    if tries != [] {
      assert tries[0] in tries;
      PerformStaysUnderway(was, files, plan, tries[0]);
      AttemptsStayUnderway(was, Perform(files, plan, tries[0]).files, plan, tries[1..]);
    }
  }

  lemma PlanNames()
    ensures DistinctNames(Plan())
  {
    assert |SOURCES| != |ACTIONS| && |SOURCES| != |FLOWS| && |ACTIONS| != |FLOWS|;
  }

  /** What an interrupted installation left can only be completed if a fresh one would succeed. */
  lemma FineSucceeds(files: Files, mid: Files, plan: seq<Update>, ios: seq<Io>, fine: seq<Io>)
    requires DistinctNames(plan) && |ios| == |fine| == |plan| && Underway(files, mid, plan)
    requires forall k :: 0 <= k < |fine| ==> fine[k] == Fine
    requires Perform(mid, plan, ios).failure.None?
    ensures Perform(files, plan, fine).failure.None?
  {
    NoneFails(mid, plan, ios);
    NoneFails(files, plan, fine);
    forall k | 0 <= k < |plan| ensures FailureOf(FileAt(files, plan[k].name), fine[k]).None? {
      assert FailureOf(FileAt(mid, plan[k].name), ios[k]).None?;
    }
  }

  /** And completing it leaves each planned file as a fresh one does. */
  lemma CompletedAlike(files: Files, mid: Files, plan: seq<Update>, ios: seq<Io>, fine: seq<Io>, k: nat)
    requires DistinctNames(plan) && |ios| == |fine| == |plan| && Underway(files, mid, plan) && k < |plan|
    requires Perform(mid, plan, ios).failure.None? && Perform(files, plan, fine).failure.None?
    ensures FileAt(Perform(mid, plan, ios).files, plan[k].name) ==
            FileAt(Perform(files, plan, fine).files, plan[k].name)
  {
    PerformAt(mid, plan, ios, k);
    PerformAt(files, plan, fine, k);
    MergedTwice(FileAt(files, plan[k].name), plan[k].items);
  }

  /**
   * Crash convergence, for every plan of distinct files and so (PlanNames) for the installed one: after any
   * number of installations that each stopped after any number of files, one that succeeds leaves, under
   * every name, exactly what a single uninterrupted installation leaves.
   */
  lemma {:induction false} InstallConverges(files: Files, plan: seq<Update>, tries: seq<seq<Io>>,
                                            ios: seq<Io>, fine: seq<Io>, name: string)
    requires DistinctNames(plan) && |ios| == |fine| == |plan| && forall t :: t in tries ==> |t| == |plan|
    requires forall k :: 0 <= k < |fine| ==> fine[k] == Fine
    requires Perform(Attempts(files, plan, tries), plan, ios).failure.None?
    ensures Perform(files, plan, fine).failure.None?
    ensures FileAt(Perform(Attempts(files, plan, tries), plan, ios).files, name) ==
            FileAt(Perform(files, plan, fine).files, name)
  {
    var mid := Attempts(files, plan, tries);
    AttemptsStayUnderway(files, files, plan, tries);
    FineSucceeds(files, mid, plan, ios, fine);
    if k :| 0 <= k < |plan| && plan[k].name == name {
      CompletedAlike(files, mid, plan, ios, fine, k);
    } else {
      PerformFrames(mid, plan, ios, name);
      PerformFrames(files, plan, fine, name);
    }
  }

  /**
   * Whether it succeeds or stops anywhere, an installation keeps every unrelated item of a file's list, in
   * order, whatever else the file holds.
   */
  lemma UnrelatedItemsSurvive(files: Files, plan: seq<Update>, ios: seq<Io>, k: nat, ids: set<string>,
                              root: map<string, Json>)
    requires |ios| == |plan| && DistinctNames(plan) && k < |plan|
    requires forall x :: x in plan[k].items ==> Id(x) in ids
    requires plan[k].name in files && files[plan[k].name] == Document(root)
    requires "data" in root && root["data"].Arr?
    ensures var now := Perform(files, plan, ios).files;
            && plan[k].name in now && now[plan[k].name].Document? && "data" in now[plan[k].name].root
            && now[plan[k].name].root["data"].Arr?
            && Filter(now[plan[k].name].root["data"].items, NotIn(ids)) == Filter(root["data"].items, NotIn(ids))
  {
    PerformAt(files, plan, ios, k);
    UpdateOnRoot(root, plan[k].items, ids);
    assert "data" in {"version", "data"};
    assert root["data"] == Arr(root["data"].items);
  }

  // ---- What the installed flows name resolves ----

  lemma SourcesById()
    ensures LastItem(SourceItems(), "eel_inside") == Some(SourceItems()[0])
    ensures LastItem(SourceItems(), "eel_far") == Some(SourceItems()[1])
  {
    var s := SourceItems();
    assert Id(s[0]) == "eel_inside" && Id(s[1]) == "eel_far" && Id(s[2]) == "eel_near";
    assert Id(s[3]) == "eel_auth_ok" && Id(s[4]) == "eel_presence";
    assert |"eel_inside"| == 10 && |"eel_far"| == 7 && |"eel_near"| == 8;
    LastItemAt(s, 0);
    LastItemAt(s, 1);
  }

  lemma ActionsById()
    ensures LastItem(ActionItems(), HOTSPOT_ON) == Some(ActionItems()[0])
    ensures LastItem(ActionItems(), HOTSPOT_OFF) == Some(ActionItems()[1])
  {
    var a := ActionItems();
    assert Id(a[0]) == HOTSPOT_ON && Id(a[1]) == HOTSPOT_OFF && |HOTSPOT_ON| != |HOTSPOT_OFF|;
    LastItemAt(a, 0);
    LastItemAt(a, 1);
  }

  lemma FlowsById()
    ensures LastItem(FlowItems(), OnFlow().id) == Some(FlowJson(OnFlow()))
    ensures LastItem(FlowItems(), OffFlow().id) == Some(FlowJson(OffFlow()))
  {
    var f := FlowItems();
    assert Id(f[0]) == OnFlow().id && Id(f[1]) == OffFlow().id && |OnFlow().id| != |OffFlow().id|;
    LastItemAt(f, 0);
    LastItemAt(f, 1);
  }

  lemma Found(f: File, items: seq<Json>, id: string)
    requires LastItem(items, id).Some?
    ensures Lookup(Data(Merged(f, items)), id) == LastItem(items, id)
  {
    MergedData(f, items);
    LastItemIn(items, id);
    MergeOverrides(Data(f), items, id);
  }

  /** The list of a merged file, on its JSON. */
  lemma ListOf(f: File, items: seq<Json>)
    ensures var m := Merged(f, items);
            m.Document? && "data" in m.root && m.root["data"] == Arr(Data(m))
  {
  }

  lemma InstalledFiles(files: Files, ios: seq<Io>)
    requires |ios| == 3 && Perform(files, Plan(), ios).failure.None?
    ensures var now := Perform(files, Plan(), ios).files;
            && FileAt(now, SOURCES) == Merged(FileAt(files, SOURCES), SourceItems())
            && FileAt(now, ACTIONS) == Merged(FileAt(files, ACTIONS), ActionItems())
            && FileAt(now, FLOWS) == Merged(FileAt(files, FLOWS), FlowItems())
  {
    PlanNames();
    PerformAt(files, Plan(), ios, 0);
    PerformAt(files, Plan(), ios, 1);
    PerformAt(files, Plan(), ios, 2);
  }

  /** The first entry of the file's list with this "id" is the object given. */
  ghost predicate Holds(f: File, id: string, fields: map<string, Json>)
  {
    f.Document? && "data" in f.root && f.root["data"].Arr? && FirstWith(f.root["data"].items, id, Obj(fields))
  }

  /** The five sources: one for each of four events, filtering on it, and one for every event. */
  lemma EventSources()
    ensures Ids(SourceItems()) == ["eel_inside", "eel_far", "eel_near", "eel_auth_ok", "eel_presence"]
    ensures forall k :: 0 <= k < 4 ==>
              && SourceItems()[k].Obj? && "filters" in SourceItems()[k].fields
              && SourceItems()[k].fields["filters"] ==
                 Obj(map["arg0" := Str(["presence_inside", "presence_far", "presence_near", "presence_auth_ok"][k])])
    ensures SourceItems()[4].Obj? && "filters" !in SourceItems()[4].fields
  {
    SourceSpelled("eel_inside", "ElectricEel inside car", "presence_inside");
    SourceSpelled("eel_far", "ElectricEel walked away", "presence_far");
    SourceSpelled("eel_near", "ElectricEel connected", "presence_near");
    SourceSpelled("eel_auth_ok", "ElectricEel authorized", "presence_auth_ok");
    SourceSpelled("eel_presence", "ElectricEel presence", "");
  }

  /** The source of an event is found and filters on it. */
  lemma SourceHeld(f: File, kind: Kind) returns (source: map<string, Json>)
    ensures Holds(Merged(f, SourceItems()), if kind == Inside then "eel_inside" else "eel_far", source)
    ensures "filters" in source
    ensures source["filters"] == Obj(map["arg0" := Str(if kind == Inside then "presence_inside" else "presence_far")])
  {
    SourcesById();
    ListOf(f, SourceItems());
    var k := if kind == Inside then 0 else 1;
    var j := SourceItems()[k];
    SourceSpelled("eel_inside", "ElectricEel inside car", "presence_inside");
    SourceSpelled("eel_far", "ElectricEel walked away", "presence_far");
    Found(f, SourceItems(), Id(j));
    LookupIsFirst(Data(Merged(f, SourceItems())), Id(j), j);
    source := j.fields;
  }

  /** The tether call of an event is found and sets the value of its event. */
  lemma ActionHeld(f: File, kind: Kind) returns (action: map<string, Json>)
    ensures Holds(Merged(f, ActionItems()), if kind == Inside then "eel_hotspot_on" else "eel_hotspot_off", action)
    ensures "args" in action
    ensures action["args"] == Arr([ Obj(map["type" := Str("s"), "value" := Str("Tethering")]),
                                    Obj(map["type" := Str("v:b"), "value" := Bool(kind == Inside)]) ])
  {
    ActionsById();
    ListOf(f, ActionItems());
    var j := ActionItems()[if kind == Inside then 0 else 1];
    TetherSpelled(HOTSPOT_ON, "ElectricEel hotspot on", true);
    TetherSpelled(HOTSPOT_OFF, "ElectricEel hotspot off", false);
    Found(f, ActionItems(), Id(j));
    LookupIsFirst(Data(Merged(f, ActionItems())), Id(j), j);
    action := j.fields;
  }

  /** The flow of an event is found, has its one trigger, and reads back as its program. */
  lemma FlowHeld(f: File, kind: Kind) returns (flow: map<string, Json>)
    ensures Holds(Merged(f, FlowItems()),
                  if kind == Inside then "eel_flow_hotspot_on" else "eel_flow_hotspot_off", flow)
    ensures "triggers" in flow && flow["triggers"] == Arr([Str(if kind == Inside then "eel_inside" else "eel_far")])
    ensures "steps" in flow && flow["steps"] == Arr(StepList(Program(kind)))
  {
    FlowsById();
    ListOf(f, FlowItems());
    var spec := if kind == Inside then OnFlow() else OffFlow();
    FlowSpelled(spec);
    Found(f, FlowItems(), spec.id);
    LookupIsFirst(Data(Merged(f, FlowItems())), spec.id, FlowJson(spec));
    flow := FlowJson(spec).fields;
  }

  lemma StepActions(kind: Kind, k: nat)
    requires k < |Program(kind)| && Program(kind)[k].op.Act?
    ensures Program(kind)[k].op.action == if kind == Inside then "eel_hotspot_on" else "eel_hotspot_off"
  {
  }

  /**
   * Whatever the three files held before, a successful installation leaves, for each of the two events, one
   * flow findable by id. Its only trigger is the id of a source that filters on the event; its steps read back
   * as the program the theorems about runs are about; and the action each step names sets tethering on for
   * presence_inside and off for presence_far.
   */
  lemma InstalledFlowsResolve(files: Files, ios: seq<Io>, kind: Kind)
    returns (flow: map<string, Json>, source: map<string, Json>, action: map<string, Json>)
    requires |ios| == 3 && Perform(files, Plan(), ios).failure.None?
    ensures var now := Perform(files, Plan(), ios).files;
            var on := kind == Inside;
            && Holds(FileAt(now, "flows.json"), if on then "eel_flow_hotspot_on" else "eel_flow_hotspot_off", flow)
            && Holds(FileAt(now, "data_sources.json"), if on then "eel_inside" else "eel_far", source)
            && Holds(FileAt(now, "actions.json"), if on then "eel_hotspot_on" else "eel_hotspot_off", action)
    ensures "triggers" in flow && flow["triggers"] == Arr([Str(if kind == Inside then "eel_inside" else "eel_far")])
    ensures "steps" in flow && flow["steps"].Arr? && |flow["steps"].items| == |Program(kind)|
    ensures forall k :: 0 <= k < |Program(kind)| ==> StepOf(flow["steps"].items[k]) == Some(Program(kind)[k])
    ensures forall k :: 0 <= k < |Program(kind)| && Program(kind)[k].op.Act? ==>
              Program(kind)[k].op.action == if kind == Inside then "eel_hotspot_on" else "eel_hotspot_off"
    ensures "filters" in source
    ensures source["filters"] == Obj(map["arg0" := Str(if kind == Inside then "presence_inside" else "presence_far")])
    ensures "args" in action
    ensures action["args"] == Arr([ Obj(map["type" := Str("s"), "value" := Str("Tethering")]),
                                    Obj(map["type" := Str("v:b"), "value" := Bool(kind == Inside)]) ])
  {
    InstalledFiles(files, ios);
    source := SourceHeld(FileAt(files, SOURCES), kind);
    action := ActionHeld(FileAt(files, ACTIONS), kind);
    flow := FlowHeld(FileAt(files, FLOWS), kind);
    ProgramReadsBack(kind);
    forall k | 0 <= k < |Program(kind)| && Program(kind)[k].op.Act?
      ensures Program(kind)[k].op.action == if kind == Inside then "eel_hotspot_on" else "eel_hotspot_off"
    {
      StepActions(kind, k);
    }
  }
}
