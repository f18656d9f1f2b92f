/** What merging translations promises, for every template and every file. */
module TranslationLaws {
  import opened Prelude
  import opened Translations

  function Sources(rows: seq<Row>): set<string>
  {
    if rows == [] then {} else Sources(rows[..|rows| - 1]) + {rows[|rows| - 1].message.source}
  }

  lemma {:induction false} SourceOf(rows: seq<Row>, r: Row)
    requires r in rows
    ensures r.message.source in Sources(rows)
  {
    if r != rows[|rows| - 1] {
      assert r in rows[..|rows| - 1];
      SourceOf(rows[..|rows| - 1], r);
    }
  }

  lemma {:induction false} RowOf(rows: seq<Row>, src: string) returns (r: Row)
    requires src in Sources(rows)
    ensures r in rows && r.message.source == src
  {
    r := rows[|rows| - 1];
    if r.message.source != src {
      r := RowOf(rows[..|rows| - 1], src);
    }
  }

  /** The sources a template passes on: those of its messages that are not blank. */
  function Carried(template: Doc): set<string>
  {
    set s | s in Sources(Rows(template)) && !Blank(s)
  }

  function Restrict(m: map<string, string>, keys: set<string>): map<string, string>
  {
    map s | s in m && s in keys :: m[s]
  }

  function Finishes(file: Doc): map<string, string>
  {
    Collect(Rows(file))
  }

  // ---- Deduplicating and grouping keep the sources ----

  lemma {:induction false} DedupSound(rows: seq<Row>, r: Row)
    requires r in Dedup(rows)
    ensures r in rows && !Blank(r.message.source)
  {
    var init := rows[..|rows| - 1];
    if r in Dedup(init) { DedupSound(init, r); }
  }

  lemma {:induction false} DedupComplete(rows: seq<Row>, r: Row)
    requires r in rows && !Blank(r.message.source)
    ensures HasKey(Dedup(rows), r.ctx, r.message.source)
  {
    var init, last := rows[..|rows| - 1], rows[|rows| - 1];
    if r in init {
      DedupComplete(init, r);
      var kept := Dedup(init);
      var j :| 0 <= j < |kept| && kept[j].ctx == r.ctx && kept[j].message.source == r.message.source;
      assert Dedup(rows)[j] == kept[j];
    } else if Fresh(Dedup(init), last) {
      assert Dedup(rows)[|Dedup(init)|] == r;
    }
  }

  /** No two deduplicated template messages have the same context and source. */
  lemma {:induction false} DedupDistinct(rows: seq<Row>)
    ensures forall i, j :: 0 <= i < j < |Dedup(rows)| ==> !SameKey(Dedup(rows)[i], Dedup(rows)[j])
  {
    if rows != [] {
      DedupDistinct(rows[..|rows| - 1]);
    }
  }

  /** Where the first row with the context and source of `r` stands, or the end. */
  function FirstKeyAt(rows: seq<Row>, r: Row): (k: nat)
    ensures k <= |rows|
    ensures k < |rows| ==> rows[k].ctx == r.ctx && rows[k].message.source == r.message.source
    ensures forall j :: 0 <= j < k ==> rows[j].ctx != r.ctx || rows[j].message.source != r.message.source
  {
    if rows == [] then 0
    else
      var k := FirstKeyAt(rows[..|rows| - 1], r);
      if k < |rows| - 1 || SameKey(rows[|rows| - 1], r) then k else |rows|
  }

  lemma FirstKeyAtSnoc(rows: seq<Row>, last: Row, r: Row)
    requires FirstKeyAt(rows, r) < |rows|
    ensures FirstKeyAt(rows + [last], r) == FirstKeyAt(rows, r)
  {
    assert (rows + [last])[..|rows|] == rows;
  }

  lemma FirstKeyAtEnd(rows: seq<Row>, last: Row)
    requires Fresh(Dedup(rows), last)
    ensures FirstKeyAt(rows + [last], last) == |rows|
  {
    assert (rows + [last])[..|rows|] == rows;
    var k := FirstKeyAt(rows, last);
    if k < |rows| {
      DedupComplete(rows, rows[k]);
    }
  }

  ghost predicate FirstOnes(kept: seq<Row>, rows: seq<Row>)
  {
    && (forall j :: 0 <= j < |kept| ==>
          FirstKeyAt(rows, kept[j]) < |rows| && kept[j] == rows[FirstKeyAt(rows, kept[j])])
    && (forall i, j :: 0 <= i < j < |kept| ==> FirstKeyAt(rows, kept[i]) < FirstKeyAt(rows, kept[j]))
  }

  lemma FirstOnesSnoc(kept: seq<Row>, rows: seq<Row>, last: Row)
    requires FirstOnes(kept, rows)
    ensures FirstOnes(kept, rows + [last])
  {
    forall j | 0 <= j < |kept| ensures FirstKeyAt(rows + [last], kept[j]) == FirstKeyAt(rows, kept[j]) {
      FirstKeyAtSnoc(rows, last, kept[j]);
    }
  }

  /** Of every context and source the first template message is kept, and in template order. */
  lemma {:induction false} DedupKeepsFirst(rows: seq<Row>)
    ensures FirstOnes(Dedup(rows), rows)
  {
    if rows != [] {
      var init, last := rows[..|rows| - 1], rows[|rows| - 1];
      DedupKeepsFirst(init);
      FirstOnesSnoc(Dedup(init), init, last);
      assert rows == init + [last];
      if Fresh(Dedup(init), last) {
        FirstKeyAtEnd(init, last);
        forall j | 0 <= j < |Dedup(init)| ensures FirstKeyAt(rows, Dedup(init)[j]) < |init| {
          FirstKeyAtSnoc(init, last, Dedup(init)[j]);
        }
      }
    }
  }

  lemma DedupSources(template: Doc)
    ensures Sources(Dedup(Rows(template))) == Carried(template)
  {
    var rows := Rows(template);
    var d := Dedup(rows);
    forall s | s in Sources(d) ensures s in Carried(template) {
      var r := RowOf(d, s);
      DedupSound(rows, r);
      SourceOf(rows, r);
    }
    forall s | s in Carried(template) ensures s in Sources(d) {
      var r := RowOf(rows, s);
      DedupComplete(rows, r);
      var j :| 0 <= j < |d| && d[j].ctx == r.ctx && d[j].message.source == r.message.source;
      SourceOf(d, d[j]);
    }
  }

  ghost predicate InGroups(groups: seq<Group>, r: Row)
  {
    exists g :: 0 <= g < |groups| && r in groups[g].rows
  }

  lemma {:induction false} FilterNone(rows: seq<Row>, ctx: string)
    requires forall r :: r in rows ==> r.ctx != ctx
    ensures Filter(rows, Named(ctx)) == []
  {
    if rows != [] {
      assert rows[0] in rows;
      FilterNone(rows[1..], ctx);
    }
  }

  /** One group a name, holding that name's rows in order, and every row's name has a group. */
  ghost predicate Grouped(gs: seq<Group>, rows: seq<Row>)
  {
    && (forall i, j :: 0 <= i < j < |gs| ==> gs[i].name != gs[j].name)
    && (forall g :: 0 <= g < |gs| ==> gs[g].rows == Filter(rows, Named(gs[g].name)) && gs[g].rows != [])
    && (forall r :: r in rows ==> GroupIndex(gs, r.ctx) < |gs|)
  }

  /** What one more row does to one group. */
  lemma GroupAfterAdd(gs: seq<Group>, rows: seq<Row>, r: Row, g: nat)
    requires Grouped(gs, rows) && g < |AddToGroup(gs, r)|
    ensures var more := AddToGroup(gs, r);
            more[g].rows == Filter(rows + [r], Named(more[g].name)) && more[g].rows != []
  {
    var more := AddToGroup(gs, r);
    FilterSnoc(rows, r, Named(more[g].name));
    if g == |gs| {
      forall x | x in rows ensures x.ctx != r.ctx { assert GroupIndex(gs, x.ctx) < |gs|; }
      FilterNone(rows, r.ctx);
    }
  }

  lemma IndexAfterAdd(gs: seq<Group>, r: Row, name: string)
    requires name == r.ctx || GroupIndex(gs, name) < |gs|
    ensures GroupIndex(AddToGroup(gs, r), name) < |AddToGroup(gs, r)|
  {
    var more := AddToGroup(gs, r);
    var j := GroupIndex(gs, name);
    assert more[j].name == name;
  }

  lemma NamesAfterAdd(gs: seq<Group>, r: Row)
    requires forall i, j :: 0 <= i < j < |gs| ==> gs[i].name != gs[j].name
    ensures var more := AddToGroup(gs, r); forall i, j :: 0 <= i < j < |more| ==> more[i].name != more[j].name
  {
  }

  lemma GroupedAdd(gs: seq<Group>, rows: seq<Row>, r: Row, more: seq<Group>, all: seq<Row>)
    requires Grouped(gs, rows) && more == AddToGroup(gs, r) && all == rows + [r]
    ensures Grouped(more, all)
  {
    NamesAfterAdd(gs, r);
    forall g | 0 <= g < |more|
      ensures more[g].rows == Filter(all, Named(more[g].name)) && more[g].rows != []
    {
      GroupAfterAdd(gs, rows, r, g);
    }
    forall x | x in all ensures GroupIndex(more, x.ctx) < |more| {
      IndexAfterAdd(gs, r, x.ctx);
    }
  }

  lemma {:induction false} GroupFacts(rows: seq<Row>)
    ensures Grouped(GroupAll(rows), rows)
  {
    if rows != [] {
      GroupFacts(rows[..|rows| - 1]);
      assert rows == rows[..|rows| - 1] + [rows[|rows| - 1]];
      GroupedAdd(GroupAll(rows[..|rows| - 1]), rows[..|rows| - 1], rows[|rows| - 1], GroupAll(rows), rows);
    }
  }

  function Named(ctx: string): Row -> bool
  {
    (r: Row) => r.ctx == ctx
  }

  lemma GroupsHold(rows: seq<Row>, r: Row)
    ensures r in rows <==> InGroups(GroupAll(rows), r)
  {
    GroupFacts(rows);
    var gs := GroupAll(rows);
    if r in rows {
      var g := GroupIndex(gs, r.ctx);
      assert Named(r.ctx)(r);
      assert r in Filter(rows, Named(r.ctx));
    }
  }

  // ---- What a merged file says about each source ----

  function Get(done: map<string, string>, src: string): Option<string>
  {
    if src in done then Some(done[src]) else None
  }

  lemma {:induction false} RowsIn(doc: Doc, r: Row) returns (c: nat, k: nat)
    requires r in Rows(doc)
    ensures c < |doc| && k < |doc[c].messages| && r == Row(doc[c].name, doc[c].messages[k])
  {
    var n := |doc| - 1;
    if r in Rows(doc[..n]) {
      c, k := RowsIn(doc[..n], r);
    } else {
      c := n;
      k :| 0 <= k < |doc[c].messages| && RowsOf(doc[c].name, doc[c].messages)[k] == r;
    }
  }

  lemma {:induction false} RowsHave(doc: Doc, c: nat, k: nat)
    requires c < |doc| && k < |doc[c].messages|
    ensures Row(doc[c].name, doc[c].messages[k]) in Rows(doc)
  {
    if c < |doc| - 1 {
      RowsHave(doc[..|doc| - 1], c, k);
    } else {
      assert RowsOf(doc[c].name, doc[c].messages)[k] in RowsOf(doc[c].name, doc[c].messages);
    }
  }

  /** Every row of a built file carries what is known about the source of some template row. */
  lemma BuiltRow(rows: seq<Row>, done: map<string, string>, r: Row) returns (t: Row)
    requires r in Rows(Build(GroupAll(rows), done))
    ensures t in rows && r == Row(t.ctx, Carry(t.message, done))
  {
    var gs := GroupAll(rows);
    GroupFacts(rows);
    var c, k := RowsIn(Build(gs, done), r);
    t := gs[c].rows[k];
    assert t in Filter(rows, Named(gs[c].name));
  }

  lemma PlaceOf(rows: seq<Row>, r: Row) returns (g: nat, k: nat)
    requires r in rows
    ensures var gs := GroupAll(rows); g < |gs| && k < |gs[g].rows| && gs[g].rows[k] == r && gs[g].name == r.ctx
  {
    GroupFacts(rows);
    var gs := GroupAll(rows);
    g := GroupIndex(gs, r.ctx);
    assert Named(r.ctx)(r) && r in gs[g].rows;
    k :| 0 <= k < |gs[g].rows| && gs[g].rows[k] == r;
  }

  /** Every template row is built. */
  lemma RowIsBuilt(rows: seq<Row>, done: map<string, string>, r: Row)
    requires r in rows
    ensures Row(r.ctx, Carry(r.message, done)) in Rows(Build(GroupAll(rows), done))
  {
    var g, k := PlaceOf(rows, r);
    RowsHave(Build(GroupAll(rows), done), g, k);
  }

  /** Collecting rows that all agree with one dictionary gives that dictionary on their sources. */
  lemma {:induction false} CollectUniform(rows: seq<Row>, done: map<string, string>)
    requires forall r :: r in rows ==> !Blank(r.message.source) && Finished(r.message) == Get(done, r.message.source)
    ensures Collect(rows) == Restrict(done, Sources(rows))
  {
    if rows != [] {
      CollectUniform(rows[..|rows| - 1], done);
      assert rows[|rows| - 1] in rows;
    }
  }

  ghost predicate Usable(done: map<string, string>)
  {
    forall s :: s in done ==> done[s] != "" && !Blank(s)
  }

  lemma FinishesUsable(file: Doc)
    ensures Usable(Finishes(file))
  {
    forall s | s in Finishes(file) ensures Finishes(file)[s] != "" && !Blank(s) {
      CollectUsable(Rows(file), s);
    }
  }

  lemma BuiltSources(rows: seq<Row>, done: map<string, string>)
    ensures Sources(Rows(Build(GroupAll(rows), done))) == Sources(rows)
  {
    var out := Rows(Build(GroupAll(rows), done));
    forall s | s in Sources(out) ensures s in Sources(rows) {
      var r := RowOf(out, s);
      var t := BuiltRow(rows, done, r);
      SourceOf(rows, t);
    }
    forall s | s in Sources(rows) ensures s in Sources(out) {
      var r := RowOf(rows, s);
      RowIsBuilt(rows, done, r);
      SourceOf(out, Row(r.ctx, Carry(r.message, done)));
    }
  }

  lemma BuildFinishes(rows: seq<Row>, done: map<string, string>)
    requires Usable(done) && forall r :: r in rows ==> !Blank(r.message.source)
    ensures Collect(Rows(Build(GroupAll(rows), done))) == Restrict(done, Sources(rows))
  {
    var out := Rows(Build(GroupAll(rows), done));
    forall r | r in out ensures !Blank(r.message.source) && Finished(r.message) == Get(done, r.message.source) {
      var t := BuiltRow(rows, done, r);
    }
    CollectUniform(out, done);
    BuiltSources(rows, done);
  }

  // ---- The laws ----

  /**
   * A merged file's finished translations are exactly those of the old file whose source the template
   * still has: none of a surviving source is lost, none appears, none changes.
   */
  lemma MergeFinishes(template: Doc, file: Doc)
    ensures Finishes(Merge(template, file)) == Restrict(Finishes(file), Carried(template))
  {
    FinishesUsable(file);
    forall r | r in Dedup(Rows(template)) ensures !Blank(r.message.source) { DedupSound(Rows(template), r); }
    DedupSources(template);
    BuildFinishes(Dedup(Rows(template)), Finishes(file));
  }

  /** Merging with one template and then another keeps the sources of both. */
  lemma MergesCompose(t1: Doc, t2: Doc, file: Doc)
    ensures Finishes(Merge(t2, Merge(t1, file))) == Restrict(Finishes(file), Carried(t1) * Carried(t2))
  {
    MergeFinishes(t1, file);
    MergeFinishes(t2, Merge(t1, file));
  }

  /** Building only looks at the sources of its rows. */
  lemma BuildDependsOn(rows: seq<Row>, a: map<string, string>, b: map<string, string>)
    requires forall s :: s in Sources(rows) ==> Get(a, s) == Get(b, s)
    ensures Build(GroupAll(rows), a) == Build(GroupAll(rows), b)
  {
    var gs := GroupAll(rows);
    forall g | 0 <= g < |gs| ensures CarryAll(gs[g].rows, a) == CarryAll(gs[g].rows, b) {
      forall k | 0 <= k < |gs[g].rows|
        ensures Carry(gs[g].rows[k].message, a) == Carry(gs[g].rows[k].message, b)
      {
        var r := gs[g].rows[k];
        assert r in gs[g].rows;
        GroupsHold(rows, r);
        SourceOf(rows, r);
        assert Get(a, r.message.source) == Get(b, r.message.source);
      }
    }
  }

  /** Merging a file with the same template again gives the same file, entry for entry. */
  lemma MergeIsFixpoint(template: Doc, file: Doc)
    ensures Merge(template, Merge(template, file)) == Merge(template, file)
  {
    MergeFinishes(template, file);
    DedupSources(template);
    BuildDependsOn(Dedup(Rows(template)), Finishes(Merge(template, file)), Finishes(file));
  }

  /**
   * Going through an intermediate template makes no difference exactly when it has every source that the
   * final template and the file's finished translations share.
   */
  lemma DetourIsHarmlessIff(t1: Doc, t2: Doc, file: Doc)
    ensures Merge(t2, Merge(t1, file)) == Merge(t2, file) <==>
            (forall s :: s in Finishes(file) && s in Carried(t2) ==> s in Carried(t1))
  {
    var through, direct := Merge(t2, Merge(t1, file)), Merge(t2, file);
    MergeFinishes(t1, file);
    MergesCompose(t1, t2, file);
    MergeFinishes(t2, file);
    if forall s :: s in Finishes(file) && s in Carried(t2) ==> s in Carried(t1) {
      DedupSources(t2);
      BuildDependsOn(Dedup(Rows(t2)), Finishes(Merge(t1, file)), Finishes(file));
    } else {
      var s :| s in Finishes(file) && s in Carried(t2) && s !in Carried(t1);
      assert s in Finishes(direct) && s !in Finishes(through);
    }
  }

  /** Two messages of a merged file with the same source have the same translation, whatever their contexts. */
  lemma EqualSourcesEqualText(template: Doc, file: Doc, a: Row, b: Row)
    requires a in Rows(Merge(template, file)) && b in Rows(Merge(template, file))
    requires a.message.source == b.message.source
    ensures a.message.translation == b.message.translation
  {
    var t := BuiltRow(Dedup(Rows(template)), Finishes(file), a);
    var u := BuiltRow(Dedup(Rows(template)), Finishes(file), b);
  }

  // ---- The order of contexts ----

  /** Where a name's first message that is not blank stands, or the end. */
  function FirstAt(rows: seq<Row>, name: string): (k: nat)
    ensures k <= |rows|
    ensures k < |rows| ==> rows[k].ctx == name && !Blank(rows[k].message.source)
    ensures forall j :: 0 <= j < k ==> rows[j].ctx != name || Blank(rows[j].message.source)
  {
    if rows == [] then 0 else
      var k := FirstAt(rows[..|rows| - 1], name);
      var last := rows[|rows| - 1];
      if k < |rows| - 1 || (last.ctx == name && !Blank(last.message.source)) then k else |rows|
  }

  ghost predicate FirstSeen(gs: seq<Group>, rows: seq<Row>)
  {
    && (forall g :: 0 <= g < |gs| ==> FirstAt(rows, gs[g].name) < |rows|)
    && (forall g, h :: 0 <= g < h < |gs| ==> FirstAt(rows, gs[g].name) < FirstAt(rows, gs[h].name))
  }

  /** A name has a group exactly if one of its messages is not blank. */
  lemma NamedIff(rows: seq<Row>, name: string)
    ensures var gs := GroupAll(Dedup(rows)); GroupIndex(gs, name) < |gs| <==> FirstAt(rows, name) < |rows|
  {
    var kept := Dedup(rows);
    var gs := GroupAll(kept);
    GroupFacts(kept);
    var g, k := GroupIndex(gs, name), FirstAt(rows, name);
    if g < |gs| {
      var r := gs[g].rows[0];
      assert r in Filter(kept, Named(name));
      DedupSound(rows, r);
    }
    if k < |rows| {
      DedupComplete(rows, rows[k]);
      var j :| 0 <= j < |kept| && kept[j].ctx == name;
      assert kept[j] in kept;
    }
  }

  lemma FirstAtSnoc(rows: seq<Row>, last: Row, name: string)
    ensures FirstAt(rows + [last], name) ==
            if FirstAt(rows, name) < |rows| || (last.ctx == name && !Blank(last.message.source))
            then FirstAt(rows, name) else |rows| + 1
  {
    assert (rows + [last])[..|rows|] == rows;
  }

  /** Adding a message to the groups keeps their order. */
  lemma FirstSeenAdd(gs: seq<Group>, rows: seq<Row>, last: Row, more: seq<Group>, all: seq<Row>)
    requires FirstSeen(gs, rows) && more == AddToGroup(gs, last) && all == rows + [last]
    requires !Blank(last.message.source)
    requires GroupIndex(gs, last.ctx) < |gs| <==> FirstAt(rows, last.ctx) < |rows|
    ensures FirstSeen(more, all)
  {
    forall g | 0 <= g < |gs|
      ensures more[g].name == gs[g].name && FirstAt(all, gs[g].name) == FirstAt(rows, gs[g].name)
    {
      FirstAtSnoc(rows, last, gs[g].name);
    }
    if GroupIndex(gs, last.ctx) == |gs| {
      assert more[|gs|].name == last.ctx;
      FirstAtSnoc(rows, last, last.ctx);
      assert FirstAt(all, last.ctx) == |rows|;
    }
  }

  /** Groups stand in the order in which their names were first seen. */
  lemma {:induction false} GroupsFirstSeen(rows: seq<Row>)
    ensures FirstSeen(GroupAll(Dedup(rows)), rows)
  {
    if rows != [] {
      var init, last := rows[..|rows| - 1], rows[|rows| - 1];
      var gs := GroupAll(Dedup(init));
      GroupsFirstSeen(init);
      assert rows == init + [last];
      if Fresh(Dedup(init), last) {
        NamedIff(init, last.ctx);
        assert Dedup(rows) == Dedup(init) + [last];
        FirstSeenAdd(gs, init, last, GroupAll(Dedup(rows)), rows);
      } else {
        forall g | 0 <= g < |gs| ensures FirstAt(rows, gs[g].name) == FirstAt(init, gs[g].name) {
          FirstAtSnoc(init, last, gs[g].name);
        }
      }
    }
  }

  /**
   * The merged file has one context a name, and in it that name's template messages: those that are not
   * blank, the first of each source, in template order, with the template's locations. Each has the finished
   * translation of its source, without a mark, or else an empty one marked unfinished.
   */
  lemma MergedContexts(template: Doc, file: Doc, c: nat)
    requires c < |Merge(template, file)|
    ensures var ctx := Merge(template, file)[c];
            var rows := Filter(Dedup(Rows(template)), Named(ctx.name));
            && |ctx.messages| == |rows| > 0
            && forall k :: 0 <= k < |rows| ==>
                 var m, t := ctx.messages[k], rows[k].message;
                 && m.source == t.source && m.locations == t.locations
                 && (t.source in Finishes(file) ==> m.translation == Present(Finishes(file)[t.source], NoMark))
                 && (t.source !in Finishes(file) ==> m.translation == Present("", Unfinished))
    ensures forall d :: 0 <= d < |Merge(template, file)| && d != c ==>
              Merge(template, file)[d].name != Merge(template, file)[c].name
  {
    GroupFacts(Dedup(Rows(template)));
  }

  /**
   * A name has a context in the merged file exactly if some template message of that name is not blank,
   * and the contexts stand in the order in which the template first has such a message.
   */
  lemma MergedContextOrder(template: Doc, file: Doc, name: string)
    ensures (exists c :: 0 <= c < |Merge(template, file)| && Merge(template, file)[c].name == name) <==>
            (exists r :: r in Rows(template) && r.ctx == name && !Blank(r.message.source))
    ensures forall c, d :: 0 <= c < d < |Merge(template, file)| ==>
              FirstAt(Rows(template), Merge(template, file)[c].name) <
              FirstAt(Rows(template), Merge(template, file)[d].name)
  {
    var rows, doc := Rows(template), Merge(template, file);
    var gs := GroupAll(Dedup(rows));
    NamedIff(rows, name);
    GroupsFirstSeen(rows);
    if GroupIndex(gs, name) < |gs| {
      assert doc[GroupIndex(gs, name)].name == name;
      assert rows[FirstAt(rows, name)] in rows;
    }
  }

  // ---- The two counts ----

  /** How many of these messages are marked unfinished. */
  function MarkedUnfinished(ms: seq<Message>): nat
  {
    if ms == [] then 0
    else MarkedUnfinished(ms[..|ms| - 1])
         + if ms[|ms| - 1].translation.Present? && ms[|ms| - 1].translation.mark == Unfinished then 1 else 0
  }

  function UnfinishedIn(doc: Doc): nat
  {
    if doc == [] then 0 else UnfinishedIn(doc[..|doc| - 1]) + MarkedUnfinished(doc[|doc| - 1].messages)
  }

  lemma {:induction false} MarkedIn(rows: seq<Row>, done: map<string, string>)
    ensures MarkedUnfinished(CarryAll(rows, done)) + |Filter(rows, Known(done))| == |rows|
  {
    if rows != [] {
      var init, last := rows[..|rows| - 1], rows[|rows| - 1];
      MarkedIn(init, done);
      FilterSnoc(init, last, Known(done));
      assert rows == init + [last];
      var all := CarryAll(rows, done);
      assert all[..|init|] == CarryAll(init, done) && all[|init|] == Carry(last.message, done);
    }
  }

  lemma {:induction false} UnfinishedBuilt(groups: seq<Group>, done: map<string, string>)
    ensures UnfinishedIn(Build(groups, done)) + KnownIn(groups, done) == Total(groups)
  {
    if groups != [] {
      var init := groups[..|groups| - 1];
      UnfinishedBuilt(init, done);
      MarkedIn(groups[|groups| - 1].rows, done);
      assert Build(groups, done)[..|init|] == Build(init, done);
    }
  }

  /** The messages counted as kept are all but those that the merged file marks unfinished. */
  lemma CountsAreOfTheFile(template: Doc, file: Doc)
    ensures var rows := Dedup(Rows(template));
            |Filter(rows, Known(Finishes(file)))| + UnfinishedIn(Merge(template, file)) == |rows|
  {
    var rows := Dedup(Rows(template));
    UnfinishedBuilt(GroupAll(rows), Finishes(file));
    GroupCounts(rows, Finishes(file));
  }
}
