/**
 * Translation files and the merge that carries finished translations onto a new template
 * (tools/apply-translations.py). A file is its contexts in order, each with its messages in order; XML
 * syntax is not modelled.
 */
module Translations {
  import opened Prelude

  /** The `type` attribute of a translation element. */
  datatype Mark = NoMark | Unfinished | OtherMark(kind: string)

  /** A missing text and an empty one are the same to every reader of the file. */
  datatype Translation = Absent | Present(text: string, mark: Mark)

  datatype Message = Message(source: string, translation: Translation, locations: seq<string>)

  datatype Context = Context(name: string, messages: seq<Message>)

  type Doc = seq<Context>

  /** A message together with the name of its context. */
  datatype Row = Row(ctx: string, message: Message)

  function RowsOf(ctx: string, ms: seq<Message>): (r: seq<Row>)
    ensures |r| == |ms| && forall i :: 0 <= i < |ms| ==> r[i] == Row(ctx, ms[i])
  {
    seq(|ms|, i requires 0 <= i < |ms| => Row(ctx, ms[i]))
  }

  lemma RowsOfStep(before: seq<Row>, ctx: string, ms: seq<Message>, k: nat)
    requires k < |ms|
    ensures before + RowsOf(ctx, ms[..k + 1]) == (before + RowsOf(ctx, ms[..k])) + [Row(ctx, ms[k])]
  {
  }

  function Rows(doc: Doc): seq<Row>
  {
    if doc == [] then [] else Rows(doc[..|doc| - 1]) + RowsOf(doc[|doc| - 1].name, doc[|doc| - 1].messages)
  }

  /** White space as `str.strip` knows it. */
  predicate IsSpace(c: char)
  {
    var n := c as int;
    || 9 <= n <= 13 || 28 <= n <= 32 || n == 0x85 || n == 0xA0 || n == 0x1680 || 0x2000 <= n <= 0x200A
    || n == 0x2028 || n == 0x2029 || n == 0x202F || n == 0x205F || n == 0x3000
  }

  predicate Blank(s: string)
  {
    forall i :: 0 <= i < |s| ==> IsSpace(s[i])
  }

  // ---- Reading: the finished translations of a file ----

  function Finished(m: Message): Option<string>
  {
    if m.translation.Present? && m.translation.mark != Unfinished && m.translation.text != ""
    then Some(m.translation.text) else None
  }

  function Remember(out: map<string, string>, m: Message): map<string, string>
  {
    if Blank(m.source) || Finished(m).None? || m.source in out then out
    else out[m.source := Finished(m).value]
  }

  /** Source to text: the first finished translation of each source that is not blank. */
  function Collect(rows: seq<Row>): map<string, string>
  {
    if rows == [] then map[] else Remember(Collect(rows[..|rows| - 1]), rows[|rows| - 1].message)
  }

  lemma CollectSnoc(rows: seq<Row>, r: Row)
    ensures Collect(rows + [r]) == Remember(Collect(rows), r.message)
  {
    assert (rows + [r])[..|rows|] == rows;
  }

  lemma RowsStep(doc: Doc, c: nat)
    requires c < |doc|
    ensures Rows(doc[..c + 1]) == Rows(doc[..c]) + RowsOf(doc[c].name, doc[c].messages)
  {
    assert doc[..c + 1][..c] == doc[..c];
  }

  method Messages(doc: Doc) returns (out: map<string, string>)
    ensures out == Collect(Rows(doc))
  {
    out := map[];
    for c := 0 to |doc|
      invariant out == Collect(Rows(doc[..c]))
    {
      var ctx := doc[c];
      ghost var before := Rows(doc[..c]);
      RowsStep(doc, c);
      assert before + RowsOf(ctx.name, ctx.messages[..0]) == before;
      for k := 0 to |ctx.messages|
        invariant out == Collect(before + RowsOf(ctx.name, ctx.messages[..k]))
      {
        var m := ctx.messages[k];
        RowsOfStep(before, ctx.name, ctx.messages, k);
        CollectSnoc(before + RowsOf(ctx.name, ctx.messages[..k]), Row(ctx.name, m));
        if !Blank(m.source) {
          var text := if m.translation.Present? then m.translation.text else "";
          if m.translation.Present? && m.translation.mark == Unfinished {
            text := "";
          }
          if text != "" && m.source !in out {
            out := out[m.source := text];
          }
        }
      }
      assert ctx.messages[..|ctx.messages|] == ctx.messages;
    }
    assert doc[..|doc|] == doc;
  }

  /** Row `k` gives this source a translation that is neither marked unfinished nor empty. */
  predicate GivesText(rows: seq<Row>, src: string, k: int)
  {
    && 0 <= k < |rows| && rows[k].message.source == src && rows[k].message.translation.Present?
    && rows[k].message.translation.mark != Unfinished && rows[k].message.translation.text != ""
  }

  /** And it is the first row to do so. */
  predicate FirstFinishedAt(rows: seq<Row>, src: string, k: int)
  {
    GivesText(rows, src, k) && forall j :: 0 <= j < k ==> !GivesText(rows, src, j)
  }

  /**
   * The dictionary has exactly the sources that are not blank and have some translation that is neither
   * marked unfinished nor empty, and for each the text of the first such translation.
   */
  lemma {:induction false} CollectIsFirst(rows: seq<Row>, src: string)
    ensures src in Collect(rows) <==> !Blank(src) && exists k :: GivesText(rows, src, k)
    ensures forall k :: FirstFinishedAt(rows, src, k) && !Blank(src) ==>
              src in Collect(rows) && Collect(rows)[src] == rows[k].message.translation.text
  {
    if rows != [] {
      var n := |rows| - 1;
      var init := rows[..n];
      CollectIsFirst(init, src);
      forall j | 0 <= j < n ensures GivesText(rows, src, j) <==> GivesText(init, src, j) {}
      assert GivesText(rows, src, n) ==> Finished(rows[n].message) == Some(rows[n].message.translation.text);
      assert !GivesText(rows, src, n) && rows[n].message.source == src ==> Finished(rows[n].message).None?;
      forall k | FirstFinishedAt(rows, src, k) && !Blank(src)
        ensures src in Collect(rows) && Collect(rows)[src] == rows[k].message.translation.text
      {
        if k < n { assert FirstFinishedAt(init, src, k); }
      }
    }
  }

  lemma FirstBelow(rows: seq<Row>, src: string, j: nat) returns (k: nat)
    requires GivesText(rows, src, j)
    ensures FirstFinishedAt(rows, src, k)
  {
    k := 0;
    while k < j && !GivesText(rows, src, k)
      invariant k <= j && forall i :: 0 <= i < k ==> !GivesText(rows, src, i)
    {
      k := k + 1;
    }
  }

  /** So the dictionary has no empty text and no blank source. */
  lemma CollectUsable(rows: seq<Row>, src: string)
    requires src in Collect(rows)
    ensures !Blank(src) && Collect(rows)[src] != ""
  {
    CollectIsFirst(rows, src);
    var j :| GivesText(rows, src, j);
    var k := FirstBelow(rows, src, j);
  }

  /** Translations that are missing or marked unfinished collect nothing. */
  lemma UnfinishedCollectNothing(rows: seq<Row>)
    requires forall k :: 0 <= k < |rows| ==>
               rows[k].message.translation.Absent? || rows[k].message.translation.mark == Unfinished
    ensures Collect(rows) == map[]
  {
    forall src ensures src !in Collect(rows) { CollectIsFirst(rows, src); }
  }

  // ---- Blank texts ----

  /** `str.strip`: the text without the white space at its ends. */
  function Strip(s: string): string
  {
    if s == "" then ""
    else if IsSpace(s[0]) then Strip(s[1..])
    else if IsSpace(s[|s| - 1]) then Strip(s[..|s| - 1])
    else s
  }

  /** A text is blank exactly if nothing is left of it after stripping. */
  lemma {:induction false} BlankIsStripped(s: string)
    ensures Strip(s) == "" <==> Blank(s)
    decreases |s|
  {
    if s != "" {
      if IsSpace(s[0]) {
        BlankIsStripped(s[1..]);
        var rest := s[1..];
        assert forall i :: 0 < i < |s| ==> s[i] == rest[i - 1];
      } else if IsSpace(s[|s| - 1]) {
        BlankIsStripped(s[..|s| - 1]);
        assert s[..|s| - 1][0] == s[0];
      }
    }
  }

  /** Among the ASCII characters, white space is the blank, tab to carriage return, and the four separators. */
  lemma AsciiSpaces(c: char)
    requires c as int < 128
    ensures IsSpace(c) <==>
            c == ' ' || c == '\t' || c == '\n' || c == '\r' || c as int in {11, 12, 28, 29, 30, 31}
  {
  }

  // ---- The template: distinct, not blank, grouped by context ----

  predicate SameKey(a: Row, b: Row)
  {
    a.ctx == b.ctx && a.message.source == b.message.source
  }

  predicate Fresh(rows: seq<Row>, r: Row)
  {
    !Blank(r.message.source) && forall j :: 0 <= j < |rows| ==> !SameKey(rows[j], r)
  }

  function Dedup(rows: seq<Row>): seq<Row>
  {
    if rows == [] then []
    else
      var init := Dedup(rows[..|rows| - 1]);
      if Fresh(init, rows[|rows| - 1]) then init + [rows[|rows| - 1]] else init
  }

  lemma DedupSnoc(rows: seq<Row>, r: Row)
    ensures Dedup(rows + [r]) == if Fresh(Dedup(rows), r) then Dedup(rows) + [r] else Dedup(rows)
  {
    assert (rows + [r])[..|rows|] == rows;
  }

  predicate HasKey(rows: seq<Row>, ctx: string, src: string)
  {
    exists j :: 0 <= j < |rows| && rows[j].ctx == ctx && rows[j].message.source == src
  }

  ghost predicate Seen(seen: set<(string, string)>, rows: seq<Row>)
  {
    forall n, s :: (n, s) in seen <==> HasKey(rows, n, s)
  }

  lemma SeenAdd(seen: set<(string, string)>, rows: seq<Row>, r: Row)
    requires Seen(seen, rows)
    ensures Seen(seen + {(r.ctx, r.message.source)}, rows + [r])
  {
    var more := rows + [r];
    forall n, s ensures HasKey(more, n, s) <==> HasKey(rows, n, s) || (n == r.ctx && s == r.message.source) {
      if HasKey(rows, n, s) {
        var j :| 0 <= j < |rows| && rows[j].ctx == n && rows[j].message.source == s;
        assert more[j] == rows[j];
      }
      assert more[|rows|] == r;
    }
  }

  method TemplateMessages(doc: Doc) returns (template: seq<Row>)
    ensures template == Dedup(Rows(doc))
  {
    template := [];
    var seen: set<(string, string)> := {};
    for c := 0 to |doc|
      invariant template == Dedup(Rows(doc[..c])) && Seen(seen, template)
    {
      var ctx := doc[c];
      ghost var before := Rows(doc[..c]);
      RowsStep(doc, c);
      assert before + RowsOf(ctx.name, ctx.messages[..0]) == before;
      for k := 0 to |ctx.messages|
        invariant template == Dedup(before + RowsOf(ctx.name, ctx.messages[..k])) && Seen(seen, template)
      {
        var m := ctx.messages[k];
        RowsOfStep(before, ctx.name, ctx.messages, k);
        DedupSnoc(before + RowsOf(ctx.name, ctx.messages[..k]), Row(ctx.name, m));
        assert Fresh(template, Row(ctx.name, m)) <==> !Blank(m.source) && !HasKey(template, ctx.name, m.source);
        if Blank(m.source) || (ctx.name, m.source) in seen {
          continue;
        }
        SeenAdd(seen, template, Row(ctx.name, m));
        seen := seen + {(ctx.name, m.source)};
        template := template + [Row(ctx.name, m)];
      }
      assert ctx.messages[..|ctx.messages|] == ctx.messages;
    }
    assert doc[..|doc|] == doc;
  }

  /** Entries of a dictionary by context name, in the order the names were first seen. */
  datatype Group = Group(name: string, rows: seq<Row>)

  function GroupIndex(groups: seq<Group>, name: string): (k: nat)
    ensures k <= |groups|
    ensures k < |groups| ==> groups[k].name == name
    ensures forall j :: 0 <= j < k ==> groups[j].name != name
  {
    if groups == [] || groups[0].name == name then 0 else 1 + GroupIndex(groups[1..], name)
  }

  function AddToGroup(groups: seq<Group>, r: Row): seq<Group>
  {
    var k := GroupIndex(groups, r.ctx);
    if k < |groups| then groups[k := Group(r.ctx, groups[k].rows + [r])] else groups + [Group(r.ctx, [r])]
  }

  function GroupAll(rows: seq<Row>): seq<Group>
  {
    if rows == [] then [] else AddToGroup(GroupAll(rows[..|rows| - 1]), rows[|rows| - 1])
  }

  // ---- Writing the merged file ----

  function Carry(m: Message, done: map<string, string>): Message
  {
    m.(translation := if m.source in done then Present(done[m.source], NoMark) else Present("", Unfinished))
  }

  function CarryAll(rows: seq<Row>, done: map<string, string>): (ms: seq<Message>)
    ensures |ms| == |rows| && forall i :: 0 <= i < |rows| ==> ms[i] == Carry(rows[i].message, done)
  {
    seq(|rows|, i requires 0 <= i < |rows| => Carry(rows[i].message, done))
  }

  function Build(groups: seq<Group>, done: map<string, string>): (doc: Doc)
    ensures |doc| == |groups|
    ensures forall g :: 0 <= g < |groups| ==> doc[g] == Context(groups[g].name, CarryAll(groups[g].rows, done))
  {
    seq(|groups|, g requires 0 <= g < |groups| => Context(groups[g].name, CarryAll(groups[g].rows, done)))
  }

  function Merge(template: Doc, file: Doc): Doc
  {
    Build(GroupAll(Dedup(Rows(template))), Collect(Rows(file)))
  }

  function Known(done: map<string, string>): Row -> bool
  {
    (r: Row) => r.message.source in done
  }

  function Total(groups: seq<Group>): nat
  {
    if groups == [] then 0 else Total(groups[..|groups| - 1]) + |groups[|groups| - 1].rows|
  }

  function KnownIn(groups: seq<Group>, done: map<string, string>): nat
  {
    if groups == [] then 0
    else KnownIn(groups[..|groups| - 1], done) + |Filter(groups[|groups| - 1].rows, Known(done))|
  }

  method GroupByContext(template: seq<Row>) returns (byCtx: seq<Group>)
    ensures byCtx == GroupAll(template)
  {
    byCtx := [];
    for i := 0 to |template|
      invariant byCtx == GroupAll(template[..i])
    {
      assert template[..i + 1][..i] == template[..i];
      var k := 0;
      while k < |byCtx| && byCtx[k].name != template[i].ctx
        invariant 0 <= k <= |byCtx| && forall j :: 0 <= j < k ==> byCtx[j].name != template[i].ctx
      {
        k := k + 1;
      }
      assert k == GroupIndex(byCtx, template[i].ctx);
      if k == |byCtx| {
        byCtx := byCtx + [Group(template[i].ctx, [template[i]])];
      } else {
        byCtx := byCtx[k := Group(template[i].ctx, byCtx[k].rows + [template[i]])];
      }
    }
    assert template[..|template|] == template;
  }

  lemma CarryStep(rows: seq<Row>, k: nat, done: map<string, string>)
    requires k < |rows|
    ensures CarryAll(rows[..k + 1], done) == CarryAll(rows[..k], done) + [Carry(rows[k].message, done)]
    ensures |Filter(rows[..k + 1], Known(done))| ==
            |Filter(rows[..k], Known(done))| + if rows[k].message.source in done then 1 else 0
  {
    assert rows[..k + 1] == rows[..k] + [rows[k]];
    FilterSnoc(rows[..k], rows[k], Known(done));
  }

  /** The messages of one context: carry what is finished, mark the rest unfinished, count both. */
  method WriteMessages(rows: seq<Row>, done: map<string, string>)
    returns (messages: seq<Message>, kept: nat, unfinished: nat)
    ensures messages == CarryAll(rows, done)
    ensures kept == |Filter(rows, Known(done))| && kept + unfinished == |rows|
  {
    messages, kept, unfinished := [], 0, 0;
    for k := 0 to |rows|
      invariant messages == CarryAll(rows[..k], done)
      invariant kept == |Filter(rows[..k], Known(done))| && kept + unfinished == k
    {
      var m := rows[k].message;
      CarryStep(rows, k, done);
      if m.source in done {
        messages := messages + [Message(m.source, Present(done[m.source], NoMark), m.locations)];
        kept := kept + 1;
      } else {
        messages := messages + [Message(m.source, Present("", Unfinished), m.locations)];
        unfinished := unfinished + 1;
      }
    }
    assert rows[..|rows|] == rows;
  }

  lemma BuildStep(groups: seq<Group>, g: nat, done: map<string, string>)
    requires g < |groups|
    ensures Build(groups[..g + 1], done) ==
            Build(groups[..g], done) + [Context(groups[g].name, CarryAll(groups[g].rows, done))]
    ensures Total(groups[..g + 1]) == Total(groups[..g]) + |groups[g].rows|
    ensures KnownIn(groups[..g + 1], done) == KnownIn(groups[..g], done) + |Filter(groups[g].rows, Known(done))|
  {
    assert groups[..g + 1][..g] == groups[..g];
  }

  /** The body of the loop over languages: the merged file and its two counts. */
  method MergeLanguage(template: seq<Row>, done: map<string, string>) returns (root: Doc, kept: nat, unfinished: nat)
    ensures root == Build(GroupAll(template), done)
    ensures kept == |Filter(template, Known(done))| && kept + unfinished == |template|
  {
    root, kept, unfinished := [], 0, 0;
    var byCtx := GroupByContext(template);
    for g := 0 to |byCtx|
      invariant root == Build(byCtx[..g], done)
      invariant kept == KnownIn(byCtx[..g], done) && kept + unfinished == Total(byCtx[..g])
    {
      BuildStep(byCtx, g, done);
      var messages, k, n := WriteMessages(byCtx[g].rows, done);
      kept, unfinished := kept + k, unfinished + n;
      root := root + [Context(byCtx[g].name, messages)];
    }
    assert byCtx[..|byCtx|] == byCtx;
    GroupCounts(template, done);
  }

  lemma {:induction false} CountsUpdate(groups: seq<Group>, k: nat, r: Row, done: map<string, string>)
    requires k < |groups|
    ensures var more := groups[k := Group(groups[k].name, groups[k].rows + [r])];
            && Total(more) == Total(groups) + 1
            && KnownIn(more, done) == KnownIn(groups, done) + if Known(done)(r) then 1 else 0
  {
    var more := groups[k := Group(groups[k].name, groups[k].rows + [r])];
    if k == |groups| - 1 {
      assert more[..k] == groups[..k];
      FilterSnoc(groups[k].rows, r, Known(done));
    } else {
      assert more[..|groups| - 1] == groups[..|groups| - 1][k := Group(groups[k].name, groups[k].rows + [r])];
      CountsUpdate(groups[..|groups| - 1], k, r, done);
    }
  }

  lemma CountsAdd(groups: seq<Group>, r: Row, done: map<string, string>)
    ensures Total(AddToGroup(groups, r)) == Total(groups) + 1
    ensures KnownIn(AddToGroup(groups, r), done) == KnownIn(groups, done) + if Known(done)(r) then 1 else 0
  {
    var k := GroupIndex(groups, r.ctx);
    if k < |groups| {
      CountsUpdate(groups, k, r, done);
    } else {
      assert (groups + [Group(r.ctx, [r])])[..|groups|] == groups;
      assert Filter([r], Known(done)) == if Known(done)(r) then [r] else [];
    }
  }

  /** Grouping loses and duplicates nothing. */
  lemma {:induction false} GroupCounts(rows: seq<Row>, done: map<string, string>)
    ensures Total(GroupAll(rows)) == |rows|
    ensures KnownIn(GroupAll(rows), done) == |Filter(rows, Known(done))|
  {
    if rows != [] {
      var init, r := rows[..|rows| - 1], rows[|rows| - 1];
      GroupCounts(init, done);
      CountsAdd(GroupAll(init), r, done);
      FilterSnoc(init, r, Known(done));
      assert rows == init + [r];
    }
  }
}
