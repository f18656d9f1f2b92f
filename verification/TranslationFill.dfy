/** The positional writer (tools/fill_common.py) and what the merge makes of its output. */
module TranslationFill {
  import opened Prelude
  import opened Translations
  import opened TranslationLaws

  // ---- Writing translations by position ----

  /** Set the text, creating the element if need be; only an `unfinished` mark is removed. */
  function Fill(m: Message, text: string): Message
  {
    m.(translation := Present(text, if m.translation.Present? && m.translation.mark != Unfinished
                                    then m.translation.mark else NoMark))
  }

  function FillMessages(ms: seq<Message>, items: seq<string>): (r: seq<Message>)
    requires |ms| == |items|
    ensures |r| == |ms| && forall i :: 0 <= i < |ms| ==> r[i] == Fill(ms[i], items[i])
  {
    seq(|ms|, i requires 0 <= i < |ms| => Fill(ms[i], items[i]))
  }

  function FillDoc(doc: Doc, items: seq<string>): Doc
    requires |items| == |Rows(doc)|
  {
    if doc == [] then []
    else
      var init, last := doc[..|doc| - 1], doc[|doc| - 1];
      var n := |Rows(init)|;
      FillDoc(init, items[..n]) + [Context(last.name, FillMessages(last.messages, items[n..]))]
  }

  /** Filling a file fills its messages one by one, in file order. */
  lemma {:induction false} RowsOfFilled(doc: Doc, items: seq<string>)
    requires |items| == |Rows(doc)|
    ensures |Rows(FillDoc(doc, items))| == |Rows(doc)|
    ensures forall i :: 0 <= i < |items| ==>
              Rows(FillDoc(doc, items))[i] == Row(Rows(doc)[i].ctx, Fill(Rows(doc)[i].message, items[i]))
  {
    if doc != [] {
      var init := doc[..|doc| - 1];
      var n := |Rows(init)|;
      RowsOfFilled(init, items[..n]);
      var filled := FillDoc(doc, items);
      assert filled[..|filled| - 1] == FillDoc(init, items[..n]);
    }
  }

  /** The distinct placeholders of a text: the digits that follow a percent sign. */
  function Placeholders(s: string): set<char>
  {
    if |s| < 2 then {}
    else (if s[0] == '%' && '0' <= s[1] <= '9' then {s[1]} else {}) + Placeholders(s[1..])
  }

  /** A placeholder is a percent sign directly followed by its digit, anywhere in the text. */
  lemma {:induction false} PlaceholdersAre(s: string, c: char)
    ensures c in Placeholders(s) <==>
            '0' <= c <= '9' && exists i :: 0 < i < |s| && s[i] == c && s[i - 1] == '%'
  {
    if |s| >= 2 {
      PlaceholdersAre(s[1..], c);
      if i :| 0 < i < |s[1..]| && s[1..][i] == c && s[1..][i - 1] == '%' {
        assert s[i + 1] == c && s[i + 1 - 1] == '%';
      }
      if i :| 1 < i < |s| && s[i] == c && s[i - 1] == '%' {
        assert s[1..][i - 1] == c && s[1..][i - 1 - 1] == '%';
      }
      if s[0] == '%' && s[1] == c {
        assert s[1] == c && s[1 - 1] == '%';
      }
    }
  }

  function Mismatches(ms: seq<Message>, items: seq<string>): nat
    requires |ms| == |items|
  {
    if ms == [] then 0
    else Mismatches(ms[..|ms| - 1], items[..|ms| - 1])
         + if Placeholders(ms[|ms| - 1].source) != Placeholders(items[|ms| - 1]) then 1 else 0
  }

  /** Character `c` directly follows a percent sign somewhere in the text. */
  predicate Placed(s: string, c: char)
  {
    exists i :: 0 < i < |s| && s[i] == c && s[i - 1] == '%'
  }

  /** Position `i` has a placeholder digit in the source that its text lacks, or the other way round. */
  predicate Differs(ms: seq<Message>, items: seq<string>, i: int)
    requires |ms| == |items|
  {
    && 0 <= i < |ms|
    && exists c :: '0' <= c <= '9' && Placed(ms[i].source, c) != Placed(items[i], c)
  }

  lemma DiffersIff(ms: seq<Message>, items: seq<string>, i: nat)
    requires |ms| == |items| && i < |ms|
    ensures Differs(ms, items, i) <==> Placeholders(ms[i].source) != Placeholders(items[i])
  {
    var want, got := Placeholders(ms[i].source), Placeholders(items[i]);
    forall c ensures c in want <==> '0' <= c <= '9' && Placed(ms[i].source, c) {
      PlaceholdersAre(ms[i].source, c);
    }
    forall c ensures c in got <==> '0' <= c <= '9' && Placed(items[i], c) {
      PlaceholdersAre(items[i], c);
    }
    if want != got {
      var c :| c in want + got && (c in want) != (c in got);
      assert Placed(ms[i].source, c) != Placed(items[i], c);
    }
  }

  lemma DiffersOfPrefix(ms: seq<Message>, items: seq<string>, n: nat, i: nat)
    requires |ms| == |items| && i < n <= |ms|
    ensures Differs(ms[..n], items[..n], i) <==> Differs(ms, items, i)
  {
    DiffersIff(ms, items, i);
    DiffersIff(ms[..n], items[..n], i);
  }

  ghost function Differing(ms: seq<Message>, items: seq<string>): set<int>
    requires |ms| == |items|
  {
    set i | 0 <= i < |ms| && Differs(ms, items, i)
  }

  lemma DifferingSnoc(ms: seq<Message>, items: seq<string>, n: nat)
    requires |ms| == |items| == n + 1
    ensures |Differing(ms, items)| == |Differing(ms[..n], items[..n])| + if Differs(ms, items, n) then 1 else 0
  {
    forall i | 0 <= i < n ensures Differs(ms[..n], items[..n], i) <==> Differs(ms, items, i) {
      DiffersOfPrefix(ms, items, n, i);
    }
    var before := Differing(ms[..n], items[..n]);
    assert n !in before;
    assert Differing(ms, items) == before + if Differs(ms, items, n) then {n} else {};
  }

  /** The count is the number of positions whose source and text differ in some placeholder digit. */
  lemma {:induction false} MismatchesAre(ms: seq<Message>, items: seq<string>)
    requires |ms| == |items|
    ensures Mismatches(ms, items) == |Differing(ms, items)|
  {
    if ms != [] {
      var n := |ms| - 1;
      MismatchesAre(ms[..n], items[..n]);
      DifferingSnoc(ms, items, n);
      DiffersIff(ms, items, n);
    }
  }

  /**
   * The message nodes of one language are filled in place, in order; nothing is written when the number of
   * texts is wrong. Placeholder mismatches are counted and do not stop the writing.
   */
  method WriteNodes(nodes: array<Message>, items: seq<string>) returns (bad: Option<nat>)
    modifies nodes
    ensures bad.None? <==> nodes.Length != |items|
    ensures bad.None? ==> nodes[..] == old(nodes[..])
    ensures bad.Some? ==> nodes[..] == FillMessages(old(nodes[..]), items)
                          && bad.value == Mismatches(old(nodes[..]), items)
    ensures bad.Some? ==> forall i :: 0 <= i < nodes.Length ==>
              var was, now := old(nodes[..])[i], nodes[i];
              && now.source == was.source && now.locations == was.locations
              && now.translation.Present? && now.translation.text == items[i]
              && (was.translation.Present? && was.translation.mark != Unfinished ==>
                    now.translation.mark == was.translation.mark)
              && (was.translation.Absent? || was.translation.mark == Unfinished ==>
                    now.translation.mark == NoMark)
  {
    if nodes.Length != |items| {
      return None;
    }
    var count := 0;
    ghost var was := nodes[..];
    for k := 0 to nodes.Length
      invariant forall i :: 0 <= i < k ==> nodes[i] == Fill(was[i], items[i])
      invariant forall i :: k <= i < nodes.Length ==> nodes[i] == was[i]
      invariant count == Mismatches(was[..k], items[..k])
    {
      assert was[..k + 1][..k] == was[..k] && items[..k + 1][..k] == items[..k];
      if Placeholders(nodes[k].source) != Placeholders(items[k]) {
        count := count + 1;
      }
      var te := nodes[k].translation;
      if te.Absent? {
        te := Present("", NoMark);
      }
      te := te.(text := items[k]);
      if te.mark == Unfinished {
        te := te.(mark := NoMark);
      }
      nodes[k] := nodes[k].(translation := te);
    }
    assert was[..nodes.Length] == was && items[..nodes.Length] == items;
    assert nodes[..] == FillMessages(was, items);
    return Some(count);
  }

  // ---- Templates the merge passes through unchanged ----

  /** Rows of one context stand together; distinct context names are enough for that. */
  ghost predicate Contiguous(rows: seq<Row>)
  {
    forall i, j, k :: 0 <= i < j < k < |rows| && rows[i].ctx == rows[k].ctx ==> rows[j].ctx == rows[k].ctx
  }

  lemma {:induction false} NameOf(doc: Doc, i: nat) returns (c: nat)
    requires i < |Rows(doc)|
    ensures c < |doc| && doc[c].name == Rows(doc)[i].ctx
  {
    c := |doc| - 1;
    if i < |Rows(doc[..c])| {
      c := NameOf(doc[..c], i);
    }
  }

  lemma {:induction false} DistinctNamesAreContiguous(doc: Doc)
    requires forall c, d :: 0 <= c < d < |doc| ==> doc[c].name != doc[d].name
    ensures Contiguous(Rows(doc))
  {
    if doc != [] {
      var init, last := doc[..|doc| - 1], doc[|doc| - 1];
      DistinctNamesAreContiguous(init);
      var n := |Rows(init)|;
      forall i | 0 <= i < n ensures Rows(doc)[i].ctx != last.name {
        var c := NameOf(init, i);
      }
    }
  }

  ghost predicate CleanTemplate(doc: Doc)
  {
    var rows := Rows(doc);
    && Contiguous(rows)
    && (forall i :: 0 <= i < |rows| ==> !Blank(rows[i].message.source))
    && (forall i, j :: 0 <= i < j < |rows| ==> !SameKey(rows[i], rows[j]))
  }

  lemma {:induction false} NothingToDedup(rows: seq<Row>)
    requires forall i :: 0 <= i < |rows| ==> !Blank(rows[i].message.source)
    requires forall i, j :: 0 <= i < j < |rows| ==> !SameKey(rows[i], rows[j])
    ensures Dedup(rows) == rows
  {
    if rows != [] {
      NothingToDedup(rows[..|rows| - 1]);
      assert Fresh(rows[..|rows| - 1], rows[|rows| - 1]);
    }
  }

  function CarryRows(rows: seq<Row>, done: map<string, string>): (r: seq<Row>)
    ensures |r| == |rows|
    ensures forall i :: 0 <= i < |rows| ==> r[i] == Row(rows[i].ctx, Carry(rows[i].message, done))
  {
    seq(|rows|, i requires 0 <= i < |rows| => Row(rows[i].ctx, Carry(rows[i].message, done)))
  }

  /** The group of the last row is the last group, when contexts are contiguous. */
  lemma {:induction false} LastGroup(rows: seq<Row>)
    requires rows != [] && Contiguous(rows)
    ensures GroupAll(rows) != [] && GroupAll(rows)[|GroupAll(rows)| - 1].name == rows[|rows| - 1].ctx
  {
    var init, last := rows[..|rows| - 1], rows[|rows| - 1];
    var gs := GroupAll(init);
    if GroupIndex(gs, last.ctx) < |gs| {
      SomeRow(init, last.ctx);
      LastGroup(init);
      GroupFacts(init);
    }
  }

  lemma SomeRow(rows: seq<Row>, ctx: string)
    requires GroupIndex(GroupAll(rows), ctx) < |GroupAll(rows)|
    ensures rows != [] && exists i :: 0 <= i < |rows| && rows[i].ctx == ctx
  {
    GroupFacts(rows);
    var r := GroupAll(rows)[GroupIndex(GroupAll(rows), ctx)].rows[0];
    assert r in Filter(rows, Named(ctx));
  }

  lemma RowsSnoc(gs: seq<Group>, g: Group, done: map<string, string>)
    ensures Rows(Build(gs + [g], done)) == Rows(Build(gs, done)) + RowsOf(g.name, CarryAll(g.rows, done))
  {
    assert Build(gs + [g], done)[..|gs|] == Build(gs, done);
  }

  lemma {:induction false} RowsOfLonger(name: string, rows: seq<Row>, r: Row, done: map<string, string>)
    ensures RowsOf(name, CarryAll(rows + [r], done)) ==
            RowsOf(name, CarryAll(rows, done)) + [Row(name, Carry(r.message, done))]
  {
  }

  lemma {:induction false} AddToLast(gs: seq<Group>, r: Row, done: map<string, string>)
    requires gs != [] && gs[|gs| - 1].name == r.ctx && GroupIndex(gs, r.ctx) == |gs| - 1
    ensures Rows(Build(AddToGroup(gs, r), done)) ==
            Rows(Build(gs, done)) + [Row(r.ctx, Carry(r.message, done))]
  {
    var init, g := gs[..|gs| - 1], gs[|gs| - 1];
    RowsSnoc(init, g, done);
    RowsSnoc(init, Group(r.ctx, g.rows + [r]), done);
    RowsOfLonger(r.ctx, g.rows, r, done);
    assert gs == init + [g];
    assert AddToGroup(gs, r) == init + [Group(r.ctx, g.rows + [r])];
  }

  lemma GroupNamesDistinct(rows: seq<Row>)
    ensures forall i, j :: 0 <= i < j < |GroupAll(rows)| ==> GroupAll(rows)[i].name != GroupAll(rows)[j].name
  {
    GroupFacts(rows);
  }

  lemma LastContextAgain(init: seq<Row>, last: Row)
    requires Contiguous(init + [last]) && exists i :: 0 <= i < |init| && init[i].ctx == last.ctx
    ensures init[|init| - 1].ctx == last.ctx && Contiguous(init)
  {
    var rows := init + [last];
    assert forall i :: 0 <= i < |init| ==> rows[i] == init[i];
    var i :| 0 <= i < |init| && init[i].ctx == last.ctx;
    assert rows[i].ctx == rows[|init|].ctx;
  }

  lemma JoinsLastGroup(init: seq<Row>, last: Row)
    requires Contiguous(init + [last]) && GroupIndex(GroupAll(init), last.ctx) < |GroupAll(init)|
    ensures var gs := GroupAll(init);
            gs != [] && gs[|gs| - 1].name == last.ctx && GroupIndex(gs, last.ctx) == |gs| - 1
  {
    SomeRow(init, last.ctx);
    LastContextAgain(init, last);
    LastGroup(init);
    GroupNamesDistinct(init);
  }

  lemma {:induction false} AddNewGroup(gs: seq<Group>, r: Row, done: map<string, string>)
    requires GroupIndex(gs, r.ctx) == |gs|
    ensures Rows(Build(AddToGroup(gs, r), done)) ==
            Rows(Build(gs, done)) + [Row(r.ctx, Carry(r.message, done))]
  {
    RowsSnoc(gs, Group(r.ctx, [r]), done);
    assert RowsOf(r.ctx, CarryAll([r], done)) == [Row(r.ctx, Carry(r.message, done))];
  }

  lemma AddKeepsOrder(init: seq<Row>, last: Row, done: map<string, string>)
    requires Contiguous(init + [last])
    ensures Rows(Build(AddToGroup(GroupAll(init), last), done)) ==
            Rows(Build(GroupAll(init), done)) + [Row(last.ctx, Carry(last.message, done))]
  {
    if GroupIndex(GroupAll(init), last.ctx) < |GroupAll(init)| {
      JoinsLastGroup(init, last);
      AddToLast(GroupAll(init), last, done);
    } else {
      AddNewGroup(GroupAll(init), last, done);
    }
  }

  lemma CarrySnoc(init: seq<Row>, last: Row, done: map<string, string>)
    ensures CarryRows(init + [last], done) == CarryRows(init, done) + [Row(last.ctx, Carry(last.message, done))]
  {
  }

  /** Grouping contiguous rows does not move any of them. */
  lemma {:induction false} BuildKeepsOrder(rows: seq<Row>, done: map<string, string>)
    requires Contiguous(rows)
    ensures Rows(Build(GroupAll(rows), done)) == CarryRows(rows, done)
  {
    if rows != [] {
      var init, last := rows[..|rows| - 1], rows[|rows| - 1];
      BuildKeepsOrder(init, done);
      assert rows == init + [last];
      AddKeepsOrder(init, last, done);
      CarrySnoc(init, last, done);
    }
  }

  // ---- Filling, then merging ----

  /** `k` is the first position with the source of position `i` whose text is not empty. */
  predicate FirstTextAt(rows: seq<Row>, items: seq<string>, i: int, k: int)
    requires |rows| == |items|
  {
    && 0 <= i < |rows| && 0 <= k < |rows|
    && rows[k].message.source == rows[i].message.source && items[k] != ""
    && forall j :: 0 <= j < k && rows[j].message.source == rows[i].message.source ==> items[j] == ""
  }

  predicate NoText(rows: seq<Row>, items: seq<string>, i: int)
    requires |rows| == |items|
  {
    && 0 <= i < |rows|
    && forall j :: 0 <= j < |rows| && rows[j].message.source == rows[i].message.source ==> items[j] == ""
  }

  /** Every repeated source is given one and the same text. */
  predicate Agreeing(rows: seq<Row>, items: seq<string>)
    requires |rows| == |items|
  {
    forall i, j :: 0 <= i < |rows| && 0 <= j < |rows| && rows[i].message.source == rows[j].message.source ==>
      items[i] == items[j]
  }

  lemma {:induction false} FilledText(template: Doc, items: seq<string>, i: nat)
    requires CleanTemplate(template) && |items| == |Rows(template)| && i < |items|
    ensures var done := Finishes(FillDoc(template, items));
            var src := Rows(template)[i].message.source;
            && (forall k :: FirstTextAt(Rows(template), items, i, k) ==> Get(done, src) == Some(items[k]))
            && (NoText(Rows(template), items, i) ==> src !in done)
  {
    var rows, out := Rows(template), Rows(FillDoc(template, items));
    var src := rows[i].message.source;
    RowsOfFilled(template, items);
    CollectIsFirst(out, src);
    forall k | FirstTextAt(rows, items, i, k) ensures FirstFinishedAt(out, src, k) {}
    if NoText(rows, items, i) {
      assert forall k :: !FirstFinishedAt(out, src, k);
    }
  }

  lemma SomeFirstText(rows: seq<Row>, items: seq<string>, i: nat) returns (k: nat)
    requires |rows| == |items| && i < |rows| && !NoText(rows, items, i)
    ensures FirstTextAt(rows, items, i, k)
  {
    k := 0;
    while k < |rows| && !(rows[k].message.source == rows[i].message.source && items[k] != "")
      invariant k <= |rows|
      invariant forall j :: 0 <= j < k && rows[j].message.source == rows[i].message.source ==> items[j] == ""
    {
      k := k + 1;
    }
  }

  /**
   * Merging the writer's output with its own template keeps every message in its place, with its source and
   * locations; its translation is the first text that is not empty among those given to its source, and
   * only when there is none is it left unfinished.
   */
  lemma FilledThenMerged(template: Doc, items: seq<string>)
    requires CleanTemplate(template) && |items| == |Rows(template)|
    ensures var rows, out := Rows(template), Rows(Merge(template, FillDoc(template, items)));
            && |out| == |rows|
            && (forall i :: 0 <= i < |rows| ==>
                  && out[i].ctx == rows[i].ctx && out[i].message.source == rows[i].message.source
                  && out[i].message.locations == rows[i].message.locations)
            && (forall i, k :: FirstTextAt(rows, items, i, k) ==>
                  out[i].message.translation == Present(items[k], NoMark))
            && (forall i :: NoText(rows, items, i) ==> out[i].message.translation == Present("", Unfinished))
  {
    var rows, done := Rows(template), Finishes(FillDoc(template, items));
    NothingToDedup(rows);
    BuildKeepsOrder(rows, done);
    forall i | 0 <= i < |rows|
      ensures forall k :: FirstTextAt(rows, items, i, k) ==> Get(done, rows[i].message.source) == Some(items[k])
      ensures NoText(rows, items, i) ==> rows[i].message.source !in done
    {
      FilledText(template, items, i);
    }
  }

  function TextAt(rows: seq<Row>, i: nat): string
    requires i < |rows|
  {
    if rows[i].message.translation.Present? then rows[i].message.translation.text else ""
  }

  lemma SameTextWhereSame(template: Doc, file: Doc, i: nat, j: nat)
    requires i < |Rows(Merge(template, file))| && j < |Rows(Merge(template, file))|
    requires Rows(Merge(template, file))[i].message.source == Rows(Merge(template, file))[j].message.source
    ensures TextAt(Rows(Merge(template, file)), i) == TextAt(Rows(Merge(template, file)), j)
  {
    var out := Rows(Merge(template, file));
    assert out[i] in out && out[j] in out;
    EqualSourcesEqualText(template, file, out[i], out[j]);
  }

  /** The writer's texts survive the merge exactly when repeated sources were given the same text. */
  lemma TextsSurviveIff(template: Doc, items: seq<string>)
    requires CleanTemplate(template) && |items| == |Rows(template)|
    ensures var out := Rows(Merge(template, FillDoc(template, items)));
            && |out| == |items|
            && ((forall i :: 0 <= i < |items| ==> TextAt(out, i) == items[i]) <==> Agreeing(Rows(template), items))
  {
    var rows, out := Rows(template), Rows(Merge(template, FillDoc(template, items)));
    FilledThenMerged(template, items);
    if Agreeing(rows, items) {
      forall i | 0 <= i < |items| ensures TextAt(out, i) == items[i] {
        if !NoText(rows, items, i) { var k := SomeFirstText(rows, items, i); }
      }
    }
    if forall i :: 0 <= i < |items| ==> TextAt(out, i) == items[i] {
      forall i, j | 0 <= i < |rows| && 0 <= j < |rows| && rows[i].message.source == rows[j].message.source
        ensures items[i] == items[j]
      {
        SameTextWhereSame(template, FillDoc(template, items), i, j);
        assert TextAt(out, i) == items[i] && TextAt(out, j) == items[j];
      }
    }
  }

  /** They survive as finished translations exactly when, besides, none of them is empty. */
  lemma FinishedSurviveIff(template: Doc, items: seq<string>)
    requires CleanTemplate(template) && |items| == |Rows(template)|
    ensures var out := Rows(Merge(template, FillDoc(template, items)));
            && |out| == |items|
            && ((forall i :: 0 <= i < |items| ==> out[i].message.translation == Present(items[i], NoMark)) <==>
                Agreeing(Rows(template), items) && forall i :: 0 <= i < |items| ==> items[i] != "")
  {
    var rows, out := Rows(template), Rows(Merge(template, FillDoc(template, items)));
    FilledThenMerged(template, items);
    TextsSurviveIff(template, items);
    if Agreeing(rows, items) && forall i :: 0 <= i < |items| ==> items[i] != "" {
      forall i | 0 <= i < |items| ensures out[i].message.translation == Present(items[i], NoMark) {
        var k := SomeFirstText(rows, items, i);
      }
    }
    if forall i :: 0 <= i < |items| ==> out[i].message.translation == Present(items[i], NoMark) {
      assert forall i :: 0 <= i < |items| ==> TextAt(out, i) == items[i];
      forall i | 0 <= i < |items| ensures items[i] != "" {
        if NoText(rows, items, i) { assert false; }
        var k := SomeFirstText(rows, items, i);
      }
    }
  }
}
