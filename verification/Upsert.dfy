/** Merging items into an existing JSON list by id, keeping everything else in place and in order. */
module Upsert {
  import opened Prelude

  datatype Json =
    | Null
    | Bool(b: bool)
    | Num(r: real)
    | Str(s: string)
    | Arr(items: seq<Json>)
    | Obj(fields: map<string, Json>)

  /** The `id` of a list entry; the empty text for an entry that is no object or has no text id. */
  function Id(j: Json): string
  {
    if j.Obj? && "id" in j.fields && j.fields["id"].Str? then j.fields["id"].s else ""
  }

  function Ids(data: seq<Json>): (r: seq<string>)
    ensures |r| == |data| && forall i :: 0 <= i < |data| ==> r[i] == Id(data[i])
  {
    seq(|data|, i requires 0 <= i < |data| => Id(data[i]))
  }

  /** First position of `id`, or the length when it does not occur. */
  function FirstIndex(ids: seq<string>, id: string): (k: nat)
    ensures k <= |ids|
    ensures k < |ids| ==> ids[k] == id
    ensures forall j :: 0 <= j < k ==> ids[j] != id
  {
    if ids == [] || ids[0] == id then 0 else 1 + FirstIndex(ids[1..], id)
  }

  function UpsertOne(data: seq<Json>, obj: Json): seq<Json>
  {
    var k := FirstIndex(Ids(data), Id(obj));
    if k < |data| then data[k := obj] else data + [obj]
  }

  function UpsertAll(data: seq<Json>, items: seq<Json>): seq<Json>
  {
    if items == [] then data
    else UpsertOne(UpsertAll(data, items[..|items| - 1]), items[|items| - 1])
  }

  /** The two nested loops: replace the first entry with the item's id, or append the item. */
  method MergeItems(existing: seq<Json>, items: seq<Json>) returns (data: seq<Json>)
    ensures data == UpsertAll(existing, items)
  {
    data := existing;
    for n := 0 to |items|
      invariant data == UpsertAll(existing, items[..n])
    {
      var obj := items[n];
      var replaced := false;
      var i := 0;
      ghost var before := data;
      assert items[..n + 1][..n] == items[..n];
      while i < |data|
        invariant 0 <= i <= |data| && !replaced && data == before
        invariant forall j :: 0 <= j < i ==> Id(data[j]) != Id(obj)
      {
        if Id(data[i]) == Id(obj) {
          assert FirstIndex(Ids(before), Id(obj)) == i;
          data := data[i := obj];
          replaced := true;
          break;
        }
        i := i + 1;
      }
      if !replaced {
        data := data + [obj];
      }
    }
    assert items[..|items|] == items;
  }

  // ---- Ids, on the JSON ----

  /** The entry is an object whose "id" is this text. */
  predicate HasId(j: Json, id: string)
  {
    j.Obj? && "id" in j.fields && j.fields["id"] == Str(id)
  }

  lemma IdByField(j: Json, id: string)
    requires id != ""
    ensures Id(j) == id <==> HasId(j, id)
  {
  }

  // ---- Merging refines map override ----

  function Lookup(data: seq<Json>, id: string): Option<Json>
  {
    var k := FirstIndex(Ids(data), id);
    if k < |data| then Some(data[k]) else None
  }

  /** The last item with this id: the one that wins when an id occurs more than once among the items. */
  function LastItem(items: seq<Json>, id: string): Option<Json>
  {
    if items == [] then None
    else if Id(items[|items| - 1]) == id then Some(items[|items| - 1])
    else LastItem(items[..|items| - 1], id)
  }

  lemma {:induction false} LastItemIn(items: seq<Json>, id: string)
    ensures LastItem(items, id).Some? <==> id in Ids(items)
    ensures LastItem(items, id).Some? ==> Id(LastItem(items, id).value) == id
  {
    if items != [] {
      LastItemIn(items[..|items| - 1], id);
      assert Ids(items) == Ids(items[..|items| - 1]) + [Id(items[|items| - 1])];
    }
  }

  lemma {:induction false} LastItemAt(items: seq<Json>, k: nat)
    requires k < |items| && forall j :: k < j < |items| ==> Id(items[j]) != Id(items[k])
    ensures LastItem(items, Id(items[k])) == Some(items[k])
  {
    if k < |items| - 1 {
      LastItemAt(items[..|items| - 1], k);
    }
  }

  lemma FirstIndexIs(ids: seq<string>, id: string, k: nat)
    requires k <= |ids| && (k < |ids| ==> ids[k] == id) && forall j :: 0 <= j < k ==> ids[j] != id
    ensures FirstIndex(ids, id) == k
  {
    assert !(k < FirstIndex(ids, id));
  }

  /** One upsert overrides one binding of the first-match map and adds at most one id, at the end. */
  lemma UpsertOneOverrides(data: seq<Json>, x: Json, id: string)
    ensures Ids(UpsertOne(data, x)) == if Id(x) in Ids(data) then Ids(data) else Ids(data) + [Id(x)]
    ensures Lookup(UpsertOne(data, x), id) == if id == Id(x) then Some(x) else Lookup(data, id)
  {
    var r := UpsertOne(data, x);
    var k := FirstIndex(Ids(data), Id(x));
    assert Ids(r) == if k < |data| then Ids(data) else Ids(data) + [Id(x)];
    var m := FirstIndex(Ids(data), id);
    if id == Id(x) {
      FirstIndexIs(Ids(r), id, k);
    } else if m < |data| || k < |data| {
      FirstIndexIs(Ids(r), id, m);
    } else {
      FirstIndexIs(Ids(r), id, |r|);
    }
  }

  /** After the merge, every item's id finds the last item with that id, and every other id what it found. */
  lemma {:induction false} MergeOverrides(data: seq<Json>, items: seq<Json>, id: string)
    ensures Lookup(UpsertAll(data, items), id) ==
            if id in Ids(items) then LastItem(items, id) else Lookup(data, id)
  {
    if items != [] {
      var init, last := items[..|items| - 1], items[|items| - 1];
      assert Ids(items) == Ids(init) + [Id(last)];
      MergeOverrides(data, init, id);
      UpsertOneOverrides(UpsertAll(data, init), last, id);
    }
  }

  /** The first entry with this "id" is `j`. */
  ghost predicate FirstWith(data: seq<Json>, id: string, j: Json)
  {
    exists k :: 0 <= k < |data| && data[k] == j && HasId(j, id) && forall i :: 0 <= i < k ==> !HasId(data[i], id)
  }

  /** The last one is. */
  ghost predicate LastWith(data: seq<Json>, id: string, j: Json)
  {
    exists k :: 0 <= k < |data| && data[k] == j && HasId(j, id) && forall i :: k < i < |data| ==> !HasId(data[i], id)
  }

  lemma LookupIsFirst(data: seq<Json>, id: string, j: Json)
    requires id != ""
    ensures Lookup(data, id) == Some(j) <==> FirstWith(data, id, j)
  {
    var k := FirstIndex(Ids(data), id);
    forall i | 0 <= i < |data| ensures Ids(data)[i] == id <==> HasId(data[i], id) {}
    if m :| 0 <= m < |data| && data[m] == j && HasId(j, id) && forall i :: 0 <= i < m ==> !HasId(data[i], id) {
      FirstIndexIs(Ids(data), id, m);
    }
    if Lookup(data, id) == Some(j) {
      assert data[k] == j && HasId(j, id);
      forall i | 0 <= i < k ensures !HasId(data[i], id) { assert Ids(data)[i] != id; }
    }
  }

  lemma LastItemIs(items: seq<Json>, id: string, j: Json)
    requires id != "" && LastWith(items, id, j)
    ensures id in Ids(items) && LastItem(items, id) == Some(j)
  {
    var k :| 0 <= k < |items| && items[k] == j && HasId(j, id) && forall i :: k < i < |items| ==> !HasId(items[i], id);
    forall i | k < i < |items| ensures Id(items[i]) != id {}
    LastItemAt(items, k);
    assert Ids(items)[k] == id;
  }

  /**
   * The same on the JSON: after the merge the first entry with an item's "id" is the last item with it, and
   * for every other "id" it is what it was.
   */
  lemma MergeByField(data: seq<Json>, items: seq<Json>, id: string, j: Json)
    requires id != ""
    ensures LastWith(items, id, j) ==> FirstWith(UpsertAll(data, items), id, j)
    ensures (forall k :: 0 <= k < |items| ==> !HasId(items[k], id)) ==>
              (FirstWith(UpsertAll(data, items), id, j) <==> FirstWith(data, id, j))
  {
    MergeOverrides(data, items, id);
    LookupIsFirst(data, id, j);
    LookupIsFirst(UpsertAll(data, items), id, j);
    if LastWith(items, id, j) { LastItemIs(items, id, j); }
    if forall k :: 0 <= k < |items| ==> !HasId(items[k], id) {
      forall k | 0 <= k < |items| ensures Ids(items)[k] != id { assert !HasId(items[k], id); }
    }
  }

  function NotIn(ids: set<string>): Json -> bool
  {
    (j: Json) => Id(j) !in ids
  }

  lemma {:induction false} FilterReplace(data: seq<Json>, k: nat, x: Json, keep: Json -> bool)
    requires k < |data| && !keep(data[k]) && !keep(x)
    ensures Filter(data[k := x], keep) == Filter(data, keep)
  {
    if k == 0 {
      assert data[0 := x][1..] == data[1..];
    } else {
      assert data[k := x][1..] == data[1..][k - 1 := x];
      FilterReplace(data[1..], k - 1, x, keep);
    }
  }

  lemma UpsertOneFrames(data: seq<Json>, x: Json, ids: set<string>)
    requires Id(x) in ids
    ensures Filter(UpsertOne(data, x), NotIn(ids)) == Filter(data, NotIn(ids))
  {
    var k := FirstIndex(Ids(data), Id(x));
    if k < |data| {
      FilterReplace(data, k, x, NotIn(ids));
    } else {
      FilterSnoc(data, x, NotIn(ids));
    }
  }

  /** Entries whose id is not among the items keep their contents and their relative order. */
  lemma {:induction false} MergeKeepsTheRest(data: seq<Json>, items: seq<Json>, ids: set<string>)
    requires forall x :: x in items ==> Id(x) in ids
    ensures Filter(UpsertAll(data, items), NotIn(ids)) == Filter(data, NotIn(ids))
  {
    if items != [] {
      MergeKeepsTheRest(data, items[..|items| - 1], ids);
      UpsertOneFrames(UpsertAll(data, items[..|items| - 1]), items[|items| - 1], ids);
    }
  }

  predicate Distinct(ids: seq<string>)
  {
    forall i, j :: 0 <= i < j < |ids| ==> ids[i] != ids[j]
  }

  function IdSet(data: seq<Json>): set<string>
  {
    if data == [] then {} else IdSet(data[..|data| - 1]) + {Id(data[|data| - 1])}
  }

  lemma {:induction false} IdSetIs(data: seq<Json>, id: string)
    ensures id in IdSet(data) <==> id in Ids(data)
  {
    if data != [] {
      IdSetIs(data[..|data| - 1], id);
      assert Ids(data) == Ids(data[..|data| - 1]) + [Id(data[|data| - 1])];
    }
  }

  lemma UpsertOneIds(data: seq<Json>, x: Json)
    ensures Ids(data) <= Ids(UpsertOne(data, x))
    ensures Distinct(Ids(data)) ==> Distinct(Ids(UpsertOne(data, x)))
  {
    UpsertOneOverrides(data, x, "");
  }

  lemma UpsertOneIdSet(data: seq<Json>, x: Json)
    ensures IdSet(UpsertOne(data, x)) == IdSet(data) + {Id(x)}
    ensures |UpsertOne(data, x)| == |data| + if Id(x) in IdSet(data) then 0 else 1
  {
    UpsertOneOverrides(data, x, "");
    var r := UpsertOne(data, x);
    IdSetIs(data, Id(x));
    if Id(x) !in Ids(data) {
      assert r[..|data|] == data;
    } else {
      forall id ensures id in IdSet(r) <==> id in IdSet(data) {
        IdSetIs(data, id);
        IdSetIs(r, id);
      }
    }
  }

  lemma PrefixTrans(a: seq<string>, b: seq<string>, c: seq<string>)
    requires a <= b <= c
    ensures a <= c
  {
  }

  /** The old ids stay where they are, and distinct ids stay distinct. */
  lemma {:induction false} MergeIds(data: seq<Json>, items: seq<Json>)
    ensures Ids(data) <= Ids(UpsertAll(data, items))
    ensures Distinct(Ids(data)) ==> Distinct(Ids(UpsertAll(data, items)))
  {
    if items != [] {
      var mid := UpsertAll(data, items[..|items| - 1]);
      MergeIds(data, items[..|items| - 1]);
      UpsertOneIds(mid, items[|items| - 1]);
      PrefixTrans(Ids(data), Ids(mid), Ids(UpsertAll(data, items)));
    }
  }

  lemma SetGrows(a: set<string>, b: set<string>, x: string)
    ensures |b + {x} - a| == |b - a| + if x in a + b then 0 else 1
    ensures (a + b) + {x} == a + (b + {x})
  {
    if x in a + b {
      assert b + {x} - a == b - a;
    } else {
      assert b + {x} - a == (b - a) + {x};
    }
  }

  /** The list grows by exactly the ids that are new. */
  lemma {:induction false} MergeGrowth(data: seq<Json>, items: seq<Json>)
    ensures IdSet(UpsertAll(data, items)) == IdSet(data) + IdSet(items)
    ensures |UpsertAll(data, items)| == |data| + |IdSet(items) - IdSet(data)|
  {
    if items == [] {
      assert IdSet(items) - IdSet(data) == {};
    } else {
      var init, last := items[..|items| - 1], items[|items| - 1];
      MergeGrowth(data, init);
      UpsertOneIdSet(UpsertAll(data, init), last);
      SetGrows(IdSet(data), IdSet(init), Id(last));
    }
  }

  // ---- Merging again changes nothing ----

  lemma UpsertOneLeavesAlone(data: seq<Json>, x: Json, i: nat, k: nat)
    requires i < |data| && (Id(x) == Id(data[i]) ==> k < i && Id(data[k]) == Id(x))
    ensures |data| <= |UpsertOne(data, x)| && UpsertOne(data, x)[i] == data[i]
  {
    if Id(x) == Id(data[i]) { assert Ids(data)[k] == Id(x); }
  }

  /** A position that is not the first with its id, or whose id is no item's, is left alone. */
  lemma {:induction false} MergeLeavesAlone(data: seq<Json>, items: seq<Json>, i: nat)
    requires i < |data|
    requires FirstIndex(Ids(data), Id(data[i])) < i || Id(data[i]) !in Ids(items)
    ensures |data| <= |UpsertAll(data, items)| && UpsertAll(data, items)[i] == data[i]
  {
    if items != [] {
      var init, last := items[..|items| - 1], items[|items| - 1];
      assert Ids(items) == Ids(init) + [Id(last)];
      MergeLeavesAlone(data, init, i);
      MergeIds(data, init);
      UpsertOneLeavesAlone(UpsertAll(data, init), last, i, FirstIndex(Ids(data), Id(data[i])));
    }
  }

  /** Merging the same items a second time is the identity, duplicate ids on either side included. */
  lemma MergeIsIdempotent(data: seq<Json>, items: seq<Json>)
    ensures UpsertAll(UpsertAll(data, items), items) == UpsertAll(data, items)
  {
    var once := UpsertAll(data, items);
    var twice := UpsertAll(once, items);
    MergeIds(data, items);
    MergeIds(once, items);
    MergeGrowth(data, items);
    MergeGrowth(once, items);
    assert IdSet(items) - IdSet(once) == {};
    assert |twice| == |once| && Ids(twice) == Ids(once);
    forall i | 0 <= i < |once| ensures twice[i] == once[i] {
      var id := Id(once[i]);
      if FirstIndex(Ids(once), id) < i || id !in Ids(items) {
        MergeLeavesAlone(once, items, i);
      } else {
        assert FirstIndex(Ids(once), id) == i;
        MergeOverrides(data, items, id);
        MergeOverrides(once, items, id);
        assert Lookup(twice, id) == Some(twice[i]);
        assert Lookup(once, id) == Some(once[i]);
      }
    }
  }
}
