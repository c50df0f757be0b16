/** The history manager of Pastor/ClipboardWatcher.swift: an ordered list of
    entries, newest first, that promotes a re-copied text to the front,
    inserts new text at the front and drops the oldest entries beyond the
    configured maximum. The pasteboard, the settings store, the encrypted
    storage, `UUID()` and `Date()` are inputs of the operations. */
module History {
  import opened Items
  import opened Seqs

  /** The lower and upper bound of the "Remember items" setting. */
  const MinMaxItems: nat := 20
  const MaxMaxItems: nat := 1000

  /** Seconds between the synthetic timestamps of migrated legacy entries. */
  const LegacyStep: int := 60

  /** The `maxItems` property: the stored setting when it is positive, else
      the lower bound of the settings range. */
  function EffectiveMaxItems(stored: int): (n: nat)
    ensures n > 0
    ensures n == stored <==> stored > 0
    ensures stored <= 0 ==> n == MinMaxItems
  {
    if stored > 0 then stored else MinMaxItems
  }

  /** Every value the settings screen can store is used as it is. */
  lemma EffectiveMaxItemsInRange(stored: int)
    requires MinMaxItems <= stored <= MaxMaxItems
    ensures EffectiveMaxItems(stored) == stored
  {
  }

  /** No two entries share their content. */
  ghost predicate DistinctContents(items: seq<ClipboardItem>)
  {
    forall i, j :: 0 <= i < j < |items| ==> items[i].content != items[j].content
  }

  /** `items.firstIndex(where: { $0.content == text })`. */
  function FirstIndexOf(items: seq<ClipboardItem>, text: string): (r: Option<nat>)
    ensures r.Some? ==> r.value < |items| && items[r.value].content == text
    ensures r.Some? ==> forall j :: 0 <= j < r.value ==> items[j].content != text
    ensures r.None? ==> forall j :: 0 <= j < |items| ==> items[j].content != text
  {
    if items == [] then None
    else if items[0].content == text then Some(0)
    else match FirstIndexOf(items[1..], text)
      case None => None
      case Some(i) => Some(i + 1)
  }

  /** The list after `addNewItem(text)` with the given `maxItems`; `id` and
      `now` stand for the `UUID()` and `Date()` of the new entry. */
  function Added(items: seq<ClipboardItem>, text: string, id: Uuid, now: Date, maxItems: nat): seq<ClipboardItem>
  {
    match FirstIndexOf(items, text)
    case Some(i) =>
      [items[i].(accessCount := items[i].accessCount + 1)] + (items[..i] + items[i + 1..])
    case None =>
      var grown := [Make(id, text, now)] + items;
      if |grown| > maxItems then grown[..maxItems] else grown
  }

  /** Re-copying a text already in the list: its first entry moves to the
      front with one more access, the others keep their order, and the
      length is unchanged. */
  lemma AddedExisting(items: seq<ClipboardItem>, text: string, id: Uuid, now: Date, maxItems: nat, i: nat)
    requires i < |items| && items[i].content == text
    requires forall j :: 0 <= j < i ==> items[j].content != text
    ensures var r := Added(items, text, id, now, maxItems);
      && |r| == |items|
      && r[0] == items[i].(accessCount := items[i].accessCount + 1)
      && r[0].accessCount == items[i].accessCount + 1
      && r[1..] == items[..i] + items[i + 1..]
  {
  }

  /** Copying a new text: a fresh entry with no accesses goes to the front,
      followed by the old entries in order, all cut to the first `maxItems`. */
  lemma AddedFresh(items: seq<ClipboardItem>, text: string, id: Uuid, now: Date, maxItems: nat)
    requires forall j :: 0 <= j < |items| ==> items[j].content != text
    requires maxItems > 0
    ensures var r := Added(items, text, id, now, maxItems);
      && |r| == (if |items| < maxItems then |items| + 1 else maxItems)
      && r[0] == Make(id, text, now)
      && r[0].accessCount == 0
      && r[1..] == items[..|r| - 1]
  {
  }

  /** Whatever happens, the copied text is the newest entry. */
  lemma AddedPutsTextFirst(items: seq<ClipboardItem>, text: string, id: Uuid, now: Date, maxItems: nat)
    requires maxItems > 0
    ensures var r := Added(items, text, id, now, maxItems);
      r != [] && r[0].content == text
  {
  }

  /** The capacity bound: a list within `maxItems` stays within it, and in
      general no call makes the list longer than both its old length and
      `maxItems`. Eviction keeps a prefix, that is, the newest entries. */
  lemma AddedWithinCapacity(items: seq<ClipboardItem>, text: string, id: Uuid, now: Date, maxItems: nat)
    requires maxItems > 0
    ensures var r := Added(items, text, id, now, maxItems);
      && (|items| <= maxItems ==> |r| <= maxItems)
      && (|r| <= maxItems || |r| == |items|)
      && (FirstIndexOf(items, text).None? ==> r[1..] <= items)
  {
  }

  /** Adding keeps the "no two entries share content" invariant. */
  lemma AddedKeepsDistinct(items: seq<ClipboardItem>, text: string, id: Uuid, now: Date, maxItems: nat)
    requires DistinctContents(items)
    ensures DistinctContents(Added(items, text, id, now, maxItems))
  {
  }

  /** The list after a run of copies, one `(text, id, now)` per copy. */
  function AddedAll(items: seq<ClipboardItem>, texts: seq<string>, ids: seq<Uuid>, nows: seq<Date>, maxItems: nat): seq<ClipboardItem>
    requires |ids| == |texts| && |nows| == |texts|
    decreases |texts|
  {
    if texts == [] then items
    else AddedAll(Added(items, texts[0], ids[0], nows[0], maxItems), texts[1..], ids[1..], nows[1..], maxItems)
  }

  /** Over any run of copies the list never exceeds `maxItems` and never
      holds two entries with the same content. */
  lemma {:induction false} AddedAllInvariant(items: seq<ClipboardItem>, texts: seq<string>, ids: seq<Uuid>, nows: seq<Date>, maxItems: nat)
    requires |ids| == |texts| && |nows| == |texts|
    requires maxItems > 0 && |items| <= maxItems && DistinctContents(items)
    ensures |AddedAll(items, texts, ids, nows, maxItems)| <= maxItems
    ensures DistinctContents(AddedAll(items, texts, ids, nows, maxItems))
    decreases |texts|
  {
    if texts != [] {
      var next := Added(items, texts[0], ids[0], nows[0], maxItems);
      AddedWithinCapacity(items, texts[0], ids[0], nows[0], maxItems);
      AddedKeepsDistinct(items, texts[0], ids[0], nows[0], maxItems);
      AddedAllInvariant(next, texts[1..], ids[1..], nows[1..], maxItems);
    }
  }

  /** The texts of the entries, in list order. */
  function Contents(items: seq<ClipboardItem>): seq<string>
  {
    seq(|items|, k requires 0 <= k < |items| => items[k].content)
  }

  /** With a maximum of three, copying "a", "b", "c", "d" keeps "d", "c",
      "b"; copying "b" again then gives "b", "d", "c", with "b" accessed
      once. */
  lemma ThreeItemScenario(ids: seq<Uuid>, nows: seq<Date>)
    requires |ids| == 5 && |nows| == 5
    ensures var r := AddedAll([], ["a", "b", "c", "d"], ids[..4], nows[..4], 3);
      Contents(r) == ["d", "c", "b"]
    ensures var r := AddedAll([], ["a", "b", "c", "d", "b"], ids, nows, 3);
      Contents(r) == ["b", "d", "c"] && r[0].accessCount == 1
  {
    var s1 := Added([], "a", ids[0], nows[0], 3);
    assert Contents(s1) == ["a"];
    var s2 := Added(s1, "b", ids[1], nows[1], 3);
    assert Contents(s2) == ["b", "a"];
    var s3 := Added(s2, "c", ids[2], nows[2], 3);
    assert Contents(s3) == ["c", "b", "a"];
    var s4 := Added(s3, "d", ids[3], nows[3], 3);
    assert Contents(s4) == ["d", "c", "b"];
    AddedExisting(s4, "b", ids[4], nows[4], 3, 2);
    var s5 := Added(s4, "b", ids[4], nows[4], 3);
    assert Contents(s5) == ["b", "d", "c"];
    assert AddedAll([], ["a", "b", "c", "d"], ids[..4], nows[..4], 3) == s4;
    assert AddedAll([], ["a", "b", "c", "d", "b"], ids, nows, 3) == s5;
  }

  /** `items.removeAll { $0.id == id }`. */
  function WithoutId(items: seq<ClipboardItem>, id: Uuid): seq<ClipboardItem>
  {
    Filter(items, (x: ClipboardItem) => x.id != id)
  }

  /** Removal drops exactly the entries with that `id`, however many, keeps
      every other entry as often as it occurs, and keeps their order. */
  lemma WithoutIdRemovesExactly(items: seq<ClipboardItem>, id: Uuid)
    ensures forall k :: 0 <= k < |WithoutId(items, id)| ==> WithoutId(items, id)[k].id != id
    ensures forall x :: multiset(WithoutId(items, id))[x] == if x.id == id then 0 else multiset(items)[x]
    ensures IsSubsequence(WithoutId(items, id), items)
  {
    forall x {
      FilterMultiplicity(items, (x: ClipboardItem) => x.id != id, x);
    }
    FilterIsSubsequence(items, (x: ClipboardItem) => x.id != id);
  }

  /** Removal keeps the "no two entries share content" invariant and never
      lengthens the list, so it also keeps the capacity bound. */
  lemma {:induction false} WithoutIdKeepsDistinct(items: seq<ClipboardItem>, id: Uuid)
    requires DistinctContents(items)
    ensures DistinctContents(WithoutId(items, id))
    ensures |WithoutId(items, id)| <= |items|
  {
    if items != [] {
      var tail := items[1..];
      assert DistinctContents(tail) by {
        forall i, j | 0 <= i < j < |tail| ensures tail[i].content != tail[j].content {
          assert tail[i] == items[i + 1] && tail[j] == items[j + 1];
        }
      }
      WithoutIdKeepsDistinct(tail, id);
      var rest := WithoutId(tail, id);
      assert WithoutId(items, id) == (if items[0].id != id then [items[0]] else []) + rest;
      forall k | 0 <= k < |rest| ensures rest[k].content != items[0].content {
        assert rest[k] in tail;
        var j :| 0 <= j < |tail| && tail[j] == rest[k];
        assert items[j + 1] == rest[k];
      }
    }
  }

  /** Removing an `id` that is not in the list changes nothing. */
  lemma WithoutAbsentId(items: seq<ClipboardItem>, id: Uuid)
    requires forall k :: 0 <= k < |items| ==> items[k].id != id
    ensures WithoutId(items, id) == items
  {
    FilterAllKept(items, (x: ClipboardItem) => x.id != id);
  }

  /** Removal goes by `id`, not by content: an entry with the same content
      as the removed one but another `id` stays. */
  lemma WithoutIdIgnoresContent(items: seq<ClipboardItem>, removed: ClipboardItem, k: nat)
    requires k < |items| && SameContent(items[k], removed) && items[k].id != removed.id
    ensures items[k] in WithoutId(items, removed.id)
  {
  }

  /** Entries built from the legacy list of strings (`enumerated().map`):
      the i-th string gets the i-th fresh id and a timestamp `i` minutes
      before `now`. */
  function Migrated(strings: seq<string>, ids: seq<Uuid>, now: Date): seq<ClipboardItem>
    requires |ids| == |strings|
  {
    seq(|strings|, i requires 0 <= i < |strings| => Make(ids[i], strings[i], now - LegacyStep * i))
  }

  /** The migration keeps the strings in order, with no accesses and no
      metadata; the i-th entry is stamped `i` minutes before `now`, so the
      timestamps strictly decrease from newest to oldest. */
  lemma MigratedKeepsOrder(strings: seq<string>, ids: seq<Uuid>, now: Date)
    requires |ids| == |strings|
    ensures |Migrated(strings, ids, now)| == |strings|
    ensures Contents(Migrated(strings, ids, now)) == strings
    ensures forall i :: 0 <= i < |strings| ==>
      var e := Migrated(strings, ids, now)[i];
      e.id == ids[i] && e.timestamp == now - LegacyStep * i && e.accessCount == 0 && !e.isFavorite && e.sourceApp == None
    ensures forall i, j :: 0 <= i < j < |strings| ==>
      Migrated(strings, ids, now)[i].timestamp > Migrated(strings, ids, now)[j].timestamp
  {
  }

  /** The outcome of a storage load: the decoded value, or an error. */
  datatype LoadResult<T> = Loaded(value: T) | LoadFailed

  /** The list after `loadData()`: the structured list when it loads, else
      the migrated legacy list when that loads, else the list as it was. */
  function AfterLoad(
    items: seq<ClipboardItem>,
    fromItems: LoadResult<seq<ClipboardItem>>,
    fromStrings: LoadResult<seq<string>>,
    ids: seq<Uuid>,
    now: Date): seq<ClipboardItem>
    requires fromItems.LoadFailed? && fromStrings.Loaded? ==> |ids| == |fromStrings.value|
  {
    match fromItems
    case Loaded(stored) => stored
    case LoadFailed =>
      match fromStrings
      case Loaded(strings) => Migrated(strings, ids, now)
      case LoadFailed => items
  }

  /** The three outcomes of loading. */
  lemma AfterLoadCases(
    items: seq<ClipboardItem>,
    fromItems: LoadResult<seq<ClipboardItem>>,
    fromStrings: LoadResult<seq<string>>,
    ids: seq<Uuid>,
    now: Date)
    requires fromItems.LoadFailed? && fromStrings.Loaded? ==> |ids| == |fromStrings.value|
    ensures fromItems.Loaded? ==> AfterLoad(items, fromItems, fromStrings, ids, now) == fromItems.value
    ensures fromItems.LoadFailed? && fromStrings.Loaded? ==>
      Contents(AfterLoad(items, fromItems, fromStrings, ids, now)) == fromStrings.value
    ensures fromItems.LoadFailed? && fromStrings.LoadFailed? ==>
      AfterLoad(items, fromItems, fromStrings, ids, now) == items
  {
    if fromItems.LoadFailed? && fromStrings.Loaded? {
      MigratedKeepsOrder(fromStrings.value, ids, now);
    }
  }

  /** The `ClipboardWatcher` object: the live list, the monitoring flag and
      the last pasteboard change count seen. */
  class ClipboardWatcher {
    var items: seq<ClipboardItem>
    var isRunning: bool
    var lastChangeCount: int

    /** `init()`: remember the pasteboard's change count, load the stored
        history, and start monitoring. */
    constructor (
      changeCount: int,
      fromItems: LoadResult<seq<ClipboardItem>>,
      fromStrings: LoadResult<seq<string>>,
      ids: seq<Uuid>,
      now: Date)
      requires fromItems.LoadFailed? && fromStrings.Loaded? ==> |ids| == |fromStrings.value|
      ensures items == AfterLoad([], fromItems, fromStrings, ids, now)
      ensures isRunning && lastChangeCount == changeCount
    {
      items := [];
      isRunning := false;
      lastChangeCount := changeCount;
      new;
      var _ := LoadData(fromItems, fromStrings, ids, now);
      StartMonitoring();
    }

    method StartMonitoring()
      modifies this`isRunning
      ensures isRunning
    {
      isRunning := true;
    }

    method StopMonitoring()
      modifies this`isRunning
      ensures !isRunning
    {
      isRunning := false;
    }

    /** One timer tick: `changeCount` and `pasteboardText` are what the
        pasteboard reports. Any change of the counter, not only an increase,
        counts as new content. */
    method CheckForChanges(changeCount: int, pasteboardText: Option<string>, storedMaxItems: int, id: Uuid, now: Date)
      modifies this`items, this`lastChangeCount
      ensures changeCount == old(lastChangeCount) ==> items == old(items) && lastChangeCount == old(lastChangeCount)
      ensures changeCount != old(lastChangeCount) ==> lastChangeCount == changeCount
      ensures changeCount != old(lastChangeCount) && pasteboardText.Some? ==>
        items == Added(old(items), pasteboardText.value, id, now, EffectiveMaxItems(storedMaxItems))
      ensures pasteboardText.None? ==> items == old(items)
    {
      if changeCount != lastChangeCount {
        lastChangeCount := changeCount;
        if pasteboardText.Some? {
          AddNewItem(pasteboardText.value, storedMaxItems, id, now);
        }
      }
    }

    /** `addNewItem(text)`; `storedMaxItems` is the integer in the settings
        store, `id` and `now` the new entry's `UUID()` and `Date()`. */
    method AddNewItem(text: string, storedMaxItems: int, id: Uuid, now: Date)
      modifies this`items
      ensures items == Added(old(items), text, id, now, EffectiveMaxItems(storedMaxItems))
      ensures |old(items)| <= EffectiveMaxItems(storedMaxItems) ==> |items| <= EffectiveMaxItems(storedMaxItems)
      ensures DistinctContents(old(items)) ==> DistinctContents(items)
      ensures items != [] && items[0].content == text
    {
      ghost var before := items;
      var maxItems := EffectiveMaxItems(storedMaxItems);
      match FirstIndexOf(items, text) {
        case Some(existingIndex) =>
          var item := items[existingIndex];
          item := item.(accessCount := item.accessCount + 1);
          items := items[..existingIndex] + items[existingIndex + 1..];
          items := [item] + items;
        case None =>
          var newItem := Make(id, text, now);
          items := [newItem] + items;
          if |items| > maxItems {
            items := items[..maxItems];
          }
      }
      AddedWithinCapacity(before, text, id, now, maxItems);
      AddedPutsTextFirst(before, text, id, now, maxItems);
      if DistinctContents(before) {
        AddedKeepsDistinct(before, text, id, now, maxItems);
      }
    }

    /** `removeItem(item)`: removal goes by the entry's `id`. */
    method RemoveItem(item: ClipboardItem)
      modifies this`items
      ensures items == WithoutId(old(items), item.id)
      ensures forall k :: 0 <= k < |items| ==> items[k].id != item.id
      ensures (forall k :: 0 <= k < |old(items)| ==> old(items)[k].id != item.id) ==> items == old(items)
      ensures |items| <= |old(items)|
      ensures DistinctContents(old(items)) ==> DistinctContents(items)
    {
      WithoutIdRemovesExactly(items, item.id);
      if DistinctContents(items) {
        WithoutIdKeepsDistinct(items, item.id);
      }
      if forall k :: 0 <= k < |items| ==> items[k].id != item.id {
        WithoutAbsentId(items, item.id);
      }
      items := WithoutId(items, item.id);
    }

    method ClearItems()
      modifies this`items
      ensures items == []
    {
      items := [];
    }

    /** `loadData()`, with the two storage reads given as their results and
        `ids` and `now` standing for the `UUID()` and `Date()` of migrated
        entries. `resave` tells whether the list is written back in the
        structured format, which happens after a legacy migration. */
    method LoadData(
      fromItems: LoadResult<seq<ClipboardItem>>,
      fromStrings: LoadResult<seq<string>>,
      ids: seq<Uuid>,
      now: Date) returns (resave: bool)
      requires fromItems.LoadFailed? && fromStrings.Loaded? ==> |ids| == |fromStrings.value|
      modifies this`items
      ensures items == AfterLoad(old(items), fromItems, fromStrings, ids, now)
      ensures resave <==> fromItems.LoadFailed? && fromStrings.Loaded?
    {
      resave := false;
      match fromItems {
        case Loaded(stored) =>
          items := stored;
        case LoadFailed =>
          match fromStrings {
            case Loaded(strings) =>
              items := Migrated(strings, ids, now);
              resave := true;
            case LoadFailed =>
          }
      }
    }
  }
}
