/** The pure part of the history list in Pastor/ContentView.swift: the
    search filter and the rows it produces. This view works on the history
    as a list of strings and has its own row type; it is modelled on those
    terms. */
module Display {
  import opened Text
  import opened Seqs

  /** `textLimit`: characters shown of each entry. */
  const TextLimit: nat := 64

  /** The view's own `ClipboardItem`: one row of the list. */
  datatype ClipboardItem = ClipboardItem(id: int, fullText: string, displayText: string, isTruncated: bool)

  /** `ClipboardItem(index:fullText:textLimit:)`: the row shows the text
      without its leading whitespace, cut to `textLimit` characters, and is
      marked truncated when something was cut. `prefix` traps on a negative
      length, so `textLimit` is not negative. */
  function MakeItem(index: int, fullText: string, textLimit: int): (item: ClipboardItem)
    requires textLimit >= 0
    ensures item.id == index && item.fullText == fullText
    ensures item.displayText <= TrimLeading(fullText)
    ensures |item.displayText| == if |TrimLeading(fullText)| < textLimit then |TrimLeading(fullText)| else textLimit
    ensures item.isTruncated <==> |TrimLeading(fullText)| > textLimit
    ensures item.isTruncated <==> item.displayText != TrimLeading(fullText)
  {
    var trimmed := TrimLeading(fullText);
    var cut := if |trimmed| <= textLimit then trimmed else trimmed[..textLimit];
    ClipboardItem(index, fullText, cut, |trimmed| > textLimit)
  }

  /** Lowercasing of one character; only the ASCII letters are folded. */
  function LowerChar(c: char): char
  {
    if 'A' <= c <= 'Z' then (c as int + 32) as char else c
  }

  /** `lowercased()`, one character at a time. */
  function Lowercased(s: string): string
  {
    seq(|s|, i requires 0 <= i < |s| => LowerChar(s[i]))
  }

  /** Lowercasing twice is lowercasing once. */
  lemma LowercasedIdempotent(s: string)
    ensures Lowercased(Lowercased(s)) == Lowercased(s)
  {
  }

  /** `sub` occurs in `s` starting at index `i`. */
  predicate OccursAt(s: string, sub: string, i: nat)
  {
    i + |sub| <= |s| && s[i..i + |sub|] == sub
  }

  /** Substring search. */
  function Contains(s: string, sub: string): (b: bool)
    ensures b <==> exists i: nat :: i <= |s| && OccursAt(s, sub, i)
    decreases |s|
  {
    if sub <= s then (assert OccursAt(s, sub, 0); true)
    else if s == [] then false
    else
      var b := Contains(s[1..], sub);
      assert forall i: nat :: OccursAt(s[1..], sub, i) ==> OccursAt(s, sub, i + 1) by {
        forall i: nat | OccursAt(s[1..], sub, i) ensures OccursAt(s, sub, i + 1) {
          assert s[i + 1..i + 1 + |sub|] == s[1..][i..i + |sub|];
        }
      }
      assert forall i: nat :: i > 0 && OccursAt(s, sub, i) ==> OccursAt(s[1..], sub, i - 1) by {
        forall i: nat | i > 0 && OccursAt(s, sub, i) ensures OccursAt(s[1..], sub, i - 1) {
          assert s[i..i + |sub|] == s[1..][i - 1..i - 1 + |sub|];
        }
      }
      b
  }

  /** `localizedCaseInsensitiveContains(search)`: the search text occurs in
      `text` up to case. Like Foundation, an empty search text matches
      nothing. */
  predicate ContainsIgnoringCase(text: string, search: string)
  {
    search != [] && Contains(Lowercased(text), Lowercased(search))
  }

  /** The texts that `filterAndTransform` keeps: all of them for an empty
      search, otherwise those containing the search text up to case. */
  function Matching(items: seq<string>, searchText: string): seq<string>
  {
    if searchText == [] then items else Filter(items, (t: string) => ContainsIgnoringCase(t, searchText))
  }

  /** `filterAndTransform(items:searchText:)`: one row per kept text, in list
      order, numbered from 0, each showing the first `TextLimit` characters of
      its trimmed text (all of it when shorter) and marked truncated exactly
      when more was there. */
  function FilterAndTransform(items: seq<string>, searchText: string): (rows: seq<ClipboardItem>)
    ensures searchText == [] ==> Matching(items, searchText) == items
    ensures |rows| == |Matching(items, searchText)|
    ensures forall k :: 0 <= k < |rows| ==>
      && rows[k].id == k
      && rows[k].fullText == Matching(items, searchText)[k]
      && rows[k].displayText <= TrimLeading(rows[k].fullText)
      && |rows[k].displayText| == (if |TrimLeading(rows[k].fullText)| < TextLimit then |TrimLeading(rows[k].fullText)| else TextLimit)
      && (rows[k].isTruncated <==> |TrimLeading(rows[k].fullText)| > TextLimit)
      && (rows[k].isTruncated <==> rows[k].displayText != TrimLeading(rows[k].fullText))
  {
    var kept := Matching(items, searchText);
    seq(|kept|, k requires 0 <= k < |kept| => MakeItem(k, kept[k], TextLimit))
  }

  /** An empty search lists every text, in order, numbered by position. */
  lemma EmptySearchListsAll(items: seq<string>)
    ensures |FilterAndTransform(items, "")| == |items|
    ensures forall k :: 0 <= k < |items| ==>
      FilterAndTransform(items, "")[k].fullText == items[k] && FilterAndTransform(items, "")[k].id == k
  {
  }

  /** A non-empty search keeps exactly the texts that contain it up to case,
      each as often as it occurs and in their original order; the rows carry
      those texts, numbered 0, 1, ... */
  lemma SearchListsMatches(items: seq<string>, searchText: string)
    requires searchText != []
    ensures var kept := Matching(items, searchText);
      && (forall t :: multiset(kept)[t] == if ContainsIgnoringCase(t, searchText) then multiset(items)[t] else 0)
      && IsSubsequence(kept, items)
    ensures var rows := FilterAndTransform(items, searchText);
      forall k :: 0 <= k < |rows| ==>
        && rows[k].id == k
        && rows[k].fullText == Matching(items, searchText)[k]
        && ContainsIgnoringCase(rows[k].fullText, searchText)
  {
    var p := (t: string) => ContainsIgnoringCase(t, searchText);
    forall t {
      FilterMultiplicity(items, p, t);
    }
    FilterIsSubsequence(items, p);
  }

  /** The view lowercases the search text before filtering; since matching
      ignores case anyway, doing so changes nothing. */
  lemma LowercasingSearchIsHarmless(items: seq<string>, searchText: string)
    ensures FilterAndTransform(items, Lowercased(searchText)) == FilterAndTransform(items, searchText)
  {
    LowercasedIdempotent(searchText);
    if searchText != [] {
      assert Lowercased(searchText) != [] by { assert |Lowercased(searchText)| == |searchText|; }
      FilterAgreeing(items, (t: string) => ContainsIgnoringCase(t, Lowercased(searchText)),
        (t: string) => ContainsIgnoringCase(t, searchText));
    }
  }
}
