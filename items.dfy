/** The history entry of Pastor/ClipboardItem.swift: a value record whose
    equality compares the copied text only, while its `id` stays the key
    used to remove one particular entry. */
module Items {

  datatype Option<T> = None | Some(value: T)

  /** A UUID, abstracted to a number; fresh ones are supplied by the caller. */
  type Uuid = nat

  /** A point in time, in whole seconds. */
  type Date = int

  datatype ClipboardItem = ClipboardItem(
    id: Uuid,
    content: string,
    timestamp: Date,
    isFavorite: bool,
    accessCount: int,
    sourceApp: Option<string>)

  /** The struct's initializer. In the source `id` defaults to `UUID()` and
      `timestamp` to `Date()`; both are inputs here. */
  function Make(
    id: Uuid,
    content: string,
    timestamp: Date,
    isFavorite: bool := false,
    accessCount: int := 0,
    sourceApp: Option<string> := None): (item: ClipboardItem)
    ensures item.id == id && item.content == content && item.timestamp == timestamp
    ensures item.isFavorite == isFavorite && item.accessCount == accessCount && item.sourceApp == sourceApp
  {
    ClipboardItem(id, content, timestamp, isFavorite, accessCount, sourceApp)
  }

  /** The fields left out of the initializer take their defaults. */
  lemma MakeDefaults(id: Uuid, content: string, timestamp: Date)
    ensures !Make(id, content, timestamp).isFavorite
    ensures Make(id, content, timestamp).accessCount == 0
    ensures Make(id, content, timestamp).sourceApp == None
  {
  }

  /** The struct's `==`, used for deduplication: the contents agree. */
  predicate SameContent(a: ClipboardItem, b: ClipboardItem)
  {
    a.content == b.content
  }

  /** `==` looks at `content` and at nothing else. */
  lemma SameContentIgnoresMetadata(a: ClipboardItem, b: ClipboardItem)
    ensures SameContent(a, b) <==> a.content == b.content
    ensures forall id: Uuid, timestamp: Date, isFavorite: bool, accessCount: int, sourceApp: Option<string> ::
      SameContent(a, b) == SameContent(a, ClipboardItem(id, b.content, timestamp, isFavorite, accessCount, sourceApp))
  {
  }

  /** `==` is an equivalence relation. */
  lemma SameContentIsEquivalence(a: ClipboardItem, b: ClipboardItem, c: ClipboardItem)
    ensures SameContent(a, a)
    ensures SameContent(a, b) ==> SameContent(b, a)
    ensures SameContent(a, b) && SameContent(b, c) ==> SameContent(a, c)
  {
  }

  /** `==` is broader than identity: two entries with the same content but
      different `id`s are equal for deduplication yet differ as entries. */
  lemma SameContentIsNotIdentity(a: ClipboardItem, b: ClipboardItem)
    requires a.content == b.content && a.id != b.id
    ensures SameContent(a, b)
    ensures a != b
  {
  }
}
