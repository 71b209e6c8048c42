/**
 * The edit history of the `Home` component as a value: the list of images the
 * user has seen (`imageHistory`) and the cursor into it (`historyIndex`).
 * Attaching a file starts a history, a successful edit cuts off everything
 * after the cursor and appends the new image, and undo/redo move the cursor.
 */
module History {
  import opened Files

  /** One history entry: an object URL and the file it shows. */
  datatype HistoryItem = HistoryItem(imageUrl: string, file: ImageFile)

  datatype Cursor = Cursor(items: seq<HistoryItem>, index: int)

  /** The invariant once an image is attached: the cursor points into the history. */
  predicate Valid(c: Cursor)
  {
    0 <= c.index < |c.items|
  }

  /** The undo button is enabled. */
  predicate CanUndo(c: Cursor)
  {
    c.index > 0
  }

  /** The redo button is enabled. */
  predicate CanRedo(c: Cursor)
  {
    c.index < |c.items| - 1
  }

  /** The image the cursor points at. */
  function Current(c: Cursor): HistoryItem
    requires Valid(c)
  {
    c.items[c.index]
  }

  /** `Array.prototype.slice` resolving a relative index: negative counts from the end, clamped to `[0, len]`. */
  function RelativeIndex(k: int, len: nat): (r: nat)
    ensures r <= len
    ensures 0 <= k <= len ==> r == k
  {
    if k < 0 then (if len + k < 0 then 0 else len + k)
    else if k > len then len
    else k
  }

  /** `s.slice(start, end)`. */
  function Slice<T>(s: seq<T>, start: int, end: int): (r: seq<T>)
    ensures |r| <= |s|
  {
    var from := RelativeIndex(start, |s|);
    var to := RelativeIndex(end, |s|);
    if from < to then s[from..to] else []
  }

  /** A non-negative end keeps the first `end` items (or all of them). */
  lemma SlicePrefix<T>(s: seq<T>, end: int)
    requires 0 <= end
    ensures Slice(s, 0, end) == s[..if end <= |s| then end else |s|]
  {
  }

  /** A negative start counts from the end: `slice(-k, len)` keeps the last `k` items, or all of them. */
  lemma SliceFromEnd<T>(s: seq<T>, k: nat)
    requires k > 0
    ensures Slice(s, -(k as int), |s|) == s[if k <= |s| then |s| - k else 0..]
  {
    var from := if k <= |s| then |s| - k else 0;
    assert RelativeIndex(-(k as int), |s|) == from;
    assert s[from..|s|] == s[from..];
  }

  /** An end past the length, or a start at or past the end, is clamped: the slice never reaches beyond `s`. */
  lemma SliceClamped<T>(s: seq<T>, start: int, end: int)
    ensures end > |s| ==> Slice(s, start, end) == Slice(s, start, |s|)
    ensures 0 <= end <= start ==> Slice(s, start, end) == []
  {
  }

  /** `handleFile`: the history becomes the attached image alone. */
  function Start(item: HistoryItem): (c: Cursor)
    ensures Valid(c) && Current(c) == item
    ensures !CanUndo(c) && !CanRedo(c)
  {
    Cursor([item], 0)
  }

  /** The history updater of a successful edit, and the cursor moved one step on. */
  function Commit(c: Cursor, item: HistoryItem): (r: Cursor)
    ensures r.index == c.index + 1
    ensures |r.items| >= 1 && r.items[|r.items| - 1] == item
  {
    Cursor(Slice(c.items, 0, c.index + 1) + [item], c.index + 1)
  }

  /** `handleUndo`: one step back when there is one; the history is never touched. */
  function Undo(c: Cursor): (r: Cursor)
    ensures r.items == c.items
  {
    if c.index > 0 then Cursor(c.items, c.index - 1) else c
  }

  /** `handleRedo`: one step forward when there is one; the history is never touched. */
  function Redo(c: Cursor): (r: Cursor)
    ensures r.items == c.items
  {
    if c.index < |c.items| - 1 then Cursor(c.items, c.index + 1) else c
  }

  /**
   * A successful edit keeps the history up to and including the cursor, drops
   * the redo branch, appends the new image and moves the cursor onto it: it is
   * the last entry, redo is disabled and undo is enabled.
   */
  lemma CommitAppendsAfterCursor(c: Cursor, item: HistoryItem)
    requires Valid(c)
    ensures var r := Commit(c, item);
            && r.items == c.items[..c.index + 1] + [item]
            && r.index == c.index + 1 == |r.items| - 1
            && Valid(r) && Current(r) == item
            && !CanRedo(r) && CanUndo(r)
  {
    SlicePrefix(c.items, c.index + 1);
  }

  /** Undo steps back exactly when it is enabled, onto the previous image. */
  lemma UndoSteps(c: Cursor)
    requires Valid(c)
    ensures Valid(Undo(c))
    ensures CanUndo(c) ==> Undo(c).index == c.index - 1 && Current(Undo(c)) == c.items[c.index - 1]
    ensures !CanUndo(c) ==> Undo(c) == c
  {
  }

  /** Redo steps forward exactly when it is enabled, onto the next image. */
  lemma RedoSteps(c: Cursor)
    requires Valid(c)
    ensures Valid(Redo(c))
    ensures CanRedo(c) ==> Redo(c).index == c.index + 1 && Current(Redo(c)) == c.items[c.index + 1]
    ensures !CanRedo(c) ==> Redo(c) == c
  {
  }

  /** An enabled undo followed by redo returns to where it started. */
  lemma UndoThenRedo(c: Cursor)
    requires Valid(c) && CanUndo(c)
    ensures CanRedo(Undo(c))
    ensures Redo(Undo(c)) == c
  {
  }

  /** An enabled redo followed by undo returns to where it started. */
  lemma RedoThenUndo(c: Cursor)
    requires Valid(c) && CanRedo(c)
    ensures CanUndo(Redo(c))
    ensures Undo(Redo(c)) == c
  {
  }

  /** What the user can do to the history: attach a file, finish an edit, undo, redo. */
  datatype Action = Attach(item: HistoryItem) | Edit(item: HistoryItem) | UndoClick | RedoClick

  function Apply(c: Cursor, a: Action): Cursor
  {
    match a
    case Attach(item) => Start(item)
    case Edit(item) => Commit(c, item)
    case UndoClick => Undo(c)
    case RedoClick => Redo(c)
  }

  function Run(c: Cursor, actions: seq<Action>): Cursor
    decreases |actions|
  {
    if actions == [] then c else Run(Apply(c, actions[0]), actions[1..])
  }

  /**
   * Every handler keeps the cursor inside the history, so any run of them
   * from an attached image does; a run of undos and redos alone leaves the
   * history itself as it was.
   */
  lemma {:induction false} RunKeepsCursorInHistory(c: Cursor, actions: seq<Action>)
    requires Valid(c)
    ensures Valid(Run(c, actions))
    ensures (forall i :: 0 <= i < |actions| ==> actions[i].UndoClick? || actions[i].RedoClick?) ==>
              Run(c, actions).items == c.items
    decreases |actions|
  {
    if actions != [] {
      var next := Apply(c, actions[0]);
      match actions[0] {
        case Attach(item) =>
        case Edit(item) => CommitAppendsAfterCursor(c, item);
        case UndoClick => UndoSteps(c);
        case RedoClick => RedoSteps(c);
      }
      RunKeepsCursorInHistory(next, actions[1..]);
      if forall i :: 0 <= i < |actions| ==> actions[i].UndoClick? || actions[i].RedoClick? {
        assert next.items == c.items;
        assert forall i :: 0 <= i < |actions[1..]| ==> actions[1..][i] == actions[i + 1];
      }
    }
  }
}
