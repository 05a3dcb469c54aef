/** The editor's bounded undo history (src/App.tsx:901-913): a list of snapshots and a cursor
    into it. A new snapshot drops everything after the cursor, is appended, and evicts the
    oldest entry once more than 50 are kept; undo and redo move the cursor one step and do
    nothing at either end. The cursor is -1 exactly while nothing has been recorded. */
module History {

  /** The most snapshots the history keeps. */
  const Cap: nat := 50

  datatype Timeline<T> = Timeline(entries: seq<T>, index: int)

  /** The states the editor can reach: at most `Cap` entries, the cursor on one of them, and
      the cursor at -1 only while the history is empty. */
  predicate Valid<T>(t: Timeline<T>)
  {
    && |t.entries| <= Cap
    && -1 <= t.index < |t.entries|
    && (t.index == -1 <==> t.entries == [])
  }

  /** The history a new editor starts with: nothing recorded. */
  function Empty<T>(): (r: Timeline<T>)
    ensures Valid(r) && r.entries == []
  {
    Timeline([], -1)
  }

  /** The undo button is enabled: there is an older snapshot to go back to. */
  predicate CanUndo<T>(t: Timeline<T>)
  {
    t.index > 0
  }

  /** The redo button is enabled: a snapshot after the cursor is still kept. */
  predicate CanRedo<T>(t: Timeline<T>)
  {
    t.index < |t.entries| - 1
  }

  /** The snapshot under the cursor. */
  function Current<T>(t: Timeline<T>): T
    requires 0 <= t.index < |t.entries|
  {
    t.entries[t.index]
  }

  /** `saveToHistory(snap)`: the entries up to the cursor are kept, the snapshot goes after
      them, the oldest entry goes when that makes 51, and the cursor lands on the snapshot.
      Whatever could have been redone is gone. */
  function Push<T>(t: Timeline<T>, snap: T): (r: Timeline<T>)
    requires Valid(t)
    ensures Valid(r) && 0 <= r.index == |r.entries| - 1 && Current(r) == snap
    ensures !CanRedo(r)
    ensures t.index + 2 <= Cap ==> r.entries == t.entries[..t.index + 1] + [snap]
    ensures t.index + 2 > Cap ==> r.entries == t.entries[1..t.index + 1] + [snap]
  {
    var kept := t.entries[..t.index + 1] + [snap];
    var entries := if |kept| > Cap then kept[1..] else kept;
    Timeline(entries, |entries| - 1)
  }

  /** `undo`: one snapshot back, unless the cursor is already on the oldest one (or on none). */
  function Undo<T>(t: Timeline<T>): (r: Timeline<T>)
    requires Valid(t)
    ensures Valid(r) && r.entries == t.entries
    ensures r.index == if CanUndo(t) then t.index - 1 else t.index
  {
    if t.index > 0 then t.(index := t.index - 1) else t
  }

  /** `redo`: one snapshot forward, unless the cursor is already on the newest one. */
  function Redo<T>(t: Timeline<T>): (r: Timeline<T>)
    requires Valid(t)
    ensures Valid(r) && r.entries == t.entries
    ensures r.index == if CanRedo(t) then t.index + 1 else t.index
  {
    if t.index < |t.entries| - 1 then t.(index := t.index + 1) else t
  }

  /** Redo takes back an undo, and undo takes back a redo. */
  lemma UndoRedoInverse<T>(t: Timeline<T>)
    requires Valid(t)
    ensures CanUndo(t) ==> CanRedo(Undo(t)) && Redo(Undo(t)) == t
    ensures CanRedo(t) ==> CanUndo(Redo(t)) && Undo(Redo(t)) == t
  {
  }

  /** After recording a snapshot, undo brings back the snapshot that was current before it,
      eviction or not; but the very first snapshot cannot be undone, since nothing was
      recorded before it. */
  lemma UndoAfterPush<T>(t: Timeline<T>, snap: T)
    requires Valid(t)
    ensures t.index >= 0 ==> CanUndo(Push(t, snap)) && Current(Undo(Push(t, snap))) == Current(t)
    ensures t.index == -1 ==> !CanUndo(Push(t, snap)) && Current(Push(t, snap)) == snap
  {
    var r := Push(t, snap);
    if t.index >= 0 && t.index + 2 > Cap {
      assert Current(Undo(r)) == t.entries[1..t.index + 1][t.index - 1];
    }
  }

  /** The history after recording `snaps` one after the other. */
  function PushAll<T>(t: Timeline<T>, snaps: seq<T>): (r: Timeline<T>)
    requires Valid(t)
    ensures Valid(r)
  {
    if snaps == [] then t else Push(PushAll(t, snaps[..|snaps| - 1]), snaps[|snaps| - 1])
  }

  function Min(a: int, b: int): int
  {
    if a <= b then a else b
  }

  /** From an empty history, recording `snaps` keeps exactly the last 50 of them (all of them
      when there are fewer) in recording order, with the cursor on the newest. */
  lemma {:induction false} PushAllKeepsNewest<T>(snaps: seq<T>)
    ensures var r := PushAll(Empty(), snaps);
            r.entries == snaps[|snaps| - Min(|snaps|, Cap)..] && r.index == |r.entries| - 1
  {
    if snaps != [] {
      var n := |snaps|;
      var init := snaps[..n - 1];
      var last := snaps[n - 1];
      PushAllKeepsNewest(init);
      var p := PushAll(Empty(), init);
      assert PushAll(Empty(), snaps) == Push(p, last);
      PushAtNewest(p, last);
      if n - 1 < Cap {
        assert p.entries == init;
        assert init + [last] == snaps;
      } else {
        assert p.entries == init[n - 1 - Cap..];
        SliceThenAppend(snaps, n - 1 - Cap);
        assert (p.entries + [last])[1..] == snaps[n - Cap..];
      }
    }
  }

  /** Dropping the last element, taking a suffix and putting the last element back gives
      that suffix of the whole sequence. */
  lemma SliceThenAppend<T>(s: seq<T>, k: nat)
    requires k < |s|
    ensures s[..|s| - 1][k..] + [s[|s| - 1]] == s[k..]
    ensures (s[..|s| - 1][k..] + [s[|s| - 1]])[1..] == s[k + 1..]
  {
  }

  /** A push with the cursor on the newest entry appends, evicting the oldest past `Cap`. */
  lemma PushAtNewest<T>(t: Timeline<T>, snap: T)
    requires Valid(t) && t.index == |t.entries| - 1
    ensures Push(t, snap).entries ==
              if |t.entries| + 1 > Cap then (t.entries + [snap])[1..] else t.entries + [snap]
  {
    assert t.entries[..t.index + 1] == t.entries;
  }

  /** `k` presses of undo. */
  function UndoN<T>(t: Timeline<T>, k: nat): (r: Timeline<T>)
    requires Valid(t)
    ensures Valid(r) && r.entries == t.entries
  {
    if k == 0 then t else Undo(UndoN(t, k - 1))
  }

  /** From the newest snapshot, `k` undos reach the `k`-th snapshot back as long as it is still
      kept; after `|entries| - 1` of them the oldest kept snapshot is current and undo is
      disabled. */
  lemma {:induction false} UndoNSteps<T>(t: Timeline<T>, k: nat)
    requires Valid(t) && t.index == |t.entries| - 1
    requires k < |t.entries|
    ensures UndoN(t, k).index == t.index - k
    ensures CanUndo(UndoN(t, k)) <==> k < |t.entries| - 1
  {
    if k > 0 {
      UndoNSteps(t, k - 1);
    }
  }

  /** However many edits were recorded, at most 49 can be undone: after 60 edits the 49th undo
      shows the 11th edit's snapshot and the undo button is then disabled. */
  lemma UndoDepthIsBounded<T>(snaps: seq<T>)
    requires |snaps| >= Cap
    ensures var t := PushAll(Empty(), snaps);
            && Current(UndoN(t, Cap - 1)) == snaps[|snaps| - Cap]
            && !CanUndo(UndoN(t, Cap - 1))
  {
    var t := PushAll(Empty(), snaps);
    PushAllKeepsNewest(snaps);
    UndoNSteps(t, Cap - 1);
  }

  /** `k` presses of redo. */
  function RedoN<T>(t: Timeline<T>, k: nat): (r: Timeline<T>)
    requires Valid(t)
    ensures Valid(r) && r.entries == t.entries
  {
    if k == 0 then t else Redo(RedoN(t, k - 1))
  }

  /** From the newest snapshot, `k` undos followed by `k` redos come back to it, as long as
      the undos were not blocked at the oldest kept snapshot. */
  lemma {:induction false} RedoNUndoesUndoN<T>(t: Timeline<T>, k: nat)
    requires Valid(t) && t.index == |t.entries| - 1
    requires k < |t.entries|
    ensures RedoN(UndoN(t, k), k) == t
  {
    UndoNSteps(t, k);
    RedoNSteps(UndoN(t, k), k);
  }

  lemma {:induction false} RedoNSteps<T>(t: Timeline<T>, k: nat)
    requires Valid(t) && t.index + k < |t.entries|
    ensures RedoN(t, k) == t.(index := t.index + k)
  {
    if k > 0 {
      RedoNSteps(t, k - 1);
    }
  }

  /** Sixty edits from an empty history keep fifty snapshots; forty-nine undos and then
      forty-nine redos come back to the last edit. */
  lemma SixtyEdits<T>(snaps: seq<T>)
    requires |snaps| == 60
    ensures var t := PushAll(Empty(), snaps);
            && |t.entries| == Cap
            && RedoN(UndoN(t, Cap - 1), Cap - 1) == t
            && Current(RedoN(UndoN(t, Cap - 1), Cap - 1)) == snaps[59]
  {
    var t := PushAll(Empty(), snaps);
    PushAllKeepsNewest(snaps);
    RedoNUndoesUndoN(t, Cap - 1);
  }
}
