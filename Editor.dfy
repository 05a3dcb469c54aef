/** The editor's state and the operations its toolbar, section toolbar, style editor and
    template picker call (src/App.tsx:891-962, 1088-1092): the current sections, the undo
    history of section snapshots with its cursor, the page settings and the selected section.
    Every structural edit records the new sections in the history; inline content edits and
    page settings do not. */
module Editor {
  import opened Wrappers
  import opened Styles
  import opened Sections
  import H = History
  import Lists

  /** `sections.findIndex(s => s.id === id)`, scanning from the top. */
  method FindIndex(secs: seq<Section>, id: string) returns (idx: int)
    ensures -1 <= idx < |secs|
    ensures idx == -1 <==> !HasSection(secs, id)
    ensures 0 <= idx ==> secs[idx].id == id && forall k :: 0 <= k < idx ==> secs[k].id != id
    ensures idx == IndexOf(secs, id)
  {
    idx := 0;
    while idx < |secs| && secs[idx].id != id
      invariant 0 <= idx <= |secs|
      invariant forall k :: 0 <= k < idx ==> secs[k].id != id
    {
      idx := idx + 1;
    }
    if idx == |secs| {
      idx := -1;
    }
  }

  /** `const a = [...xs]; [a[i], a[j]] = [a[j], a[i]]`: a copy of the list with two slots
      swapped in place. */
  method SwapInCopy(xs: seq<Section>, i: nat, j: nat) returns (r: seq<Section>)
    requires i < |xs| && j < |xs|
    ensures r == Lists.Swapped(xs, i, j)
  {
    var a := new Section[|xs|](k requires 0 <= k < |xs| => xs[k]);
    a[i], a[j] := a[j], a[i];
    r := a[..];
  }

  class Editor {
    var sections: seq<Section>
    var history: seq<seq<Section>>
    var historyIndex: int
    var pageSettings: PageSettings
    /** The section whose toolbar and style editor are open, if any. */
    var selected: Option<string>

    /** The history and its cursor as one value. */
    function Timeline(): H.Timeline<seq<Section>>
      reads this
    {
      H.Timeline(history, historyIndex)
    }

    /** The history is in a reachable shape, and the current sections and every recorded
        snapshot have unique ids. */
    predicate Valid()
      reads this
    {
      && H.Valid(Timeline())
      && UniqueIds(sections)
      && forall k :: 0 <= k < |history| ==> UniqueIds(history[k])
    }

    /** A new editor shows one hero section with id "1"; nothing is recorded yet, so the
        first edit can never be undone back to this page (src/App.tsx:893, 901-902). */
    constructor ()
      ensures Valid()
      ensures sections == [NewSection("1", Hero)]
      ensures history == [] && historyIndex == -1
      ensures pageSettings == DefaultPageSettings() && selected == None
    {
      sections := [NewSection("1", Hero)];
      history := [];
      historyIndex := -1;
      pageSettings := DefaultPageSettings();
      selected := None;
    }

    /** `saveToHistory`: keep the entries up to the cursor, append the snapshot, drop the
        oldest once there are more than 50, and put the cursor on the snapshot. */
    method SaveToHistory(snap: seq<Section>)
      requires Valid() && UniqueIds(snap)
      modifies this
      ensures Valid()
      ensures Timeline() == H.Push(old(Timeline()), snap)
      ensures sections == old(sections) && pageSettings == old(pageSettings)
      ensures selected == old(selected)
    {
      var newHistory := history[..historyIndex + 1];
      newHistory := newHistory + [snap];
      if |newHistory| > H.Cap {
        newHistory := newHistory[1..];
      }
      assert forall k :: 0 <= k < |newHistory| ==> newHistory[k] == snap || newHistory[k] in history;
      history := newHistory;
      historyIndex := |newHistory| - 1;
    }

    /** `undo`: when there is an older snapshot, step back to it and show it; otherwise
        nothing happens. */
    method Undo()
      requires Valid()
      modifies this
      ensures Valid()
      ensures Timeline() == H.Undo(old(Timeline()))
      ensures H.CanUndo(old(Timeline())) ==> sections == H.Current(Timeline())
      ensures !H.CanUndo(old(Timeline())) ==> sections == old(sections)
      ensures pageSettings == old(pageSettings) && selected == old(selected)
    {
      if historyIndex > 0 {
        historyIndex := historyIndex - 1;
        sections := history[historyIndex];
      }
    }

    /** `redo`: when a newer snapshot is kept, step forward to it and show it; otherwise
        nothing happens. */
    method Redo()
      requires Valid()
      modifies this
      ensures Valid()
      ensures Timeline() == H.Redo(old(Timeline()))
      ensures H.CanRedo(old(Timeline())) ==> sections == H.Current(Timeline())
      ensures !H.CanRedo(old(Timeline())) ==> sections == old(sections)
      ensures pageSettings == old(pageSettings) && selected == old(selected)
    {
      if historyIndex < |history| - 1 {
        historyIndex := historyIndex + 1;
        sections := history[historyIndex];
      }
    }

    /** `setSections(next); saveToHistory(next)`, the step every structural edit ends with. */
    method Commit(next: seq<Section>)
      requires Valid() && UniqueIds(next)
      modifies this
      ensures Valid()
      ensures sections == next && Timeline() == H.Push(old(Timeline()), next)
      ensures pageSettings == old(pageSettings) && selected == old(selected)
    {
      sections := next;
      SaveToHistory(next);
    }

    /** `addSection(type)`: a section of that type with its defaults goes at the end under a
        new id, and the result is recorded. */
    method AddSection(t: SectionType, newId: string)
      requires Valid() && !HasSection(sections, newId)
      modifies this
      ensures Valid()
      ensures sections == old(sections) + [NewSection(newId, t)]
      ensures Timeline() == H.Push(old(Timeline()), sections)
      ensures pageSettings == old(pageSettings) && selected == old(selected)
    {
      var added := NewSection(newId, t);
      AppendKeepsIdsUnique(sections, added);
      Commit(sections + [added]);
    }

    /** `deleteSection(id)`: the section goes, the result is recorded even when the id was
        absent, and a selection of that section is cleared. */
    method DeleteSection(id: string)
      requires Valid()
      modifies this
      ensures Valid()
      ensures sections == Deleted(old(sections), id)
      ensures Timeline() == H.Push(old(Timeline()), sections)
      ensures selected == if old(selected) == Some(id) then None else old(selected)
      ensures pageSettings == old(pageSettings)
    {
      DeleteKeepsIdsUnique(sections, id);
      Commit(Deleted(sections, id));
      if selected == Some(id) {
        selected := None;
      }
    }

    /** `duplicateSection(id)`: a copy under a new id is spliced in right after the original
        and the result recorded; an absent id changes nothing and records nothing. */
    method DuplicateSection(id: string, newId: string)
      requires Valid() && !HasSection(sections, newId)
      modifies this
      ensures Valid()
      ensures sections == Duplicated(old(sections), id, newId)
      ensures HasSection(old(sections), id) ==> Timeline() == H.Push(old(Timeline()), sections)
      ensures !HasSection(old(sections), id) ==> Timeline() == old(Timeline())
      ensures pageSettings == old(pageSettings) && selected == old(selected)
    {
      var idx := FindIndex(sections, id);
      if idx != -1 {
        var copy := sections[idx].(id := newId);
        var newSections := sections[..idx + 1] + [copy] + sections[idx + 1..];
        DuplicateKeepsIdsUnique(sections, id, newId);
        Commit(newSections);
      }
    }

    /** `moveSection(id, dir)`: the section swaps slots with its neighbour in a copy of the
        list and the result is recorded; at the top (up), at the bottom (down) or for an
        absent id nothing changes and nothing is recorded. */
    method MoveSection(id: string, dir: Direction)
      requires Valid()
      modifies this
      ensures Valid()
      ensures sections == Moved(old(sections), id, dir)
      ensures Movable(old(sections), id, dir) ==> Timeline() == H.Push(old(Timeline()), sections)
      ensures !Movable(old(sections), id, dir) ==> Timeline() == old(Timeline())
      ensures pageSettings == old(pageSettings) && selected == old(selected)
    {
      var idx := FindIndex(sections, id);
      if idx != -1 && ((dir == Up && idx > 0) || (dir == Down && idx < |sections| - 1)) {
        var lo := if dir == Up then idx - 1 else idx;
        var newSections := SwapInCopy(sections, lo, lo + 1);
        assert newSections == Moved(sections, id, dir);
        MoveKeepsIdsUnique(sections, id, dir);
        Commit(newSections);
      }
    }

    /** `updateSection(id, u)` from an inline edit: the patch is merged into the section, and
        nothing is recorded, so undo skips over the edit. */
    method UpdateSection(id: string, u: SectionPatch)
      requires Valid()
      modifies this
      ensures Valid()
      ensures sections == Updated(old(sections), id, u)
      ensures Timeline() == old(Timeline())
      ensures pageSettings == old(pageSettings) && selected == old(selected)
    {
      sections := Updated(sections, id, u);
      assert forall k :: 0 <= k < |sections| ==> sections[k].id == old(sections)[k].id;
    }

    /** A change in the style editor: the patch is merged into the section as an inline edit
        would, and this time the result is recorded, once (src/App.tsx:1088). The editor is
        open only while the selection names a section on the page (src/App.tsx:1087). */
    method EditStyles(id: string, u: SectionPatch)
      requires Valid()
      requires selected == Some(id) && HasSection(sections, id)
      modifies this
      ensures Valid()
      ensures sections == Updated(old(sections), id, u)
      ensures Timeline() == H.Push(old(Timeline()), sections)
      ensures pageSettings == old(pageSettings) && selected == old(selected)
    {
      UpdateSection(id, u);
      SaveToHistory(sections);
    }

    /** `loadTemplate(key)`: a known template replaces the page under new ids and is recorded;
        an unknown key changes nothing. */
    method LoadTemplate(key: string, idOf: nat -> string)
      requires Valid()
      requires forall i: nat, j: nat :: idOf(i) == idOf(j) ==> i == j
      modifies this
      ensures Valid()
      ensures Loaded(key, idOf).Some? ==>
                sections == Loaded(key, idOf).value && Timeline() == H.Push(old(Timeline()), sections)
      ensures Loaded(key, idOf).None? ==> sections == old(sections) && Timeline() == old(Timeline())
      ensures pageSettings == old(pageSettings) && selected == old(selected)
    {
      var t := Loaded(key, idOf);
      if t.Some? {
        LoadedIdsUnique(key, idOf);
        Commit(t.value);
      }
    }

    /** The page settings panel replaces the settings; the history is not involved, so undo
        never restores settings. */
    method SetPageSettings(p: PageSettings)
      requires Valid()
      modifies this
      ensures Valid()
      ensures pageSettings == p
      ensures sections == old(sections) && Timeline() == old(Timeline()) && selected == old(selected)
    {
      pageSettings := p;
    }

    /** Clicking a section selects it. */
    method Select(id: string)
      requires Valid()
      modifies this
      ensures Valid()
      ensures selected == Some(id)
      ensures sections == old(sections) && Timeline() == old(Timeline()) && pageSettings == old(pageSettings)
    {
      selected := Some(id);
    }
  }
}
