# LP Builder page editor — a Dafny model

This project models the page editor of LP Builder Pro (`src/App.tsx`). LP Builder Pro is a
single-page React tool that builds landing pages out of typed sections (hero, features,
pricing, FAQ, …). The model covers what the editor does to its data, and leaves out how it
draws it.

- **Styles** (`Styles.dfy`): the fifteen section types, the flat style record every section
  carries, the button style and the page settings. It also holds the font and animation
  catalogues and the per-type defaults.
- **Content** (`Content.dfy`): section content as untyped JSON data. It covers the default
  content of each type and the item edits that section components make on their list fields
  (features, stats, testimonials, FAQ items, gallery images). An edit finds its item by id,
  then merges a patch in, appends an item, or filters one out.
- **Sections** (`Sections.dfy`): the page as a list of sections, and the list operations:
  - append a new section;
  - delete by id;
  - duplicate right after the original;
  - move up or down by one;
  - merge a partial section into the one with an id;
  - replace the page by a template.
- **History** (`History.dfy`): the bounded undo history, a list of at most 50 section
  snapshots with a cursor.
- **Editor** (`Editor.dfy`): the editor object. Its fields are the current sections, the
  history, the cursor, the page settings and the selected section. Its methods are the
  operations the UI calls. Each method's contract ties its new state to the functions above.
  The duplicate is a join of slices, which gives the same list as the source's splice into a
  copy. The move is written as the source writes it, a swap of two slots in a copied array.
- **Export** (`Export.dfy`): how a section's style record is resolved in two places, as
  choices rather than CSS text. One is the live preview (`getSectionStyle`). The other is the
  exported HTML page (`getBg`, `getPad`, `getShadow`, `getAnim`), which writes divider,
  spacer and custom sections without that style. The module also models the de-duplicated
  Google Fonts links of the exported page.

What the code does that a reader may not expect:

- Only the sections are snapshotted. Page settings never enter the history, so undo does not
  restore them (`Editor.Editor.SetPageSettings`).
- An inline content edit (`updateSection` called from a section component) does not record a
  snapshot. Only the style editor's path records one, once per change.
  - So after adding a section and editing its text, undo does not bring the old text back.
  - If the add was the first recorded edit, undo is disabled altogether.
- The initial hero section is never recorded. The first recorded edit can therefore never be
  undone back to the initial page.
- Deleting an absent id still records a snapshot. Duplicating or moving that does nothing
  records none.

Ids come from `Date.now()` and `Math.random()` in the source. Here they are parameters:
- `newId`, required not to occur in the page yet;
- `idOf`, a map from template position to id, required to give different positions
  different ids.

## Model

| member | source | states |
|---|---|---|
| Lists.MapWhere | src/App.tsx:950-953 | the idiom `xs.map(x => p(x) ? f(x) : x)`: same length; matching elements replaced by their image; the others untouched |
| Lists.Filter | src/App.tsx:921-922 | the idiom `xs.filter(keep)`: only kept elements; all of `xs` when every element is kept |
| Lists.FilterCounts | src/App.tsx:921-922 | a filter keeps each accepted element exactly as often as it occurs, and drops every rejected one |
| Lists.IndexWhere | src/App.tsx:929 | the idiom `findIndex`: -1 exactly when nothing matches, else the first match |
| Lists.FilterAppend | src/App.tsx:921-922 | a filter keeps relative order: it distributes over concatenation |
| Lists.FilterDropsRejected | src/App.tsx:921-922 | a rejected element can be removed from anywhere without changing the filter's result |
| Lists.Swapped | src/App.tsx:943 | the destructuring swap: the two slots trade elements, the others keep theirs, and the multiset is unchanged |
| Lists.SwapTwice | src/App.tsx:943 | swapping the same two slots twice restores the list |
| Json.Spread | src/App.tsx:363 | `{ ...o, ...patch }`: keys of both; the patch wins; the other keys are kept |
| Json.Item | src/App.tsx:364 | an item carries the given id and no other |
| Styles.GetDefaultStyles | src/App.tsx:132-170 | hero, cta, footer and stats are navy with white text, the others white with ink text; top and bottom padding are 120 for hero, else 80; features and pricing have 3 columns, the others 1 |
| Styles.DefaultStylesDifferOnlyInTypedFields | src/App.tsx:132-170 | no other style field depends on the section type |
| Styles.DefaultStylesInEditorRanges | src/App.tsx:607-681 | every default style lies in the editor's slider ranges; its animation is a picker value and its font a catalogue font |
| Styles.GetDefaultButtonStyles | src/App.tsx:172-184 | border colour equals background colour; zero border width; radius 8; sizes in the editor's ranges |
| Styles.DefaultPageSettings | src/App.tsx:236-249 | the primary font is the first catalogue font; custom head and CSS are empty |
| Content.WithList | src/App.tsx:363 | `{ ...content, [key]: items }` puts the list in place and touches no other field |
| Content.UpdateItem | src/App.tsx:363 | only the item with the id gets the patch merged in; order and length are kept; an absent id changes nothing; a patch without `id` keeps every id |
| Content.AddItem | src/App.tsx:364 | one item more, at the end; the others unchanged |
| Content.RemoveItem | src/App.tsx:365 | no item with the id remains; every other item is kept; an absent id changes nothing |
| Content.RemoveAfterUpdate | src/App.tsx:363-365 | editing an item and then removing it equals removing it |
| Content.EditsKeepIdsUnique | src/App.tsx:363-365 | update, add with a new id, and remove all keep item ids unique |
| Content.RemoveKeepsIdsUnique | src/App.tsx:365 | removing items keeps item ids unique |
| Content.NewFeature | src/App.tsx:364 | the appended feature carries the new id |
| Content.NewFaqItem | src/App.tsx:449 | the appended FAQ item carries the new id |
| Content.NewImage | src/App.tsx:532 | the appended gallery image carries the new id |
| Content.UpdateIn | src/App.tsx:363 | only the list field changes, and it becomes the item update of the old list; the stats, testimonials, FAQ and gallery components do the same at lines 389, 426, 448 and 531 |
| Content.AddIn | src/App.tsx:364 | only the list field changes, and it gains the new item at the end; the FAQ and gallery components do the same at lines 449 and 532 |
| Content.RemoveIn | src/App.tsx:365 | only the list field changes, and it loses the items with the id |
| DefaultContents.Numbered | src/App.tsx:188-232 | the i-th default item carries the i-th fields under the id "1", "2", … in order |
| DefaultContents.DefaultItems | src/App.tsx:188-232 | no default list has more than eight items, so the ids "1", "2", … of its items are single characters |
| DefaultContents.DefaultItemsIffList | src/App.tsx:188-232 | exactly the nine types with a list field (features, pricing, testimonials, stats, gallery, logos, FAQ, contact, footer) have default items |
| DefaultContents.GetDefaultContent | src/App.tsx:186-234 | a type without a list field gets just its fixed fields; a type with one keeps them all and gets, under its list field, its default items numbered "1", "2", … in order |
| DefaultContents.NumberedIdsUnique | src/App.tsx:188-232 | numbered items never share an id |
| DefaultContents.DefaultListsHaveUniqueIds | src/App.tsx:186-234 | each type with a default item list gets it non-empty under its list field, with unique ids |
| Sections.Apply | src/App.tsx:951 | `{ ...s, ...u }` with the patches the editor sends never changes a section's id or type |
| Sections.NewSection | src/App.tsx:916 | a new section has the type's default content and styles and the default button style |
| Sections.IndexOf | src/App.tsx:929 | -1 exactly for an absent id, else the first section with the id |
| Sections.AppendKeepsIdsUnique | src/App.tsx:916 | appending a section under a new id keeps ids unique |
| Sections.Deleted | src/App.tsx:922 | no section with the id remains; all others are kept; an absent id changes nothing |
| Sections.DeletedDistributes | src/App.tsx:922 | deletion keeps the remaining sections in their relative order |
| Sections.DeleteRemovesOne | src/App.tsx:922 | with unique ids, deleting a present id removes exactly that one section |
| Sections.DeleteKeepsIdsUnique | src/App.tsx:922 | deleting keeps ids unique |
| Sections.RemoveAtKeepsIdsUnique | src/App.tsx:922 | taking any one section out of a page with unique ids keeps ids unique |
| Sections.Duplicated | src/App.tsx:928-937 | an absent id changes nothing; otherwise the copy under the new id sits right after the original, with everything before and after in place |
| Sections.DeleteUndoesDuplicate | src/App.tsx:928-937 | the copy equals the original except for its id, and deleting it by the new id restores the page |
| Sections.DuplicateKeepsIdsUnique | src/App.tsx:928-937 | duplicating under a new id keeps ids unique |
| Sections.MovedAsWritten | src/App.tsx:939-948 | the move exactly as written, where the found index is not checked against -1 |
| Sections.MoveAbsentDownBlanksFirst | src/App.tsx:939-948 | as written, moving an absent id down empties slot 0 |
| Sections.Moved | src/App.tsx:939-948 | the same sections (multiset) in a list of the same length; the section swaps with its neighbour above (up) or below (down); at the top or bottom, or for an absent id, nothing changes |
| Sections.MoveAgreesWhenPresent | src/App.tsx:939-948 | for a present id the corrected move is the move as written |
| Sections.MoveUpThenDown | src/App.tsx:939-948 | a move up that happened is undone by a move down |
| Sections.MoveDownThenUp | src/App.tsx:939-948 | with unique ids, a move down that happened is undone by a move up |
| Sections.MoveKeepsIdsUnique | src/App.tsx:939-948 | moving keeps ids unique |
| Sections.MovableIffChanged | src/App.tsx:939-948 | on a page with unique ids, the move's guard holds exactly when the move changes the page |
| Sections.Updated | src/App.tsx:950-953 | only sections with the id get the patch; no id changes; an absent id changes nothing |
| Sections.DeleteAfterUpdate | src/App.tsx:950-953 | an edit of a section that is later deleted leaves no trace |
| Sections.Templates | src/App.tsx:763-786 | the catalogue holds exactly the keys blank, saas and coaching |
| Sections.SaasTemplate | src/App.tsx:766-776 | the saas template is hero, logos, features, stats, pricing, testimonials, faq, cta, footer |
| Sections.CoachingTemplate | src/App.tsx:777-785 | the coaching template is hero, stats, features, testimonials, pricing, contact, footer |
| Sections.Instantiate | src/App.tsx:958 | a template's sections keep type, content, styles and button style, under the generated ids |
| Sections.InstantiateIdsUnique | src/App.tsx:958 | a template instantiated with an id generator that gives different positions different ids has unique ids |
| Sections.Loaded | src/App.tsx:955-962 | a known key gives its template's sections; an unknown key gives nothing |
| Sections.LoadedIdsUnique | src/App.tsx:958 | a loaded template has unique ids when the generator gives each position a different id |
| History.Empty | src/App.tsx:901-902 | the history starts empty, with the cursor at -1 |
| History.Push | src/App.tsx:904-910 | keeps the entries up to the cursor, appends the snapshot, drops the oldest entry past 50, puts the cursor on the snapshot, and leaves nothing to redo |
| History.Undo | src/App.tsx:912 | one step back exactly when the cursor is above 0; otherwise no change |
| History.Redo | src/App.tsx:913 | one step forward exactly when a newer entry is kept; otherwise no change |
| History.UndoRedoInverse | src/App.tsx:912-913 | redo takes back an undo, and undo takes back a redo |
| History.UndoAfterPush | src/App.tsx:904-912 | after a push, undo shows the snapshot current before it, with or without eviction; the first push cannot be undone |
| History.PushAllKeepsNewest | src/App.tsx:904-910 | after any number of pushes from empty, exactly the newest 50 snapshots (or all of them) are kept, in order |
| History.UndoNSteps | src/App.tsx:912 | k undos from the newest snapshot move the cursor back by k, and undo stays enabled until the oldest kept snapshot |
| History.UndoDepthIsBounded | src/App.tsx:904-912 | however many edits, at most 49 can be undone; the last undo reaches the 50th-newest snapshot |
| History.RedoNUndoesUndoN | src/App.tsx:912-913 | k undos followed by k redos return to the newest snapshot |
| History.RedoNSteps | src/App.tsx:913 | k redos move the cursor forward by k while newer entries are kept |
| History.SixtyEdits | src/App.tsx:904-913 | sixty edits keep fifty snapshots, and 49 undos followed by 49 redos return to the last edit |
| Editor.FindIndex | src/App.tsx:929 | the scanning search finds the first section with the id, or -1 when there is none |
| Editor.SwapInCopy | src/App.tsx:941-943 | swapping two slots of an array copy gives the swapped list |
| Editor.Editor.constructor | src/App.tsx:893-902 | one hero section with id "1", an empty history, cursor -1, default page settings, nothing selected |
| Editor.Editor.SaveToHistory | src/App.tsx:904-910 | the history becomes the push of the snapshot; the sections and settings are untouched |
| Editor.Editor.Commit | src/App.tsx:917-918 | `setSections(next); saveToHistory(next)`: the page becomes `next` and the history its push; settings and selection are untouched |
| Editor.Editor.Undo | src/App.tsx:912 | the history takes one undo step, and when it moved the shown sections are the snapshot under the cursor |
| Editor.Editor.Redo | src/App.tsx:913 | the history takes one redo step, and when it moved the shown sections are the snapshot under the cursor |
| Editor.Editor.AddSection | src/App.tsx:915-919 | the new default section is appended and the result recorded |
| Editor.Editor.DeleteSection | src/App.tsx:921-926 | the section is deleted, the result recorded even for an absent id, and its selection cleared |
| Editor.Editor.DuplicateSection | src/App.tsx:928-937 | the page becomes the duplicate; recorded exactly when the id was present |
| Editor.Editor.MoveSection | src/App.tsx:939-948 | the page becomes the corrected move; recorded exactly when the guard lets it through, which on a page with unique ids is exactly when something moved |
| Editor.Editor.UpdateSection | src/App.tsx:950-953 | the page becomes the update, and the history is untouched |
| Editor.Editor.EditStyles | src/App.tsx:1088 | the page becomes the update, recorded once |
| Editor.Editor.LoadTemplate | src/App.tsx:955-962 | a known template replaces the page and is recorded; an unknown key changes nothing |
| Editor.Editor.SetPageSettings | src/App.tsx:1091 | only the page settings change; the history is untouched |
| Editor.Editor.Select | src/App.tsx:1070 | only the selection changes |
| Export.GetSectionStyle | src/App.tsx:967-975 | the preview draws a border exactly when its width is positive, and a shadow exactly when its blur is positive |
| Export.GetBg | src/App.tsx:834 | the exported background is the one the preview shows |
| Export.GetPad | src/App.tsx:833 | the exported padding is the one the preview applies |
| Export.GetShadow | src/App.tsx:835 | the exported shadow is the one the preview shows |
| Export.GetAnim | src/App.tsx:836 | an animation exactly when it is not "none", under the chosen name |
| Export.ExportBase | src/App.tsx:840 | `base` agrees with the preview on background, text colour, padding, font and shadow, and carries `getAnim`'s animation |
| Export.ExportStyleOf | src/App.tsx:840-857 | as written: no style exactly for divider, spacer and custom sections; `base` for the twelve other types |
| Export.BackgroundBranches | src/App.tsx:834 | gradient exactly for a gradient type; image exactly for an image type with a non-empty image; solid colour otherwise |
| Export.LiveAndExportAgree | src/App.tsx:833-857 | every section the export styles agrees with its preview on background, text colour, padding (top, right, bottom, left), font and shadow |
| Export.ShadowOnlyWithBlur | src/App.tsx:835 | the preview shows a shadow exactly when the blur is positive, the export exactly when the blur is positive and the section is not written bare; neither the preview's nor the export's section style reads the `boxShadow` preset field |
| Export.PreviewAndExportDiffer | src/App.tsx:967-975 | a border only in the preview, exactly when its width is positive; an animation only in the export, exactly when it is not "none" and the section is not written bare |
| Export.FreshSectionRendering | src/App.tsx:132-170 | a section with default styles is previewed in its default solid colour with a blur-20 shadow; the export matches it and fades it in, except for the three bare types, which get no style |
| Export.FreshSpacerExportedBare | src/App.tsx:856 | as written, a fresh spacer is previewed with 80px of padding above and below, a white background and a shadow, and exported with none of them |
| Export.IntendedExportStyle | src/App.tsx:1078 | the corrected export: every section, the bare types included, gets the preview's background, colour, padding, font and shadow, and its animation unless "none" |
| Export.ExportAgreesUnlessBare | src/App.tsx:840-857 | the export as written gives the intended style exactly to the types it does not write bare |
| Export.PickerAnimationsWithoutKeyframes | src/App.tsx:824-827 | of the eleven picker animations other than "none", only fadeIn, slideDown, slideUp and zoomIn have keyframes in the exported page |
| Export.Dedup | src/App.tsx:810 | `[...new Set(xs)]`: no repeats, the same values, in the order of their first occurrence |
| Export.DedupOfDistinct | src/App.tsx:810 | a list without repeats is unchanged |
| Export.FindFont | src/App.tsx:811 | a catalogue font with that value, exactly when there is one |
| Export.SpacesToPlus | src/App.tsx:812 | every space becomes '+', and nothing else changes |
| Export.SpacesToPlusIdempotent | src/App.tsx:812 | the second replacement in the source changes nothing |
| Export.UsedFamilies | src/App.tsx:810 | the primary font first, then each section's font in page order |
| Export.UsedFamiliesMembers | src/App.tsx:810 | a family is used exactly when it is the primary font or some section's font |
| Export.UrlFamily | src/App.tsx:812 | the `family` parameter of a link: the font's display name with every space as '+', no space left |
| Export.FontLinks | src/App.tsx:810-813 | one entry per distinct family; the entry of a catalogue font is its link, naming the display name with spaces as '+', and any other family gets an empty line |
| Export.FontLinksShape | src/App.tsx:810-813 | one entry per distinct family, the primary font's first, no family twice, a link exactly for catalogue fonts |
| Export.DefaultPageLinksOneFont | src/App.tsx:810-813 | with default settings and default section styles, the page links Noto Sans JP only |
| Export.UpToQuote | src/App.tsx:85-95 | the text before the first quote: a prefix with no quote in it, followed by a quote unless it is the whole text |
| Export.LeadingFamilyOfQuoted | src/App.tsx:85-95 | a catalogue value written as a quoted family and fallbacks names that family first |
| Export.ZenLinkNamesOtherFamily | src/App.tsx:812 | as written, the link for "Zen Kaku Gothic" (catalogue entry at line 94) asks for `Zen+Kaku+Gothic`, while its CSS value uses "Zen Kaku Gothic New" |
| Export.ZenValueQuotesItsFamily | src/App.tsx:94 | the CSS value of "Zen Kaku Gothic" names "Zen Kaku Gothic New" first |
| Export.IntendedUrlFamily | src/App.tsx:812 | the corrected link names the family the CSS value uses, with no space left, and is the link as written whenever the display name is that family |
| Export.IntendedZenLink | src/App.tsx:812 | the corrected link for "Zen Kaku Gothic" asks for `Zen+Kaku+Gothic+New`, unlike the link as written |

## Left out

- Rendering: all JSX components and the HTML text of each section type, including sizes
  derived by floating-point arithmetic (`headingSize * 0.75` and the like). The export is
  modelled only down to the choices it makes.
- The UI-only state: preview mode, device width, which panels are open, and the FAQ
  accordion.
- Browser I/O: image upload through `FileReader`, and the download through `Blob` and an
  anchor click.
- `Date.now()` and `Math.random()`: replaced by id parameters as described above.
- The deep copies (`JSON.parse(JSON.stringify(…))`): values are copied by value in Dafny.
- `customCSS`, `customHead` and custom HTML: passed through as opaque strings.
- Editor.Editor.MoveSection: uses the corrected move (see Findings). For an absent id and
  "down" the source writes an empty slot instead. The UI calls a move only for sections on
  the page, so it never reaches that case.
- Sections.Loaded: an unknown key gives nothing. In JavaScript, a key such as "constructor"
  would find an inherited property of the template object. The template picker offers only
  the three real keys.
- Style numbers that the editor steps in tenths or halves are `real`; whole-step numbers are
  `int`. The step sizes of the sliders are not modelled, only their ranges.

## Findings

| source | as written | input that shows it | evidently intended | confidence | as-written member | corrected member |
|---|---|---|---|---|---|---|
| src/App.tsx:855-857 | `renderSection` returns divider, spacer and custom sections without `base`, while the preview wraps every section in `getSectionStyle` (line 1078); the exported page loses their background, padding, font, shadow and animation | a freshly added spacer: previewed with 80px padding above and below, white and shadowed; exported as a bare `div` | the exported page looks like the preview for every section type | not executed; from the code alone, the authors may have meant these three as plain | Export.ExportStyleOf, Export.FreshSpacerExportedBare | Export.IntendedExportStyle |
| src/App.tsx:939-948 | the guard `(dir === 'up' && idx > 0) \|\| (dir === 'down' && idx < sections.length - 1)` lets `idx == -1` through for "down"; the swap then writes slot 0 with `newSections[-1]`, which is `undefined` | a non-empty page, an id not on it, direction "down" | an absent id changes nothing, as for "up" | not executed; unreachable from the UI, which moves only sections on the page | Sections.MovedAsWritten, Sections.MoveAbsentDownBlanksFirst | Sections.Moved |
| src/App.tsx:812 | the link is built from the display name `Zen Kaku Gothic`, while the font's CSS value (line 94) is `'Zen Kaku Gothic New', sans-serif` | a page whose primary font is Zen Kaku Gothic: the link asks for `family=Zen+Kaku+Gothic`, and the CSS asks for 'Zen Kaku Gothic New' | the link asks for the family the CSS uses, `Zen+Kaku+Gothic+New` | not executed; holds if the font service has no family named Zen Kaku Gothic | Export.UrlFamily, Export.ZenLinkNamesOtherFamily | Export.IntendedUrlFamily, Export.IntendedZenLink |
