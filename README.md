# Cost-form category taxonomy, modelled in Dafny

The cost form classifies each cost with a two-level category taxonomy. The
taxonomy has a DIRECT section and an INDIRECT section. Each section has a
display label and a map from group name to an ordered list of items
`{id, label}`. This project models the three pieces of logic that work on that
taxonomy:

- **The repair of loaded data** (`normalizeCategories`). It turns whatever
  JSON was read from disk into the canonical shape. Missing sections and
  missing DIRECT groups are put back from the hard-coded seed taxonomy
  (`DATA`). The legacy INDIRECT shape `{label, items}` migrates into a
  single `PODSTAWOWE` group. INDIRECT groups that are not arrays are
  emptied. Modules `JsonValue`, `Taxonomy` and `Normalize` cover this. The
  routine works by assignments on a copy and a loop over the group keys. It
  is modelled as the method `Normalize.NormalizeCategories`, with its loops
  in `RepairGroupMap`/`RepairGroupArray`. That method is proved equal to the
  value-level definition `Normalize.Repair`, and the lemmas state the
  repair's properties about that definition. These include when it succeeds,
  what each rule does, that its results are exactly its fixed points, and
  idempotence.
- **The read path of the form** (module `Form`). `resolveCategoryLabel`
  looks up the chosen item's label or gives `-`. The module also covers the
  four summary rows and the name the document is saved under.
- **The administration panel's edits** (module `Admin`). Each edit exists
  as a function of the taxonomy it is given (`EditItemEffect`,
  `DeleteItemEffect`, `AddItemEffect`, `AddGroupEffect`,
  `DeleteGroupEffect`). Each returns what reaches `onDataChange`: nothing, a
  new taxonomy, or a `TypeError` thrown first. The component is the class
  `Admin.AdminPanel`, which holds the panel's state. Its handlers deep-copy
  the taxonomy into a fresh `Admin.Draft` object, change that copy's group
  maps in place and return its value. The DIRECT and INDIRECT handlers are
  the same code with the section swapped, so each pair is one member with
  the section as a parameter.

The taxonomy a handler is given is a Dafny value. No handler can change it,
so the caller's data is never altered, just as the deep copy guarantees in
the source. The synthesised item id `<first char of group>.<length + 1>` can
repeat an id already in the group once an earlier item has been deleted.
`Admin.NewItemIdCanRepeat` exhibits this. Ids are only unique enough for
display, and the model keeps this behaviour as it is.

Notes on what the source does:

- The repair does not always succeed. A primitive root, or a non-empty
  string as INDIRECT `groups`, makes it throw. An array root, DIRECT or
  INDIRECT would get a named property that no JSON value can hold. The
  routine goes on after an array DIRECT, so a throw later in it is still
  reported as the throw (`Normalize.ArrayDirectStillThrows`).
  `Normalize.NormalizeSucceedsIff` states exactly where it succeeds, and
  `Normalize.NormalizeThrowsIff` exactly where it throws. Idempotence holds
  wherever the first pass succeeds.
- The tests for "missing" are JavaScript falsiness, so a `groups` of `0`,
  `""` or `false` counts as missing. A truthy non-object DIRECT `groups` is
  kept.
- Deleting an item removes every item with that id, not just one.

## Model

| member | source | states |
|---|---|---|
| Taxonomy.FindIndex | src/renderer/src/components/AdminPanel.tsx:40 | -1 exactly when no item has the id, otherwise the position of the first item that has it |
| Taxonomy.DecodeEncode | src/renderer/src/types/electron.d.ts:3-20 | every taxonomy reads back unchanged from its JSON form `{DIRECT: {label, groups}, INDIRECT: {label, groups}}`, so the JSON form loses nothing |
| Text.Trim | src/renderer/src/components/AdminPanel.tsx:90 | `trim()` gives a string no longer than its input that neither starts nor ends with white space |
| Text.TrimCutsBlankEnds | src/renderer/src/components/AdminPanel.tsx:90 | `trim()` gives a slice of its input: everything before the slice and everything after it is white space |
| Text.TrimEmptyIffBlank | src/renderer/src/components/AdminPanel.tsx:90 | `s.trim()` is empty exactly when `s` is made of white space only |
| Text.Decimal | src/renderer/src/components/AdminPanel.tsx:94 | `${n}` of a non-negative number is a non-empty string of decimal digits |
| Text.DecimalRoundTrip | src/renderer/src/components/AdminPanel.tsx:94 | the decimal rendering of a number reads back as that number and has no leading zero |
| Text.FirstChar | src/renderer/src/components/AdminPanel.tsx:94 | `charAt(0)` is the first character, or empty for an empty string |
| Normalize.CloneDefaultCategories | src/renderer/src/App.tsx:66 | the copy of the seed reads back as the seed taxonomy |
| Normalize.RepairGroupMap | src/renderer/src/App.tsx:96-100 | the key loop keeps every key, keeps array values and replaces every other value by `[]` |
| Normalize.RepairGroupArray | src/renderer/src/App.tsx:96-100 | on an array of groups, the same loop over its indices keeps array elements and empties the others |
| Normalize.RepairGroupsInPlace | src/renderer/src/App.tsx:96-100 | the loop on any `groups` value: it throws on a non-empty string and leaves values without own keys alone |
| Normalize.RepairedDirect | src/renderer/src/App.tsx:73-79 | an array DIRECT is left as it is; any other DIRECT comes out as an object with truthy `groups` |
| Normalize.RepairGroups | src/renderer/src/App.tsx:96-100 | the loop over the INDIRECT groups throws exactly on `null`/`undefined` and on a non-empty string; on any other truthy value every group comes out an array |
| Normalize.RepairedIndirect | src/renderer/src/App.tsx:91-102 | the INDIRECT repair throws exactly when `groups` is a non-empty string; otherwise the result is an object without `items` whose groups are all arrays |
| Normalize.Repair | src/renderer/src/App.tsx:68-105 | every value the repair returns is well shaped: an object DIRECT with `groups` and an object INDIRECT with no `items` whose groups are all arrays |
| Normalize.NormalizeCategories | src/renderer/src/App.tsx:68-105 | the step-by-step repair of the copy returns exactly the value-level repair `Repair` |
| Normalize.NormalizeSucceedsIff | src/renderer/src/App.tsx:68-105 | the repair succeeds exactly on `null`/`undefined` and on objects whose DIRECT and INDIRECT are not arrays and whose INDIRECT `groups` is not a non-empty string |
| Normalize.NormalizeThrowsIff | src/renderer/src/App.tsx:68-105 | the repair throws exactly on a primitive root that is not `null`/`undefined` and on an object whose INDIRECT is an object with a non-empty string as `groups`, whatever DIRECT is |
| Normalize.ArrayDirectStillThrows | src/renderer/src/App.tsx:73-99 | `{DIRECT: [], INDIRECT: {groups: "ab"}}` throws: the routine goes past the array DIRECT and fails in the group loop |
| Normalize.RepairedGroupsAreFixed | src/renderer/src/App.tsx:96-100 | the loop changes nothing when every group is already an array |
| Normalize.WellShapedIsFixedPoint | src/renderer/src/App.tsx:73-102 | on a value of that shape none of the repairs fires and removing `items` removes nothing, so the value comes back unchanged |
| Normalize.FixedPointsAreWellShaped | src/renderer/src/App.tsx:68-105 | the values the repair returns unchanged are exactly the well-shaped ones |
| Normalize.NormalizeIdempotent | src/renderer/src/App.tsx:68-105 | repairing a repaired value gives the same value |
| Normalize.NormalizeKeepsOtherFields | src/renderer/src/App.tsx:69-104 | fields other than DIRECT and INDIRECT are copied unchanged, and both sections are present afterwards |
| Normalize.NormalizeRepairsDirect | src/renderer/src/App.tsx:73-79 | a falsy or non-object DIRECT becomes the seed DIRECT; a DIRECT without `groups` gets the seed groups and keeps its other fields; otherwise DIRECT is kept as it is |
| Normalize.NormalizeDefaultsIndirect | src/renderer/src/App.tsx:85-89 | a falsy or non-object INDIRECT becomes exactly the seed INDIRECT |
| Normalize.NormalizeMigratesLegacy | src/renderer/src/App.tsx:91-94 | an INDIRECT without `groups` gets `{PODSTAWOWE: items}` when `items` is an array and `{PODSTAWOWE: []}` otherwise; `items` disappears and the other fields stay |
| Normalize.NormalizeRepairsIndirectGroups | src/renderer/src/App.tsx:96-102 | an object of INDIRECT groups keeps all its keys and arrays, every other value becomes `[]`, and `items` disappears |
| Normalize.EncodeWellShaped | src/renderer/src/App.tsx:73-102 | the JSON form of any taxonomy is well shaped |
| Normalize.NormalizeCanonical | src/renderer/src/App.tsx:68-105 | data already in the canonical shape loads back unchanged |
| Normalize.NormalizeAbsent | src/renderer/src/App.tsx:69 | `null`/`undefined` loads as a fresh copy of the seed taxonomy |
| Normalize.LegacyIndirectMigrates | src/renderer/src/App.tsx:91-102 | a legacy INDIRECT `{label, items}` becomes the section `{label, groups: {PODSTAWOWE: items}}` |
| Normalize.NormalizeStep | src/renderer/src/App.tsx:73-104 | with DIRECT needing no repair, the result is the input with INDIRECT replaced by its repair |
| Normalize.NormalizeLegacy | src/renderer/src/App.tsx:91-102 | data in the legacy shape loads as the taxonomy whose INDIRECT holds the flat list as its single `PODSTAWOWE` group |
| Normalize.NormalizeLegacyFirstRun | src/main/index.ts:62-97 | the categories the main process writes on first run load as exactly the seed taxonomy |
| Form.KindOf | src/renderer/src/App.tsx:195 | only the cost type `"DIRECT"` reads the DIRECT section; any other value reads INDIRECT |
| Form.SelectedGroup | src/renderer/src/App.tsx:196-204 | the chosen group key counts as set exactly when it is defined and not empty |
| Form.GroupItems | src/renderer/src/App.tsx:198 | a group key that is not in the section reads as an empty list |
| Form.ResolveCategoryLabel | src/renderer/src/App.tsx:193-210 | `-` when no group is set or no item of the group has the id, otherwise the label of the first item with the id |
| Form.GroupName | src/renderer/src/App.tsx:235-236 | the group row reads the chosen group, or `-` when none is set |
| Form.SummaryRows | src/renderer/src/App.tsx:238-243 | four rows in the fixed order: agreement number, project name, group, category label |
| Form.SummaryWithoutGroup | src/renderer/src/App.tsx:235-243 | with no group chosen, both the group row and the category row read `-` |
| Form.FileStem | src/renderer/src/App.tsx:304 | the agreement number when it is not empty, otherwise `dane`; never empty |
| Form.OutputFileName | src/renderer/src/App.tsx:296-304 | `koszt-` followed by the agreement number (`dane` when it is empty), then `-z-faktura.pdf` for a merged document or `.pdf` otherwise |
| Form.MergeFailureFallsBack | src/renderer/src/App.tsx:299-301 | a failed merge saves under the plain name |
| Form.MergedNameDiffers | src/renderer/src/App.tsx:296-304 | merged and plain documents of one agreement get different names |
| Form.BlankAgreementIsDane | src/renderer/src/App.tsx:304 | a blank agreement number gets the same name as the agreement `dane` |
| Form.FileNameDeterminesAgreement | src/renderer/src/App.tsx:304 | two different non-blank agreement numbers never get the same name |
| Admin.Relabel | src/renderer/src/components/AdminPanel.tsx:42-44 | replacing at an index gives the same length, the new label with the old id at that index, and every other item unchanged |
| Admin.WithoutId | src/renderer/src/components/AdminPanel.tsx:71-73 | the filtered list holds exactly the items without the id |
| Admin.WithoutIdConcat | src/renderer/src/components/AdminPanel.tsx:71-73 | filtering distributes over concatenation, so the remaining items keep their relative order |
| Admin.WithoutAbsentId | src/renderer/src/components/AdminPanel.tsx:71-73 | filtering out an id that no item has returns the list unchanged |
| Admin.NewItemId | src/renderer/src/components/AdminPanel.tsx:94 | the new id starts with the group name's first character, then a dot, then only decimal digits, at least one |
| Admin.NewItemIdParts | src/renderer/src/components/AdminPanel.tsx:94 | the new id is the group name's first character, a dot and the decimal digits of the old length plus one |
| Admin.EditItemEffect | src/renderer/src/components/AdminPanel.tsx:37-64 | throws for a missing group; does nothing when no item has the id; otherwise only the first item with the id gets the new label, keeping its id and position, and nothing else changes |
| Admin.DeleteItemEffect | src/renderer/src/components/AdminPanel.tsx:67-86 | does nothing when not confirmed; throws for a missing group; otherwise the group loses every item with the id and nothing else changes |
| Admin.AddItemEffect | src/renderer/src/components/AdminPanel.tsx:89-118 | does nothing for a blank label; throws for a missing group; otherwise the group grows by one item at the end, carrying the synthesised id and the untrimmed label, and nothing else changes |
| Admin.AddGroupEffect | src/renderer/src/components/AdminPanel.tsx:121-148 | does nothing exactly when the name is blank or already a group; otherwise the untrimmed name is added as an empty group and nothing else changes |
| Admin.DeleteGroupEffect | src/renderer/src/components/AdminPanel.tsx:151-176 | does nothing exactly when not confirmed; otherwise exactly that key is removed and every other group stays |
| Admin.DeleteGroupUndoesAddGroup | src/renderer/src/components/AdminPanel.tsx:121-176 | deleting a group just added gives back the taxonomy from before |
| Admin.EditItemUndo | src/renderer/src/components/AdminPanel.tsx:37-64 | editing an item back to its old label gives back the taxonomy from before |
| Admin.DeleteItemUndoesAddItem | src/renderer/src/components/AdminPanel.tsx:67-118 | deleting the id of an item just added gives back the taxonomy from before, when no older item had that id |
| Admin.FirstItemOfNewGroup | src/renderer/src/components/AdminPanel.tsx:94-129 | the first item added to a new group gets the id `<first char>.1` |
| Admin.NewGroupScenario | src/renderer/src/components/AdminPanel.tsx:89-176 | adding group `TESTY` and then the item `Pierwszy test` gives id `T.1`; deleting the group restores the taxonomy |
| Admin.NewItemIdCanRepeat | src/renderer/src/components/AdminPanel.tsx:71-94 | after deleting `T.1` from `[T.1, T.2]`, adding an item gives a second `T.2` |
| Admin.Draft.constructor | src/renderer/src/components/AdminPanel.tsx:38 | the deep copy holds the taxonomy it was made from |
| Admin.Draft.Groups | src/renderer/src/components/AdminPanel.tsx:39 | the groups of the chosen section of the copy |
| Admin.Draft.Put | src/renderer/src/components/AdminPanel.tsx:129 | assigning a group key on the copy changes only that key of that section |
| Admin.Draft.Remove | src/renderer/src/components/AdminPanel.tsx:155 | deleting a group key on the copy removes only that key of that section |
| Admin.AdminPanel.constructor | src/renderer/src/components/AdminPanel.tsx:15-28 | nothing is being edited, the inputs are empty, and each section's selection is one of its groups whenever it has any, and empty when it has none |
| Admin.AdminPanel.StartEdit | src/renderer/src/components/AdminPanel.tsx:31-34 | the edited id and the edit box are set |
| Admin.AdminPanel.SaveEdit | src/renderer/src/components/AdminPanel.tsx:37-64 | hands on exactly `EditItemEffect` of the edit box's text and ends the edit unless it threw |
| Admin.AdminPanel.DeleteItem | src/renderer/src/components/AdminPanel.tsx:67-86 | hands on exactly `DeleteItemEffect` |
| Admin.AdminPanel.AddItem | src/renderer/src/components/AdminPanel.tsx:89-118 | hands on exactly `AddItemEffect` of the typed label and the selected group; clears the label input only after a change |
| Admin.AdminPanel.AddGroup | src/renderer/src/components/AdminPanel.tsx:121-148 | hands on exactly `AddGroupEffect`; warns exactly for a taken name; after a change it selects the new group and clears the input |
| Admin.AdminPanel.DeleteGroup | src/renderer/src/components/AdminPanel.tsx:151-176 | hands on exactly `DeleteGroupEffect`; when groups remain it selects one of them |
| Admin.FirstKeyOr | src/renderer/src/components/AdminPanel.tsx:25-27 | some group name, or the empty name when there is no group |

## Left out

- Rendering, styling, tab switching and the form library wiring are user interface. The input boxes' change handlers are left out too. Their state is the public fields of `Admin.AdminPanel`.
- Drawing the summary with jsPDF, embedding fonts, the `v || '-'` applied when a row is drawn, the notes block, and merging pages with pdf-lib are all left out. They are library calls on binary formats. The model keeps only the rows, their order and the file name. Whether a merge succeeds is an input (`Form.Attachment`).
- Loading and saving through the Electron bridge, the main process's file I/O, window creation and the preload bridge are asynchronous I/O. The main process's first-run data appears only as the fixture in `Normalize.NormalizeLegacyFirstRun`.
- The `confirm` dialog is a boolean input. The `alert` about a taken group name is the `warned` result.
- JSON numbers are integers here. Only whether a number is zero matters to the repair, and fractional numbers are not modelled.
- Group keys that name inherited object members, such as `constructor` or `__proto__`, are not modelled. In the source, `groups[key]` on such a key finds the inherited member. In the model, groups are plain maps.
- `charAt(0)` takes one UTF-16 code unit. Here a character is a Unicode scalar value, so a group name that starts outside the Basic Multilingual Plane does not split its first character in half.
- Admin.AdminPanel.DeleteGroup: after deleting a group, the source selects the first remaining key in `Object.keys` order. The model promises only some remaining key, because map key order is not modelled.
- Admin.FirstKeyOr: promises some key rather than the first in `Object.keys` order, for the same reason.
- Admin.AdminPanel.constructor: the initial selection is some key rather than the first in `Object.keys` order, for the same reason.
- What React does after a handler throws is not modelled. The model records only that the handler throws before calling `onDataChange`.
