# Idea store of the PyQt5 Idea Manager, modelled in Dafny

The Idea Manager is a desktop note tool. The user keeps a list of project
ideas. Each idea has a name and an ordered list of features. The list is
shown as a two-level tree: one top-level row per idea, and one child row per
feature. The window class `ProjectFeatureApp` owns the list
(`self.project_ideas`) and edits it in place through six operations: add,
rename and delete an idea; add, rename and delete a feature. After each edit
it saves the list to `project_ideas.json` and calls `refresh_treeview`. That
call sorts the list by name and rebuilds the tree. The context menu then
reads a row number from the tree and passes it back to the operations as a
list index. So the fact that row `i` of the tree shows `project_ideas[i]` is
what every index-based operation relies on.

The model has one module per concern:

- `Wrappers`: `Option`. It is used for dictionary keys that may be missing.
- `StrOrder`: Python's `<` on `str`. It compares code points
  lexicographically, and a proper prefix sorts first. The module proves that
  this is a strict total order, and that the recursive definition matches
  the "prefix, or first differing character" definition.
- `IdeaList`: the `{name, features}` record. `features` may be absent. The
  module also holds the edit each operation makes before the list is
  re-sorted.
- `IdeaSort`: `list.sort(key=name)`. `SortByName` is a stable insertion sort
  that serves as the specification. It is proved to be:
  - ascending;
  - a permutation of its input;
  - stable (ideas that share a name keep their order);
  - the identity on a list that is already ascending;
  - the only list that is both ascending and stable.

  `SortIdeas` is the loop that computes it.
- `TreeView`: the tree model (`Projection` and the loop `BuildTree`) and the
  first-match search of `expand_new_idea`.
- `AppSettings`: the settings record and the key-by-key defaulting of
  `load_settings`.
- `App`: the class `ProjectFeatureApp`. Its fields are:
  - the idea list;
  - the tree rows;
  - the set of expanded rows;
  - the contents of the two JSON files;
  - the settings attributes.

  It has one method per operation. Its invariant `Valid()` says three
  things: the list is ascending by name, the tree is
  `Projection(projectIdeas)`, and every expanded row exists in the tree.
  "Ascending" is stated as "sorting changes nothing", which
  `SortedIffFixedPoint` proves equivalent. Every operation keeps this
  invariant.

The user's dialog input is passed in as the pair `(text, ok)`. The source's
gate `ok and text` becomes `ok && text != ""`. When the gate fails, the
operation leaves every field unchanged. The JSON files are fields holding
what was last written (`None` while a file does not exist). Reading them at
start-up becomes constructor parameters.

Two points of the code are worth stating outright:

- **Saved order.** `add_project` and `update_project` call `save_ideas`
  before `refresh_treeview` sorts (ideas.py:281-283, ideas.py:297-299). So
  the file holds the list as edited, not the sorted list.
  - `App.ProjectFeatureApp.AddProject` and `UpdateProject` state this in
    their `ensures`.
  - `App.ZetaThenAlphaOrders` shows a case. After adding "Zeta" and then
    "Alpha", the tree shows `[Alpha, Zeta]` but the file holds
    `[Zeta, Alpha]`.
  - The feature operations and `delete_project` do not change any name
    before they save. For them the saved list is already ascending, and the
    file equals the list.
- **Empty input.** The gate `ok and text` sits inside each operation
  (ideas.py:280, 296, 308, 321). The model puts it there too.

## Model

| member | source | states |
|---|---|---|
| `StrOrder.LessMeansPrefixOrFirstDifference` | ideas.py:270 | the name order used by the sort holds exactly when the first name is a proper prefix of the second, or the first differs at a position where its character is smaller |
| `StrOrder.LessIrreflexive` | ideas.py:270 | no name sorts before itself |
| `StrOrder.LessTransitive` | ideas.py:270 | the name order is transitive |
| `StrOrder.LessTotal` | ideas.py:270 | any two names are equal or one sorts before the other |
| `StrOrder.LessAsymmetric` | ideas.py:270 | two names never sort before each other |
| `StrOrder.NotLessIsLessEq` | ideas.py:270 | "b does not sort before a" is the same as "a is equal to b or sorts before it" |
| `IdeaList.Renamed` | ideas.py:297 | a rename sets the name and keeps the features entry exactly as it was (present or absent) |
| `IdeaList.WithFeatureAdded` | ideas.py:309 | `setdefault(...).append`: the name is kept, the features key is present afterwards, and the old features (none if the key was absent) are followed by exactly the new text |
| `IdeaList.WithFeatureRenamed` | ideas.py:322 | only feature `j` changes, to the new text; the count and every other feature are kept |
| `IdeaList.WithFeatureRemoved` | ideas.py:328 | exactly feature `j` is removed; the features before it are kept, and the ones after it shift down by one in order |
| `IdeaList.RemoveAt` | ideas.py:302 | `del s[i]`: the length drops by one, entries before `i` are kept, and later entries shift down by one in order |
| `IdeaSort.SortByNameSorted` | ideas.py:270 | after the sort the list is ascending by name |
| `IdeaSort.SortByNamePermutes` | ideas.py:270 | the sorted list is a permutation of the list before |
| `IdeaSort.SortByNameStable` | ideas.py:270 | for every name, the ideas with that name appear in the same relative order before and after the sort |
| `IdeaSort.SortByNameOfSorted` | ideas.py:270 | sorting a list that is already ascending leaves it unchanged |
| `IdeaSort.SortedIffFixedPoint` | ideas.py:270 | a list is ascending exactly when sorting it changes nothing; sorting twice equals sorting once |
| `IdeaSort.StableSortIsUnique` | ideas.py:270 | any ascending list that keeps each name's ideas in input order is the sort's result, so the sort is the stable sort |
| `IdeaSort.RemoveAtKeepsOrder` | ideas.py:302-304 | deleting one idea from an ascending list needs no reordering: the refresh after `delete_project` leaves the list as `del` left it |
| `IdeaSort.SameNameKeepsOrder` | ideas.py:309-312 | replacing idea `i` by one with the same name (every feature edit) leaves the list as the refresh finds it, so the idea stays at index `i` and `expand_project(index)` expands the right row |
| `IdeaSort.SortIdeas` | ideas.py:270 | the insertion-sort loop returns exactly `SortByName` of its input, which is ascending and a permutation of it |
| `TreeView.Projection` | ideas.py:271-276 | the tree has one top-level row per idea |
| `TreeView.ProjectionRow` | ideas.py:271-276 | row `i` is labelled with the name of idea `i`; its children are that idea's features in order; an idea without a `features` key gets no children |
| `TreeView.LabelShownIffNamed` | ideas.py:271-276 | a top-level row has a given label exactly when some idea has that name |
| `TreeView.BuildTree` | ideas.py:271-276 | the nested loops that fill the model produce exactly `Projection` of the list, one row per idea |
| `TreeView.FirstNamed` | ideas.py:287-291 | the lowest row whose label equals the name, or nothing exactly when no row has that label |
| `TreeView.FirstRowNamed` | ideas.py:287-291 | the scan, which stops at the first match, returns exactly `FirstNamed`: the lowest row with that label, or nothing |
| `AppSettings.Lookup` | ideas.py:213-222 | each key present in the settings object gives its stored value; each missing key gives its literal default: geometry 100,100,480,480; transparency 0.99; theme "Light"; font "Verdana"; size 10; title "Ideas"; autostart false |
| `AppSettings.Saved` | ideas.py:229-241 | the saved settings object carries every key |
| `AppSettings.LoadAfterSave` | ideas.py:213-241 | loading a saved settings object gives back the same settings, field for field |
| `AppSettings.EmptyFileLoadsInitial` | ideas.py:133-138 | the start-up attribute values, with the geometry of ideas.py:225, equal the result of loading an object with no keys |
| `AppSettings.MissingAutostartLoadsFalse` | ideas.py:222 | a saved file without its `autostart` key loads with autostart off and every other field as saved |
| `App.ProjectFeatureApp.constructor` | ideas.py:127-142 | settings are loaded (or defaulted and saved when there is no file); the idea list is the stored list (or empty) sorted by name; the invariant holds |
| `App.ProjectFeatureApp.LoadSettings` | ideas.py:209-227 | with a settings file, every attribute is the file's value or its default; without one, only the geometry is set, and the current settings are written to a new file |
| `App.ProjectFeatureApp.SaveSettings` | ideas.py:229-241 | the settings file becomes the full current record |
| `App.ProjectFeatureApp.LoadIdeas` | ideas.py:258-262 | the stored list, or an empty list when there is no file |
| `App.ProjectFeatureApp.SaveIdeas` | ideas.py:264-266 | the ideas file becomes the current list in its current order |
| `App.ProjectFeatureApp.Refresh` | ideas.py:268-276 | the list becomes its stable sort by name (a permutation), the tree is rebuilt from it, every row is collapsed, and the invariant holds |
| `App.ProjectFeatureApp.ExpandNewIdea` | ideas.py:286-291 | the lowest row labelled with the name is added to the expanded rows; nothing changes when no row has that label |
| `App.ProjectFeatureApp.ExpandProject` | ideas.py:314-316 | row `index` is added to the expanded rows |
| `App.ProjectFeatureApp.AddProject` | ideas.py:278-284 | with accepted non-empty text: the file holds the old list plus one new idea (that name, empty features) at the end; the list is the sort of that (the old ideas plus exactly the new one); a row with that name exists; the first such row is the only expanded row. Otherwise nothing changes |
| `App.ProjectFeatureApp.UpdateProject` | ideas.py:293-299 | needs an existing index; with accepted non-empty text, only that idea's name changes before the re-sort; the list keeps every other idea and the renamed one keeps its features. Otherwise nothing changes |
| `App.ProjectFeatureApp.DeleteProject` | ideas.py:301-304 | needs an existing index; the list afterwards is exactly the old list with that idea removed: ideas before `index` keep their row, and later ones move up one row, in order |
| `App.ProjectFeatureApp.AddFeature` | ideas.py:306-312 | the index is needed only for accepted non-empty text; then only that idea changes, gaining the text as its last feature; it stays at the same index; its row shows the new children and is the only expanded row. Otherwise nothing changes |
| `App.ProjectFeatureApp.UpdateFeature` | ideas.py:318-325 | the idea and feature must exist; with accepted non-empty text only that feature's text changes; every other idea and feature is kept in place, and the idea's row is expanded. Otherwise nothing changes |
| `App.ProjectFeatureApp.DeleteFeature` | ideas.py:327-331 | the idea and feature must exist; exactly that feature is removed; every other idea and feature is kept in order, and the idea's row is expanded |
| `App.AddedIdeaIsShown` | ideas.py:281-291 | after appending an idea and sorting, the list holds the old ideas plus exactly the new one, and the tree has a row with the new name, so `expand_new_idea` after `add_project` always expands a row |
| `App.NewIdeaIsLastOfItsName` | ideas.py:281-291 | after adding an idea and sorting, the new idea comes after every older idea with the same name, so the first-match expansion picks an older duplicate when there is one |
| `App.ZetaThenAlphaOrders` | ideas.py:281-283 | adding "Zeta" then "Alpha" gives the displayed order Alpha, Zeta; the saved order Zeta, Alpha is not ascending |

## Left out

- All Qt widgets and dialogs are left out: `SettingsDialog`,
  `QInputDialog`, the context menu, toolbar, tray icon,
  `changeEvent`/`closeEvent`/`show_normal`, `apply_theme` and
  `apply_font_settings`. The dialog's answer is a parameter `(text, ok)`.
  The context menu is reduced to the indices it passes.
- `open_settings` (applying an accepted settings dialog) is not modelled. It
  depends entirely on the dialog widgets' state.
- JSON encoding and decoding are not modelled. A settings object is a record
  of optional, correctly typed values. A value of the wrong type, a geometry
  list of the wrong length, and malformed JSON (which crashes the source) are
  not modelled.
- A stored idea is modelled by its `name` and `features` only. A stored idea
  without a `name` key is not modelled: it makes the sort at start-up raise
  a KeyError (ideas.py:270). Extra keys of a stored idea are not modelled
  either: Python keeps them and writes them back, and `Idea` drops them.
- File I/O is reduced to two fields, `ideasFile` and `settingsFile`. They
  hold what was last written. The autostart descriptor
  `~/.config/autostart/Ideas.desktop`, which `save_settings` writes or
  removes, is not modelled. It is an OS side effect.
- Window effects of the settings are not modelled: `setGeometry`,
  `setWindowOpacity`, `setWindowTitle`, and starting minimised to the tray
  when autostart is on. Qt may also clamp the geometry to the window's
  minimum size of 480 x 480. The model keeps the geometry as read.
- `AppSettings.Lookup`: transparency is a `real` (0.99 exactly), not a
  binary float. The slider conversions `int(transparency * 100)` and
  `value() / 100` are not modelled.
- Dialog centring and window geometry arithmetic are not modelled.
- The source does no bounds checking. An out-of-range index, or a feature
  operation on an idea without a `features` key, raises an exception there.
  In the model these are preconditions of the operations that read the
  index.
