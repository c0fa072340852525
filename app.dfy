/**
 * `ProjectFeatureApp` (ideas.py:126-331) without its widgets: the idea list
 * it edits in place, the tree model it rebuilds from that list, the rows the
 * tree view has expanded, the two JSON files it writes, and the settings
 * attributes `load_settings` fills in.
 */
module App {
  import opened Wrappers
  import opened StrOrder
  import opened IdeaList
  import opened IdeaSort
  import opened TreeView
  import opened AppSettings

  class ProjectFeatureApp {
    /** `self.project_ideas`. */
    var projectIdeas: seq<Idea>
    /** The top-level rows of `self.model`, the `QStandardItemModel` behind the tree. */
    var model: seq<Row>
    /** The top-level rows the tree view shows expanded. */
    var expanded: set<nat>
    /** The content of `project_ideas.json`; `None` while the file does not exist. */
    var ideasFile: Option<seq<Idea>>

    var geometry: Geometry
    var transparency: real
    var theme: string
    var fontFamily: string
    var fontSize: int
    var windowTitle: string
    var autostart: bool
    /** The content of `settings.json`; `None` while the file does not exist. */
    var settingsFile: Option<SettingsFile>

    /**
     * What holds between user actions: the list is ascending by name
     * (sorting it again would change nothing, see `SortedIffFixedPoint`) and
     * row `i` of the tree is idea `i`, which is what lets the context menu
     * pass row numbers back as list indices.
     */
    ghost predicate Valid()
      reads this
    {
      SortByName(projectIdeas) == projectIdeas &&
      model == Projection(projectIdeas) &&
      forall r: nat :: r in expanded ==> r < |model|
    }

    function CurrentSettings(): Settings
      reads this
    {
      Settings(geometry, transparency, theme, fontFamily, fontSize, windowTitle, autostart)
    }

    /**
     * `__init__` with the two files it reads passed in: the settings are
     * loaded, `load_ideas` gives the stored list or `[]`, and the first
     * `refresh_treeview` sorts the list and builds the tree.
     */
    constructor (storedSettings: Option<SettingsFile>, storedIdeas: Option<seq<Idea>>)
      ensures Valid()
      ensures CurrentSettings() == if storedSettings.Some? then Lookup(storedSettings.value) else Initial
      ensures settingsFile == if storedSettings.Some? then storedSettings else Some(Saved(Initial))
      ensures ideasFile == storedIdeas
      ensures projectIdeas == SortByName(storedIdeas.GetOr([]))
      ensures expanded == {}
    {
      theme, fontFamily, fontSize, windowTitle := "Light", "Verdana", 10, "Ideas";
      transparency, autostart := 0.99, false;
      geometry := Geometry(100, 100, 480, 480);
      settingsFile := storedSettings;
      ideasFile := storedIdeas;
      projectIdeas := [];
      model := [];
      expanded := {};
      new;
      assert CurrentSettings() == Initial;
      LoadSettings();
      projectIdeas := LoadIdeas();
      Refresh();
    }

    /** `load_settings`: each key of the file, or its default; no file means defaults, then a save. */
    method LoadSettings()
      modifies this`geometry, this`transparency, this`theme, this`fontFamily, this`fontSize
      modifies this`windowTitle, this`autostart, this`settingsFile
      ensures old(settingsFile).Some? ==> CurrentSettings() == Lookup(old(settingsFile).value)
      ensures old(settingsFile).Some? ==> settingsFile == old(settingsFile)
      ensures old(settingsFile).None? ==>
        CurrentSettings() == old(CurrentSettings()).(geometry := Geometry(100, 100, 480, 480))
      ensures old(settingsFile).None? ==> settingsFile == Some(Saved(CurrentSettings()))
    {
      if settingsFile.Some? {
        var settings := settingsFile.value;
        geometry := settings.geometry.GetOr(Geometry(100, 100, 480, 480));
        transparency := settings.transparency.GetOr(0.99);
        theme := settings.theme.GetOr("Light");
        fontFamily := settings.fontFamily.GetOr("Verdana");
        fontSize := settings.fontSize.GetOr(10);
        windowTitle := settings.windowTitle.GetOr("Ideas");
        autostart := settings.autostart.GetOr(false);
      } else {
        geometry := Geometry(100, 100, 480, 480);
        SaveSettings();
      }
    }

    /** `save_settings`: the whole record overwrites `settings.json`. */
    method SaveSettings()
      modifies this`settingsFile
      ensures settingsFile == Some(Saved(CurrentSettings()))
    {
      settingsFile := Some(Saved(CurrentSettings()));
    }

    /** `load_ideas`: the stored list, or an empty one when there is no file. */
    method LoadIdeas() returns (ideas: seq<Idea>)
      ensures ideas == ideasFile.GetOr([])
    {
      if ideasFile.Some? {
        ideas := ideasFile.value;
      } else {
        ideas := [];
      }
    }

    /** `save_ideas`: the list, in its current order, overwrites `project_ideas.json`. */
    method SaveIdeas()
      modifies this`ideasFile
      ensures ideasFile == Some(projectIdeas)
    {
      ideasFile := Some(projectIdeas);
    }

    /**
     * `refresh_treeview`: clear the model (which collapses every row), sort
     * the list by name in place, and add one row per idea.
     */
    method Refresh()
      modifies this`projectIdeas, this`model, this`expanded
      ensures projectIdeas == SortByName(old(projectIdeas))
      ensures multiset(projectIdeas) == multiset(old(projectIdeas))
      ensures expanded == {}
      ensures Valid()
    {
      model := [];
      expanded := {};
      SortedIffFixedPoint(projectIdeas);
      projectIdeas := SortIdeas(projectIdeas);
      model := BuildTree(projectIdeas);
    }

    /** `expand_new_idea`: expand the lowest row labelled `name`, if there is one. */
    method ExpandNewIdea(name: string)
      requires Valid()
      modifies this`expanded
      ensures Valid()
      ensures expanded == match FirstNamed(model, name)
        case Some(r) => old(expanded) + {r}
        case None => old(expanded)
    {
      var found := FirstRowNamed(model, name);
      if found.Some? {
        expanded := expanded + {found.value};
      }
    }

    /** `expand_project`: expand row `index`. */
    method ExpandProject(index: nat)
      requires Valid() && index < |model|
      modifies this`expanded
      ensures Valid()
      ensures expanded == old(expanded) + {index}
    {
      expanded := expanded + {index};
    }

    /**
     * `add_project`: when the dialog is accepted with non-empty text, append
     * a new idea with no features, save (before sorting), re-sort, and
     * expand the first row with that name. Otherwise nothing happens.
     */
    method AddProject(text: string, ok: bool)
      requires Valid()
      modifies this`projectIdeas, this`model, this`expanded, this`ideasFile
      ensures Valid()
      ensures !(ok && text != "") ==> unchanged(this)
      ensures ok && text != "" ==>
        && ideasFile == Some(old(projectIdeas) + [NewIdea(text)])
        && projectIdeas == SortByName(old(projectIdeas) + [NewIdea(text)])
        && multiset(projectIdeas) == multiset(old(projectIdeas)) + multiset{NewIdea(text)}
        && FirstNamed(model, text).Some?
        && expanded == {FirstNamed(model, text).value}
    {
      if ok && text != "" {
        AddedIdeaIsShown(projectIdeas, text);
        ghost var appended := projectIdeas + [NewIdea(text)];
        projectIdeas := projectIdeas + [NewIdea(text)];
        SaveIdeas();
        assert ideasFile == Some(appended);
        Refresh();
        assert projectIdeas == SortByName(appended);
        ExpandNewIdea(text);
      }
    }

    /**
     * `update_project`: the idea at `index` must exist (its name is read
     * for the dialog); on accepted non-empty text only its name changes,
     * then the list is saved and re-sorted, so the idea may move.
     */
    method UpdateProject(index: nat, text: string, ok: bool)
      requires Valid() && index < |projectIdeas|
      modifies this`projectIdeas, this`model, this`expanded, this`ideasFile
      ensures Valid()
      ensures !(ok && text != "") ==> unchanged(this)
      ensures ok && text != "" ==>
        && ideasFile == Some(old(projectIdeas)[index := Renamed(old(projectIdeas)[index], text)])
        && projectIdeas == SortByName(old(projectIdeas)[index := Renamed(old(projectIdeas)[index], text)])
        && multiset(projectIdeas) ==
             multiset(old(projectIdeas)) - multiset{old(projectIdeas)[index]}
             + multiset{Renamed(old(projectIdeas)[index], text)}
        && expanded == {}
    {
      if ok && text != "" {
        ghost var before := projectIdeas;
        projectIdeas := projectIdeas[index := Renamed(projectIdeas[index], text)];
        assert multiset(projectIdeas) ==
          multiset(before) - multiset{before[index]} + multiset{Renamed(before[index], text)};
        SaveIdeas();
        Refresh();
      }
    }

    /**
     * `delete_project`: removes exactly the idea at `index`; what remains is
     * still ascending, so every other idea keeps its relative order.
     */
    method DeleteProject(index: nat)
      requires Valid() && index < |projectIdeas|
      modifies this`projectIdeas, this`model, this`expanded, this`ideasFile
      ensures Valid()
      ensures projectIdeas == RemoveAt(old(projectIdeas), index)
      ensures ideasFile == Some(projectIdeas)
      ensures expanded == {}
    {
      SortedIffFixedPoint(projectIdeas);
      RemoveAtKeepsOrder(projectIdeas, index);
      projectIdeas := RemoveAt(projectIdeas, index);
      SaveIdeas();
      Refresh();
    }

    /**
     * `add_feature`: on accepted non-empty text, append it to the features
     * of the idea at `index` (creating the list if the key is absent). The
     * index is only used under that condition. Names do not change, so the
     * idea stays at `index` and its row is the one expanded.
     */
    method AddFeature(index: nat, text: string, ok: bool)
      requires Valid()
      requires ok && text != "" ==> index < |projectIdeas|
      modifies this`projectIdeas, this`model, this`expanded, this`ideasFile
      ensures Valid()
      ensures !(ok && text != "") ==> unchanged(this)
      ensures ok && text != "" ==>
        && projectIdeas == old(projectIdeas)[index := WithFeatureAdded(old(projectIdeas)[index], text)]
        && ideasFile == Some(projectIdeas)
        && model[index].text == old(projectIdeas)[index].name
        && model[index].children == FeaturesOf(old(projectIdeas)[index]) + [text]
        && expanded == {index}
    {
      if ok && text != "" {
        SortedIffFixedPoint(projectIdeas);
        SameNameKeepsOrder(projectIdeas, index, WithFeatureAdded(projectIdeas[index], text));
        projectIdeas := projectIdeas[index := WithFeatureAdded(projectIdeas[index], text)];
        SaveIdeas();
        Refresh();
        ProjectionRow(projectIdeas, index);
        ExpandProject(index);
      }
    }

    /**
     * `update_feature`: feature `featureIndex` of idea `projectIndex` must
     * exist (it is read for the dialog); on accepted non-empty text only
     * that feature changes, and the idea's row is expanded again.
     */
    method UpdateFeature(projectIndex: nat, featureIndex: nat, text: string, ok: bool)
      requires Valid() && projectIndex < |projectIdeas|
      requires projectIdeas[projectIndex].features.Some?
      requires featureIndex < |projectIdeas[projectIndex].features.value|
      modifies this`projectIdeas, this`model, this`expanded, this`ideasFile
      ensures Valid()
      ensures !(ok && text != "") ==> unchanged(this)
      ensures ok && text != "" ==>
        && projectIdeas == old(projectIdeas)[projectIndex :=
             WithFeatureRenamed(old(projectIdeas)[projectIndex], featureIndex, text)]
        && ideasFile == Some(projectIdeas)
        && model[projectIndex].text == old(projectIdeas)[projectIndex].name
        && model[projectIndex].children == FeaturesOf(old(projectIdeas)[projectIndex])[featureIndex := text]
        && expanded == {projectIndex}
    {
      if ok && text != "" {
        var idea := WithFeatureRenamed(projectIdeas[projectIndex], featureIndex, text);
        SortedIffFixedPoint(projectIdeas);
        SameNameKeepsOrder(projectIdeas, projectIndex, idea);
        projectIdeas := projectIdeas[projectIndex := idea];
        SaveIdeas();
        Refresh();
        ProjectionRow(projectIdeas, projectIndex);
        ExpandProject(projectIndex);
      }
    }

    /**
     * `delete_feature`: removes exactly feature `featureIndex` of idea
     * `projectIndex`, which must exist, and expands that idea's row again.
     */
    method DeleteFeature(projectIndex: nat, featureIndex: nat)
      requires Valid() && projectIndex < |projectIdeas|
      requires projectIdeas[projectIndex].features.Some?
      requires featureIndex < |projectIdeas[projectIndex].features.value|
      modifies this`projectIdeas, this`model, this`expanded, this`ideasFile
      ensures Valid()
      ensures projectIdeas == old(projectIdeas)[projectIndex :=
                WithFeatureRemoved(old(projectIdeas)[projectIndex], featureIndex)]
      ensures ideasFile == Some(projectIdeas)
      ensures model[projectIndex].text == old(projectIdeas)[projectIndex].name
      ensures model[projectIndex].children == RemoveAt(FeaturesOf(old(projectIdeas)[projectIndex]), featureIndex)
      ensures expanded == {projectIndex}
    {
      var idea := WithFeatureRemoved(projectIdeas[projectIndex], featureIndex);
      SortedIffFixedPoint(projectIdeas);
        SameNameKeepsOrder(projectIdeas, projectIndex, idea);
      projectIdeas := projectIdeas[projectIndex := idea];
      SaveIdeas();
      Refresh();
      ProjectionRow(projectIdeas, projectIndex);
      ExpandProject(projectIndex);
    }
  }

  /**
   * After `add_project` appends an idea and the list is sorted, the list
   * holds the old ideas plus exactly the new one, and the tree has a row
   * labelled with the new name, so `expand_new_idea` always finds one.
   */
  lemma AddedIdeaIsShown(s: seq<Idea>, text: string)
    ensures multiset(SortByName(s + [NewIdea(text)])) == multiset(s) + multiset{NewIdea(text)}
    ensures FirstNamed(Projection(SortByName(s + [NewIdea(text)])), text).Some?
  {
    var sorted := SortByName(s + [NewIdea(text)]);
    SortByNamePermutes(s + [NewIdea(text)]);
    assert multiset(s + [NewIdea(text)]) == multiset(s) + multiset{NewIdea(text)};
    assert NewIdea(text) in multiset(sorted);
    var i :| 0 <= i < |sorted| && sorted[i] == NewIdea(text);
    ProjectionRow(sorted, i);
  }

  /**
   * After `add_project` and the sort, the new idea comes after every older
   * idea of the same name, so when such an idea exists the first-match
   * search of `expand_new_idea` expands the older one, not the new one.
   */
  lemma NewIdeaIsLastOfItsName(s: seq<Idea>, text: string)
    ensures WithName(SortByName(s + [NewIdea(text)]), text) == WithName(s, text) + [NewIdea(text)]
  {
    SortByNameStable(s + [NewIdea(text)], text);
    WithNameAppend(s, [NewIdea(text)], text);
  }

  /**
   * Two ideas added as "Zeta" then "Alpha": `refresh_treeview` shows them
   * ascending, but `add_project` saved the list before sorting it, so the
   * file holds the order they were added in, which is not ascending.
   */
  lemma ZetaThenAlphaOrders()
    ensures SortByName([NewIdea("Zeta"), NewIdea("Alpha")]) == [NewIdea("Alpha"), NewIdea("Zeta")]
    ensures !Sorted([NewIdea("Zeta"), NewIdea("Alpha")])
  {
    var zeta, alpha := NewIdea("Zeta"), NewIdea("Alpha");
    assert [zeta, alpha][..1] == [zeta];
    assert SortByName([zeta]) == Insert([], zeta) == [zeta];
    assert Less(alpha.name, zeta.name);
  }
}
