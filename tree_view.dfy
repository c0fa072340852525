/**
 * The tree model that `refresh_treeview` rebuilds (ideas.py:271-276): one
 * top-level row per idea, labelled with its name, whose child rows are the
 * idea's features. The context menu turns a row number back into a list
 * index, so the point of this module is that row `i` shows idea `i`.
 */
module TreeView {
  import opened Wrappers
  import opened IdeaList

  /** A top-level item of the tree model together with its child items' labels. */
  datatype Row = Row(text: string, children: seq<string>)

  /** The row `refresh_treeview` appends for one idea. */
  function RowOf(idea: Idea): Row {
    Row(idea.name, FeaturesOf(idea))
  }

  /** The whole model for a list of ideas, built one idea at a time from the front. */
  function Projection(ideas: seq<Idea>): (rows: seq<Row>)
    ensures |rows| == |ideas|
  {
    if |ideas| == 0 then [] else Projection(ideas[..|ideas| - 1]) + [RowOf(ideas[|ideas| - 1])]
  }

  /**
   * Row `i` of the model shows idea `i`: its label is the idea's name and its
   * children are the idea's features in order (none when `features` is absent).
   */
  lemma {:induction false} ProjectionRow(ideas: seq<Idea>, i: nat)
    requires i < |ideas|
    ensures |Projection(ideas)| == |ideas|
    ensures Projection(ideas)[i].text == ideas[i].name
    ensures Projection(ideas)[i].children == FeaturesOf(ideas[i])
    ensures ideas[i].features.None? ==> Projection(ideas)[i].children == []
  {
    var init := ideas[..|ideas| - 1];
    if i < |init| {
      ProjectionRow(init, i);
    } else if |init| > 0 {
      ProjectionRow(init, 0);
    }
  }

  /** A label is shown at the top level exactly when some idea has that name. */
  lemma LabelShownIffNamed(ideas: seq<Idea>, name: string)
    ensures (exists i :: 0 <= i < |Projection(ideas)| && Projection(ideas)[i].text == name)
        <==> (exists i :: 0 <= i < |ideas| && ideas[i].name == name)
  {
    if i :| 0 <= i < |ideas| && ideas[i].name == name {
      ProjectionRow(ideas, i);
    }
    if i :| 0 <= i < |Projection(ideas)| && Projection(ideas)[i].text == name {
      ProjectionRow(ideas, i);
    }
  }

  /** The loop of `refresh_treeview` that fills the cleared model. */
  method BuildTree(ideas: seq<Idea>) returns (rows: seq<Row>)
    ensures rows == Projection(ideas)
    ensures |rows| == |ideas|
  {
    rows := [];
    for i := 0 to |ideas|
      invariant rows == Projection(ideas[..i])
    {
      var features := FeaturesOf(ideas[i]);
      var children := [];
      for j := 0 to |features|
        invariant children == features[..j]
      {
        children := children + [features[j]];
      }
      assert features[..|features|] == features;
      assert ideas[..i + 1][..i] == ideas[..i] && ideas[..i + 1][i] == ideas[i];
      assert Projection(ideas[..i + 1]) == Projection(ideas[..i]) + [RowOf(ideas[i])];
      rows := rows + [Row(ideas[i].name, children)];
    }
    assert ideas[..|ideas|] == ideas;
  }

  /** `r` is the lowest top-level row labelled `name`. */
  ghost predicate IsFirstRowNamed(rows: seq<Row>, name: string, r: nat) {
    r < |rows| && rows[r].text == name &&
    forall q :: 0 <= q < r ==> rows[q].text != name
  }

  /** The lowest row labelled `name`, or `None` when no row has that label. */
  function FirstNamed(rows: seq<Row>, name: string): (r: Option<nat>)
    ensures r.Some? ==> IsFirstRowNamed(rows, name, r.value)
    ensures r.None? ==> forall q :: 0 <= q < |rows| ==> rows[q].text != name
  {
    if |rows| == 0 then None
    else if rows[0].text == name then Some(0)
    else match FirstNamed(rows[1..], name)
      case None => None
      case Some(k) => Some(k + 1)
  }

  /** The scan of `expand_new_idea`, which stops at the first row labelled `name`. */
  method FirstRowNamed(rows: seq<Row>, name: string) returns (found: Option<nat>)
    ensures found == FirstNamed(rows, name)
  {
    found := None;
    for i := 0 to |rows|
      invariant forall q :: 0 <= q < i ==> rows[q].text != name
    {
      if rows[i].text == name {
        found := Some(i);
        break;
      }
    }
  }
}
