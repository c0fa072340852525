/**
 * The records of the idea store (`project_ideas` in ideas.py) and the edits
 * the six store operations make to them, before the list is re-sorted.
 */
module IdeaList {
  import opened Wrappers

  /**
   * One `{name, features}` dictionary. `features` is a key that may be
   * absent in a hand-edited or older JSON file; ideas created by the
   * application always carry it.
   */
  datatype Idea = Idea(name: string, features: Option<seq<string>>)

  /** `idea.get('features', [])`: the feature list, empty when the key is absent. */
  function FeaturesOf(idea: Idea): seq<string> {
    idea.features.GetOr([])
  }

  /** The record `add_project` appends: the entered name and an empty feature list. */
  function NewIdea(text: string): Idea {
    Idea(text, Some([]))
  }

  /** `idea['name'] = text`. */
  function Renamed(idea: Idea, text: string): (r: Idea)
    ensures r.name == text && r.features == idea.features
  {
    idea.(name := text)
  }

  /**
   * `idea.setdefault('features', []).append(text)`: the key is created when
   * absent, and `text` becomes the last feature.
   */
  function WithFeatureAdded(idea: Idea, text: string): (r: Idea)
    ensures r.name == idea.name
    ensures r.features.Some?
    ensures |FeaturesOf(r)| == |FeaturesOf(idea)| + 1
    ensures FeaturesOf(r)[..|FeaturesOf(idea)|] == FeaturesOf(idea)
    ensures FeaturesOf(r)[|FeaturesOf(idea)|] == text
  {
    match idea.features
    case None => Idea(idea.name, Some([text]))
    case Some(fs) => Idea(idea.name, Some(fs + [text]))
  }

  /** `idea['features'][j] = text`; the `features` key must be present. */
  function WithFeatureRenamed(idea: Idea, j: nat, text: string): (r: Idea)
    requires idea.features.Some? && j < |idea.features.value|
    ensures r.name == idea.name && r.features.Some?
    ensures |FeaturesOf(r)| == |FeaturesOf(idea)|
    ensures FeaturesOf(r)[j] == text
    ensures forall k :: 0 <= k < |FeaturesOf(r)| && k != j ==> FeaturesOf(r)[k] == FeaturesOf(idea)[k]
  {
    Idea(idea.name, Some(idea.features.value[j := text]))
  }

  /** `del idea['features'][j]`; the `features` key must be present. */
  function WithFeatureRemoved(idea: Idea, j: nat): (r: Idea)
    requires idea.features.Some? && j < |idea.features.value|
    ensures r.name == idea.name && r.features.Some?
    ensures |FeaturesOf(r)| == |FeaturesOf(idea)| - 1
    ensures forall k :: 0 <= k < j ==> FeaturesOf(r)[k] == FeaturesOf(idea)[k]
    ensures forall k :: j <= k < |FeaturesOf(r)| ==> FeaturesOf(r)[k] == FeaturesOf(idea)[k + 1]
  {
    var fs := idea.features.value;
    Idea(idea.name, Some(fs[..j] + fs[j + 1..]))
  }

  /** `del s[i]`. */
  function RemoveAt<T>(s: seq<T>, i: nat): (r: seq<T>)
    requires i < |s|
    ensures |r| == |s| - 1
    ensures forall k :: 0 <= k < i ==> r[k] == s[k]
    ensures forall k :: i <= k < |r| ==> r[k] == s[k + 1]
  {
    s[..i] + s[i + 1..]
  }
}
