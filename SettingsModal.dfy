/** The settings dialog: editing a shortcut's keys, the two range sliders,
    and the engine chooser with its highlight. */
module SettingsModal {
  import opened Common
  import Shortcuts
  import Home

  function Rebound(s: Shortcuts.Shortcut, id: string, newKeys: string): Shortcuts.Shortcut {
    if s.id == id then s.(keys := newKeys) else s
  }

  /** handleShortcutChange: the entries with that id get the new keys and
      keep their id and label; the others, the length and the order are
      kept. */
  function ShortcutChanged(shortcuts: seq<Shortcuts.Shortcut>, id: string, newKeys: string): (r: seq<Shortcuts.Shortcut>)
    ensures |r| == |shortcuts|
    ensures forall i :: 0 <= i < |r| && shortcuts[i].id == id ==>
      r[i].keys == newKeys && r[i].id == id && r[i].labelText == shortcuts[i].labelText
    ensures forall i :: 0 <= i < |r| && shortcuts[i].id != id ==> r[i] == shortcuts[i]
  {
    seq(|shortcuts|, i requires 0 <= i < |shortcuts| => Rebound(shortcuts[i], id, newKeys))
  }

  /** Editing again overwrites the earlier edit. */
  lemma LastEditWins(shortcuts: seq<Shortcuts.Shortcut>, id: string, k1: string, k2: string)
    ensures ShortcutChanged(ShortcutChanged(shortcuts, id, k1), id, k2) == ShortcutChanged(shortcuts, id, k2)
  {
  }

  /** Typing the old keys back restores the list. */
  lemma EditUndone(shortcuts: seq<Shortcuts.Shortcut>, id: string, oldKeys: string, newKeys: string)
    requires forall i :: 0 <= i < |shortcuts| && shortcuts[i].id == id ==> shortcuts[i].keys == oldKeys
    ensures ShortcutChanged(ShortcutChanged(shortcuts, id, newKeys), id, oldKeys) == shortcuts
  {
    var r := ShortcutChanged(ShortcutChanged(shortcuts, id, newKeys), id, oldKeys);
    assert forall i :: 0 <= i < |r| ==> r[i] == shortcuts[i];
  }

  /** A range input's value lies between its bounds: the browser clamps
      whatever is requested. */
  function SliderValue(requested: int, min: int, max: int): (v: int)
    requires min <= max
    ensures min <= v <= max
    ensures min <= requested <= max ==> v == requested
    ensures requested < min ==> v == min
    ensures requested > max ==> v == max
  {
    if requested < min then min else if requested > max then max else requested
  }

  /** The translucency slider: 0 to 40 pixels of blur. */
  function BlurLevel(requested: int): (v: int)
    ensures 0 <= v <= 40
  {
    SliderValue(requested, 0, 40)
  }

  /** The roundness slider: 0 to 30 pixels of corner radius. */
  function BorderRadius(requested: int): (v: int)
    ensures 0 <= v <= 30
  {
    SliderValue(requested, 0, 30)
  }

  /** The engines drawn highlighted: those whose url is the current one. */
  function HasUrl(url: string): Home.SearchEngine -> bool {
    (e: Home.SearchEngine) => e.url == url
  }

  function Highlighted(searchEngineUrl: string): seq<Home.SearchEngine> {
    Filter(Home.SearchEngines, HasUrl(searchEngineUrl))
  }

  /** Choosing an engine highlights it and only it. */
  lemma ChosenEngineHighlighted(k: nat)
    requires k < |Home.SearchEngines|
    ensures Highlighted(Home.SearchEngines[k].url) == [Home.SearchEngines[k]]
  {
    Home.EnginesDistinct();
    var e := Home.SearchEngines;
    var p := HasUrl(e[k].url);
    assert e == [e[0]] + [e[1]] + [e[2]] + [e[3]];
    FilterConcat([e[0]] + [e[1]] + [e[2]], [e[3]], p);
    FilterConcat([e[0]] + [e[1]], [e[2]], p);
    FilterConcat([e[0]], [e[1]], p);
    FilterSingleton(e[0], p);
    FilterSingleton(e[1], p);
    FilterSingleton(e[2], p);
    FilterSingleton(e[3], p);
  }
}
