/** The window-level key-down handler of the shell's top-level component:
    the event is turned into a combo string (the held modifiers in a fixed
    order, then the key, joined by '+' and lower-cased), the first configured
    shortcut whose keys equal the combo ignoring case decides the action, and
    F12 always asks for the developer tools. */
module Shortcuts {
  import opened Common

  /** A configurable shortcut (the source field `label` is `labelText` here,
      `label` being a Dafny keyword); `keys` is written like "Ctrl+t". */
  datatype Shortcut = Shortcut(id: string, labelText: string, keys: string)

  /** The fields of a key-down event the handler reads. */
  datatype KeyEvent = KeyEvent(key: string, ctrlKey: bool, altKey: bool, shiftKey: bool, metaKey: bool)

  /** What a shortcut id asks the shell to do. */
  datatype Command = NewTab | CloseTab | ReloadPage | FocusUrl | GoBack | GoForward | ToggleDevTools

  /** The outcome of one key-down: whether the browser's default handling is
      suppressed, the matched shortcut's command (if its id is one the switch
      knows), and whether the hard-wired F12 check fired as well. */
  datatype KeyResult = KeyResult(preventDefault: bool, command: Option<Command>, f12: bool)

  /** The shortcut list the shell starts with. */
  const DefaultShortcuts: seq<Shortcut> := [
    Shortcut("new-tab", "New Tab", "Ctrl+t"),
    Shortcut("close-tab", "Close Tab", "Ctrl+w"),
    Shortcut("reload", "Reload Page", "Ctrl+r"),
    Shortcut("focus-url", "Focus URL Bar", "Ctrl+l"),
    Shortcut("go-back", "Go Back", "Alt+ArrowLeft"),
    Shortcut("go-forward", "Go Forward", "Alt+ArrowRight")
  ]

  /** The modifier names, in the order the handler pushes them. */
  const ModifierOrder: seq<string> := ["Ctrl", "Alt", "Shift", "Meta"]

  /** A key that is itself a modifier produces no combo. */
  predicate IsModifierKey(key: string) {
    key == "Control" || key == "Alt" || key == "Shift" || key == "Meta"
  }

  /** The space bar is spelled "Space"; every other key is kept. */
  function NormalizedKey(key: string): string {
    if key == " " then "Space" else key
  }

  /** Whether the event holds the named modifier. */
  predicate Held(e: KeyEvent, m: string) {
    (m == "Ctrl" && e.ctrlKey) || (m == "Alt" && e.altKey) ||
    (m == "Shift" && e.shiftKey) || (m == "Meta" && e.metaKey)
  }

  function HeldBy(e: KeyEvent): string -> bool {
    m => Held(e, m)
  }

  /** The held modifiers, pushed one test at a time. */
  function Modifiers(e: KeyEvent): seq<string> {
    (if e.ctrlKey then ["Ctrl"] else []) + ((if e.altKey then ["Alt"] else []) +
    ((if e.shiftKey then ["Shift"] else []) + (if e.metaKey then ["Meta"] else [])))
  }

  /** The pushed modifiers are exactly the held ones, in the fixed order
      Ctrl, Alt, Shift, Meta. */
  lemma ModifiersInFixedOrder(e: KeyEvent)
    ensures Modifiers(e) == Filter(ModifierOrder, HeldBy(e))
  {
    var p := HeldBy(e);
    var m3: seq<string> := ["Meta"];
    var m2 := ["Shift"] + m3;
    var m1 := ["Alt"] + m2;
    assert ModifierOrder == ["Ctrl"] + m1;
    assert p("Ctrl") == e.ctrlKey && p("Alt") == e.altKey;
    assert p("Shift") == e.shiftKey && p("Meta") == e.metaKey;
    FilterSingleton("Meta", p);
    FilterCons("Shift", m3, p);
    FilterCons("Alt", m2, p);
    FilterCons("Ctrl", m1, p);
  }

  /** The combo string of a key-down, or None for a bare modifier press. */
  function Combo(e: KeyEvent): (r: Option<string>)
    ensures r.None? <==> IsModifierKey(e.key)
    ensures r.Some? ==> r.value == ToLower(Join(Modifiers(e) + [NormalizedKey(e.key)], '+'))
  {
    if IsModifierKey(e.key) then None
    else Some(ToLower(Join(Modifiers(e) + [NormalizedKey(e.key)], '+')))
  }

  /** A shortcut matches a combo when its keys, lower-cased, equal it. */
  predicate Matches(s: Shortcut, combo: string) {
    ToLower(s.keys) == combo
  }

  /** Array.prototype.find over the shortcuts: the index of the first one
      that matches. */
  function FirstMatch(shortcuts: seq<Shortcut>, combo: string): (r: Option<nat>)
    ensures r.Some? ==> r.value < |shortcuts| && Matches(shortcuts[r.value], combo)
    ensures r.Some? ==> forall j :: 0 <= j < r.value ==> !Matches(shortcuts[j], combo)
    ensures r.None? ==> forall j :: 0 <= j < |shortcuts| ==> !Matches(shortcuts[j], combo)
  {
    if shortcuts == [] then None
    else if Matches(shortcuts[0], combo) then Some(0)
    else
      match FirstMatch(shortcuts[1..], combo)
      case None => None
      case Some(k) => Some(k + 1)
  }

  /** The first match is determined by the matches before it: if nothing
      before `i` matches, the first match is `i` when `i` matches, and none
      when `i` is the end of the list. */
  lemma FirstMatchIsUnique(shortcuts: seq<Shortcut>, combo: string, i: nat)
    requires i <= |shortcuts|
    requires forall j :: 0 <= j < i ==> !Matches(shortcuts[j], combo)
    ensures i < |shortcuts| && Matches(shortcuts[i], combo) ==> FirstMatch(shortcuts, combo) == Some(i)
    ensures i == |shortcuts| ==> FirstMatch(shortcuts, combo) == None
  {
  }

  /** Shortcut `j` matches the combination and none before it does. */
  predicate FirstMatchAt(shortcuts: seq<Shortcut>, combo: string, j: int) {
    0 <= j < |shortcuts| && Matches(shortcuts[j], combo) &&
    forall k :: 0 <= k < j ==> !Matches(shortcuts[k], combo)
  }

  /** The handler's switch on the matched shortcut's id. */
  function CommandOf(id: string): Option<Command> {
    match id
    case "new-tab" => Some(NewTab)
    case "close-tab" => Some(CloseTab)
    case "reload" => Some(ReloadPage)
    case "focus-url" => Some(FocusUrl)
    case "go-back" => Some(GoBack)
    case "go-forward" => Some(GoForward)
    case "dev-tools" => Some(ToggleDevTools)
    case _ => None
  }

  /** One key-down: a bare modifier press does nothing at all; otherwise the
      first matching shortcut suppresses the default and decides the command,
      and a key named "F12" fires the developer tools whether or not a
      shortcut matched. */
  function HandleKey(e: KeyEvent, shortcuts: seq<Shortcut>): (r: KeyResult)
    ensures IsModifierKey(e.key) ==> r == KeyResult(false, None, false)
    ensures !IsModifierKey(e.key) ==> (r.f12 <==> e.key == "F12")
    ensures r.preventDefault <==>
      Combo(e).Some? && exists j :: 0 <= j < |shortcuts| && Matches(shortcuts[j], Combo(e).value)
    ensures r.command.Some? ==> r.preventDefault
    ensures r.command.Some? ==>
      exists j :: FirstMatchAt(shortcuts, Combo(e).value, j) && CommandOf(shortcuts[j].id) == r.command
    ensures Combo(e).Some? ==>
      forall j :: FirstMatchAt(shortcuts, Combo(e).value, j) ==> r.command == CommandOf(shortcuts[j].id)
  {
    match Combo(e)
    case None => KeyResult(false, None, false)
    case Some(combo) =>
      var m := FirstMatch(shortcuts, combo);
      KeyResult(m.Some?, if m.Some? then CommandOf(shortcuts[m.value].id) else None, e.key == "F12")
  }

  /** Lower-casing distributes over concatenation. */
  lemma ToLowerConcat(a: string, b: string)
    ensures ToLower(a + b) == ToLower(a) + ToLower(b)
  {
  }

  /** Joining with one more part appends the separator and that part. */
  lemma {:induction false} JoinSnoc(parts: seq<string>, x: string, d: char)
    requires parts != []
    ensures Join(parts + [x], d) == Join(parts, d) + [d] + x
  {
    if |parts| == 1 {
      assert Join(parts + [x], d) == parts[0] + [d] + Join([x], d);
    } else {
      assert (parts + [x])[1..] == parts[1..] + [x];
      JoinSnoc(parts[1..], x, d);
    }
  }

  /** Matching ignores case: two key-downs with the same modifiers whose keys
      differ only in letter case suppress and command alike. */
  lemma MatchingIgnoresCase(e1: KeyEvent, e2: KeyEvent, shortcuts: seq<Shortcut>)
    requires e1.ctrlKey == e2.ctrlKey && e1.altKey == e2.altKey
    requires e1.shiftKey == e2.shiftKey && e1.metaKey == e2.metaKey
    requires !IsModifierKey(e1.key) && !IsModifierKey(e2.key)
    requires ToLower(NormalizedKey(e1.key)) == ToLower(NormalizedKey(e2.key))
    ensures HandleKey(e1, shortcuts).preventDefault == HandleKey(e2, shortcuts).preventDefault
    ensures HandleKey(e1, shortcuts).command == HandleKey(e2, shortcuts).command
  {
    var mods := Modifiers(e1);
    assert Modifiers(e2) == mods;
    var k1, k2 := NormalizedKey(e1.key), NormalizedKey(e2.key);
    if mods == [] {
      assert Join(mods + [k1], '+') == k1;
      assert Join(mods + [k2], '+') == k2;
    } else {
      JoinSnoc(mods, k1, '+');
      JoinSnoc(mods, k2, '+');
      ToLowerConcat(Join(mods, '+') + ['+'], k1);
      ToLowerConcat(Join(mods, '+') + ['+'], k2);
    }
    assert Combo(e1) == Combo(e2);
  }

  /** With the default shortcuts, Ctrl+t opens a new tab and nothing else:
      the default is suppressed, the command is NewTab, F12 does not fire. */
  lemma CtrlTOpensNewTab()
    ensures HandleKey(KeyEvent("t", true, false, false, false), DefaultShortcuts) ==
      KeyResult(true, Some(NewTab), false)
  {
    var e := KeyEvent("t", true, false, false, false);
    assert Modifiers(e) == ["Ctrl"];
    assert Join(["Ctrl", "t"], '+') == "Ctrl+t";
    assert ToLower("Ctrl+t") == "ctrl+t" by {
      var l := ToLower("Ctrl+t");
      assert l[0] == 'c' && l[1] == 't' && l[2] == 'r' && l[3] == 'l' && l[4] == '+' && l[5] == 't';
    }
    assert Combo(e) == Some("ctrl+t");
    assert Matches(DefaultShortcuts[0], "ctrl+t");
  }

  /** A bare F12 with no shortcut bound to it still fires the developer tools,
      and does not suppress the default. */
  lemma F12AlwaysFires()
    ensures HandleKey(KeyEvent("F12", false, false, false, false), DefaultShortcuts) ==
      KeyResult(false, None, true)
  {
    var e := KeyEvent("F12", false, false, false, false);
    assert Join(["F12"], '+') == "F12";
    assert ToLower("F12") == "f12" by {
      var l := ToLower("F12");
      assert l[0] == 'f' && l[1] == '1' && l[2] == '2';
    }
    assert Combo(e) == Some("f12");
    forall j | 0 <= j < |DefaultShortcuts| ensures !Matches(DefaultShortcuts[j], "f12") {
      var k := DefaultShortcuts[j].keys;
      assert k[0] == 'C' || k[0] == 'A';
      assert ToLower(k)[0] == LowerChar(k[0]);
    }
  }
}
