/**
  Keyboard state and shortcuts (src/utils/keyboard.ts): the modifier string of an event, the key
  string a keydown is looked up under, the Control and Shift flags with their change events, and
  the map from key strings to listener lists. Window listeners become method calls; the events a
  listener list would emit are logged.
 */
module Keyboard {
  import opened Wrappers
  import EL = EventListeners

  /** The modifier flags of an event. */
  datatype Modifiers = Modifiers(meta: bool, ctrl: bool, alt: bool, shift: bool)

  /** `parts.join(sep)`. */
  function Join(parts: seq<string>, sep: string): (r: string)
    ensures parts == [] ==> r == ""
    ensures |parts| == 1 ==> r == parts[0]
  {
    if |parts| == 0 then ""
    else if |parts| == 1 then parts[0]
    else parts[0] + sep + Join(parts[1..], sep)
  }

  lemma {:induction false} JoinSnoc(parts: seq<string>, last: string, sep: string)
    ensures Join(parts + [last], sep) == if parts == [] then last else Join(parts, sep) + sep + last
    decreases |parts|
  {
    if |parts| > 1 {
      assert (parts + [last])[1..] == parts[1..] + [last];
      JoinSnoc(parts[1..], last, sep);
    } else if |parts| == 1 {
      assert (parts + [last])[1..] == [last];
    }
  }

  /** The names of the pressed modifiers, in the order meta, ctrl, alt, shift. */
  function ModifierNames(m: Modifiers): seq<string> {
    (if m.meta then ["meta"] else []) + (if m.ctrl then ["ctrl"] else [])
      + (if m.alt then ["alt"] else []) + (if m.shift then ["shift"] else [])
  }

  /** getModifier: the pressed modifiers joined by '+', empty when none is pressed. */
  function GetModifier(m: Modifiers): (r: string)
    ensures r == "" <==> !m.meta && !m.ctrl && !m.alt && !m.shift
  {
    Join(ModifierNames(m), "+")
  }

  /** Different sets of modifiers always give different strings. */
  lemma GetModifierInjective(m1: Modifiers, m2: Modifiers)
    requires GetModifier(m1) == GetModifier(m2)
    ensures m1 == m2
  {
    var s := GetModifier(m1);
    assert m1.meta <==> |s| >= 4 && s[..4] == "meta" by { MetaFirst(m1); }
    assert m2.meta <==> |s| >= 4 && s[..4] == "meta" by { MetaFirst(m2); }
    var r1 := Join(ModifierNames(m1.(meta := false)), "+");
    var r2 := Join(ModifierNames(m2.(meta := false)), "+");
    MetaStripped(m1, m2);
    RestInjective(m1.(meta := false), m2.(meta := false));
  }

  /** With meta pressed the string starts with "meta", and otherwise it does not. */
  lemma MetaFirst(m: Modifiers)
    ensures m.meta <==> |GetModifier(m)| >= 4 && GetModifier(m)[..4] == "meta"
  {
    var rest := ModifierNames(m.(meta := false));
    if m.meta {
      MetaPrefix(m);
    } else {
      assert ModifierNames(m) == rest;
      if rest != [] {
        JoinStarts(rest, "+");
        assert rest[0][0] in "cas";
        assert GetModifier(m)[0] != 'm';
      }
    }
  }

  lemma JoinStarts(parts: seq<string>, sep: string)
    requires |parts| > 0 && |parts[0]| > 0
    ensures |Join(parts, sep)| > 0 && Join(parts, sep)[0] == parts[0][0]
  {
  }

  /** With meta pressed, the string is "meta", then the rest after a '+' if there is any. */
  lemma MetaPrefix(m: Modifiers)
    requires m.meta
    ensures var rest := Join(ModifierNames(m.(meta := false)), "+");
      GetModifier(m) == if rest == "" then "meta" else "meta+" + rest
  {
    var names := ModifierNames(m.(meta := false));
    assert ModifierNames(m) == ["meta"] + names;
    if |names| > 0 {
      assert (["meta"] + names)[1..] == names;
    }
  }

  /** Equal strings with meta in both stay equal once meta is taken off. */
  lemma MetaStripped(m1: Modifiers, m2: Modifiers)
    requires GetModifier(m1) == GetModifier(m2) && m1.meta == m2.meta
    ensures Join(ModifierNames(m1.(meta := false)), "+") == Join(ModifierNames(m2.(meta := false)), "+")
  {
    if m1.meta {
      var r1 := Join(ModifierNames(m1.(meta := false)), "+");
      var r2 := Join(ModifierNames(m2.(meta := false)), "+");
      MetaPrefix(m1);
      MetaPrefix(m2);
      if r1 != "" && r2 != "" {
        assert r1 == ("meta+" + r1)[5..] == ("meta+" + r2)[5..] == r2;
      } else {
        assert |GetModifier(m1)| == 4 <==> r1 == "";
        assert |GetModifier(m2)| == 4 <==> r2 == "";
      }
    }
  }

  /** Without meta the fifteen other combinations give fifteen different strings. */
  lemma RestInjective(m1: Modifiers, m2: Modifiers)
    requires !m1.meta && !m2.meta
    requires GetModifier(m1) == GetModifier(m2)
    ensures m1 == m2
  {
    NoMetaString(m1);
    NoMetaString(m2);
  }

  /** The length of the modifier string without meta, which tells the eight cases apart. */
  function NoMetaLength(m: Modifiers): int {
    var count := (if m.ctrl then 1 else 0) + (if m.alt then 1 else 0) + (if m.shift then 1 else 0);
    (if m.ctrl then 4 else 0) + (if m.alt then 3 else 0) + (if m.shift then 5 else 0) + (if count > 0 then count - 1 else 0)
  }

  lemma NoMetaString(m: Modifiers)
    requires !m.meta
    ensures |GetModifier(m)| == NoMetaLength(m)
  {
    var names := ModifierNames(m);
    if m.ctrl {
      if m.alt {
        if m.shift {
          assert names == ["ctrl", "alt", "shift"];
          assert names[1..] == ["alt", "shift"];
          assert names[1..][1..] == ["shift"];
          assert Join(names[1..], "+") == "alt+shift";
        } else {
          assert names == ["ctrl", "alt"];
          assert names[1..] == ["alt"];
        }
      } else if m.shift {
        assert names == ["ctrl", "shift"];
        assert names[1..] == ["shift"];
      } else {
        assert names == ["ctrl"];
      }
    } else if m.alt {
      if m.shift {
        assert names == ["alt", "shift"];
        assert names[1..] == ["shift"];
      } else {
        assert names == ["alt"];
      }
    } else if m.shift {
      assert names == ["shift"];
    } else {
      assert names == [];
    }
  }

  /** ASCII upper-case letters to lower case; every other character is kept. */
  function Lower(s: string): (r: string)
    ensures |r| == |s|
    ensures forall i :: 0 <= i < |s| ==> r[i] == LowerChar(s[i])
  {
    if s == [] then [] else [LowerChar(s[0])] + Lower(s[1..])
  }

  function LowerChar(c: char): (d: char)
    ensures !('A' <= d <= 'Z')
    ensures !('A' <= c <= 'Z') ==> d == c
  {
    if 'A' <= c <= 'Z' then (c as int + 32) as char else c
  }

  /** The string a keydown of `key` is looked up under: 'ctrl+alt+shift+key', lower-cased. */
  function KeyString(ctrl: bool, alt: bool, shift: bool, key: string): (r: string)
    ensures |r| >= |key|
  {
    var names := ModifierNames(Modifiers(false, ctrl, alt, shift));
    JoinSnoc(names, key, "+");
    Lower(Join(names + [key], "+"))
  }

  /** The key string is the modifier string without meta, then '+', then the key, lower-cased. */
  lemma KeyStringExtendsModifier(ctrl: bool, alt: bool, shift: bool, key: string)
    ensures var prefix := GetModifier(Modifiers(false, ctrl, alt, shift));
      KeyString(ctrl, alt, shift, key) == Lower(if prefix == "" then key else prefix + "+" + key)
  {
    JoinSnoc(ModifierNames(Modifiers(false, ctrl, alt, shift)), key, "+");
  }

  class KeyboardAction<A(==)> {
    var ctrlPressed: bool
    var shiftPressed: bool
    /** The values emitted on ctrlState and shiftState, oldest first. */
    var ctrlEvents: seq<bool>
    var shiftEvents: seq<bool>
    var shortcut: map<string, EL.ListenerState<A>>
    /** The key strings whose listeners were run, oldest first. */
    var fired: seq<string>

    constructor()
      ensures !ctrlPressed && !shiftPressed && ctrlEvents == [] && shiftEvents == []
      ensures shortcut == map[] && fired == [] && Valid()
    {
      ctrlPressed, shiftPressed := false, false;
      ctrlEvents, shiftEvents := [], [];
      shortcut := map[];
      fired := [];
    }

    /**
      Each flag is the last value emitted for it (false before any), and every listener list is
      idle.
     */
    ghost predicate Valid()
      reads this
    {
      && ctrlPressed == (ctrlEvents != [] && ctrlEvents[|ctrlEvents| - 1])
      && shiftPressed == (shiftEvents != [] && shiftEvents[|shiftEvents| - 1])
      && forall k :: k in shortcut ==> EL.PendingValid(shortcut[k]) && !shortcut[k].emitting
    }

    /**
      onKeyDown: Control and Shift set their flag and emit true, Alt does nothing, and any other
      key runs the listeners under its key string when there are some; `prevented` says the
      default action was cancelled.
     */
    method OnKeyDown(key: string, ctrlKey: bool, altKey: bool, shiftKey: bool) returns (prevented: bool)
      requires Valid()
      modifies this
      ensures Valid() && shortcut == old(shortcut)
      ensures key == "Control" ==> ctrlPressed && ctrlEvents == old(ctrlEvents) + [true]
      ensures key == "Shift" ==> shiftPressed && shiftEvents == old(shiftEvents) + [true]
      ensures key != "Control" ==> ctrlPressed == old(ctrlPressed) && ctrlEvents == old(ctrlEvents)
      ensures key != "Shift" ==> shiftPressed == old(shiftPressed) && shiftEvents == old(shiftEvents)
      ensures key in {"Control", "Alt", "Shift"} ==> !prevented && fired == old(fired)
      ensures key !in {"Control", "Alt", "Shift"} ==>
        var k := KeyString(ctrlKey, altKey, shiftKey, key);
        && (prevented <==> k in shortcut && |shortcut[k].listeners| > 0)
        && fired == old(fired) + (if prevented then [k] else [])
    {
      prevented := false;
      if key == "Control" {
        ctrlPressed := true;
        ctrlEvents := ctrlEvents + [true];
      } else if key == "Alt" {
      } else if key == "Shift" {
        shiftPressed := true;
        shiftEvents := shiftEvents + [true];
      } else {
        var k := KeyString(ctrlKey, altKey, shiftKey, key);
        if k in shortcut && |shortcut[k].listeners| > 0 {
          fired := fired + [k];
          prevented := true;
        }
      }
    }

    /** onKeyUp: Control and Shift clear their flag and emit false; other keys do nothing. */
    method OnKeyUp(key: string)
      requires Valid()
      modifies this`ctrlPressed, this`ctrlEvents, this`shiftPressed, this`shiftEvents
      ensures Valid()
      ensures key == "Control" ==> !ctrlPressed && ctrlEvents == old(ctrlEvents) + [false]
      ensures key == "Shift" ==> !shiftPressed && shiftEvents == old(shiftEvents) + [false]
      ensures key != "Control" ==> ctrlPressed == old(ctrlPressed) && ctrlEvents == old(ctrlEvents)
      ensures key != "Shift" ==> shiftPressed == old(shiftPressed) && shiftEvents == old(shiftEvents)
    {
      if key == "Control" {
        ctrlPressed := false;
        ctrlEvents := ctrlEvents + [false];
      } else if key == "Shift" {
        shiftPressed := false;
        shiftEvents := shiftEvents + [false];
      }
    }

    /** onWindowUnfocus: both flags are cleared, each emitting false, held or not. */
    method OnWindowUnfocus()
      requires Valid()
      modifies this`ctrlPressed, this`ctrlEvents, this`shiftPressed, this`shiftEvents
      ensures Valid() && !ctrlPressed && !shiftPressed
      ensures ctrlEvents == old(ctrlEvents) + [false] && shiftEvents == old(shiftEvents) + [false]
    {
      ctrlPressed := false;
      ctrlEvents := ctrlEvents + [false];
      shiftPressed := false;
      shiftEvents := shiftEvents + [false];
    }

    /** addShortcut: a list is made for the key the first time, and the action listens on it. */
    method AddShortcut(key: string, action: A)
      requires Valid()
      modifies this`shortcut
      ensures Valid()
      ensures shortcut == old(shortcut)[key := EL.Listened(if key in old(shortcut) then old(shortcut)[key] else EL.Fresh(), action)]
      ensures action in shortcut[key].listeners
    {
      var listeners := if key in shortcut then shortcut[key] else EL.Fresh();
      shortcut := shortcut[key := EL.Listened(listeners, action)];
    }

    /** removeShortcut: false for a key never registered; otherwise the list's own remove. */
    method RemoveShortcut(key: string, action: A) returns (removed: bool)
      requires Valid()
      modifies this`shortcut
      ensures Valid()
      ensures key !in old(shortcut) ==> !removed && shortcut == old(shortcut)
      ensures key in old(shortcut) ==>
        && removed == EL.Removed(old(shortcut)[key], action).1
        && shortcut == old(shortcut)[key := EL.Removed(old(shortcut)[key], action).0]
      ensures key in old(shortcut) ==> (removed <==> action in old(shortcut)[key].listeners)
    {
      if key !in shortcut {
        return false;
      }
      var r := EL.Removed(shortcut[key], action);
      RemoveKeepsIdle(shortcut[key], action);
      shortcut := shortcut[key := r.0];
      removed := r.1;
    }

    /** The ctrlPressed getter. */
    function CtrlPressed(): (p: bool)
      reads this
      ensures Valid() ==> (p <==> ctrlEvents != [] && ctrlEvents[|ctrlEvents| - 1])
    {
      ctrlPressed
    }
  }

  /** Removing from an idle list keeps it idle, and answers whether the action was there. */
  lemma RemoveKeepsIdle<A>(st: EL.ListenerState<A>, a: A)
    requires EL.PendingValid(st) && !st.emitting
    ensures EL.PendingValid(EL.Removed(st, a).0) && !EL.Removed(st, a).0.emitting
    ensures EL.Removed(st, a).1 <==> a in st.listeners
  {
    var i := EL.IndexOf(st.listeners, a);
    if i != -1 {
      assert EL.Removed(st, a).0 == st.(listeners := EL.SpliceOne(st.listeners, i as nat));
    }
  }
}
