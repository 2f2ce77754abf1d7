/**
  The title directive (src/utils/TitleDirective.ts): every element that carries it pushes a title
  onto a stack when mounted, and the document shows the title on top. `document.title` is a
  field of the directive here; the optional transform is a function of the bound value, where
  `None` stands for JavaScript's `null`.
 */
module TitleDirectives {
  import opened Wrappers

  datatype TitleEntry<E> = TitleEntry(el: E, title: string)

  /** `stack.findIndex(i => i.el === el)`: the first entry of the element, or -1. */
  function FindIndex<E(==)>(stack: seq<TitleEntry<E>>, el: E): (i: int)
    ensures -1 <= i < |stack|
    ensures i == -1 <==> forall k :: 0 <= k < |stack| ==> stack[k].el != el
    ensures i >= 0 ==> stack[i].el == el && forall k :: 0 <= k < i ==> stack[k].el != el
  {
    if |stack| == 0 then -1
    else if stack[0].el == el then 0
    else
      var j := FindIndex(stack[1..], el);
      if j == -1 then -1 else j + 1
  }

  /** `stack.splice(i, 1)`: a negative index counts from the end. */
  function SpliceOne<T>(s: seq<T>, i: int): (r: seq<T>)
    ensures 0 <= i < |s| ==> r == s[..i] + s[i + 1..]
    ensures i == -1 && |s| > 0 ==> r == s[..|s| - 1]
    ensures i >= |s| || |s| == 0 ==> r == s
  {
    var start := if i < 0 then (if |s| + i < 0 then 0 else |s| + i) else i;
    if start < |s| then s[..start] + s[start + 1..] else s
  }

  /** The stack and the shown title after beforeUnmount, as the source writes it. */
  function UnmountedAsWritten<E(==)>(stack: seq<TitleEntry<E>>, shown: string, el: E, empty: string): (seq<TitleEntry<E>>, string)
  {
    var index := FindIndex(stack, el);
    var s := SpliceOne(stack, index);
    if |s| == 0 then (s, empty)
    else if index == |s| then (s, s[index - 1].title)
    else (s, shown)
  }

  /** beforeUnmount with the lookup guarded: an element without an entry changes nothing. */
  function Unmounted<E(==)>(stack: seq<TitleEntry<E>>, shown: string, el: E, empty: string): (r: (seq<TitleEntry<E>>, string))
    ensures FindIndex(stack, el) == -1 ==> r == (stack, shown)
    ensures FindIndex(stack, el) != -1 ==> |r.0| == |stack| - 1
  {
    var index := FindIndex(stack, el);
    if index == -1 then (stack, shown)
    else UnmountedAsWritten(stack, shown, el, empty)
  }

  /**
    Unmounting an element that has no entry removes the top entry all the same, and the document
    goes on showing the removed entry's title.
   */
  lemma UnknownUnmountDropsTop(e1: int, e2: int, e3: int)
    requires e1 != e3 && e2 != e3
    ensures var stack := [TitleEntry(e1, "a"), TitleEntry(e2, "b")];
      && UnmountedAsWritten(stack, "b", e3, "") == ([TitleEntry(e1, "a")], "b")
      && Unmounted(stack, "b", e3, "") == (stack, "b")
  {
    var stack := [TitleEntry(e1, "a"), TitleEntry(e2, "b")];
    assert FindIndex(stack, e3) == -1;
    assert SpliceOne(stack, -1) == stack[..1] == [TitleEntry(e1, "a")];
  }

  /** The document shows the title on top of the stack, whenever there is one. */
  predicate ShowsTop<E>(stack: seq<TitleEntry<E>>, shown: string) {
    |stack| > 0 ==> shown == stack[|stack| - 1].title
  }

  /**
    The guarded beforeUnmount keeps the document on the top title: taking off the top shows the
    entry below it, taking off a lower entry leaves the title as it is, and an empty stack shows
    the title of `null`.
   */
  lemma UnmountShowsTop<E>(stack: seq<TitleEntry<E>>, shown: string, el: E, empty: string)
    requires ShowsTop(stack, shown)
    ensures ShowsTop(Unmounted(stack, shown, el, empty).0, Unmounted(stack, shown, el, empty).1)
    ensures Unmounted(stack, shown, el, empty).0 == [] && stack != [] ==> Unmounted(stack, shown, el, empty).1 == empty
  {
    var index := FindIndex(stack, el);
    if index != -1 {
      var s := SpliceOne(stack, index);
      if |s| > 0 && index < |s| {
        assert s[|s| - 1] == stack[|stack| - 1];
      }
    }
  }

  /** The element's entry is gone after unmounting, when it had exactly one. */
  lemma UnmountRemovesEntry<E>(stack: seq<TitleEntry<E>>, shown: string, el: E, empty: string)
    requires forall i, j :: 0 <= i < j < |stack| ==> stack[i].el != stack[j].el
    ensures forall k :: 0 <= k < |Unmounted(stack, shown, el, empty).0| ==> Unmounted(stack, shown, el, empty).0[k].el != el
  {
    var index := FindIndex(stack, el);
    if index != -1 {
      var s := SpliceOne(stack, index);
      forall k | 0 <= k < |s|
        ensures s[k].el != el
      {
        if k < index {
          assert s[k] == stack[k];
        } else {
          assert s[k] == stack[k + 1];
        }
      }
    }
  }

  class TitleDirective<E(==)> {
    /** The transform given to createTitleDirective, if any. */
    const transform: Option<Option<string> -> string>
    var stack: seq<TitleEntry<E>>
    /** document.title */
    var title: string

    /** `t`: the transform of the value, or the value itself with `null` as the empty string. */
    function T(value: Option<string>): string
    {
      match transform
      case Some(f) => f(value)
      case None => value.GetOr("")
    }

    /** createTitleDirective: an empty stack; the document keeps whatever title it had. */
    constructor(transform: Option<Option<string> -> string>, documentTitle: string)
      ensures this.transform == transform && stack == [] && title == documentTitle
    {
      this.transform := transform;
      stack := [];
      title := documentTitle;
    }

    ghost predicate Valid()
      reads this
    {
      ShowsTop(stack, title)
    }

    /** mounted: pushes the element's title and shows it. */
    method Mounted(el: E, value: string)
      modifies this
      ensures stack == old(stack) + [TitleEntry(el, T(Some(value)))]
      ensures title == T(Some(value)) && Valid()
      ensures transform.None? ==> title == value
    {
      var item := TitleEntry(el, T(Some(value)));
      stack := stack + [item];
      title := item.title;
    }

    /**
      updated: retitles the element's first entry, and shows the new title when that entry is on
      top. With the element missing from an empty stack the source reads a property of
      `undefined` and throws; `ok` is false then and nothing changes.
     */
    method Updated(el: E, value: string) returns (ok: bool)
      requires Valid()
      modifies this
      ensures Valid()
      ensures ok <==> !(old(stack) == [] && FindIndex(old(stack), el) == -1)
      ensures var i := FindIndex(old(stack), el);
        && (i == -1 ==> stack == old(stack) && title == old(title))
        && (i != -1 ==> stack == old(stack)[i := TitleEntry(el, T(Some(value)))])
        && (i != -1 && i == |stack| - 1 ==> title == T(Some(value)))
        && (i != -1 && i != |stack| - 1 ==> title == old(title))
        && (i != -1 && i == |stack| - 1 && transform.None? ==> title == value)
    {
      var i := FindIndex(stack, el);
      if i != -1 {
        stack := stack[i := TitleEntry(el, T(Some(value)))];
      }
      if i == -1 && |stack| == 0 {
        return false;
      }
      if i == |stack| - 1 {
        title := stack[i].title;
      }
      ok := true;
    }

    /** beforeUnmount, with the entry looked up before it is spliced out. */
    method BeforeUnmount(el: E)
      requires Valid()
      modifies this
      ensures Valid()
      ensures (stack, title) == Unmounted(old(stack), old(title), el, T(None))
      ensures transform.None? && stack == [] && old(stack) != [] ==> title == ""
    {
      UnmountShowsTop(stack, title, el, T(None));
      var index := FindIndex(stack, el);
      if index == -1 {
        return;
      }
      stack := stack[..index] + stack[index + 1..];
      if |stack| == 0 {
        title := T(None);
      } else if index == |stack| {
        title := stack[index - 1].title;
      }
    }
  }
}
