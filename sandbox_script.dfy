// The sandbox editor's browser script: the undo/redo history of the three
// editor texts (html, css, js), and what dropping a field onto a preview
// element does to that element.

module SandboxScript {
  import opened Php
  import opened JQuery

  /** One entry of the history: the three editor texts at some moment. */
  datatype Snapshot = Snapshot(html: string, css: string, js: string)

  /** The most snapshots `pushState` keeps. */
  const Cap: nat := 50

  /** The two arrays of the script: `history` (top is the last element) and `redo`. */
  datatype Stacks = Stacks(history: seq<Snapshot>, redo: seq<Snapshot>)

  /**
   * What holds between events once the page has loaded: there is always a
   * current snapshot, and the two stacks together hold at most `Cap` entries.
   */
  predicate Sound(st: Stacks) {
    1 <= |st.history| && |st.history| + |st.redo| <= Cap
  }

  /** `pushState`: append, drop the oldest once if over the cap, forget the redo stack. */
  function Push(st: Stacks, s: Snapshot): (r: Stacks)
    ensures r.redo == []
    ensures |r.history| > 0 && r.history[|r.history| - 1] == s
    ensures |st.history| < Cap ==> r.history == st.history + [s]
    ensures |st.history| >= Cap ==> r.history == st.history[1..] + [s]
  {
    var h := st.history + [s];
    if |h| > Cap then Stacks(h[1..], []) else Stacks(h, [])
  }

  /**
   * The undo click: with more than one snapshot, the top moves onto the redo
   * stack and the editors are restored to the new top; otherwise nothing.
   * The second component is the snapshot the editors are set to, if any.
   */
  function Undo(st: Stacks): (Stacks, Option<Snapshot>) {
    if |st.history| > 1 then
      var n := |st.history|;
      (Stacks(st.history[..n - 1], st.redo + [st.history[n - 1]]), Some(st.history[n - 2]))
    else (st, None)
  }

  /**
   * The redo click: `redo.pop()` is `undefined` on an empty stack and nothing
   * happens; otherwise the popped snapshot goes back on the history and the
   * editors are set to it.
   */
  function Redo(st: Stacks): (Stacks, Option<Snapshot>) {
    if st.redo == [] then (st, None)
    else
      var n := |st.redo|;
      (Stacks(st.history + [st.redo[n - 1]], st.redo[..n - 1]), Some(st.redo[n - 1]))
  }

  /** Push keeps the history within the cap and at most one longer; the snapshot is on top. */
  lemma PushBounded(st: Stacks, s: Snapshot)
    requires |st.history| <= Cap
    ensures var r := Push(st, s);
      |r.history| <= Cap && |r.history| == Min(|st.history| + 1, Cap)
      && r.history[..|r.history| - 1] == (if |st.history| < Cap then st.history else st.history[1..])
  {
  }

  /** Undo and redo only move entries between the stacks: the total is unchanged. */
  lemma MovesPreserveTotal(st: Stacks)
    ensures var (u, _) := Undo(st); |u.history| + |u.redo| == |st.history| + |st.redo|
    ensures var (r, _) := Redo(st); |r.history| + |r.redo| == |st.history| + |st.redo|
    ensures multiset(Undo(st).0.history + Undo(st).0.redo) == multiset(st.history + st.redo)
  {
    var n := |st.history|;
    if n > 1 {
      var u := Undo(st).0;
      assert u.history + u.redo == st.history[..n - 1] + st.redo + [st.history[n - 1]];
      assert st.history == st.history[..n - 1] + [st.history[n - 1]];
    }
  }

  /** Every event keeps the stacks sound. */
  lemma SoundPreserved(st: Stacks, s: Snapshot)
    requires Sound(st)
    ensures Sound(Push(st, s)) && Sound(Undo(st).0) && Sound(Redo(st).0)
  {
    MovesPreserveTotal(st);
  }

  /** Undo with one snapshot or fewer, and redo with nothing to redo, change nothing. */
  lemma NoOpCases(st: Stacks)
    ensures |st.history| <= 1 <==> Undo(st) == (st, None)
    ensures st.redo == [] <==> Redo(st) == (st, None)
  {
  }

  /** Undo restores the snapshot below the top; redo restores what it moves back. */
  lemma RestoresTop(st: Stacks)
    ensures var (u, shown) := Undo(st);
      shown.Some? ==> u.history != [] && shown.value == u.history[|u.history| - 1]
    ensures var (r, shown) := Redo(st);
      shown.Some? ==> r.history != [] && shown.value == r.history[|r.history| - 1]
  {
  }

  /** Undo followed by redo leaves both stacks as they were, and shows the old top again. */
  lemma UndoThenRedo(st: Stacks)
    requires |st.history| > 1
    ensures Redo(Undo(st).0) == (st, Some(st.history[|st.history| - 1]))
  {
    var n := |st.history|;
    var u := Undo(st).0;
    assert u.redo[|u.redo| - 1] == st.history[n - 1];
    assert u.redo[..|u.redo| - 1] == st.redo;
    assert st.history[..n - 1] + [st.history[n - 1]] == st.history;
  }

  /** Redo followed by undo leaves both stacks as they were. */
  lemma RedoThenUndo(st: Stacks)
    requires st.redo != [] && st.history != []
    ensures Undo(Redo(st).0).0 == st
  {
    var n := |st.redo|;
    var r := Redo(st).0;
    assert r.history[..|r.history| - 1] == st.history;
    assert st.redo[..n - 1] + [st.redo[n - 1]] == st.redo;
  }

  /** After a push there is nothing to redo, whatever came before. */
  lemma PushForgetsRedo(st: Stacks, s: Snapshot)
    ensures Redo(Push(st, s)) == (Push(st, s), None)
  {
  }

  // ---------------------------------------------------------------------
  // Dropping a field on a preview element
  // ---------------------------------------------------------------------

  /** The part of a preview element the drop handler reads and writes. */
  datatype Element = Element(fieldAttr: Option<string>, inner: string)

  /** The characters `String.prototype.trim` removes (white space and line terminators). */
  predicate IsJsSpace(c: char) {
    c == '\t' || c == '\n' || c == '\U{000B}' || c == '\U{000C}' || c == '\r' || c == ' '
    || c == '\U{00A0}' || c == '\U{1680}' || ('\U{2000}' <= c <= '\U{200A}')
    || c == '\U{2028}' || c == '\U{2029}' || c == '\U{202F}' || c == '\U{205F}'
    || c == '\U{3000}' || c == '\U{FEFF}'
  }

  function TrimStart(s: string): (r: string)
    ensures |r| <= |s| && r == s[|s| - |r|..]
    ensures r != [] ==> !IsJsSpace(r[0])
  {
    if s != [] && IsJsSpace(s[0]) then TrimStart(s[1..]) else s
  }

  function TrimEnd(s: string): (r: string)
    ensures |r| <= |s| && r == s[..|r|]
    ensures r != [] ==> !IsJsSpace(r[|r| - 1])
  {
    if s != [] && IsJsSpace(s[|s| - 1]) then TrimEnd(s[..|s| - 1]) else s
  }

  /** `s.trim()` */
  function Trim(s: string): string {
    TrimEnd(TrimStart(s))
  }

  /** Every character is white space. */
  predicate Blank(s: string) {
    forall i :: 0 <= i < |s| ==> IsJsSpace(s[i])
  }

  /** `!s.trim()` holds exactly when `s` is all white space. */
  lemma {:induction false} TrimEmptyIffBlank(s: string)
    ensures Trim(s) == [] <==> Blank(s)
  {
    if s != [] && IsJsSpace(s[0]) {
      TrimEmptyIffBlank(s[1..]);
      assert Blank(s) <==> Blank(s[1..]) by {
        assert forall i :: 1 <= i < |s| ==> s[i] == s[1..][i - 1];
      }
    } else if s != [] {
      var t := TrimStart(s);
      assert t == s;
      assert TrimEnd(t) != [] by {
        TrimEndKeepsFirst(t);
      }
    }
  }

  lemma {:induction false} TrimEndKeepsFirst(t: string)
    requires t != [] && !IsJsSpace(t[0])
    ensures TrimEnd(t) != []
    decreases |t|
  {
    if IsJsSpace(t[|t| - 1]) {
      TrimEndKeepsFirst(t[..|t| - 1]);
    }
  }

  /** The placeholder a drop inserts into an empty element. */
  function Placeholder(field: string): string {
    "{{" + field + "}}"
  }

  /**
   * The drop handler on an element: nothing without a field name that
   * `.data()` reads as truthy; otherwise the element is tagged with the
   * field and, when its content trims to nothing, gets the placeholder.
   */
  function DropOn(el: Element, field: Option<string>): (r: Element)
    ensures field.None? || DataFalsy(field.value) ==> r == el
    ensures field.Some? && !DataFalsy(field.value) ==>
      r.fieldAttr == field && (r.inner == if Blank(el.inner) then Placeholder(field.value) else el.inner)
  {
    if field.Some? && !DataFalsy(field.value) then
      TrimEmptyIffBlank(el.inner);
      Element(field, if Trim(el.inner) == [] then Placeholder(field.value) else el.inner)
    else el
  }

  /** A second drop of the same field changes nothing more. */
  lemma DropIdempotent(el: Element, field: Option<string>)
    ensures DropOn(DropOn(el, field), field) == DropOn(el, field)
  {
    if field.Some? && !DataFalsy(field.value) && Blank(el.inner) {
      assert !IsJsSpace(Placeholder(field.value)[0]);
    }
  }

  /**
   * Fields named `false` and `null` survive `sanitize_key`, but `.data()`
   * reads them as falsy values, so dropping one leaves the element alone.
   */
  lemma KeywordFieldIgnored(el: Element)
    ensures SanitizeKey("false") == "false" && SanitizeKey("null") == "null"
    ensures DropOn(el, Some("false")) == el && DropOn(el, Some("null")) == el
  {
    var f, n := "false", "null";
    assert forall i :: 0 <= i < |f| ==> IsKeyChar(f[i]);
    assert forall i :: 0 <= i < |n| ==> IsKeyChar(n[i]);
    SanitizeKeyKeepsKeys(f);
    SanitizeKeyKeepsKeys(n);
  }

  /**
   * The style that click-to-locate leaves in the css editor, given the
   * `style` attributes of the clicked element and its ancestors, innermost
   * first: the outermost one present, or none when no element has one.
   */
  function LastStyle(styles: seq<Option<string>>): (r: Option<string>)
    ensures r.None? <==> forall i :: 0 <= i < |styles| ==> styles[i].None?
  {
    if styles == [] then None
    else if styles[|styles| - 1].Some? then styles[|styles| - 1]
    else LastStyle(styles[..|styles| - 1])
  }

  /** When element `i` is styled and none outside it is, its style is the one left. */
  lemma {:induction false} LastStyleAt(styles: seq<Option<string>>, i: nat)
    requires i < |styles| && styles[i].Some?
    requires forall j :: i < j < |styles| ==> styles[j].None?
    ensures LastStyle(styles) == styles[i]
    decreases |styles|
  {
    var n := |styles|;
    if i < n - 1 {
      var init := styles[..n - 1];
      assert init[i] == styles[i];
      assert forall j :: i < j < |init| ==> init[j] == styles[j];
      LastStyleAt(init, i);
    }
  }

  /** An unstyled element inside a styled wrapper takes the wrapper's style; the outermost of two styles wins. */
  lemma WrapperStyleWins(inner: string, outer: string)
    ensures LastStyle([None, Some(outer)]) == Some(outer)
    ensures LastStyle([Some(inner), Some(outer), None]) == Some(outer)
  {
    assert [Some(inner), Some(outer), None][..2] == [Some(inner), Some(outer)];
  }

  /** The three editor texts and the two stacks of the script. */
  // ---------------------------------------------------------------------
  // The page's state
  // ---------------------------------------------------------------------

  class Editor {
    var html: string
    var css: string
    var js: string
    var history: seq<Snapshot>
    var redo: seq<Snapshot>

    function Stack(): Stacks
      reads this
    {
      Stacks(history, redo)
    }

    function Current(): Snapshot
      reads this
    {
      Snapshot(html, css, js)
    }

    ghost predicate Valid()
      reads this
    {
      Sound(Stack())
    }

    /** Page load: `pushState()` of the texts the page was rendered with. */
    constructor (html0: string, css0: string, js0: string)
      ensures Valid()
      ensures Current() == Snapshot(html0, css0, js0)
      ensures history == [Current()] && redo == []
    {
      html, css, js := html0, css0, js0;
      history, redo := [], [];
      new;
      PushState();
    }

    method PushState()
      modifies this`history, this`redo
      ensures Stack() == Push(old(Stack()), Current())
      ensures old(Valid()) ==> Valid()
    {
      history := history + [Snapshot(html, css, js)];
      if |history| > Cap {
        history := history[1..];
      }
      redo := [];
      if old(Valid()) {
        SoundPreserved(old(Stack()), Current());
      }
    }

    /** An `input` event on one of the editors: the new texts are pushed. */
    method Input(html1: string, css1: string, js1: string)
      modifies this
      ensures Current() == Snapshot(html1, css1, js1)
      ensures Stack() == Push(old(Stack()), Current())
      ensures old(Valid()) ==> Valid()
    {
      html, css, js := html1, css1, js1;
      PushState();
    }

    method UndoClick()
      modifies this
      ensures Undo(old(Stack())).1.None? ==> Current() == old(Current())
      ensures Stack() == Undo(old(Stack())).0
      ensures Undo(old(Stack())).1.Some? ==> Current() == Undo(old(Stack())).1.value
      ensures old(Valid()) ==> Valid()
    {
      if |history| > 1 {
        var current := history[|history| - 1];
        history := history[..|history| - 1];
        redo := redo + [current];
        var state := history[|history| - 1];
        html, css, js := state.html, state.css, state.js;
      }
      if old(Valid()) {
        SoundPreserved(old(Stack()), Current());
      }
    }

    method RedoClick()
      modifies this
      ensures Stack() == Redo(old(Stack())).0
      ensures Redo(old(Stack())).1.None? ==> Current() == old(Current())
      ensures Redo(old(Stack())).1.Some? ==> Current() == Redo(old(Stack())).1.value
      ensures old(Valid()) ==> Valid()
    {
      if redo != [] {
        var state := redo[|redo| - 1];
        redo := redo[..|redo| - 1];
        history := history + [state];
        html, css, js := state.html, state.css, state.js;
      }
      if old(Valid()) {
        SoundPreserved(old(Stack()), Current());
      }
    }

    /**
     * A click in the preview (click-to-locate). The handler is delegated, so
     * it runs for the clicked element and then for each of its ancestors up
     * to `<html>`; `styles` holds their `style` attributes in that order.
     * Each run on a styled element replaces the css text, so the outermost
     * styled element wins. Nothing is pushed, so the texts can differ from
     * the top of the history until the next push.
     */
    method LocateClick(styles: seq<Option<string>>)
      modifies this`css
      ensures LastStyle(styles).Some? ==> Current() == old(Current()).(css := LastStyle(styles).value)
      ensures LastStyle(styles).None? ==> Current() == old(Current())
      ensures Stack() == old(Stack())
      ensures old(Valid()) ==> Valid()
    {
      for i := 0 to |styles|
        invariant LastStyle(styles[..i]).Some? ==> Current() == old(Current()).(css := LastStyle(styles[..i]).value)
        invariant LastStyle(styles[..i]).None? ==> Current() == old(Current())
      {
        assert styles[..i + 1][..i] == styles[..i];
        if styles[i].Some? {
          css := styles[i].value;
        }
      }
      assert styles[..|styles|] == styles;
    }

    /**
     * A drop on a preview element. With a field, the element is updated, the
     * html editor is set to the serialised preview body (`serialize`, which
     * stands for the DOM clone with style and script removed) and the state is
     * pushed; without one nothing changes.
     */
    method Drop(el: Element, field: Option<string>, serialize: Element -> string) returns (r: Element)
      modifies this
      ensures r == DropOn(el, field)
      ensures (field.None? || DataFalsy(field.value)) ==> Current() == old(Current()) && Stack() == old(Stack())
      ensures field.Some? && !DataFalsy(field.value) ==>
        Current() == old(Current()).(html := serialize(r)) && Stack() == Push(old(Stack()), Current())
      ensures old(Valid()) ==> Valid()
    {
      r := el;
      if field.Some? && !DataFalsy(field.value) {
        var f := field.value;
        r := r.(fieldAttr := Some(f));
        if Trim(r.inner) == [] {
          r := r.(inner := Placeholder(f));
        }
        TrimEmptyIffBlank(el.inner);
        html := serialize(r);
        PushState();
      }
    }
  }
}
