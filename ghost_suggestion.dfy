/**
 * The inline "ghost text" controller of the Editor.js component
 * (src/Component/EditorJS.tsx). Key-up and mouse-up (re)start a single
 * debounce timer; when it fires, the text of the caret's block up to the
 * caret is sent to the suggester and the answer becomes both the active
 * suggestion and the ghost overlay. Tab inserts the active suggestion at
 * the caret, Escape dismisses it, the arrow keys only move the overlay.
 *
 * The page is modelled as the text of its editor blocks plus where the
 * selection is; caret and container rectangles are inputs, in whole pixels.
 */
module GhostSuggestion {
  import opened Wrappers
  import opened Geometry
  import AiSuggester

  /** Where the page's selection is. */
  datatype Selection =
    | NoSelection                                 // no selection, or no range in it
    | Elsewhere                                   // a range whose anchor lies in no editor block
    | InBlock(block: nat, start: nat, end: nat)   // a range inside one editor block

  /** `Math.max(0, a - b)`. */
  function ClampedOffset(a: int, b: int): (r: int)
    ensures r >= 0 && r >= a - b
    ensures r == a - b || r == 0
  {
    if a - b > 0 then a - b else 0
  }

  /** `updatePositionFromCaret`'s new position, or none when a rectangle is missing. */
  function OverlayPosition(caret: Option<Rect>, container: Option<Rect>): (r: Option<Position>)
    ensures r.None? <==> caret.None? || container.None?
    ensures r.Some? ==> r.value.left >= 0 && r.value.top >= 0
    ensures r.Some? ==>
      r.value.left == ClampedOffset(caret.value.left, container.value.left) &&
      r.value.top == ClampedOffset(caret.value.bottom, container.value.top)
  {
    if caret.None? || container.None? then None
    else Some(Position(ClampedOffset(caret.value.left, container.value.left),
                       ClampedOffset(caret.value.bottom, container.value.top)))
  }

  ghost predicate SelectionFits(blocks: seq<string>, sel: Selection) {
    sel.InBlock? ==> sel.block < |blocks| && sel.start <= sel.end <= |blocks[sel.block]|
  }

  /** `getTextBeforeCursor`: the caret's block from its start up to the range's end. */
  function TextBeforeCursor(blocks: seq<string>, sel: Selection): (r: string)
    requires SelectionFits(blocks, sel)
    ensures !sel.InBlock? ==> r == ""
    ensures sel.InBlock? ==> |r| == sel.end && r <= blocks[sel.block]
  {
    if sel.InBlock? then blocks[sel.block][..sel.end] else ""
  }

  /** `range.insertNode(text)`: the text goes in at the start of the range. */
  function InsertAt(t: string, at: nat, s: string): (r: string)
    requires at <= |t|
    ensures |r| == |t| + |s|
    ensures r[..at] == t[..at] && r[at..at + |s|] == s && r[at + |s|..] == t[at..]
  {
    t[..at] + s + t[at..]
  }

  /** The editor page, as far as the controller sees and changes it. */
  class Page {
    var blocks: seq<string>
    var selection: Selection

    ghost predicate Valid()
      reads this
    {
      SelectionFits(blocks, selection)
    }

    constructor (blocks: seq<string>, selection: Selection)
      requires SelectionFits(blocks, selection)
      ensures Valid() && this.blocks == blocks && this.selection == selection
    {
      this.blocks := blocks;
      this.selection := selection;
    }

    /**
     * Insert `s` at the start of the range, then collapse the range just
     * after it. A range outside the editor blocks changes no block.
     */
    method InsertAtSelection(s: string)
      requires Valid() && !selection.NoSelection?
      modifies this
      ensures Valid()
      ensures old(selection).Elsewhere? ==> blocks == old(blocks) && selection == Elsewhere
      ensures old(selection).InBlock? ==>
        var b, at := old(selection).block, old(selection).start;
        blocks == old(blocks)[b := InsertAt(old(blocks)[b], at, s)] &&
        selection == InBlock(b, at + |s|, at + |s|)
    {
      if selection.InBlock? {
        var b, at := selection.block, selection.start;
        blocks := blocks[b := InsertAt(blocks[b], at, s)];
        selection := InBlock(b, at + |s|, at + |s|);
      }
    }
  }

  /**
   * The controller's state: the active suggestion (`suggestionActiveRef`),
   * the rendered ghost text, the overlay position, and the debounce slot
   * (`debounceRef`) with the timers the host still has pending.
   */
  class Controller {
    var suggestionActive: string
    var ghostText: string
    var pos: Position
    var debounceRef: Option<nat>
    var liveTimers: set<nat>
    var nextTimer: nat
    const page: Page

    /**
     * At most one timer is pending, and it is the one in the slot; the
     * ghost always shows the active suggestion; the overlay is never at a
     * negative offset.
     */
    ghost predicate Valid()
      reads this, page
    {
      && page.Valid()
      && liveTimers <= (if debounceRef.Some? then {debounceRef.value} else {})
      && (debounceRef.Some? ==> debounceRef.value < nextTimer)
      && ghostText == suggestionActive
      && pos.left >= 0 && pos.top >= 0
    }

    /** The overlay is rendered only with a non-empty ghost text, that is, while a suggestion is active. */
    function GhostVisible(): (r: bool)
      reads this
      ensures Valid() ==> (r <==> suggestionActive != "")
    {
      ghostText != ""
    }

    constructor (page: Page)
      requires page.Valid()
      ensures Valid() && this.page == page
      ensures suggestionActive == "" && ghostText == "" && pos == Position(0, 0)
      ensures debounceRef == None && liveTimers == {}
    {
      this.page := page;
      suggestionActive, ghostText := "", "";
      pos := Position(0, 0);
      debounceRef, liveTimers, nextTimer := None, {}, 1;
    }

    /** `debounce(updateSuggestion)`: cancel the pending timer and start a new one. */
    method Debounce()
      requires Valid()
      modifies this`debounceRef, this`liveTimers, this`nextTimer
      ensures Valid()
      ensures liveTimers == {old(nextTimer)} && debounceRef == Some(old(nextTimer))
      ensures nextTimer == old(nextTimer) + 1
    {
      if debounceRef.Some? {
        liveTimers := liveTimers - {debounceRef.value};
      }
      var id := nextTimer;
      nextTimer := nextTimer + 1;
      liveTimers := liveTimers + {id};
      debounceRef := Some(id);
    }

    /** `updatePositionFromCaret`. */
    method UpdatePositionFromCaret(caret: Option<Rect>, container: Option<Rect>)
      requires Valid()
      modifies this`pos
      ensures Valid()
      ensures OverlayPosition(caret, container).None? ==> pos == old(pos)
      ensures OverlayPosition(caret, container).Some? ==> pos == OverlayPosition(caret, container).value
    {
      if caret.None? || container.None? {
        return;
      }
      pos := Position(ClampedOffset(caret.value.left, container.value.left),
                      ClampedOffset(caret.value.bottom, container.value.top));
    }

    /** The pending timer fires: it reads the text before the caret and starts the fetch. */
    method TimerFires(t: nat) returns (request: string)
      requires Valid() && t in liveTimers
      modifies this`liveTimers
      ensures Valid() && liveTimers == {}
      ensures request == TextBeforeCursor(page.blocks, page.selection)
    {
      liveTimers := liveTimers - {t};
      request := TextBeforeCursor(page.blocks, page.selection);
    }

    /** The rest of `updateSuggestion`, once the fetch has resolved to `suggestion`. */
    method SuggestionArrived(suggestion: string, caret: Option<Rect>, container: Option<Rect>)
      requires Valid()
      modifies this`suggestionActive, this`ghostText, this`pos
      ensures Valid()
      ensures suggestionActive == suggestion && ghostText == suggestion
      ensures GhostVisible() <==> suggestion != ""
      ensures OverlayPosition(caret, container).None? ==> pos == old(pos)
      ensures OverlayPosition(caret, container).Some? ==> pos == OverlayPosition(caret, container).value
    {
      suggestionActive := suggestion;
      ghostText := suggestion;
      UpdatePositionFromCaret(caret, container);
    }

    /** A firing whose fetch from the mock suggester resolves before anything else happens. */
    method TimerFiresWithMock(t: nat, caret: Option<Rect>, container: Option<Rect>)
      requires Valid() && t in liveTimers
      modifies this`liveTimers, this`suggestionActive, this`ghostText, this`pos
      ensures Valid() && liveTimers == {}
      ensures suggestionActive == AiSuggester.GetSuggestion(
        AiSuggester.SuggestionContext(TextBeforeCursor(page.blocks, page.selection), None))
      ensures ghostText == suggestionActive
      ensures OverlayPosition(caret, container).None? ==> pos == old(pos)
      ensures OverlayPosition(caret, container).Some? ==> pos == OverlayPosition(caret, container).value
    {
      var request := TimerFires(t);
      var suggestion := AiSuggester.GetSuggestion(AiSuggester.SuggestionContext(request, None));
      SuggestionArrived(suggestion, caret, container);
    }

    method OnKeyUp()
      requires Valid()
      modifies this`debounceRef, this`liveTimers, this`nextTimer
      ensures Valid()
      ensures liveTimers == {old(nextTimer)} && debounceRef == Some(old(nextTimer))
      ensures nextTimer == old(nextTimer) + 1
    {
      Debounce();
    }

    method OnMouseUp(caret: Option<Rect>, container: Option<Rect>)
      requires Valid()
      modifies this`debounceRef, this`liveTimers, this`nextTimer, this`pos
      ensures Valid()
      ensures liveTimers == {old(nextTimer)} && debounceRef == Some(old(nextTimer))
      ensures nextTimer == old(nextTimer) + 1
      ensures OverlayPosition(caret, container).None? ==> pos == old(pos)
      ensures OverlayPosition(caret, container).Some? ==> pos == OverlayPosition(caret, container).value
    {
      UpdatePositionFromCaret(caret, container);
      Debounce();
    }

    method OnSelectionChange(caret: Option<Rect>, container: Option<Rect>)
      requires Valid()
      modifies this`pos
      ensures Valid()
      ensures OverlayPosition(caret, container).None? ==> pos == old(pos)
      ensures OverlayPosition(caret, container).Some? ==> pos == OverlayPosition(caret, container).value
    {
      UpdatePositionFromCaret(caret, container);
    }

    /** The capturing `keydown` listener; the result says whether the default was prevented. */
    method OnKeyDown(key: string, caret: Option<Rect>, container: Option<Rect>) returns (prevented: bool)
      requires Valid()
      modifies this`suggestionActive, this`ghostText, this`pos, page
      ensures Valid()
      ensures prevented <==> key == "Tab" && old(suggestionActive) != ""
      // Tab with a suggestion and a range: insert it, caret after it, slot cleared.
      ensures key == "Tab" && old(suggestionActive) != "" && !old(page.selection).NoSelection? ==>
        && suggestionActive == "" && ghostText == "" && pos == old(pos)
        && (old(page.selection).Elsewhere? ==> page.blocks == old(page.blocks) && page.selection == Elsewhere)
        && (old(page.selection).InBlock? ==>
              var b, at := old(page.selection).block, old(page.selection).start;
              page.blocks == old(page.blocks)[b := InsertAt(old(page.blocks)[b], at, old(suggestionActive))] &&
              page.selection == InBlock(b, at + |old(suggestionActive)|, at + |old(suggestionActive)|))
      // Tab with a suggestion but no range: nothing changes.
      ensures key == "Tab" && old(suggestionActive) != "" && old(page.selection).NoSelection? ==>
        unchanged(this) && unchanged(page)
      ensures key == "Escape" ==> suggestionActive == "" && ghostText == "" && pos == old(pos) && unchanged(page)
      ensures key in {"ArrowLeft", "ArrowRight", "ArrowUp", "ArrowDown"} ==>
        suggestionActive == old(suggestionActive) && ghostText == old(ghostText) && unchanged(page)
        && (OverlayPosition(caret, container).None? ==> pos == old(pos))
        && (OverlayPosition(caret, container).Some? ==> pos == OverlayPosition(caret, container).value)
      ensures (key == "Tab" && old(suggestionActive) == "") || key !in {"Tab", "Escape", "ArrowLeft", "ArrowRight", "ArrowUp", "ArrowDown"} ==>
        unchanged(this) && unchanged(page)
    {
      prevented := false;
      if key == "Tab" && suggestionActive != "" {
        prevented := true;
        var text := suggestionActive;
        if page.selection.NoSelection? {
          return;
        }
        page.InsertAtSelection(text);
        suggestionActive := "";
        ghostText := "";
        return;
      }
      if key == "Escape" {
        suggestionActive := "";
        ghostText := "";
        return;
      }
      if key in {"ArrowLeft", "ArrowRight", "ArrowUp", "ArrowDown"} {
        UpdatePositionFromCaret(caret, container);
      }
    }
  }

  /**
   * Accepting a suggestion with the caret collapsed at the end of the typed
   * text extends the text before the caret by exactly the suggestion.
   */
  lemma AcceptExtendsTextBeforeCursor(blocks: seq<string>, b: nat, at: nat, s: string)
    requires b < |blocks| && at <= |blocks[b]|
    ensures var after := blocks[b := InsertAt(blocks[b], at, s)];
      SelectionFits(after, InBlock(b, at + |s|, at + |s|)) &&
      TextBeforeCursor(after, InBlock(b, at + |s|, at + |s|)) == TextBeforeCursor(blocks, InBlock(b, at, at)) + s
  {
    var t := InsertAt(blocks[b], at, s);
    assert t[..at + |s|] == t[..at] + t[at..at + |s|];
  }

  lemma InsertIntro()
    ensures InsertAt("intro", 5, "duction") == "introduction"
  {
    var t := "intro";
    assert t[..5] == t && t[5..] == "";
    assert t + "duction" + "" == "introduction";
  }

  /** Five key-ups in a row leave exactly one timer pending: one fetch at most. */
  method FiveKeyUps() returns (pending: nat)
    ensures pending == 1
  {
    var page := new Page(["hello"], InBlock(0, 5, 5));
    var c := new Controller(page);
    c.OnKeyUp();
    c.OnKeyUp();
    c.OnKeyUp();
    c.OnKeyUp();
    c.OnKeyUp();
    pending := |c.liveTimers|;
  }

  /** Typing "intro", waiting for the suggestion and pressing Tab gives "introduction". */
  method AcceptIntro() returns (text: string, active: string)
    ensures text == "introduction" && active == ""
  {
    var page := new Page(["intro"], InBlock(0, 5, 5));
    var c := new Controller(page);
    c.OnKeyUp();
    var t := c.debounceRef.value;
    assert TextBeforeCursor(page.blocks, page.selection) == "intro" by {
      assert "intro"[..5] == "intro";
    }
    c.TimerFiresWithMock(t, None, None);
    AiSuggester.SuggestIntro();
    assert c.suggestionActive == "duction";
    var prevented := c.OnKeyDown("Tab", None, None);
    assert page.blocks == ["intro"][0 := InsertAt("intro", 5, "duction")];
    InsertIntro();
    text := page.blocks[0];
    active := c.suggestionActive;
  }
}
