/**
 * The slash popover of the Editor.js page (src/SlashMenu.tsx). A `/` typed
 * in the editor opens it under the caret with an empty filter; Escape or a
 * click outside it closes it; clicking an item inserts that block and
 * closes it. Items are filtered by their lower-cased label.
 */
module SlashMenu {
  import opened Text
  import opened Seqs
  import opened Wrappers
  import opened Geometry

  /** An item: its label and, standing for its `run` callback, the block it inserts. */
  datatype SlashItem = SlashItem(title: string, inserts: string)

  /** The ten items, in menu order. */
  const Items: seq<SlashItem> := [
    SlashItem("Header 1", "header level 1"),
    SlashItem("Header 2", "header level 2"),
    SlashItem("Header 3", "header level 3"),
    SlashItem("Bulleted List", "list unordered"),
    SlashItem("Numbered List", "list ordered"),
    SlashItem("Checklist", "checklist"),
    SlashItem("Table", "table 3x3"),
    SlashItem("Image (pick)", "image from file picker"),
    SlashItem("File", "file"),
    SlashItem("Paragraph", "paragraph")
  ]

  /** Vertical gap between the caret's bottom and the popover. */
  const PopoverGap: int := 6

  /** A label matches when its lower-cased form contains the lower-cased query. */
  function TitleContains(q: string): (r: SlashItem -> bool)
    ensures forall it :: r(it) <==> Includes(ToLower(it.title), ToLower(q))
    ensures forall it :: r(it) ==> |q| <= |it.title|
  {
    (it: SlashItem) => Includes(ToLower(it.title), ToLower(q))
  }

  /** The `filtered` list: the query is lower-cased but not trimmed. */
  function FilteredItems(items: seq<SlashItem>, q: string): (r: seq<SlashItem>)
    ensures IsSubsequence(r, items)
    ensures forall it :: it in r <==> it in items && Includes(ToLower(it.title), ToLower(q))
  {
    Filter(items, TitleContains(q))
  }

  /** An empty query lists every item; for the menu's own items that is all ten. */
  lemma EmptyQueryListsAll(items: seq<SlashItem>)
    ensures FilteredItems(items, "") == items
    ensures FilteredItems(Items, "") == Items && |FilteredItems(Items, "")| == 10
  {
    forall k | 0 <= k < |items|
      ensures TitleContains("")(items[k])
    {
      IncludesEmpty(ToLower(items[k].title));
    }
    FilterAll(items, TitleContains(""));
    forall k | 0 <= k < |Items|
      ensures TitleContains("")(Items[k])
    {
      IncludesEmpty(ToLower(Items[k].title));
    }
    FilterAll(Items, TitleContains(""));
  }

  /**
   * The query is not trimmed: a lone space keeps "Header 1" (its label has
   * a space) and drops "Table" (its label has none).
   */
  lemma SpaceQueryIsNotTrimmed()
    ensures Items[0] in FilteredItems(Items, " ")
    ensures Items[6] !in FilteredItems(Items, " ")
  {
    assert ToLower(" ") == " ";
    assert ToLower(Items[0].title)[6..7] == " ";
    assert OccursAt(ToLower(Items[0].title), " ", 6);
    var t := ToLower(Items[6].title);
    assert t == "table";
    assert forall i :: 0 <= i <= |t| ==> !OccursAt(t, " ", i) by {
      forall i | 0 <= i <= |t| ensures !OccursAt(t, " ", i) {
        if i < |t| { assert t[i..i + 1][0] == t[i]; }
      }
    }
  }

  /** What the component renders. */
  datatype View = Hidden | Listing(items: seq<SlashItem>) | NoMatches

  /** The component's state: `open`, `q`, `pos`, and the blocks its items inserted. */
  class Menu {
    var open: bool
    var q: string
    var pos: Position
    var inserted: seq<string>
    const items: seq<SlashItem>

    constructor ()
      ensures !open && q == "" && pos == Position(0, 0) && inserted == [] && items == Items
    {
      open, q, pos, inserted := false, "", Position(0, 0), [];
      items := Items;
    }

    function Filtered(): seq<SlashItem>
      reads this
    {
      FilteredItems(items, q)
    }

    /** Nothing when closed; the matches, or "No matches", when open. */
    function Rendered(): (v: View)
      reads this
      ensures !open ==> v == Hidden
      ensures open && Filtered() == [] ==> v == NoMatches
      ensures open && Filtered() != [] ==> v == Listing(Filtered()) && v.items != []
    {
      if !open then Hidden
      else if Filtered() == [] then NoMatches
      else Listing(Filtered())
    }

    /**
     * The editor's `keydown` listener. For `/` the popover moves under the
     * caret (when there is a caret rectangle), opens and clears its filter.
     */
    method OnKeyDown(key: string, caret: Option<Rect>, scrollX: int, scrollY: int)
      modifies this`open, this`q, this`pos
      ensures key == "/" ==> open && q == ""
      ensures key == "/" && caret.Some? ==>
        pos == Position(caret.value.left + scrollX, caret.value.bottom + scrollY + PopoverGap)
      ensures key == "/" && caret.None? ==> pos == old(pos)
      ensures key == "Escape" ==> !open && q == old(q) && pos == old(pos)
      ensures key != "/" && key != "Escape" ==> open == old(open) && q == old(q) && pos == old(pos)
    {
      if key == "/" {
        if caret.Some? {
          pos := Position(caret.value.left + scrollX, caret.value.bottom + scrollY + PopoverGap);
        }
        open := true;
        q := "";
      } else if key == "Escape" {
        open := false;
      }
    }

    /** A click anywhere in the document: outside `.slash-pop` it closes the popover. */
    method OnDocumentClick(insidePopover: bool)
      modifies this`open
      ensures open == (old(open) && insidePopover)
    {
      if !insidePopover {
        open := false;
      }
    }

    /** Typing in the filter field. */
    method OnFilterInput(value: string)
      modifies this`q
      ensures q == value
    {
      q := value;
    }

    /** Clicking the `i`-th listed item runs it, then closes the popover. */
    method OnItemClick(i: nat)
      requires open && i < |Filtered()|
      modifies this`open, this`inserted
      ensures !open
      ensures inserted == old(inserted) + [old(Filtered())[i].inserts]
      ensures old(Filtered())[i] in items
    {
      var item := Filtered()[i];
      inserted := inserted + [item.inserts];
      open := false;
    }
  }
}
