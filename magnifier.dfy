/** The magnifier tooltip: a glossary lookup for the hovered word, gated on owning the
    magnifier, placed next to the cursor and kept inside the viewport. */
module Magnifier {
  import opened Wrappers
  import opened Items
  import opened GameContext

  /** Pixel coordinates; the page's numbers are taken to be integers. */
  datatype Point = Point(x: int, y: int)
  datatype Viewport = Viewport(width: int, height: int)

  /** What the page publishes when a word is hovered: the word and the cursor position. */
  datatype Request = Request(word: string, position: Point)

  const TooltipWidth: int := 350
  const TooltipHeight: int := 200
  const Padding: int := 20
  /** The vertical distance kept between the cursor and the tooltip. */
  const CursorGap: int := 20

  const MagnifierId: string := "magnifier"

  /** Below the cursor the tooltip would cross the bottom margin, so it goes above it. */
  predicate Flipped(cursor: Point, vp: Viewport)
  {
    cursor.y + CursorGap + TooltipHeight > vp.height - Padding
  }

  /** The tooltip's top-left corner for a cursor position: pushed left off the right margin,
      then clamped to the left margin; below the cursor unless that crosses the bottom margin,
      then clamped to the top margin. */
  function Place(cursor: Point, vp: Viewport): (p: Point)
    ensures p.x >= Padding && p.y >= Padding
    ensures vp.width >= TooltipWidth + 2 * Padding ==> p.x + TooltipWidth <= vp.width - Padding
    ensures Padding <= cursor.x && cursor.x + TooltipWidth <= vp.width - Padding ==> p.x == cursor.x
    ensures cursor.x + TooltipWidth > vp.width - Padding && vp.width >= TooltipWidth + 2 * Padding ==>
      p.x == vp.width - TooltipWidth - Padding
    ensures !Flipped(cursor, vp) && cursor.y >= 0 ==> p.y == cursor.y + CursorGap
    ensures !Flipped(cursor, vp) ==> p.y > cursor.y
    ensures Flipped(cursor, vp) && cursor.y >= TooltipHeight + CursorGap + Padding ==>
      p.y == cursor.y - TooltipHeight - CursorGap && p.y + TooltipHeight < cursor.y
  {
    var x0 := if cursor.x + TooltipWidth > vp.width - Padding then vp.width - TooltipWidth - Padding else cursor.x;
    var y0 := if Flipped(cursor, vp) then cursor.y - TooltipHeight - CursorGap else cursor.y + CursorGap;
    Point(if x0 < Padding then Padding else x0, if y0 < Padding then Padding else y0)
  }

  /** The up arrow's condition: the tooltip's top lies below the cursor. Without hover data
      the comparison is with `undefined` and is false. */
  predicate UpShown(position: Point, data: Option<Request>)
  {
    data.Some? && position.y > data.value.position.y
  }

  /** The down arrow's condition, written independently of the up arrow's: the tooltip's top
      is at or above the cursor; false as well without hover data. */
  predicate DownShown(position: Point, data: Option<Request>)
  {
    data.Some? && position.y <= data.value.position.y
  }

  /** With hover data exactly one of the two arrows is drawn; without it neither is. */
  lemma ArrowsExclusive(position: Point, data: Option<Request>)
    ensures data.Some? ==> (UpShown(position, data) <==> !DownShown(position, data))
    ensures data.None? ==> !UpShown(position, data) && !DownShown(position, data)
  {
  }

  /** For a placed tooltip, the up arrow is drawn exactly when the tooltip stayed below the
      cursor or the top clamp pushed it below a cursor that is near the top edge, and the down
      arrow in every other case. */
  lemma ArrowMatchesPlacement(r: Request, vp: Viewport)
    ensures UpShown(Place(r.position, vp), Some(r)) <==> !Flipped(r.position, vp) || r.position.y < Padding
    ensures DownShown(Place(r.position, vp), Some(r)) <==> Flipped(r.position, vp) && r.position.y >= Padding
  {
    var p := Place(r.position, vp);
    if Flipped(r.position, vp) {
      assert p.y == (if r.position.y - TooltipHeight - CursorGap < Padding then Padding else r.position.y - TooltipHeight - CursorGap);
    }
  }

  /** With the real term map, the entry shown for a word is the last glossary entry with
      exactly that term. */
  lemma LookupIsLastEntry(list: seq<Entry>, word: string) returns (j: nat)
    requires word in TermMap(list)
    ensures j < |list| && TermMap(list)[word] == list[j] && list[j].term == word
    ensures forall k :: j < k < |list| ==> list[k].term != word
  {
    j := TermMapLast(list, word);
  }

  /** What reaches the tooltip's handlers: a click anywhere on the page, a key press, or a
      click on the tooltip's own close button (which is kept from reaching the page). */
  datatype DocumentEvent = Click | KeyDown(key: string) | CloseButton

  /** The events that close a tooltip: a click, the close button or the Escape key. */
  predicate Closes(ev: DocumentEvent)
  {
    ev.Click? || ev.CloseButton? || (ev.KeyDown? && ev.key == "Escape")
  }

  class Tooltip {
    var wordInfo: Option<Entry>
    var position: Point

    constructor ()
      ensures wordInfo.None? && position == Point(0, 0)
    {
      wordInfo, position := None, Point(0, 0);
    }

    /** The tooltip is rendered iff it holds word info and the magnifier is owned. */
    function Visible(game: Session): bool
      reads this, game
    {
      wordInfo.Some? && game.HasItem(MagnifierId)
    }

    /** The document's click and keydown listeners are registered exactly while word info is
        held. */
    function Listening(): bool
      reads this
    {
      wordInfo.Some?
    }

    /** Word info is only ever held for a player who owns the magnifier; then holding word
        info, having listeners and being rendered all coincide. */
    predicate Consistent(game: Session)
      reads this, game
    {
      wordInfo.Some? ==> game.HasItem(MagnifierId)
    }

    /** The effect run when the hover data or magnifier ownership changes: look the word up by
        exact term; when found, keep the entry and move to the placed position; in every
        other case drop the word info and leave the position where it was. */
    method Refresh(data: Option<Request>, game: Session, dict: map<string, Entry>, vp: Viewport)
      modifies this
      ensures data.Some? && game.HasItem(MagnifierId) && data.value.word in dict ==>
        wordInfo == Some(dict[data.value.word]) && position == Place(data.value.position, vp)
      ensures !(data.Some? && game.HasItem(MagnifierId) && data.value.word in dict) ==>
        wordInfo.None? && position == old(position) && !Visible(game)
      ensures Consistent(game) && (Visible(game) <==> Listening())
    {
      if data.Some? && game.HasItem(MagnifierId) {
        var word, pos := data.value.word, data.value.position;
        if word in dict {
          wordInfo := Some(dict[word]);
          var x := pos.x;
          var y := pos.y + CursorGap;
          if x + TooltipWidth > vp.width - Padding {
            x := vp.width - TooltipWidth - Padding;
          }
          if x < Padding {
            x := Padding;
          }
          if y + TooltipHeight > vp.height - Padding {
            y := pos.y - TooltipHeight - CursorGap;
          }
          if y < Padding {
            y := Padding;
          }
          position := Point(x, y);
        } else {
          wordInfo := None;
        }
      } else {
        wordInfo := None;
      }
    }

    /** Whether an event ends in a `hideMagnifier` call. A page click reaches the click listener
        and a key press the keydown listener, each only while the listeners are registered;
        the keydown listener hides only for Escape. The close button exists only while the
        tooltip is rendered. For a consistent tooltip this is: the tooltip is shown and the
        event is one that closes it. */
    method OnDocumentEvent(ev: DocumentEvent, game: Session) returns (dismiss: bool)
      ensures Consistent(game) ==> (dismiss <==> Visible(game) && Closes(ev))
      ensures !Listening() ==> !dismiss
      ensures ev.KeyDown? && ev.key != "Escape" ==> !dismiss
    {
      match ev
      case Click =>
        dismiss := Listening();
      case KeyDown(key) =>
        dismiss := false;
        if Listening() && key == "Escape" {
          dismiss := true;
        }
      case CloseButton =>
        dismiss := Visible(game);
    }
  }
}
