/** The floating menu of the selection button (`src/content/ui/ask.ts`): its
    preset actions and where it is placed next to the button. */
module AskMenu {
  import opened Js
  import opened Constants

  /** The approximate menu width and the gap between button and menu. */
  const MenuWidth := 220
  const MenuOffset := 10

  /** The button's bounding rectangle, in viewport coordinates. */
  datatype Rect = Rect(left: int, top: int, right: int)

  /** The menu's `left` and `top`, in page coordinates. */
  datatype Place = Place(left: int, top: int)

  /** `positionMenu`: level with the button, to its right by default, and
      flipped to its left when the default would run past the right edge of
      the page's visible area.  The flipped position is not clamped. */
  function PositionMenu(button: Rect, scrollX: int, scrollY: int, innerWidth: int): (r: Place)
    ensures r.top == button.top + scrollY
    ensures button.right + MenuOffset + MenuWidth <= innerWidth ==>
      r.left == button.right + MenuOffset + scrollX && r.left + MenuWidth <= innerWidth + scrollX
    ensures button.right + MenuOffset + MenuWidth > innerWidth ==>
      r.left == button.left - MenuWidth - MenuOffset + scrollX
  {
    var left := button.right + MenuOffset + scrollX;
    var top := button.top + scrollY;
    if left + MenuWidth > innerWidth + scrollX then Place(button.left - MenuWidth - MenuOffset + scrollX, top)
    else Place(left, top)
  }

  /** For a well-formed button rectangle the menu never covers the button: it
      lies a full gap to the right of it exactly when it fits there, and
      otherwise a full gap to the left of it. */
  lemma MenuBesideButton(button: Rect, scrollX: int, scrollY: int, innerWidth: int)
    requires button.left <= button.right
    ensures var r := PositionMenu(button, scrollX, scrollY, innerWidth);
      && (r.left >= button.right + scrollX + MenuOffset <==> button.right + MenuOffset + MenuWidth <= innerWidth)
      && (r.left >= button.right + scrollX + MenuOffset || r.left + MenuWidth + MenuOffset <= button.left + scrollX)
  {
  }

  /** The menu items of `createSelectionMenu`, in order. */
  const PresetActions: seq<ContextMenuItem> := [Explain, Summarize, Simplify]

  /** The presets are the three formatting items, each once: every context-menu
      item except the top-level "Ask my AI", each with its own `data-action`
      id that reads back as the item. */
  lemma PresetActionsAreTheFormats()
    ensures |PresetActions| == 3 && Distinct(PresetActions)
    ensures forall item :: item in PresetActions <==> item != AskMyAi
    ensures forall item :: item in PresetActions ==> MenuItemOf(MenuId(item)) == Some(item)
  {
    forall item | item in PresetActions
      ensures MenuItemOf(MenuId(item)) == Some(item)
    {
      ContextMenuIds(item, item);
    }
  }
}
