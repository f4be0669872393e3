/** The record relayed from the page the user reads to the AI's prompt box. */
module Types {
  import opened Js

  /** `SelectionInfo`.  The AI identifiers are the keys of the destination
      table; the code casts whatever string it finds, so they are strings here. */
  datatype SelectionInfo = SelectionInfo(
    text: string,
    tabUrl: string,
    tabTitle: string,
    timestamp: int,
    currentAi: Option<string>,
    previousAi: Option<string>)

  /** What a context-menu click reports: the item's id and the selected text,
      which the browser may leave out. */
  datatype ClickInfo = ClickInfo(menuItemId: string, selectionText: Option<string>)
}
