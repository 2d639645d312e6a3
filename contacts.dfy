/**
 * The caller-name lookup of the incoming-call flow (MainActivity.getContactName).
 * The contacts query itself is an oracle: for a number it yields what the
 * platform query does, and only the app's fallback logic is modelled.
 */
module Contacts {
  import opened Wrappers
  import opened Intents

  /**
   * The outcome of the PhoneLookup query: an exception thrown before a name
   * is read, a null cursor, or the DISPLAY_NAME column of the rows the cursor
   * holds (None for a null column value). A name read and then followed by an
   * exception from closing the cursor stays in the local and is returned, so
   * that outcome is `Rows`, not `Failed`.
   */
  datatype QueryResult = Failed | NullCursor | Rows(displayNames: seq<Option<string>>)

  /** The contacts provider, as seen through a lookup by phone number. */
  type Directory = string -> QueryResult

  /**
   * The name getContactName settles on: the first row's display name when there
   * is one, and the "Unknown" sentinel for a failed query, a null cursor, an
   * empty cursor, or a null name (assigning null to the non-null local throws,
   * and the exception is caught).
   */
  function ContactName(q: QueryResult): (r: string)
    ensures q.Rows? && q.displayNames != [] && q.displayNames[0].Some? ==> r == q.displayNames[0].value
    ensures q.Failed? || q.NullCursor? ==> r == UNKNOWN
    ensures q.Rows? && (q.displayNames == [] || q.displayNames[0].None?) ==> r == UNKNOWN
  {
    match q
    case Rows(names) => if |names| > 0 && names[0].Some? then names[0].value else UNKNOWN
    case _ => UNKNOWN
  }

  /** The lookup never fails: whatever the query did, some name comes back. */
  method GetContactName(phoneNumber: string, directory: Directory) returns (contactName: string)
    ensures contactName == ContactName(directory(phoneNumber))
  {
    contactName := UNKNOWN;
    match directory(phoneNumber)
    case Failed =>
    case NullCursor =>
    case Rows(names) =>
      if |names| > 0 {
        match names[0]
        case Some(n) => contactName := n;
        case None =>
      }
  }

  /**
   * The name is empty only when the contact's own display name is the empty
   * string; every fallback is the non-empty sentinel.
   */
  lemma ContactNameEmptyOnlyFromEmptyRow(q: QueryResult)
    ensures ContactName(q) == [] <==> (q.Rows? && q.displayNames != [] && q.displayNames[0] == Some(""))
  {
  }
}
