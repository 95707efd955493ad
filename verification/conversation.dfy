/** The conversation records the logs page lists and acts on. */
module Conversations {
  import opened Optional

  /**
    The conversation statuses of the data model. The constructors carry the
    enum's own member names, which are also its string values.
   */
  datatype ConversationStatus = UNRESOLVED | RESOLVED | HUMAN_REQUESTED

  /** The string value of a status as it travels in a query parameter. */
  function StatusName(s: ConversationStatus): string
  {
    match s
    case UNRESOLVED => "UNRESOLVED"
    case RESOLVED => "RESOLVED"
    case HUMAN_REQUESTED => "HUMAN_REQUESTED"
  }

  /**
    The part of a conversation the page's logic looks at: its id, its status
    and the email of its lead (visitor), which may be missing.
   */
  datatype Conversation = Conversation(id: string, status: ConversationStatus, leadEmail: Option<string>)
}
