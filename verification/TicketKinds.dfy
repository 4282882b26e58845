/** The two enumerations of a ticket row that the listing and the workflow share. */
module TicketKinds {

  datatype Status = Open | InProgress | Resolved | Closed

  datatype Priority = Low | Normal | High | Urgent
}
