/** The statuses of a task, as the protocol names them. */
module Tasks {
  datatype Status = Draft | Ready | Running | Verify | Blocked | Review | Failed | Done
}
