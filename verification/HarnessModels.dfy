/** Records shared by the harness parts. */
module HarnessModels {
  datatype Status =
    | Created | Starting | Running | WaitingForReply | Verifying
    | Completed | Failed | BlockedExternal | Cancelled | Stalled | UsageLimited
}
