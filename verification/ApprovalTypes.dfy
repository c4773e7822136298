/** The records the approval modules pass around. */
module ApprovalTypes {
  /** What made a decision. */
  datatype Decider = Reviewer | Classifier | Gate

  datatype Decision = Decision(approved: bool, decidedBy: Decider, reason: string)
}
