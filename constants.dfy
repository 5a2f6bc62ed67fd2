/** The vocabulary of the marketplace: the status enumerations, whose JavaScript
    values are the strings given by `Name()`, the validation bounds and the feature
    flags. */
module Constants {
  import opened Wrappers

  datatype TaskStatus = Draft | Open | Contracted | Completed | Cancelled {
    function Name(): string {
      match this
      case Draft => "draft"
      case Open => "open"
      case Contracted => "contracted"
      case Completed => "completed"
      case Cancelled => "cancelled"
    }
  }

  datatype ProposalStatus = Pending | Accepted | Rejected | Withdrawn {
    function Name(): string {
      match this
      case Pending => "pending"
      case Accepted => "accepted"
      case Rejected => "rejected"
      case Withdrawn => "withdrawn"
    }
  }

  datatype ContractStatus = Draft | Active | Delivered | Completed | Cancelled | Disputed {
    function Name(): string {
      match this
      case Draft => "draft"
      case Active => "active"
      case Delivered => "delivered"
      case Completed => "completed"
      case Cancelled => "cancelled"
      case Disputed => "disputed"
    }
  }

  datatype PaymentPhase = Unfunded | Escrowed | Released | Refunded {
    function Name(): string {
      match this
      case Unfunded => "unfunded"
      case Escrowed => "escrowed"
      case Released => "released"
      case Refunded => "refunded"
    }
  }

  /** The transaction types; there is no `fee` type. */
  datatype TransactionType = Deposit | Withdrawal | EscrowHold | Release | Refund {
    function Name(): string {
      match this
      case Deposit => "deposit"
      case Withdrawal => "withdrawal"
      case EscrowHold => "escrow_hold"
      case Release => "release"
      case Refund => "refund"
    }
  }

  datatype TransactionStatus = Pending | Completed | Failed | Cancelled {
    function Name(): string {
      match this
      case Pending => "pending"
      case Completed => "completed"
      case Failed => "failed"
      case Cancelled => "cancelled"
    }
  }

  datatype MessageType = Text | System | File | Image {
    function Name(): string {
      match this
      case Text => "text"
      case System => "system"
      case File => "file"
      case Image => "image"
    }
  }

  /** The string values of each enumeration. */
  const TaskStatusNames: set<string> := {"draft", "open", "contracted", "completed", "cancelled"}
  const ProposalStatusNames: set<string> := {"pending", "accepted", "rejected", "withdrawn"}
  const ContractStatusNames: set<string> := {"draft", "active", "delivered", "completed", "cancelled", "disputed"}
  const PaymentPhaseNames: set<string> := {"unfunded", "escrowed", "released", "refunded"}
  const TransactionTypeNames: set<string> := {"deposit", "withdrawal", "escrow_hold", "release", "refund"}

  /** Reading a contract status back from its string value. */
  function ParseContractStatus(s: string): (r: Option<ContractStatus>)
    ensures r.Some? ==> r.value.Name() == s
    ensures r.Some? <==> s in ContractStatusNames
  {
    if s == "draft" then Some(ContractStatus.Draft)
    else if s == "active" then Some(Active)
    else if s == "delivered" then Some(Delivered)
    else if s == "completed" then Some(ContractStatus.Completed)
    else if s == "cancelled" then Some(ContractStatus.Cancelled)
    else if s == "disputed" then Some(Disputed)
    else None
  }

  /** Reading a payment phase back from its string value. */
  function ParsePaymentPhase(s: string): (r: Option<PaymentPhase>)
    ensures r.Some? ==> r.value.Name() == s
    ensures r.Some? <==> s in PaymentPhaseNames
  {
    if s == "unfunded" then Some(Unfunded)
    else if s == "escrowed" then Some(Escrowed)
    else if s == "released" then Some(Released)
    else if s == "refunded" then Some(Refunded)
    else None
  }

  /** Reading a task status back from its string value. */
  function ParseTaskStatus(s: string): (r: Option<TaskStatus>)
    ensures r.Some? ==> r.value.Name() == s
    ensures r.Some? <==> s in TaskStatusNames
  {
    if s == "draft" then Some(TaskStatus.Draft)
    else if s == "open" then Some(Open)
    else if s == "contracted" then Some(Contracted)
    else if s == "completed" then Some(TaskStatus.Completed)
    else if s == "cancelled" then Some(TaskStatus.Cancelled)
    else None
  }

  /** Reading a proposal status back from its string value. */
  function ParseProposalStatus(s: string): (r: Option<ProposalStatus>)
    ensures r.Some? ==> r.value.Name() == s
    ensures r.Some? <==> s in ProposalStatusNames
  {
    if s == "pending" then Some(ProposalStatus.Pending)
    else if s == "accepted" then Some(Accepted)
    else if s == "rejected" then Some(Rejected)
    else if s == "withdrawn" then Some(Withdrawn)
    else None
  }

  /** Reading a transaction type back from its string value. */
  function ParseTransactionType(s: string): (r: Option<TransactionType>)
    ensures r.Some? ==> r.value.Name() == s
    ensures r.Some? <==> s in TransactionTypeNames
  {
    if s == "deposit" then Some(Deposit)
    else if s == "withdrawal" then Some(Withdrawal)
    else if s == "escrow_hold" then Some(EscrowHold)
    else if s == "release" then Some(Release)
    else if s == "refund" then Some(Refund)
    else None
  }

  /** Every status value is read back as itself, so the string values are distinct
      and comparing the strings (as the JavaScript code does) is comparing the
      statuses. */
  lemma ContractStatusNamesRoundTrip(c: ContractStatus)
    ensures ParseContractStatus(c.Name()) == Some(c)
    ensures c.Name() in ContractStatusNames
  {
  }

  lemma PaymentPhaseNamesRoundTrip(p: PaymentPhase)
    ensures ParsePaymentPhase(p.Name()) == Some(p)
    ensures p.Name() in PaymentPhaseNames
  {
  }

  lemma TaskStatusNamesRoundTrip(t: TaskStatus)
    ensures ParseTaskStatus(t.Name()) == Some(t)
    ensures t.Name() in TaskStatusNames
  {
  }

  lemma ProposalStatusNamesRoundTrip(p: ProposalStatus)
    ensures ParseProposalStatus(p.Name()) == Some(p)
    ensures p.Name() in ProposalStatusNames
  {
  }

  lemma TransactionTypeNamesRoundTrip(t: TransactionType)
    ensures ParseTransactionType(t.Name()) == Some(t)
    ensures t.Name() in TransactionTypeNames
    ensures t.Name() != "fee"
  {
  }

  /** Injectivity of the string values, the form the status comparisons use. */
  lemma NamesInjective()
    ensures forall a: ContractStatus, b: ContractStatus :: a.Name() == b.Name() ==> a == b
    ensures forall a: PaymentPhase, b: PaymentPhase :: a.Name() == b.Name() ==> a == b
    ensures forall a: TaskStatus, b: TaskStatus :: a.Name() == b.Name() ==> a == b
    ensures forall a: ProposalStatus, b: ProposalStatus :: a.Name() == b.Name() ==> a == b
  {
    forall a: ContractStatus, b: ContractStatus | a.Name() == b.Name() ensures a == b {
      ContractStatusNamesRoundTrip(a);
      ContractStatusNamesRoundTrip(b);
    }
    forall a: PaymentPhase, b: PaymentPhase | a.Name() == b.Name() ensures a == b {
      PaymentPhaseNamesRoundTrip(a);
      PaymentPhaseNamesRoundTrip(b);
    }
    forall a: TaskStatus, b: TaskStatus | a.Name() == b.Name() ensures a == b {
      TaskStatusNamesRoundTrip(a);
      TaskStatusNamesRoundTrip(b);
    }
    forall a: ProposalStatus, b: ProposalStatus | a.Name() == b.Name() ensures a == b {
      ProposalStatusNamesRoundTrip(a);
      ProposalStatusNamesRoundTrip(b);
    }
  }

  // Validation bounds.
  const MinTaskBudget: int := 1
  const MaxTaskBudget: int := 10000
  const MinTaskTitleLength: nat := 5
  const MaxTaskTitleLength: nat := 100
  const MinTaskDescriptionLength: nat := 20
  const MaxTaskDescriptionLength: nat := 2000
  const MinProposalBid: int := 1
  const MaxProposalBid: int := 10000
  const MinProposalHours: int := 1
  const MaxProposalHours: int := 1000
  const MaxSkillsPerUser: nat := 20
  const MaxSkillsPerTask: nat := 10
  const MaxFileSize: nat := 10 * 1024 * 1024
  const MaxMessageLength: nat := 5000
  const MaxReviewLength: nat := 1000

  /** Every validation range is non-empty. */
  lemma ValidationBoundsOrdered()
    ensures MinTaskBudget <= MaxTaskBudget
    ensures MinTaskTitleLength <= MaxTaskTitleLength
    ensures MinTaskDescriptionLength <= MaxTaskDescriptionLength
    ensures MinProposalBid <= MaxProposalBid
    ensures MinProposalHours <= MaxProposalHours
  {
  }

  datatype Features = Features(milestones: bool, marketPanel: bool, pricingRecommendation: bool, floorValidation: bool)

  const features: Features := Features(milestones := false, marketPanel := false, pricingRecommendation := true, floorValidation := true)

  /** Milestones and the market panel are switched off; the pricing recommendation
      and the floor validation are switched on. */
  lemma FeatureFlags()
    ensures !features.milestones && !features.marketPanel
    ensures features.pricingRecommendation && features.floorValidation
  {
  }
}
