/** The state-changing handlers of the mock API as functions from the tables
    before the request to the tables after it and the response. Each follows the
    handler statement by statement: when a handler throws part-way, the tables
    keep the changes made before the throw and the response is `Thrown`. */
module Marketplace {
  import opened Wrappers
  import opened Constants
  import opened Api
  import opened Data
  import Seqs
  import Text

  datatype Step<T> = Step(db: Tables, response: Result<T>)

  const MockToken := "mock-jwt-token"

  datatype AuthData = AuthData(user: User, token: string)
  datatype AcceptResult = AcceptResult(proposal: EnrichedProposal, contract: EnrichedContract)

  /** The request bodies. */
  datatype RegisterData = RegisterData(name: string, email: string, password: Option<string>)
  datatype TaskDraft = TaskDraft(title: string, description: string, budget: int, deadline: string,
                                 skills: seq<string>, category: string)
  /** The keys of a task update body; a present key replaces the task's field. */
  datatype TaskPatch = TaskPatch(title: Option<string>, description: Option<string>, budget: Option<int>,
                                 deadline: Option<string>, skills: Option<seq<string>>,
                                 category: Option<string>, status: Option<TaskStatus>)
  datatype ProposalDraft = ProposalDraft(taskId: int, estimatedHours: int, bidAmount: int, message: string)
  datatype ReviewDraft = ReviewDraft(contractId: int, revieweeId: int, rating: int, comment: string)

  // ---------- Invariant ----------

  /** Contract status and payment phase move in lockstep. */
  predicate JointValid(status: ContractStatus, phase: PaymentPhase) {
    match status
    case Draft => phase == PaymentPhase.Unfunded
    case Active => phase == PaymentPhase.Escrowed
    case Delivered => phase == PaymentPhase.Escrowed
    case Disputed => phase == PaymentPhase.Escrowed
    case Completed => phase == PaymentPhase.Released
    case Cancelled => phase == PaymentPhase.Unfunded || phase == PaymentPhase.Refunded
  }

  /** Every table holds the ids 1..n in order. */
  ghost predicate IdsAreIndices(db: Tables) {
    (forall j :: 0 <= j < |db.users| ==> db.users[j].id == j + 1) &&
    (forall j :: 0 <= j < |db.tasks| ==> db.tasks[j].id == j + 1) &&
    (forall j :: 0 <= j < |db.proposals| ==> db.proposals[j].id == j + 1) &&
    (forall j :: 0 <= j < |db.contracts| ==> db.contracts[j].id == j + 1) &&
    (forall j :: 0 <= j < |db.payments| ==> db.payments[j].id == j + 1) &&
    (forall j :: 0 <= j < |db.transactions| ==> db.transactions[j].id == j + 1) &&
    (forall j :: 0 <= j < |db.threads| ==> db.threads[j].id == j + 1) &&
    (forall j :: 0 <= j < |db.messages| ==> db.messages[j].id == j + 1) &&
    (forall j :: 0 <= j < |db.reviews| ==> db.reviews[j].id == j + 1)
  }

  /** Payment `j` belongs to contract `j`, for its agreed amount, in a phase that
      matches the contract's status. */
  ghost predicate PaymentsMatchContracts(db: Tables) {
    |db.payments| == |db.contracts| &&
    forall j :: 0 <= j < |db.payments| ==>
      db.payments[j].contractId == db.contracts[j].id &&
      db.payments[j].amount == db.contracts[j].agreedAmount &&
      JointValid(db.contracts[j].status, db.payments[j].phase)
  }

  ghost predicate EmailsDistinct(users: seq<User>) {
    forall i, j :: 0 <= i < j < |users| ==> users[i].email != users[j].email
  }

  predicate WalletBalanced(w: Wallet) {
    w.totalBalance == w.availableBalance + w.escrowedBalance
  }

  ghost predicate Consistent(db: Tables) {
    IdsAreIndices(db) && PaymentsMatchContracts(db) && EmailsDistinct(db.users) && WalletBalanced(db.wallet)
  }

  // ---------- Auth ----------

  /** POST /auth/register. */
  function RegisterStep(db: Tables, data: RegisterData, now: nat): (s: Step<AuthData>)
    ensures Seqs.Find(db.users, UserHasEmail(data.email)).Some? ==>
              s == Step(db, Err(ApiError(EmailExists, "Email already registered")))
    ensures Seqs.Find(db.users, UserHasEmail(data.email)).None? && data.name == [] ==> s == Step(db, Err(Thrown))
    ensures Seqs.Find(db.users, UserHasEmail(data.email)).None? && data.name != [] ==> s.response.Ok?
    ensures s.response.Ok? ==>
              s.db == db.(users := db.users + [s.response.value.user]) &&
              s.response.value.user ==
                User(|db.users| + 1, data.name, data.email, [Text.UpperChar(data.name[0])], data.password, now) &&
              s.response.value.token == MockToken
  {
    if Seqs.Find(db.users, UserHasEmail(data.email)).Some? then
      Step(db, Err(ApiError(EmailExists, "Email already registered")))
    else if data.name == [] then
      Step(db, Err(Thrown))
    else
      var user := User(|db.users| + 1, data.name, data.email, [Text.UpperChar(data.name[0])], data.password, now);
      Step(db.(users := db.users + [user]), Ok(AuthData(user, MockToken)))
  }

  /** POST /auth/login: the first user with that email; the password is not checked. */
  function Login(db: Tables, email: string): (r: Result<AuthData>)
    ensures r.Ok? <==> exists j :: 0 <= j < |db.users| && db.users[j].email == email
    ensures r.Ok? ==> r.value.user.email == email && r.value.user in db.users && r.value.token == MockToken
    ensures r.Ok? ==> r.value.user == Seqs.Find(db.users, UserHasEmail(email)).value
    ensures r.Err? ==> r.error == ApiError(InvalidCredentials, "Invalid email or password")
  {
    match Seqs.Find(db.users, UserHasEmail(email))
    case None => Err(ApiError(InvalidCredentials, "Invalid email or password"))
    case Some(u) => Ok(AuthData(u, MockToken))
  }

  // ---------- Tasks ----------

  /** POST /tasks: a draft task of the current user with the next id. */
  function CreateTaskStep(db: Tables, draft: TaskDraft, now: nat): (s: Step<EnrichedTask>)
    ensures s.response.Ok?
    ensures s.db == db.(tasks := db.tasks + [s.response.value.task])
    ensures s.response.value.task ==
              Task(|db.tasks| + 1, draft.title, draft.description, draft.budget, draft.deadline, draft.skills,
                   draft.category, TaskStatus.Draft, CurrentUserId, 0, 0, now, now)
    ensures s.response.value.requester == UserById(db.users, CurrentUserId)
  {
    var t := Task(|db.tasks| + 1, draft.title, draft.description, draft.budget, draft.deadline, draft.skills,
                  draft.category, TaskStatus.Draft, CurrentUserId, 0, 0, now, now);
    var db' := db.(tasks := db.tasks + [t]);
    Step(db', Ok(EnrichTask(db', t)))
  }

  /** `{ ...task, ...patch, updatedAt }`. */
  function ApplyPatch(t: Task, patch: TaskPatch, now: nat): (r: Task)
    ensures r.id == t.id && r.requesterId == t.requesterId && r.createdAt == t.createdAt
    ensures r.proposalCount == t.proposalCount && r.viewCount == t.viewCount && r.updatedAt == now
    ensures r.title == patch.title.GetOr(t.title) && r.description == patch.description.GetOr(t.description)
    ensures r.budget == patch.budget.GetOr(t.budget) && r.deadline == patch.deadline.GetOr(t.deadline)
    ensures r.skills == patch.skills.GetOr(t.skills) && r.category == patch.category.GetOr(t.category)
    ensures r.status == patch.status.GetOr(t.status)
  {
    t.(title := patch.title.GetOr(t.title), description := patch.description.GetOr(t.description),
       budget := patch.budget.GetOr(t.budget), deadline := patch.deadline.GetOr(t.deadline),
       skills := patch.skills.GetOr(t.skills), category := patch.category.GetOr(t.category),
       status := patch.status.GetOr(t.status), updatedAt := now)
  }

  /** PUT /tasks/:id. */
  function UpdateTaskStep(db: Tables, id: int, patch: TaskPatch, now: nat): (s: Step<EnrichedTask>)
    ensures s.response.Err? <==> forall j :: 0 <= j < |db.tasks| ==> db.tasks[j].id != id
    ensures s.response.Err? ==> s == Step(db, Err(ApiError(NotFound, "Task not found")))
    ensures s.response.Ok? ==>
              var i := Seqs.IndexWhere(db.tasks, TaskHasId(id)).value;
              s.db == db.(tasks := db.tasks[i := ApplyPatch(db.tasks[i], patch, now)]) &&
              s.response.value.task == ApplyPatch(db.tasks[i], patch, now) &&
              s.response.value.requester == UserById(db.users, db.tasks[i].requesterId)
  {
    match Seqs.IndexWhere(db.tasks, TaskHasId(id))
    case None => Step(db, Err(ApiError(NotFound, "Task not found")))
    case Some(i) =>
      var t := ApplyPatch(db.tasks[i], patch, now);
      var db' := db.(tasks := db.tasks[i := t]);
      Step(db', Ok(EnrichTask(db', t)))
  }

  // ---------- Proposals ----------

  /** The duplicate test of POST /proposals: a pending proposal of the current
      user on the same task. */
  function PendingOwnProposal(taskId: int): Proposal -> bool {
    (p: Proposal) => p.taskId == taskId && p.providerId == CurrentUserId && p.status == ProposalStatus.Pending
  }

  /** `task.proposalCount++` on the first task with that id, when there is one. */
  function CountProposal(tasks: seq<Task>, taskId: int): (r: seq<Task>)
    ensures |r| == |tasks|
    ensures Seqs.IndexWhere(tasks, TaskHasId(taskId)).None? ==> r == tasks
    ensures Seqs.IndexWhere(tasks, TaskHasId(taskId)).Some? ==>
              var i := Seqs.IndexWhere(tasks, TaskHasId(taskId)).value;
              r == tasks[i := tasks[i].(proposalCount := tasks[i].proposalCount + 1)]
  {
    match Seqs.IndexWhere(tasks, TaskHasId(taskId))
    case None => tasks
    case Some(i) => tasks[i := tasks[i].(proposalCount := tasks[i].proposalCount + 1)]
  }

  /** POST /proposals. */
  function SubmitProposalStep(db: Tables, data: ProposalDraft, now: nat): (s: Step<EnrichedProposal>)
    ensures Seqs.Find(db.proposals, PendingOwnProposal(data.taskId)).Some? ==>
              s == Step(db, Err(ApiError(AlreadySubmitted, "You have already submitted a proposal for this task")))
    ensures Seqs.Find(db.proposals, PendingOwnProposal(data.taskId)).None? ==>
              s.db == db.(proposals := db.proposals + [NewProposal(db, data, now)],
                          tasks := CountProposal(db.tasks, data.taskId)) &&
              (s.response.Ok? <==> TaskById(db.tasks, data.taskId).Some?) &&
              (s.response.Ok? ==> EnrichProposal(s.db, NewProposal(db, data, now)) == Some(s.response.value)) &&
              (TaskById(db.tasks, data.taskId).None? ==> s.response == Err(Thrown))
  {
    if Seqs.Find(db.proposals, PendingOwnProposal(data.taskId)).Some? then
      Step(db, Err(ApiError(AlreadySubmitted, "You have already submitted a proposal for this task")))
    else
      var p := NewProposal(db, data, now);
      var db' := db.(proposals := db.proposals + [p], tasks := CountProposal(db.tasks, data.taskId));
      assert TaskById(db'.tasks, data.taskId).Some? <==> TaskById(db.tasks, data.taskId).Some? by {
        CountProposalKeepsIds(db.tasks, data.taskId);
      }
      match EnrichProposal(db', p)
      case None => Step(db', Err(Thrown))
      case Some(ep) => Step(db', Ok(ep))
  }

  /** The record POST /proposals appends. */
  function NewProposal(db: Tables, data: ProposalDraft, now: nat): (p: Proposal)
    ensures p.id == |db.proposals| + 1 && p.taskId == data.taskId && p.providerId == CurrentUserId
    ensures p.status == ProposalStatus.Pending && p.respondedAt.None?
    ensures p.estimatedHours == data.estimatedHours && p.bidAmount == data.bidAmount && p.message == data.message
  {
    Proposal(|db.proposals| + 1, data.taskId, CurrentUserId, data.estimatedHours, data.bidAmount, data.message,
             ProposalStatus.Pending, now, None, now, now)
  }

  lemma CountProposalKeepsIds(tasks: seq<Task>, taskId: int)
    ensures forall j :: 0 <= j < |tasks| ==> CountProposal(tasks, taskId)[j].id == tasks[j].id
  {
  }

  /** The contract POST /proposals/:id/accept creates from a proposal and its task. */
  function NewContract(db: Tables, p: Proposal, t: Task, now: nat): (c: Contract)
    ensures c.id == |db.contracts| + 1 && c.taskId == p.taskId && c.proposalId == p.id
    ensures c.requesterId == t.requesterId && c.providerId == p.providerId
    ensures c.agreedMinutes == p.estimatedHours * 60 && c.agreedAmount == p.bidAmount
    ensures c.status == ContractStatus.Draft && c.deadline == t.deadline
  {
    Contract(|db.contracts| + 1, p.taskId, p.id, t.requesterId, p.providerId, p.estimatedHours * 60, p.bidAmount,
             ContractStatus.Draft, t.deadline, now, now, None)
  }

  /** The payment created beside a new contract. */
  function NewPayment(db: Tables, c: Contract, now: nat): (p: ContractPayment)
    ensures p.id == |db.payments| + 1 && p.contractId == c.id && p.amount == c.agreedAmount
    ensures p.phase == PaymentPhase.Unfunded && p.escrowedAt.None? && p.releasedAt.None?
  {
    ContractPayment(|db.payments| + 1, c.id, c.agreedAmount, PaymentPhase.Unfunded, None, None, now, now)
  }

  /** The tables after the proposal at `i` is marked accepted. */
  function MarkAccepted(db: Tables, i: nat, now: nat): (r: Tables)
    requires i < |db.proposals|
    ensures r == db.(proposals := db.proposals[i := db.proposals[i].(status := ProposalStatus.Accepted,
                                                                      respondedAt := Some(now), updatedAt := now)])
  {
    db.(proposals := db.proposals[i := db.proposals[i].(status := ProposalStatus.Accepted,
                                                         respondedAt := Some(now), updatedAt := now)])
  }

  /** The tables after the task at `ti` is contracted and the contract and its
      payment are appended. */
  function CreateContract(db: Tables, p: Proposal, ti: nat, now: nat): (r: Tables)
    requires ti < |db.tasks|
    ensures r.tasks == db.tasks[ti := db.tasks[ti].(status := TaskStatus.Contracted, updatedAt := now)]
    ensures r.contracts == db.contracts + [NewContract(db, p, db.tasks[ti], now)]
    ensures r.payments == db.payments + [NewPayment(db, NewContract(db, p, db.tasks[ti], now), now)]
    ensures r == db.(tasks := r.tasks, contracts := r.contracts, payments := r.payments)
  {
    var t := db.tasks[ti];
    var c := NewContract(db, p, t, now);
    db.(tasks := db.tasks[ti := t.(status := TaskStatus.Contracted, updatedAt := now)],
        contracts := db.contracts + [c], payments := db.payments + [NewPayment(db, c, now)])
  }

  /** POST /proposals/:id/accept. The proposal's status is not checked. When the
      proposal's task is missing, the handler throws after marking the proposal. */
  function AcceptProposalStep(db: Tables, id: int, now: nat): (s: Step<AcceptResult>)
    ensures Seqs.IndexWhere(db.proposals, ProposalHasId(id)).None? ==>
              s == Step(db, Err(ApiError(NotFound, "Proposal not found")))
    ensures Seqs.IndexWhere(db.proposals, ProposalHasId(id)).Some? ==>
              var i := Seqs.IndexWhere(db.proposals, ProposalHasId(id)).value;
              var db1 := MarkAccepted(db, i, now);
              match Seqs.IndexWhere(db.tasks, TaskHasId(db.proposals[i].taskId))
              case None => s == Step(db1, Err(Thrown))
              case Some(ti) =>
                var db2 := CreateContract(db1, db1.proposals[i], ti, now);
                s == Step(db2, AcceptResponse(db2, db1.proposals[i]))
  {
    match Seqs.IndexWhere(db.proposals, ProposalHasId(id))
    case None => Step(db, Err(ApiError(NotFound, "Proposal not found")))
    case Some(i) =>
      var db1 := MarkAccepted(db, i, now);
      var p := db1.proposals[i];
      match Seqs.IndexWhere(db.tasks, TaskHasId(p.taskId))
      case None => Step(db1, Err(Thrown))
      case Some(ti) =>
        var db2 := CreateContract(db1, p, ti, now);
        Step(db2, AcceptResponse(db2, p))
  }

  /** `{ proposal: enrichProposal(proposal), contract: enrichContract(newContract) }`,
      where the new contract is the last one; either enrichment may throw. */
  function AcceptResponse(db: Tables, p: Proposal): (r: Result<AcceptResult>)
    requires |db.contracts| > 0
    ensures r.Ok? <==> EnrichProposal(db, p).Some? && EnrichContract(db, db.contracts[|db.contracts| - 1]).Some?
    ensures r.Err? ==> r.error == Thrown
    ensures r.Ok? ==> r.value.proposal == EnrichProposal(db, p).value &&
                      r.value.contract == EnrichContract(db, db.contracts[|db.contracts| - 1]).value
  {
    var c := db.contracts[|db.contracts| - 1];
    match (EnrichProposal(db, p), EnrichContract(db, c))
    case (Some(ep), Some(ec)) => Ok(AcceptResult(ep, ec))
    case _ => Err(Thrown)
  }

  // ---------- Payments ----------

  /** The payment at `pi` moved to escrow, and its contract, when there is one, activated. */
  function MarkEscrowed(db: Tables, pi: nat, contractId: int, now: nat): (r: Tables)
    requires pi < |db.payments|
    ensures r.payments == db.payments[pi := db.payments[pi].(phase := PaymentPhase.Escrowed,
                                                             escrowedAt := Some(now), updatedAt := now)]
    ensures Seqs.IndexWhere(db.contracts, ContractHasId(contractId)).None? ==> r.contracts == db.contracts
    ensures Seqs.IndexWhere(db.contracts, ContractHasId(contractId)).Some? ==>
              var ci := Seqs.IndexWhere(db.contracts, ContractHasId(contractId)).value;
              r.contracts == db.contracts[ci := db.contracts[ci].(status := ContractStatus.Active, updatedAt := now)]
    ensures r == db.(payments := r.payments, contracts := r.contracts)
  {
    var payments := db.payments[pi := db.payments[pi].(phase := PaymentPhase.Escrowed,
                                                       escrowedAt := Some(now), updatedAt := now)];
    match Seqs.IndexWhere(db.contracts, ContractHasId(contractId))
    case None => db.(payments := payments)
    case Some(ci) =>
      db.(payments := payments,
          contracts := db.contracts[ci := db.contracts[ci].(status := ContractStatus.Active, updatedAt := now)])
  }

  /** The guards shared by both versions of escrow. */
  function EscrowGuard(db: Tables, contractId: int): (r: Option<ApiError>)
    ensures PaymentFor(db.payments, contractId).None? ==> r == Some(ApiError(NotFound, "Payment not found"))
    ensures PaymentFor(db.payments, contractId).Some? ==>
              (r.None? <==> PaymentFor(db.payments, contractId).value.phase == PaymentPhase.Unfunded)
    ensures r.Some? && PaymentFor(db.payments, contractId).Some? ==>
              r == Some(ApiError(InvalidState, "Payment already escrowed"))
  {
    match PaymentFor(db.payments, contractId)
    case None => Some(ApiError(NotFound, "Payment not found"))
    case Some(p) => if p.phase != PaymentPhase.Unfunded then Some(ApiError(InvalidState, "Payment already escrowed"))
                    else None
  }

  /** POST /contracts/:contractId/payment/escrow as written: after the guards the
      handler moves the payment to escrow and activates the contract, then throws
      while building the transaction's description (`contract.task` is not a
      field of a stored contract), so no transaction is recorded and the wallet
      is not touched. */
  function EscrowAsWrittenStep(db: Tables, contractId: int, now: nat): (s: Step<ContractPayment>)
    ensures EscrowGuard(db, contractId).Some? ==> s == Step(db, Err(EscrowGuard(db, contractId).value))
    ensures EscrowGuard(db, contractId).None? ==>
              var pi := Seqs.IndexWhere(db.payments, PaymentOfContract(contractId)).value;
              s == Step(MarkEscrowed(db, pi, contractId, now), Err(Thrown))
  {
    match EscrowGuard(db, contractId)
    case Some(e) => Step(db, Err(e))
    case None =>
      var pi := Seqs.IndexWhere(db.payments, PaymentOfContract(contractId)).value;
      Step(MarkEscrowed(db, pi, contractId, now), Err(Thrown))
  }

  /** POST /contracts/:contractId/payment/escrow with the description read from
      the contract's task instead: the handler records an `escrow_hold` of the
      payment amount and moves it from the available to the escrowed balance.
      There is no funds check. A missing contract still throws. */
  function EscrowStep(db: Tables, contractId: int, now: nat): (s: Step<ContractPayment>)
    ensures EscrowGuard(db, contractId).Some? ==> s == Step(db, Err(EscrowGuard(db, contractId).value))
    ensures EscrowGuard(db, contractId).None? ==>
              var pi := Seqs.IndexWhere(db.payments, PaymentOfContract(contractId)).value;
              var db1 := MarkEscrowed(db, pi, contractId, now);
              match Seqs.IndexWhere(db.contracts, ContractHasId(contractId))
              case None => s == Step(db1, Err(Thrown))
              case Some(ci) =>
                var amount := db.payments[pi].amount;
                s.db == db1.(transactions := db.transactions + [HoldTransaction(db, amount, db.contracts[ci].id, now)],
                             wallet := Hold(db.wallet, amount)) &&
                s.response == Ok(db1.payments[pi])
  {
    match EscrowGuard(db, contractId)
    case Some(e) => Step(db, Err(e))
    case None =>
      var pi := Seqs.IndexWhere(db.payments, PaymentOfContract(contractId)).value;
      var db1 := MarkEscrowed(db, pi, contractId, now);
      match Seqs.IndexWhere(db.contracts, ContractHasId(contractId))
      case None => Step(db1, Err(Thrown))
      case Some(ci) =>
        var amount := db.payments[pi].amount;
        var tx := HoldTransaction(db, amount, db.contracts[ci].id, now);
        Step(db1.(transactions := db.transactions + [tx], wallet := Hold(db.wallet, amount)), Ok(db1.payments[pi]))
  }

  /** The transaction escrow records. */
  function HoldTransaction(db: Tables, amount: int, contractId: int, now: nat): (t: Transaction)
    ensures t.id == |db.transactions| + 1 && t.userId == CurrentUserId && t.kind == TransactionType.EscrowHold
    ensures t.amount == -amount && t.balanceAfter == db.wallet.availableBalance - amount
    ensures t.status == TransactionStatus.Completed && t.contractId == Some(contractId)
  {
    Transaction(|db.transactions| + 1, CurrentUserId, TransactionType.EscrowHold, -amount,
                db.wallet.availableBalance - amount, TransactionStatus.Completed, Some(contractId), now)
  }

  /** `availableBalance -= amount; escrowedBalance += amount`. */
  function Hold(w: Wallet, amount: int): (r: Wallet)
    ensures r.availableBalance == w.availableBalance - amount
    ensures r.escrowedBalance == w.escrowedBalance + amount
    ensures r.totalBalance == w.totalBalance && r.userId == w.userId
    ensures r.availableBalance + r.escrowedBalance == w.availableBalance + w.escrowedBalance
  {
    w.(availableBalance := w.availableBalance - amount, escrowedBalance := w.escrowedBalance + amount)
  }

  /** The payment at `pi` released, and its contract, when there is one, completed. */
  function MarkReleased(db: Tables, pi: nat, contractId: int, now: nat): (r: Tables)
    requires pi < |db.payments|
    ensures r.payments == db.payments[pi := db.payments[pi].(phase := PaymentPhase.Released,
                                                             releasedAt := Some(now), updatedAt := now)]
    ensures Seqs.IndexWhere(db.contracts, ContractHasId(contractId)).None? ==> r.contracts == db.contracts
    ensures Seqs.IndexWhere(db.contracts, ContractHasId(contractId)).Some? ==>
              var ci := Seqs.IndexWhere(db.contracts, ContractHasId(contractId)).value;
              r.contracts == db.contracts[ci := db.contracts[ci].(status := ContractStatus.Completed,
                                                                 completedAt := Some(now), updatedAt := now)]
    ensures r == db.(payments := r.payments, contracts := r.contracts)
  {
    var payments := db.payments[pi := db.payments[pi].(phase := PaymentPhase.Released,
                                                       releasedAt := Some(now), updatedAt := now)];
    match Seqs.IndexWhere(db.contracts, ContractHasId(contractId))
    case None => db.(payments := payments)
    case Some(ci) =>
      db.(payments := payments,
          contracts := db.contracts[ci := db.contracts[ci].(status := ContractStatus.Completed,
                                                           completedAt := Some(now), updatedAt := now)])
  }

  /** POST /contracts/:contractId/payment/release. The contract's status is not
      checked, and neither the wallet nor the transaction log changes. */
  function ReleaseStep(db: Tables, contractId: int, now: nat): (s: Step<ContractPayment>)
    ensures PaymentFor(db.payments, contractId).None? ==>
              s == Step(db, Err(ApiError(NotFound, "Payment not found")))
    ensures PaymentFor(db.payments, contractId).Some? &&
            PaymentFor(db.payments, contractId).value.phase != PaymentPhase.Escrowed ==>
              s == Step(db, Err(ApiError(InvalidState, "Payment not in escrow")))
    ensures PaymentFor(db.payments, contractId).Some? &&
            PaymentFor(db.payments, contractId).value.phase == PaymentPhase.Escrowed ==>
              var pi := Seqs.IndexWhere(db.payments, PaymentOfContract(contractId)).value;
              var db1 := MarkReleased(db, pi, contractId, now);
              s == Step(db1, Ok(db1.payments[pi]))
  {
    match Seqs.IndexWhere(db.payments, PaymentOfContract(contractId))
    case None => Step(db, Err(ApiError(NotFound, "Payment not found")))
    case Some(pi) =>
      if db.payments[pi].phase != PaymentPhase.Escrowed then
        Step(db, Err(ApiError(InvalidState, "Payment not in escrow")))
      else
        var db1 := MarkReleased(db, pi, contractId, now);
        Step(db1, Ok(db1.payments[pi]))
  }

  // ---------- Messages and reviews ----------

  /** POST /messages/threads/:id/messages. The thread need not exist. */
  function SendMessageStep(db: Tables, threadId: int, content: string, kind: Option<MessageType>, now: nat)
    : (s: Step<EnrichedMessage>)
    ensures s.response.Ok?
    ensures s.response.value.message ==
              Message(|db.messages| + 1, threadId, CurrentUserId, kind.GetOr(MessageType.Text), content, false, now)
    ensures s.db.messages == db.messages + [s.response.value.message]
    ensures Seqs.IndexWhere(db.threads, ThreadHasId(threadId)).None? ==> s.db.threads == db.threads
    ensures Seqs.IndexWhere(db.threads, ThreadHasId(threadId)).Some? ==>
              var ti := Seqs.IndexWhere(db.threads, ThreadHasId(threadId)).value;
              s.db.threads == db.threads[ti := db.threads[ti].(lastMessageAt := now, updatedAt := now)]
    ensures s.db == db.(messages := s.db.messages, threads := s.db.threads)
    ensures s.response.value == EnrichMessage(s.db, s.response.value.message)
  {
    var m := Message(|db.messages| + 1, threadId, CurrentUserId, kind.GetOr(MessageType.Text), content, false, now);
    var threads :=
      match Seqs.IndexWhere(db.threads, ThreadHasId(threadId))
      case None => db.threads
      case Some(ti) => db.threads[ti := db.threads[ti].(lastMessageAt := now, updatedAt := now)];
    var db' := db.(messages := db.messages + [m], threads := threads);
    Step(db', Ok(EnrichMessage(db', m)))
  }

  /** The duplicate test of POST /reviews. */
  function OwnReviewOf(contractId: int): Review -> bool {
    (r: Review) => r.contractId == contractId && r.reviewerId == CurrentUserId
  }

  /** POST /reviews. */
  function CreateReviewStep(db: Tables, data: ReviewDraft, now: nat): (s: Step<EnrichedReview>)
    ensures Seqs.Find(db.reviews, OwnReviewOf(data.contractId)).Some? ==>
              s == Step(db, Err(ApiError(AlreadyReviewed, "You have already reviewed this contract")))
    ensures Seqs.Find(db.reviews, OwnReviewOf(data.contractId)).None? ==>
              s.response.Ok? &&
              s.response.value.review ==
                Review(|db.reviews| + 1, data.contractId, CurrentUserId, data.revieweeId, data.rating, data.comment, now) &&
              s.db == db.(reviews := db.reviews + [s.response.value.review]) &&
              s.response.value == EnrichReview(s.db, s.response.value.review)
  {
    if Seqs.Find(db.reviews, OwnReviewOf(data.contractId)).Some? then
      Step(db, Err(ApiError(AlreadyReviewed, "You have already reviewed this contract")))
    else
      var r := Review(|db.reviews| + 1, data.contractId, CurrentUserId, data.revieweeId, data.rating, data.comment, now);
      var db' := db.(reviews := db.reviews + [r]);
      Step(db', Ok(EnrichReview(db', r)))
  }

  // ---------- Lookups in a consistent store ----------

  /** With ids 1..n, the record with id `id` sits at `id - 1`, and `length + 1` is a fresh id. */
  lemma UserIndex(db: Tables, id: int)
    requires IdsAreIndices(db)
    ensures UserById(db.users, id) == if 1 <= id <= |db.users| then Some(db.users[id - 1]) else None
  {
    IndexOfSequentialId(db.users, (u: User) => u.id, UserHasId(id), id);
  }

  lemma TaskIndex(db: Tables, id: int)
    requires IdsAreIndices(db)
    ensures Seqs.IndexWhere(db.tasks, TaskHasId(id)) == if 1 <= id <= |db.tasks| then Some(id - 1) else None
    ensures TaskById(db.tasks, id) == if 1 <= id <= |db.tasks| then Some(db.tasks[id - 1]) else None
  {
    IndexOfSequentialId(db.tasks, (t: Task) => t.id, TaskHasId(id), id);
  }

  lemma ProposalIndex(db: Tables, id: int)
    requires IdsAreIndices(db)
    ensures Seqs.IndexWhere(db.proposals, ProposalHasId(id)) ==
              if 1 <= id <= |db.proposals| then Some(id - 1) else None
    ensures ProposalById(db.proposals, id) == if 1 <= id <= |db.proposals| then Some(db.proposals[id - 1]) else None
  {
    IndexOfSequentialId(db.proposals, (p: Proposal) => p.id, ProposalHasId(id), id);
  }

  lemma ContractIndex(db: Tables, id: int)
    requires IdsAreIndices(db)
    ensures Seqs.IndexWhere(db.contracts, ContractHasId(id)) ==
              if 1 <= id <= |db.contracts| then Some(id - 1) else None
    ensures ContractById(db.contracts, id) == if 1 <= id <= |db.contracts| then Some(db.contracts[id - 1]) else None
  {
    IndexOfSequentialId(db.contracts, (c: Contract) => c.id, ContractHasId(id), id);
  }

  /** The payment of contract `id` is the one at the contract's own position. */
  lemma PaymentIndex(db: Tables, id: int)
    requires IdsAreIndices(db) && PaymentsMatchContracts(db)
    ensures Seqs.IndexWhere(db.payments, PaymentOfContract(id)) ==
              if 1 <= id <= |db.payments| then Some(id - 1) else None
    ensures PaymentFor(db.payments, id) == if 1 <= id <= |db.payments| then Some(db.payments[id - 1]) else None
  {
    IndexOfSequentialId(db.payments, (p: ContractPayment) => p.contractId, PaymentOfContract(id), id);
  }

  lemma ThreadIndex(db: Tables, id: int)
    requires IdsAreIndices(db)
    ensures Seqs.IndexWhere(db.threads, ThreadHasId(id)) == if 1 <= id <= |db.threads| then Some(id - 1) else None
  {
    IndexOfSequentialId(db.threads, (t: MessageThread) => t.id, ThreadHasId(id), id);
  }

  /** The seed tables are consistent. */
  lemma SeedConsistent()
    ensures Consistent(Seed)
  {
    SeedIdsSequential();
    assert EmailsDistinct(SeedUsers) by {
      forall i, j | 0 <= i < j < |SeedUsers| ensures SeedUsers[i].email != SeedUsers[j].email {
        assert SeedUsers[i].email[0] != SeedUsers[j].email[0];
      }
    }
  }

  // ---------- The invariant is kept by every handler ----------

  lemma RegisterKeepsConsistent(db: Tables, data: RegisterData, now: nat)
    requires Consistent(db)
    ensures Consistent(RegisterStep(db, data, now).db)
  {
    var s := RegisterStep(db, data, now);
    if s.response.Ok? {
      var u := s.response.value.user;
      assert forall j :: 0 <= j < |db.users| ==> db.users[j].email != u.email;
      assert EmailsDistinct(s.db.users) by {
        forall i, j | 0 <= i < j < |s.db.users| ensures s.db.users[i].email != s.db.users[j].email {
          if j == |db.users| { assert s.db.users[i] == db.users[i]; }
        }
      }
    }
  }

  lemma CreateTaskKeepsConsistent(db: Tables, draft: TaskDraft, now: nat)
    requires Consistent(db)
    ensures Consistent(CreateTaskStep(db, draft, now).db)
  {
  }

  lemma UpdateTaskKeepsConsistent(db: Tables, id: int, patch: TaskPatch, now: nat)
    requires Consistent(db)
    ensures Consistent(UpdateTaskStep(db, id, patch, now).db)
  {
  }

  lemma SubmitProposalKeepsConsistent(db: Tables, data: ProposalDraft, now: nat)
    requires Consistent(db)
    ensures Consistent(SubmitProposalStep(db, data, now).db)
  {
    var s := SubmitProposalStep(db, data, now);
    if Seqs.Find(db.proposals, PendingOwnProposal(data.taskId)).None? {
      CountProposalKeepsIds(db.tasks, data.taskId);
      CountedKeepsConsistent(db, data.taskId, NewProposal(db, data, now));
    }
  }

  lemma CountedKeepsConsistent(db: Tables, taskId: int, p: Proposal)
    requires Consistent(db) && p.id == |db.proposals| + 1
    requires forall j :: 0 <= j < |db.tasks| ==> CountProposal(db.tasks, taskId)[j].id == db.tasks[j].id
    ensures Consistent(db.(proposals := db.proposals + [p], tasks := CountProposal(db.tasks, taskId)))
  {
    var db' := db.(proposals := db.proposals + [p], tasks := CountProposal(db.tasks, taskId));
    assert forall j :: 0 <= j < |db'.proposals| ==> db'.proposals[j].id == j + 1;
    assert forall j :: 0 <= j < |db'.tasks| ==> db'.tasks[j].id == j + 1;
  }

  /** Replacing contract `k` and payment `k` together keeps the store consistent when
      the ids and amounts stay and the new pair is a valid one. */
  lemma ReplacePairKeepsConsistent(db: Tables, k: nat, c: Contract, p: ContractPayment)
    requires Consistent(db) && k < |db.contracts|
    requires c.id == db.contracts[k].id && c.agreedAmount == db.contracts[k].agreedAmount
    requires p.id == db.payments[k].id && p.contractId == db.payments[k].contractId
    requires p.amount == db.payments[k].amount && JointValid(c.status, p.phase)
    ensures Consistent(db.(contracts := db.contracts[k := c], payments := db.payments[k := p]))
  {
    var db' := db.(contracts := db.contracts[k := c], payments := db.payments[k := p]);
    assert PaymentsMatchContracts(db') by {
      forall j | 0 <= j < |db'.payments|
        ensures db'.payments[j].contractId == db'.contracts[j].id
        ensures db'.payments[j].amount == db'.contracts[j].agreedAmount
        ensures JointValid(db'.contracts[j].status, db'.payments[j].phase)
      {
        if j != k {
          assert db'.payments[j] == db.payments[j] && db'.contracts[j] == db.contracts[j];
        }
      }
    }
  }

  /** Appending a contract and its payment, with the next ids, keeps the store consistent. */
  lemma AppendPairKeepsConsistent(db: Tables, c: Contract, p: ContractPayment)
    requires Consistent(db)
    requires c.id == |db.contracts| + 1 && p.id == |db.payments| + 1 && p.contractId == c.id
    requires p.amount == c.agreedAmount && JointValid(c.status, p.phase)
    ensures Consistent(db.(contracts := db.contracts + [c], payments := db.payments + [p]))
  {
    var db' := db.(contracts := db.contracts + [c], payments := db.payments + [p]);
    assert PaymentsMatchContracts(db') by {
      forall j | 0 <= j < |db'.payments|
        ensures db'.payments[j].contractId == db'.contracts[j].id
        ensures db'.payments[j].amount == db'.contracts[j].agreedAmount
        ensures JointValid(db'.contracts[j].status, db'.payments[j].phase)
      {
        if j < |db.payments| {
          assert db'.payments[j] == db.payments[j] && db'.contracts[j] == db.contracts[j];
        }
      }
    }
  }

  /** Replacing one proposal, or one task, by a record with the same id keeps the store consistent. */
  lemma ReplaceProposalKeepsConsistent(db: Tables, i: nat, p: Proposal)
    requires Consistent(db) && i < |db.proposals| && p.id == db.proposals[i].id
    ensures Consistent(db.(proposals := db.proposals[i := p]))
  {
    var db' := db.(proposals := db.proposals[i := p]);
    assert forall j :: 0 <= j < |db'.proposals| ==> db'.proposals[j].id == j + 1;
  }

  lemma ReplaceTaskKeepsConsistent(db: Tables, i: nat, t: Task)
    requires Consistent(db) && i < |db.tasks| && t.id == db.tasks[i].id
    ensures Consistent(db.(tasks := db.tasks[i := t]))
  {
    var db' := db.(tasks := db.tasks[i := t]);
    assert forall j :: 0 <= j < |db'.tasks| ==> db'.tasks[j].id == j + 1;
  }

  lemma AcceptProposalKeepsConsistent(db: Tables, id: int, now: nat)
    requires Consistent(db)
    ensures Consistent(AcceptProposalStep(db, id, now).db)
  {
    match Seqs.IndexWhere(db.proposals, ProposalHasId(id))
    case None =>
    case Some(i) =>
      var db1 := MarkAccepted(db, i, now);
      var p := db1.proposals[i];
      ReplaceProposalKeepsConsistent(db, i, p);
      match Seqs.IndexWhere(db.tasks, TaskHasId(db.proposals[i].taskId))
      case None =>
      case Some(ti) =>
        var t := db1.tasks[ti];
        var db1' := db1.(tasks := db1.tasks[ti := t.(status := TaskStatus.Contracted, updatedAt := now)]);
        ReplaceTaskKeepsConsistent(db1, ti, t.(status := TaskStatus.Contracted, updatedAt := now));
        var c := NewContract(db1, p, t, now);
        AppendPairKeepsConsistent(db1', c, NewPayment(db1, c, now));
        assert CreateContract(db1, p, ti, now) ==
               db1'.(contracts := db1'.contracts + [c], payments := db1'.payments + [NewPayment(db1, c, now)]);
  }

  /** In a consistent store the escrow guard passes exactly for an unfunded payment
      of an existing contract, and then that contract is draft or cancelled. */
  lemma EscrowGuardInConsistent(db: Tables, contractId: int)
    requires Consistent(db)
    ensures EscrowGuard(db, contractId).None? <==>
              1 <= contractId <= |db.contracts| && db.payments[contractId - 1].phase == PaymentPhase.Unfunded
    ensures EscrowGuard(db, contractId).None? ==>
              Seqs.IndexWhere(db.payments, PaymentOfContract(contractId)) == Some(contractId - 1) &&
              Seqs.IndexWhere(db.contracts, ContractHasId(contractId)) == Some(contractId - 1)
  {
    PaymentIndex(db, contractId);
    ContractIndex(db, contractId);
  }

  lemma EscrowKeepsConsistent(db: Tables, contractId: int, now: nat)
    requires Consistent(db)
    ensures Consistent(EscrowStep(db, contractId, now).db)
  {
    EscrowGuardInConsistent(db, contractId);
    if EscrowGuard(db, contractId).None? {
      var k := contractId - 1;
      var c := db.contracts[k].(status := ContractStatus.Active, updatedAt := now);
      var p := db.payments[k].(phase := PaymentPhase.Escrowed, escrowedAt := Some(now), updatedAt := now);
      ReplacePairKeepsConsistent(db, k, c, p);
      var db1 := db.(contracts := db.contracts[k := c], payments := db.payments[k := p]);
      assert db1 == MarkEscrowed(db, k, contractId, now);
      var amount := db.payments[k].amount;
      var tx := HoldTransaction(db, amount, contractId, now);
      assert EscrowStep(db, contractId, now).db ==
             db1.(transactions := db1.transactions + [tx], wallet := Hold(db1.wallet, amount));
      LogTransactionKeepsConsistent(db1, tx, Hold(db1.wallet, amount));
    }
  }

  /** Logging a transaction with the next id and replacing the wallet by a balanced
      one keeps the store consistent. */
  lemma LogTransactionKeepsConsistent(db: Tables, tx: Transaction, w: Wallet)
    requires Consistent(db) && tx.id == |db.transactions| + 1 && WalletBalanced(w)
    ensures Consistent(db.(transactions := db.transactions + [tx], wallet := w))
  {
  }

  lemma EscrowAsWrittenKeepsConsistent(db: Tables, contractId: int, now: nat)
    requires Consistent(db)
    ensures Consistent(EscrowAsWrittenStep(db, contractId, now).db)
  {
    EscrowGuardInConsistent(db, contractId);
    if EscrowGuard(db, contractId).None? {
      var k := contractId - 1;
      var c := db.contracts[k].(status := ContractStatus.Active, updatedAt := now);
      var p := db.payments[k].(phase := PaymentPhase.Escrowed, escrowedAt := Some(now), updatedAt := now);
      ReplacePairKeepsConsistent(db, k, c, p);
    }
  }

  lemma ReleaseKeepsConsistent(db: Tables, contractId: int, now: nat)
    requires Consistent(db)
    ensures Consistent(ReleaseStep(db, contractId, now).db)
  {
    PaymentIndex(db, contractId);
    ContractIndex(db, contractId);
    if 1 <= contractId <= |db.payments| && db.payments[contractId - 1].phase == PaymentPhase.Escrowed {
      var k := contractId - 1;
      var c := db.contracts[k].(status := ContractStatus.Completed, completedAt := Some(now), updatedAt := now);
      var p := db.payments[k].(phase := PaymentPhase.Released, releasedAt := Some(now), updatedAt := now);
      ReplacePairKeepsConsistent(db, k, c, p);
    }
  }

  lemma SendMessageKeepsConsistent(db: Tables, threadId: int, content: string, kind: Option<MessageType>, now: nat)
    requires Consistent(db)
    ensures Consistent(SendMessageStep(db, threadId, content, kind, now).db)
  {
  }

  lemma CreateReviewKeepsConsistent(db: Tables, data: ReviewDraft, now: nat)
    requires Consistent(db)
    ensures Consistent(CreateReviewStep(db, data, now).db)
  {
  }

  // ---------- The payment path in a consistent store ----------

  /** Escrow rejects a contract id with no payment (`NOT_FOUND`) and a payment
      that is not unfunded (`INVALID_STATE`), and then changes nothing. */
  lemma EscrowRejections(db: Tables, contractId: int, now: nat)
    requires Consistent(db)
    ensures !(1 <= contractId <= |db.contracts|) ==>
              EscrowStep(db, contractId, now) == Step(db, Err(ApiError(NotFound, "Payment not found")))
    ensures 1 <= contractId <= |db.contracts| && db.payments[contractId - 1].phase != PaymentPhase.Unfunded ==>
              EscrowStep(db, contractId, now) == Step(db, Err(ApiError(InvalidState, "Payment already escrowed")))
    ensures EscrowAsWrittenStep(db, contractId, now).response.Err? &&
            (EscrowGuard(db, contractId).Some? ==> EscrowAsWrittenStep(db, contractId, now) == EscrowStep(db, contractId, now))
  {
    PaymentIndex(db, contractId);
  }

  /** A successful escrow: the payment is escrowed and the contract active, the
      amount moves from the available to the escrowed balance (the total is
      untouched, and so is their sum), and exactly one `escrow_hold` of minus the
      amount is logged, whose `balanceAfter` is the new available balance. Funds
      are not checked: the available balance may go below zero. */
  lemma EscrowMovesFunds(db: Tables, contractId: int, now: nat)
    requires Consistent(db)
    requires 1 <= contractId <= |db.contracts| && db.payments[contractId - 1].phase == PaymentPhase.Unfunded
    ensures var s := EscrowStep(db, contractId, now);
            var k := contractId - 1;
            var amount := db.contracts[k].agreedAmount;
            s.response == Ok(s.db.payments[k]) &&
            s.db.payments[k].phase == PaymentPhase.Escrowed && s.db.payments[k].amount == amount &&
            s.db.contracts[k].status == ContractStatus.Active &&
            s.db.wallet.availableBalance == db.wallet.availableBalance - amount &&
            s.db.wallet.escrowedBalance == db.wallet.escrowedBalance + amount &&
            s.db.wallet.totalBalance == db.wallet.totalBalance &&
            WalletBalanced(s.db.wallet)
    ensures var s := EscrowStep(db, contractId, now);
            var amount := db.contracts[contractId - 1].agreedAmount;
            s.db.transactions == db.transactions + [s.db.transactions[|db.transactions|]] &&
            s.db.transactions[|db.transactions|].kind == TransactionType.EscrowHold &&
            s.db.transactions[|db.transactions|].amount == -amount &&
            s.db.transactions[|db.transactions|].balanceAfter == s.db.wallet.availableBalance &&
            s.db.transactions[|db.transactions|].contractId == Some(contractId)
    ensures var s := EscrowStep(db, contractId, now);
            s.db.users == db.users && s.db.tasks == db.tasks && s.db.proposals == db.proposals &&
            s.db.reviews == db.reviews && s.db.messages == db.messages && s.db.threads == db.threads
  {
    EscrowGuardInConsistent(db, contractId);
  }

  /** Release rejects a missing payment and a payment not in escrow, changing
      nothing; otherwise it releases the payment and completes the contract, and
      the wallet and the transaction log stay exactly as they were. */
  lemma ReleaseInConsistent(db: Tables, contractId: int, now: nat)
    requires Consistent(db)
    ensures !(1 <= contractId <= |db.contracts|) ==>
              ReleaseStep(db, contractId, now) == Step(db, Err(ApiError(NotFound, "Payment not found")))
    ensures 1 <= contractId <= |db.contracts| && db.payments[contractId - 1].phase != PaymentPhase.Escrowed ==>
              ReleaseStep(db, contractId, now) == Step(db, Err(ApiError(InvalidState, "Payment not in escrow")))
    ensures 1 <= contractId <= |db.contracts| && db.payments[contractId - 1].phase == PaymentPhase.Escrowed ==>
              var s := ReleaseStep(db, contractId, now);
              var k := contractId - 1;
              s.response == Ok(s.db.payments[k]) &&
              s.db.payments[k].phase == PaymentPhase.Released && s.db.payments[k].releasedAt == Some(now) &&
              s.db.contracts[k].status == ContractStatus.Completed && s.db.contracts[k].completedAt == Some(now) &&
              s.db.wallet == db.wallet && s.db.transactions == db.transactions
  {
    PaymentIndex(db, contractId);
    ContractIndex(db, contractId);
  }

  /** Accepting an existing proposal whose task exists marks the proposal accepted
      and the task contracted, and appends one draft contract with the agreed terms
      and one unfunded payment for the agreed amount. */
  lemma AcceptInConsistent(db: Tables, id: int, now: nat)
    requires Consistent(db)
    requires 1 <= id <= |db.proposals| && 1 <= db.proposals[id - 1].taskId <= |db.tasks|
    ensures var s := AcceptProposalStep(db, id, now);
            var p := db.proposals[id - 1];
            var t := db.tasks[p.taskId - 1];
            var n := |db.contracts|;
            |s.db.proposals| == |db.proposals| && |s.db.tasks| == |db.tasks| && s.db.proposals[id - 1].taskId == p.taskId &&
            s.db.proposals[id - 1].status == ProposalStatus.Accepted && s.db.proposals[id - 1].respondedAt == Some(now) &&
            s.db.tasks[p.taskId - 1].status == TaskStatus.Contracted &&
            s.db.contracts == db.contracts + [s.db.contracts[n]] &&
            s.db.contracts[n].status == ContractStatus.Draft && s.db.contracts[n].proposalId == id &&
            s.db.contracts[n].agreedAmount == p.bidAmount && s.db.contracts[n].agreedMinutes == p.estimatedHours * 60 &&
            s.db.contracts[n].deadline == t.deadline && s.db.contracts[n].requesterId == t.requesterId &&
            s.db.payments == db.payments + [s.db.payments[n]] &&
            s.db.payments[n].phase == PaymentPhase.Unfunded && s.db.payments[n].amount == p.bidAmount
  {
    AcceptShape(db, id, now);
  }

  /** Where the accept step lands when the ids are table positions. */
  lemma AcceptShape(db: Tables, id: int, now: nat)
    requires IdsAreIndices(db)
    requires 1 <= id <= |db.proposals| && 1 <= db.proposals[id - 1].taskId <= |db.tasks|
    ensures var db1 := MarkAccepted(db, id - 1, now);
            var p := db1.proposals[id - 1];
            var db2 := CreateContract(db1, p, p.taskId - 1, now);
            AcceptProposalStep(db, id, now) == Step(db2, AcceptResponse(db2, p))
  {
    ProposalIndex(db, id);
    TaskIndex(db, db.proposals[id - 1].taskId);
  }

  /** In that case the request succeeds and answers with the new contract and its payment. */
  lemma AcceptSucceeds(db: Tables, id: int, now: nat)
    requires Consistent(db)
    requires 1 <= id <= |db.proposals| && 1 <= db.proposals[id - 1].taskId <= |db.tasks|
    ensures var s := AcceptProposalStep(db, id, now);
            var n := |db.contracts|;
            s.response.Ok? && n < |s.db.contracts| && n < |s.db.payments| &&
            s.response.value.contract.contract == s.db.contracts[n] &&
            s.response.value.contract.payment == Some(s.db.payments[n])
  {
    AcceptShape(db, id, now);
    AcceptProposalKeepsConsistent(db, id, now);
    var db1 := MarkAccepted(db, id - 1, now);
    var p := db1.proposals[id - 1];
    var db2 := CreateContract(db1, p, p.taskId - 1, now);
    TaskIndex(db2, p.taskId);
    ProposalIndex(db2, id);
    PaymentIndex(db2, |db.contracts| + 1);
  }

  /** Accept checks no status: accepting the same proposal twice creates two contracts for it. */
  lemma AcceptTwiceMakesTwoContracts(db: Tables, id: int, now: nat, later: nat)
    requires Consistent(db)
    requires 1 <= id <= |db.proposals| && 1 <= db.proposals[id - 1].taskId <= |db.tasks|
    ensures var s1 := AcceptProposalStep(db, id, now);
            var s2 := AcceptProposalStep(s1.db, id, later);
            |s2.db.contracts| == |db.contracts| + 2 &&
            s2.db.contracts[|db.contracts|].proposalId == id && s2.db.contracts[|db.contracts| + 1].proposalId == id
  {
    var s1 := AcceptProposalStep(db, id, now);
    AcceptInConsistent(db, id, now);
    AcceptProposalKeepsConsistent(db, id, now);
    AcceptInConsistent(s1.db, id, later);
  }

  /** The escrow handler as written never succeeds. On an unfunded payment it
      answers 500 after marking the payment escrowed and the contract active, yet
      logs no transaction and moves no money; a retry is then refused as already
      escrowed, so the payment stays escrowed without ever being debited. The
      corrected handler succeeds on the same request. */
  lemma EscrowAsWrittenStrandsPayment(db: Tables, contractId: int, now: nat, later: nat)
    requires Consistent(db)
    requires 1 <= contractId <= |db.contracts| && db.payments[contractId - 1].phase == PaymentPhase.Unfunded
    ensures var s1 := EscrowAsWrittenStep(db, contractId, now);
            var k := contractId - 1;
            s1.response == Err(Thrown) && HttpStatus(s1.response) == 500 &&
            s1.db.payments[k].phase == PaymentPhase.Escrowed && s1.db.contracts[k].status == ContractStatus.Active &&
            s1.db.wallet == db.wallet && s1.db.transactions == db.transactions
    ensures var s1 := EscrowAsWrittenStep(db, contractId, now);
            EscrowAsWrittenStep(s1.db, contractId, later) ==
              Step(s1.db, Err(ApiError(InvalidState, "Payment already escrowed"))) &&
            EscrowStep(s1.db, contractId, later) ==
              Step(s1.db, Err(ApiError(InvalidState, "Payment already escrowed")))
    ensures EscrowStep(db, contractId, now).response.Ok?
  {
    EscrowGuardInConsistent(db, contractId);
    EscrowAsWrittenKeepsConsistent(db, contractId, now);
    var s1 := EscrowAsWrittenStep(db, contractId, now);
    EscrowRejections(s1.db, contractId, later);
    EscrowMovesFunds(db, contractId, now);
  }

  // ---------- Proposals, reviews and accounts ----------

  /** Submitting is refused exactly when the current user already has a pending
      proposal on that task. */
  lemma SubmitRejectedIff(db: Tables, data: ProposalDraft, now: nat)
    ensures SubmitProposalStep(db, data, now).response ==
              Err(ApiError(AlreadySubmitted, "You have already submitted a proposal for this task")) <==>
            exists j :: 0 <= j < |db.proposals| && db.proposals[j].taskId == data.taskId &&
                        db.proposals[j].providerId == CurrentUserId && db.proposals[j].status == ProposalStatus.Pending
  {
    if Seqs.Find(db.proposals, PendingOwnProposal(data.taskId)).None? {
      assert Thrown.code != AlreadySubmitted;
    }
  }

  /** A fresh submission on an existing task appends a pending proposal with the next
      id and raises that task's proposal count by one, leaving the other tasks as they were. */
  lemma SubmitInConsistent(db: Tables, data: ProposalDraft, now: nat)
    requires Consistent(db)
    requires forall j :: 0 <= j < |db.proposals| ==> !PendingOwnProposal(data.taskId)(db.proposals[j])
    requires 1 <= data.taskId <= |db.tasks|
    ensures var s := SubmitProposalStep(db, data, now);
            var k := data.taskId - 1;
            s.response.Ok? && s.response.value.proposal == NewProposal(db, data, now) &&
            s.db.proposals == db.proposals + [NewProposal(db, data, now)] &&
            |s.db.tasks| == |db.tasks| &&
            s.db.tasks[k] == db.tasks[k].(proposalCount := db.tasks[k].proposalCount + 1) &&
            forall j :: 0 <= j < |db.tasks| && j != k ==> s.db.tasks[j] == db.tasks[j]
  {
    TaskIndex(db, data.taskId);
    SubmitAt(db, data, now, data.taskId - 1);
  }

  /** A fresh submission on the task at position `k`. */
  lemma SubmitAt(db: Tables, data: ProposalDraft, now: nat, k: nat)
    requires forall j :: 0 <= j < |db.proposals| ==> !PendingOwnProposal(data.taskId)(db.proposals[j])
    requires Seqs.IndexWhere(db.tasks, TaskHasId(data.taskId)) == Some(k)
    ensures var s := SubmitProposalStep(db, data, now);
            s.response.Ok? && s.response.value.proposal == NewProposal(db, data, now) &&
            s.db.proposals == db.proposals + [NewProposal(db, data, now)] &&
            s.db.tasks == db.tasks[k := db.tasks[k].(proposalCount := db.tasks[k].proposalCount + 1)]
  {
    assert Seqs.Find(db.proposals, PendingOwnProposal(data.taskId)).None?;
    var tasks := db.tasks[k := db.tasks[k].(proposalCount := db.tasks[k].proposalCount + 1)];
    assert CountProposal(db.tasks, data.taskId) == tasks;
    assert SubmitProposalStep(db, data, now).db.tasks == tasks;
    assert TaskById(tasks, data.taskId).Some? by {
      assert tasks[k].id == data.taskId;
    }
  }

  /** A second identical submission is refused and changes nothing. */
  lemma SubmitTwiceRejected(db: Tables, data: ProposalDraft, now: nat, later: nat)
    requires SubmitProposalStep(db, data, now).response.Ok?
    ensures var s1 := SubmitProposalStep(db, data, now);
            SubmitProposalStep(s1.db, data, later) ==
              Step(s1.db, Err(ApiError(AlreadySubmitted, "You have already submitted a proposal for this task")))
  {
    var s1 := SubmitProposalStep(db, data, now);
    var n := |db.proposals|;
    assert PendingOwnProposal(data.taskId)(s1.db.proposals[n]);
  }

  /** A review is refused exactly when the current user already reviewed that contract. */
  lemma ReviewRejectedIff(db: Tables, data: ReviewDraft, now: nat)
    ensures CreateReviewStep(db, data, now).response.Err? <==>
            exists j :: 0 <= j < |db.reviews| && db.reviews[j].contractId == data.contractId &&
                        db.reviews[j].reviewerId == CurrentUserId
  {
    if Seqs.Find(db.reviews, OwnReviewOf(data.contractId)).Some? {
      var j :| 0 <= j < |db.reviews| && OwnReviewOf(data.contractId)(db.reviews[j]);
    }
  }

  /** A second review of the same contract is refused and changes nothing. */
  lemma ReviewTwiceRejected(db: Tables, data: ReviewDraft, now: nat, later: nat)
    requires CreateReviewStep(db, data, now).response.Ok?
    ensures var s1 := CreateReviewStep(db, data, now);
            CreateReviewStep(s1.db, data, later) ==
              Step(s1.db, Err(ApiError(AlreadyReviewed, "You have already reviewed this contract")))
  {
    var s1 := CreateReviewStep(db, data, now);
    assert OwnReviewOf(data.contractId)(s1.db.reviews[|db.reviews|]);
  }

  /** After registering, logging in with the same email finds the new account. */
  lemma RegisterThenLogin(db: Tables, data: RegisterData, now: nat)
    requires RegisterStep(db, data, now).response.Ok?
    ensures var s := RegisterStep(db, data, now);
            Login(s.db, data.email) == Ok(s.response.value)
  {
    var s := RegisterStep(db, data, now);
    var n := |db.users|;
    assert UserHasEmail(data.email)(s.db.users[n]);
    assert forall j :: 0 <= j < n ==> s.db.users[j] == db.users[j];
    assert Seqs.IndexWhere(s.db.users, UserHasEmail(data.email)) == Some(n);
  }

  /** Registering is refused exactly when the email is taken, and a second
      registration with the same email is refused. */
  lemma RegisterRejectedIff(db: Tables, data: RegisterData, now: nat)
    ensures RegisterStep(db, data, now).response == Err(ApiError(EmailExists, "Email already registered")) <==>
            exists j :: 0 <= j < |db.users| && db.users[j].email == data.email
    ensures RegisterStep(db, data, now).response.Ok? ==>
            RegisterStep(RegisterStep(db, data, now).db, data, now).response ==
              Err(ApiError(EmailExists, "Email already registered"))
  {
    var s := RegisterStep(db, data, now);
    if Seqs.Find(db.users, UserHasEmail(data.email)).None? {
      assert Thrown.code != EmailExists;
    }
    if s.response.Ok? {
      assert UserHasEmail(data.email)(s.db.users[|db.users|]);
    }
  }

  // ---------- Tasks and messages ----------

  /** Updating task `id` patches that task only; an unknown id is `NOT_FOUND`. */
  lemma UpdateTaskInConsistent(db: Tables, id: int, patch: TaskPatch, now: nat)
    requires Consistent(db)
    ensures !(1 <= id <= |db.tasks|) ==>
              UpdateTaskStep(db, id, patch, now) == Step(db, Err(ApiError(NotFound, "Task not found")))
    ensures 1 <= id <= |db.tasks| ==>
              var s := UpdateTaskStep(db, id, patch, now);
              s.response.Ok? && |s.db.tasks| == |db.tasks| &&
              s.db.tasks[id - 1] == ApplyPatch(db.tasks[id - 1], patch, now) &&
              (forall j :: 0 <= j < |db.tasks| && j != id - 1 ==> s.db.tasks[j] == db.tasks[j]) &&
              s.db == db.(tasks := s.db.tasks)
  {
    TaskIndex(db, id);
  }

  /** Sending to an existing thread stamps that thread with the message time. */
  lemma SendMessageInConsistent(db: Tables, threadId: int, content: string, kind: Option<MessageType>, now: nat)
    requires Consistent(db)
    requires 1 <= threadId <= |db.threads|
    ensures var s := SendMessageStep(db, threadId, content, kind, now);
            s.db.threads[threadId - 1].lastMessageAt == now && s.db.threads[threadId - 1].updatedAt == now &&
            s.db.messages[|db.messages|].id == |db.messages| + 1 &&
            (forall j :: 0 <= j < |db.threads| && j != threadId - 1 ==> s.db.threads[j] == db.threads[j])
  {
    ThreadIndex(db, threadId);
  }
}
