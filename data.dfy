/** The mock database: one record type per table, the seed tables, the lookups
    by id and the enrichers that attach related records. Timestamps are whole
    numbers that grow with time; the seed's ISO dates are written as
    YYYYMMDDhhmmss. Fields that are floating point or never read by the core
    (ratings, bios, view counts of users) are not part of the records. */
module Data {
  import opened Wrappers
  import opened Constants
  import Seqs

  datatype User = User(id: int, name: string, email: string, avatar: string,
                       password: Option<string>, createdAt: nat)

  datatype Task = Task(id: int, title: string, description: string, budget: int, deadline: string,
                       skills: seq<string>, category: string, status: TaskStatus, requesterId: int,
                       proposalCount: int, viewCount: int, createdAt: nat, updatedAt: nat)

  datatype Proposal = Proposal(id: int, taskId: int, providerId: int, estimatedHours: int, bidAmount: int,
                               message: string, status: ProposalStatus, submittedAt: nat,
                               respondedAt: Option<nat>, createdAt: nat, updatedAt: nat)

  datatype Contract = Contract(id: int, taskId: int, proposalId: int, requesterId: int, providerId: int,
                               agreedMinutes: int, agreedAmount: int, status: ContractStatus,
                               deadline: string, createdAt: nat, updatedAt: nat, completedAt: Option<nat>)

  datatype ContractPayment = ContractPayment(id: int, contractId: int, amount: int, phase: PaymentPhase,
                                             escrowedAt: Option<nat>, releasedAt: Option<nat>,
                                             createdAt: nat, updatedAt: nat)

  datatype Transaction = Transaction(id: int, userId: int, kind: TransactionType, amount: int,
                                     balanceAfter: int, status: TransactionStatus,
                                     contractId: Option<int>, createdAt: nat)

  datatype MessageThread = MessageThread(id: int, taskId: int, participantIds: seq<int>, unreadCount: int,
                                         lastMessageAt: nat, createdAt: nat, updatedAt: nat)

  datatype Message = Message(id: int, threadId: int, senderId: int, kind: MessageType, content: string,
                             isRead: bool, createdAt: nat)

  datatype Review = Review(id: int, contractId: int, reviewerId: int, revieweeId: int, rating: int,
                           comment: string, createdAt: nat)

  datatype Wallet = Wallet(userId: int, availableBalance: int, escrowedBalance: int, totalBalance: int)

  /** Every table at one moment; `wallet` is `wallets[0]`, the only wallet. */
  datatype Tables = Tables(users: seq<User>, tasks: seq<Task>, proposals: seq<Proposal>,
                           contracts: seq<Contract>, payments: seq<ContractPayment>,
                           transactions: seq<Transaction>, threads: seq<MessageThread>,
                           messages: seq<Message>, reviews: seq<Review>, wallet: Wallet)

  // ---------- Seed ----------

  const SeedUsers: seq<User> := [
    User(1, "Zhang Student", "zhang@student.edu.cn", "Z", None, 20230515100000),
    User(2, "Li Student", "li@student.edu.cn", "L", None, 20230620100000),
    User(3, "Wang Student", "wang@student.edu.cn", "W", None, 20230710100000),
    User(4, "Chen Student", "chen@student.edu.cn", "C", None, 20230805100000)
  ]

  /** The logged-in user, `users[0]`. */
  const CurrentUserId := 1

  const SeedTasks: seq<Task> := [
    Task(1, "Build a responsive website",
         "Need a modern, responsive website for my small business. Should include home, about, services, and contact pages. Must be mobile-friendly with clean, modern design.",
         50, "2024-02-01", ["HTML", "CSS", "JavaScript", "React"], "Programming", TaskStatus.Open, 2, 5, 45,
         20240115100000, 20240115100000),
    Task(2, "Logo design for startup",
         "Looking for creative logo designer to create modern logo for tech startup. Need 3 initial concepts and unlimited revisions.",
         35, "2024-01-28", ["Graphic Design", "Illustrator", "Photoshop"], "Design", TaskStatus.Open, 3, 8, 62,
         20240114100000, 20240114100000),
    Task(3, "Python data analysis project",
         "Need help with data analysis using Python. Dataset includes sales data needing cleaning, visualization, and insights.",
         40, "2024-02-05", ["Python", "Pandas", "Data Analysis"], "Programming", TaskStatus.Contracted, 4, 12, 78,
         20240110100000, 20240118140000)
  ]

  const SeedProposals: seq<Proposal> := [
    Proposal(1, 1, 1, 40, 48,
             "I have 3 years of experience in web development using React. I can deliver a modern, responsive website within 2 weeks.",
             ProposalStatus.Pending, 20240116103000, None, 20240116103000, 20240116103000),
    Proposal(2, 1, 3, 35, 45,
             "I specialize in responsive design with Tailwind CSS. Check my portfolio for examples.",
             ProposalStatus.Pending, 20240116142000, None, 20240116142000, 20240116142000),
    Proposal(3, 3, 1, 30, 40,
             "I have experience with Python data analysis. I can start immediately.",
             ProposalStatus.Accepted, 20240111090000, Some(20240118140000), 20240111090000, 20240118140000)
  ]

  const SeedContracts: seq<Contract> := [
    Contract(1, 3, 3, 4, 1, 1800, 40, ContractStatus.Active, "2024-02-05", 20240118140000, 20240118150000, None)
  ]

  const SeedPayments: seq<ContractPayment> := [
    ContractPayment(1, 1, 40, PaymentPhase.Escrowed, Some(20240118150000), None, 20240118140000, 20240118150000)
  ]

  const SeedTransactions: seq<Transaction> := [
    Transaction(1, 1, TransactionType.Deposit, 100, 150, TransactionStatus.Completed, None, 20240118090000),
    Transaction(2, 1, TransactionType.EscrowHold, -40, 110, TransactionStatus.Completed, Some(1), 20240118150000),
    Transaction(3, 1, TransactionType.Release, 30, 140, TransactionStatus.Completed, Some(2), 20240116114500)
  ]

  const SeedThreads: seq<MessageThread> := [
    MessageThread(1, 3, [1, 4], 2, 20240120103000, 20240118143000, 20240120103000)
  ]

  const SeedMessages: seq<Message> := [
    Message(1, 1, 4, MessageType.Text, "Hi! Thanks for accepting my proposal. When can we start?", true, 20240118143500),
    Message(2, 1, 1, MessageType.Text, "Hello! I can start right away. Do you have the dataset ready?", true, 20240118150000),
    Message(3, 1, 1, MessageType.System, "Contract has been created and payment is in escrow.", true, 20240118150000),
    Message(4, 1, 4, MessageType.Text, "Yes! I will send you the dataset now.", false, 20240120103000)
  ]

  const SeedReviews: seq<Review> := [
    Review(1, 2, 2, 1, 5, "Excellent developer! Delivered high-quality work on time. Highly recommend!", 20240116120000),
    Review(2, 2, 1, 2, 5, "Great client! Clear requirements and prompt payment.", 20240116121500)
  ]

  const SeedWallet := Wallet(1, 110, 40, 150)

  const Seed := Tables(SeedUsers, SeedTasks, SeedProposals, SeedContracts, SeedPayments, SeedTransactions,
                       SeedThreads, SeedMessages, SeedReviews, SeedWallet)

  /** The shape of the seed: four users, the first being the logged-in one, three
      tasks (two open, one contracted), three proposals (two pending, one
      accepted), one contract with its payment, three transactions, one thread
      with four messages and two reviews. */
  lemma SeedTables()
    ensures |SeedUsers| == 4 && SeedUsers[0].id == CurrentUserId
    ensures |SeedTasks| == 3 && SeedTasks[0].status == SeedTasks[1].status == TaskStatus.Open &&
            SeedTasks[2].status == TaskStatus.Contracted
    ensures |SeedProposals| == 3 && SeedProposals[0].status == SeedProposals[1].status == ProposalStatus.Pending &&
            SeedProposals[2].status == ProposalStatus.Accepted
    ensures |SeedContracts| == 1 && |SeedPayments| == 1 && |SeedTransactions| == 3
    ensures |SeedThreads| == 1 && |SeedMessages| == 4 && |SeedReviews| == 2
    ensures forall j :: 0 <= j < |SeedMessages| ==> SeedMessages[j].threadId == SeedThreads[0].id
  {
  }

  /** The seed wallet's total is its available plus its escrowed balance. */
  lemma SeedWalletBalanced()
    ensures SeedWallet.totalBalance == SeedWallet.availableBalance + SeedWallet.escrowedBalance
  {
  }

  /** Seed contract 1 is active with its payment in escrow, for the agreed amount,
      which is the amount of the seed escrow hold on contract 1. */
  lemma SeedContractEscrowed()
    ensures SeedContracts[0].id == 1 && SeedContracts[0].status == ContractStatus.Active
    ensures SeedPayments[0].contractId == 1 && SeedPayments[0].phase == PaymentPhase.Escrowed
    ensures SeedPayments[0].amount == SeedContracts[0].agreedAmount == 40
    ensures SeedTransactions[1].kind == TransactionType.EscrowHold && SeedTransactions[1].contractId == Some(1)
    ensures SeedTransactions[1].amount == -SeedPayments[0].amount
  {
  }

  // ---------- Lookups ----------

  function UserHasId(id: int): User -> bool { (u: User) => u.id == id }
  function UserHasEmail(email: string): User -> bool { (u: User) => u.email == email }
  function TaskHasId(id: int): Task -> bool { (t: Task) => t.id == id }
  function ProposalHasId(id: int): Proposal -> bool { (p: Proposal) => p.id == id }
  function ContractHasId(id: int): Contract -> bool { (c: Contract) => c.id == id }
  function PaymentOfContract(contractId: int): ContractPayment -> bool {
    (p: ContractPayment) => p.contractId == contractId
  }
  function ThreadHasId(id: int): MessageThread -> bool { (t: MessageThread) => t.id == id }

  /** `getUserById`: the first user with that id, or nothing. */
  function UserById(users: seq<User>, id: int): (r: Option<User>)
    ensures r.None? <==> forall j :: 0 <= j < |users| ==> users[j].id != id
    ensures r.Some? ==> exists j :: 0 <= j < |users| && users[j] == r.value && r.value.id == id &&
                                    forall k :: 0 <= k < j ==> users[k].id != id
  {
    Seqs.Find(users, UserHasId(id))
  }

  /** `getTaskById`. */
  function TaskById(tasks: seq<Task>, id: int): (r: Option<Task>)
    ensures r.None? <==> forall j :: 0 <= j < |tasks| ==> tasks[j].id != id
    ensures r.Some? ==> exists j :: 0 <= j < |tasks| && tasks[j] == r.value && r.value.id == id &&
                                    forall k :: 0 <= k < j ==> tasks[k].id != id
  {
    Seqs.Find(tasks, TaskHasId(id))
  }

  /** `getProposalById`. */
  function ProposalById(proposals: seq<Proposal>, id: int): (r: Option<Proposal>)
    ensures r.None? <==> forall j :: 0 <= j < |proposals| ==> proposals[j].id != id
    ensures r.Some? ==> exists j :: 0 <= j < |proposals| && proposals[j] == r.value && r.value.id == id &&
                                    forall k :: 0 <= k < j ==> proposals[k].id != id
  {
    Seqs.Find(proposals, ProposalHasId(id))
  }

  /** `getContractById`. */
  function ContractById(contracts: seq<Contract>, id: int): (r: Option<Contract>)
    ensures r.None? <==> forall j :: 0 <= j < |contracts| ==> contracts[j].id != id
    ensures r.Some? ==> exists j :: 0 <= j < |contracts| && contracts[j] == r.value && r.value.id == id &&
                                    forall k :: 0 <= k < j ==> contracts[k].id != id
  {
    Seqs.Find(contracts, ContractHasId(id))
  }

  /** `contractPayments.find(p => p.contractId === contractId)`. */
  function PaymentFor(payments: seq<ContractPayment>, contractId: int): (r: Option<ContractPayment>)
    ensures r.None? <==> forall j :: 0 <= j < |payments| ==> payments[j].contractId != contractId
    ensures r.Some? ==> exists j :: 0 <= j < |payments| && payments[j] == r.value &&
                                    r.value.contractId == contractId &&
                                    forall k :: 0 <= k < j ==> payments[k].contractId != contractId
  {
    Seqs.Find(payments, PaymentOfContract(contractId))
  }

  // ---------- Enrichment ----------

  datatype EnrichedTask = EnrichedTask(task: Task, requester: Option<User>)
  datatype EnrichedProposal = EnrichedProposal(proposal: Proposal, task: EnrichedTask, provider: Option<User>)
  datatype EnrichedContract = EnrichedContract(contract: Contract, task: EnrichedTask, proposal: EnrichedProposal,
                                               requester: Option<User>, provider: Option<User>,
                                               payment: Option<ContractPayment>)
  datatype EnrichedMessage = EnrichedMessage(message: Message, sender: Option<User>)
  datatype EnrichedReview = EnrichedReview(review: Review, reviewer: Option<User>, reviewee: Option<User>)

  /** `enrichTask`: the task unchanged plus its requester, when there is one. */
  function EnrichTask(db: Tables, t: Task): (r: EnrichedTask)
    ensures r.task == t
    ensures r.requester == UserById(db.users, t.requesterId)
    ensures r.requester.Some? ==> r.requester.value.id == t.requesterId && r.requester.value in db.users
  {
    EnrichedTask(t, UserById(db.users, t.requesterId))
  }

  /** `enrichProposal`, which throws (`None`) when the proposal's task is missing,
      since `enrichTask(undefined)` reads a field of `undefined`. */
  function EnrichProposal(db: Tables, p: Proposal): (r: Option<EnrichedProposal>)
    ensures r.Some? <==> TaskById(db.tasks, p.taskId).Some?
    ensures r.Some? ==> r.value.proposal == p && r.value.task.task.id == p.taskId &&
                        r.value.task.task in db.tasks
    ensures r.Some? ==> r.value.provider == UserById(db.users, p.providerId)
    ensures r.Some? ==> r.value.task == EnrichTask(db, TaskById(db.tasks, p.taskId).value)
  {
    match TaskById(db.tasks, p.taskId)
    case None => None
    case Some(t) => Some(EnrichedProposal(p, EnrichTask(db, t), UserById(db.users, p.providerId)))
  }

  /** `enrichContract`: the contract unchanged plus its task, proposal, parties and
      payment; it throws when the task, the proposal or the proposal's task is missing. */
  function EnrichContract(db: Tables, c: Contract): (r: Option<EnrichedContract>)
    ensures r.Some? <==>
      TaskById(db.tasks, c.taskId).Some? && ProposalById(db.proposals, c.proposalId).Some? &&
      EnrichProposal(db, ProposalById(db.proposals, c.proposalId).value).Some?
    ensures r.Some? ==> r.value.contract == c
    ensures r.Some? ==> r.value.task.task.id == c.taskId && r.value.proposal.proposal.id == c.proposalId
    ensures r.Some? ==> r.value.requester == UserById(db.users, c.requesterId) &&
                        r.value.provider == UserById(db.users, c.providerId)
    ensures r.Some? ==> r.value.payment == PaymentFor(db.payments, c.id)
    ensures r.Some? && r.value.payment.Some? ==> r.value.payment.value.contractId == c.id
    ensures r.Some? ==> r.value.task == EnrichTask(db, TaskById(db.tasks, c.taskId).value)
    ensures r.Some? ==> r.value.proposal == EnrichProposal(db, ProposalById(db.proposals, c.proposalId).value).value
  {
    match TaskById(db.tasks, c.taskId)
    case None => None
    case Some(t) =>
      match ProposalById(db.proposals, c.proposalId)
      case None => None
      case Some(p) =>
        match EnrichProposal(db, p)
        case None => None
        case Some(ep) =>
          Some(EnrichedContract(c, EnrichTask(db, t), ep, UserById(db.users, c.requesterId),
                                UserById(db.users, c.providerId), PaymentFor(db.payments, c.id)))
  }

  /** `enrichMessage`. */
  function EnrichMessage(db: Tables, m: Message): (r: EnrichedMessage)
    ensures r.message == m
    ensures r.sender.Some? ==> r.sender.value.id == m.senderId && r.sender.value in db.users
    ensures r.sender.None? <==> forall j :: 0 <= j < |db.users| ==> db.users[j].id != m.senderId
    ensures r.sender == UserById(db.users, m.senderId)
  {
    EnrichedMessage(m, UserById(db.users, m.senderId))
  }

  /** `enrichReview`. */
  function EnrichReview(db: Tables, r0: Review): (r: EnrichedReview)
    ensures r.review == r0
    ensures r.reviewer.Some? ==> r.reviewer.value.id == r0.reviewerId && r.reviewer.value in db.users
    ensures r.reviewee.Some? ==> r.reviewee.value.id == r0.revieweeId && r.reviewee.value in db.users
    ensures r.reviewer.None? <==> forall j :: 0 <= j < |db.users| ==> db.users[j].id != r0.reviewerId
    ensures r.reviewee.None? <==> forall j :: 0 <= j < |db.users| ==> db.users[j].id != r0.revieweeId
    ensures r.reviewer == UserById(db.users, r0.reviewerId) && r.reviewee == UserById(db.users, r0.revieweeId)
  {
    EnrichedReview(r0, UserById(db.users, r0.reviewerId), UserById(db.users, r0.revieweeId))
  }

  // ---------- Sequential ids ----------

  /** The record at position `j` has id `j + 1`. */
  ghost predicate SequentialIds<T>(s: seq<T>, key: T -> int) {
    forall j :: 0 <= j < |s| ==> key(s[j]) == j + 1
  }

  /** With sequential ids, the first record with id `id` is at `id - 1`. */
  lemma {:induction false} IndexOfSequentialId<T>(s: seq<T>, key: T -> int, p: T -> bool, id: int)
    requires SequentialIds(s, key)
    requires forall j :: 0 <= j < |s| ==> (p(s[j]) <==> key(s[j]) == id)
    ensures Seqs.IndexWhere(s, p) == if 1 <= id <= |s| then Some(id - 1) else None
  {
    var r := Seqs.IndexWhere(s, p);
    if 1 <= id <= |s| {
      assert p(s[id - 1]);
      assert r.Some?;
    }
  }

  /** The seed tables use the ids 1..n in order. */
  lemma SeedIdsSequential()
    ensures SequentialIds(SeedUsers, (u: User) => u.id)
    ensures SequentialIds(SeedTasks, (t: Task) => t.id)
    ensures SequentialIds(SeedProposals, (p: Proposal) => p.id)
    ensures SequentialIds(SeedContracts, (c: Contract) => c.id)
    ensures SequentialIds(SeedPayments, (p: ContractPayment) => p.id)
    ensures SequentialIds(SeedTransactions, (t: Transaction) => t.id)
    ensures SequentialIds(SeedThreads, (t: MessageThread) => t.id)
    ensures SequentialIds(SeedMessages, (m: Message) => m.id)
    ensures SequentialIds(SeedReviews, (r: Review) => r.id)
  {
  }
}
