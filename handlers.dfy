/** The mock server as the JavaScript module holds it: one mutable sequence per
    table and the single wallet, changed in place by the POST handlers. Each
    method is proved to leave the tables as the matching step function of
    `Marketplace` says, to answer as it does, and to keep `Valid()`. */
module Handlers {
  import opened Wrappers
  import opened Constants
  import opened Api
  import opened Data
  import opened Marketplace
  import Seqs
  import Text

  class MockServer {
    var users: seq<User>
    var tasks: seq<Task>
    var proposals: seq<Proposal>
    var contracts: seq<Contract>
    var payments: seq<ContractPayment>
    var transactions: seq<Transaction>
    var threads: seq<MessageThread>
    var messages: seq<Message>
    var reviews: seq<Review>
    var wallet: Wallet

    /** The tables as a value. */
    function Snapshot(): Tables
      reads this
    {
      Tables(users, tasks, proposals, contracts, payments, transactions, threads, messages, reviews, wallet)
    }

    ghost predicate Valid()
      reads this
    {
      Consistent(Snapshot())
    }

    /** The module starts from the seed tables. */
    constructor ()
      ensures Snapshot() == Seed
      ensures Valid()
    {
      users, tasks, proposals, contracts := SeedUsers, SeedTasks, SeedProposals, SeedContracts;
      payments, transactions, threads := SeedPayments, SeedTransactions, SeedThreads;
      messages, reviews, wallet := SeedMessages, SeedReviews, SeedWallet;
      new;
      SeedConsistent();
    }

    method Register(data: RegisterData, now: nat) returns (r: Result<AuthData>)
      modifies this
      ensures Snapshot() == RegisterStep(old(Snapshot()), data, now).db
      ensures r == RegisterStep(old(Snapshot()), data, now).response
      ensures old(Valid()) ==> Valid()
    {
      ghost var before := Snapshot();
      if Seqs.Find(users, UserHasEmail(data.email)).Some? {
        return Err(ApiError(EmailExists, "Email already registered"));
      }
      if data.name == [] {
        return Err(Thrown);
      }
      var user := User(|users| + 1, data.name, data.email, [Text.UpperChar(data.name[0])], data.password, now);
      users := users + [user];
      r := Ok(AuthData(user, MockToken));
      if Consistent(before) { RegisterKeepsConsistent(before, data, now); }
    }

    method Login(email: string) returns (r: Result<AuthData>)
      ensures r == Marketplace.Login(Snapshot(), email)
    {
      var u := Seqs.Find(users, UserHasEmail(email));
      if u.None? {
        return Err(ApiError(InvalidCredentials, "Invalid email or password"));
      }
      r := Ok(AuthData(u.value, MockToken));
    }

    method CreateTask(draft: TaskDraft, now: nat) returns (r: Result<EnrichedTask>)
      modifies this
      ensures Snapshot() == CreateTaskStep(old(Snapshot()), draft, now).db
      ensures r == CreateTaskStep(old(Snapshot()), draft, now).response
      ensures old(Valid()) ==> Valid()
    {
      ghost var before := Snapshot();
      var t := Task(|tasks| + 1, draft.title, draft.description, draft.budget, draft.deadline, draft.skills,
                    draft.category, TaskStatus.Draft, CurrentUserId, 0, 0, now, now);
      tasks := tasks + [t];
      r := Ok(EnrichTask(Snapshot(), t));
      if Consistent(before) { CreateTaskKeepsConsistent(before, draft, now); }
    }

    method UpdateTask(id: int, patch: TaskPatch, now: nat) returns (r: Result<EnrichedTask>)
      modifies this
      ensures Snapshot() == UpdateTaskStep(old(Snapshot()), id, patch, now).db
      ensures r == UpdateTaskStep(old(Snapshot()), id, patch, now).response
      ensures old(Valid()) ==> Valid()
    {
      ghost var before := Snapshot();
      var i := Seqs.IndexWhere(tasks, TaskHasId(id));
      if i.None? {
        return Err(ApiError(NotFound, "Task not found"));
      }
      tasks := tasks[i.value := ApplyPatch(tasks[i.value], patch, now)];
      r := Ok(EnrichTask(Snapshot(), tasks[i.value]));
      if Consistent(before) { UpdateTaskKeepsConsistent(before, id, patch, now); }
    }

    method SubmitProposal(data: ProposalDraft, now: nat) returns (r: Result<EnrichedProposal>)
      modifies this
      ensures Snapshot() == SubmitProposalStep(old(Snapshot()), data, now).db
      ensures r == SubmitProposalStep(old(Snapshot()), data, now).response
      ensures old(Valid()) ==> Valid()
    {
      ghost var before := Snapshot();
      if Seqs.Find(proposals, PendingOwnProposal(data.taskId)).Some? {
        return Err(ApiError(AlreadySubmitted, "You have already submitted a proposal for this task"));
      }
      var p := Proposal(|proposals| + 1, data.taskId, CurrentUserId, data.estimatedHours, data.bidAmount,
                        data.message, ProposalStatus.Pending, now, None, now, now);
      proposals := proposals + [p];
      var ti := Seqs.IndexWhere(tasks, TaskHasId(data.taskId));
      if ti.Some? {
        tasks := tasks[ti.value := tasks[ti.value].(proposalCount := tasks[ti.value].proposalCount + 1)];
      }
      assert p == NewProposal(before, data, now);
      assert tasks == CountProposal(before.tasks, data.taskId);
      var ep := EnrichProposal(Snapshot(), p);
      r := if ep.Some? then Ok(ep.value) else Err(Thrown);
      if Consistent(before) { SubmitProposalKeepsConsistent(before, data, now); }
    }

    method AcceptProposal(id: int, now: nat) returns (r: Result<AcceptResult>)
      modifies this
      ensures Snapshot() == AcceptProposalStep(old(Snapshot()), id, now).db
      ensures r == AcceptProposalStep(old(Snapshot()), id, now).response
      ensures old(Valid()) ==> Valid()
    {
      ghost var before := Snapshot();
      var i := Seqs.IndexWhere(proposals, ProposalHasId(id));
      if i.None? {
        return Err(ApiError(NotFound, "Proposal not found"));
      }
      ghost var db1 := MarkAccepted(before, i.value, now);
      var p := proposals[i.value].(status := ProposalStatus.Accepted, respondedAt := Some(now), updatedAt := now);
      proposals := proposals[i.value := p];
      assert Snapshot() == db1 && p == db1.proposals[i.value];
      var ti := Seqs.IndexWhere(tasks, TaskHasId(p.taskId));
      if ti.None? {
        r := Err(Thrown);
        return;
      }
      OpenContract(p, ti.value, now);
      r := AcceptResponse(Snapshot(), p);
      assert AcceptProposalStep(before, id, now) == Step(Snapshot(), r);
      if Consistent(before) { AcceptProposalKeepsConsistent(before, id, now); }
    }

    /** Marks the task at `ti` contracted and appends a draft contract for `p` with
        its unfunded payment. */
    method OpenContract(p: Proposal, ti: nat, now: nat)
      requires ti < |tasks|
      modifies this
      ensures Snapshot() == CreateContract(old(Snapshot()), p, ti, now)
    {
      var t := tasks[ti];
      tasks := tasks[ti := t.(status := TaskStatus.Contracted, updatedAt := now)];
      var c := Contract(|contracts| + 1, p.taskId, p.id, t.requesterId, p.providerId, p.estimatedHours * 60,
                        p.bidAmount, ContractStatus.Draft, t.deadline, now, now, None);
      contracts := contracts + [c];
      payments := payments + [ContractPayment(|payments| + 1, c.id, c.agreedAmount, PaymentPhase.Unfunded,
                                              None, None, now, now)];
    }

    /** Escrow with the transaction description left out (see `EscrowAsWrittenStep`
        for the handler as written). */
    method Escrow(contractId: int, now: nat) returns (r: Result<ContractPayment>)
      modifies this
      ensures Snapshot() == EscrowStep(old(Snapshot()), contractId, now).db
      ensures r == EscrowStep(old(Snapshot()), contractId, now).response
      ensures old(Valid()) ==> Valid()
    {
      ghost var before := Snapshot();
      var pi := Seqs.IndexWhere(payments, PaymentOfContract(contractId));
      var ci := Seqs.IndexWhere(contracts, ContractHasId(contractId));
      if pi.None? {
        return Err(ApiError(NotFound, "Payment not found"));
      }
      if payments[pi.value].phase != PaymentPhase.Unfunded {
        return Err(ApiError(InvalidState, "Payment already escrowed"));
      }
      var payment := payments[pi.value].(phase := PaymentPhase.Escrowed, escrowedAt := Some(now), updatedAt := now);
      payments := payments[pi.value := payment];
      if ci.None? {
        r := Err(Thrown);
        return;
      }
      contracts := contracts[ci.value := contracts[ci.value].(status := ContractStatus.Active, updatedAt := now)];
      ghost var db1 := Snapshot();
      assert db1 == MarkEscrowed(before, pi.value, contractId, now);
      HoldFunds(payment.amount, contracts[ci.value].id, now);
      assert HoldTransaction(db1, payment.amount, before.contracts[ci.value].id, now)
          == HoldTransaction(before, payment.amount, before.contracts[ci.value].id, now);
      r := Ok(payment);
      if Consistent(before) { EscrowKeepsConsistent(before, contractId, now); }
    }

    /** Records an `escrow_hold` of `amount` for the contract and moves the amount
        from the available to the escrowed balance. */
    method HoldFunds(amount: int, contractId: int, now: nat)
      modifies this
      ensures Snapshot() == old(Snapshot()).(transactions := old(transactions) + [HoldTransaction(old(Snapshot()), amount, contractId, now)],
                                             wallet := Hold(old(wallet), amount))
    {
      transactions := transactions + [Transaction(|transactions| + 1, CurrentUserId, TransactionType.EscrowHold,
                                                  -amount, wallet.availableBalance - amount,
                                                  TransactionStatus.Completed, Some(contractId), now)];
      wallet := wallet.(availableBalance := wallet.availableBalance - amount,
                        escrowedBalance := wallet.escrowedBalance + amount);
    }

    method Release(contractId: int, now: nat) returns (r: Result<ContractPayment>)
      modifies this
      ensures Snapshot() == ReleaseStep(old(Snapshot()), contractId, now).db
      ensures r == ReleaseStep(old(Snapshot()), contractId, now).response
      ensures old(Valid()) ==> Valid()
    {
      ghost var before := Snapshot();
      var pi := Seqs.IndexWhere(payments, PaymentOfContract(contractId));
      var ci := Seqs.IndexWhere(contracts, ContractHasId(contractId));
      if pi.None? {
        return Err(ApiError(NotFound, "Payment not found"));
      }
      if payments[pi.value].phase != PaymentPhase.Escrowed {
        return Err(ApiError(InvalidState, "Payment not in escrow"));
      }
      var payment := payments[pi.value].(phase := PaymentPhase.Released, releasedAt := Some(now), updatedAt := now);
      payments := payments[pi.value := payment];
      if ci.Some? {
        contracts := contracts[ci.value := contracts[ci.value].(status := ContractStatus.Completed,
                                                                 completedAt := Some(now), updatedAt := now)];
      }
      r := Ok(payment);
      if Consistent(before) { ReleaseKeepsConsistent(before, contractId, now); }
    }

    method SendMessage(threadId: int, content: string, kind: Option<MessageType>, now: nat)
      returns (r: Result<EnrichedMessage>)
      modifies this
      ensures Snapshot() == SendMessageStep(old(Snapshot()), threadId, content, kind, now).db
      ensures r == SendMessageStep(old(Snapshot()), threadId, content, kind, now).response
      ensures old(Valid()) ==> Valid()
    {
      ghost var before := Snapshot();
      var m := Message(|messages| + 1, threadId, CurrentUserId, kind.GetOr(MessageType.Text), content, false, now);
      messages := messages + [m];
      var ti := Seqs.IndexWhere(threads, ThreadHasId(threadId));
      if ti.Some? {
        threads := threads[ti.value := threads[ti.value].(lastMessageAt := now, updatedAt := now)];
      }
      r := Ok(EnrichMessage(Snapshot(), m));
      if Consistent(before) { SendMessageKeepsConsistent(before, threadId, content, kind, now); }
    }

    method CreateReview(data: ReviewDraft, now: nat) returns (r: Result<EnrichedReview>)
      modifies this
      ensures Snapshot() == CreateReviewStep(old(Snapshot()), data, now).db
      ensures r == CreateReviewStep(old(Snapshot()), data, now).response
      ensures old(Valid()) ==> Valid()
    {
      ghost var before := Snapshot();
      if Seqs.Find(reviews, OwnReviewOf(data.contractId)).Some? {
        return Err(ApiError(AlreadyReviewed, "You have already reviewed this contract"));
      }
      var review := Review(|reviews| + 1, data.contractId, CurrentUserId, data.revieweeId, data.rating,
                           data.comment, now);
      reviews := reviews + [review];
      r := Ok(EnrichReview(Snapshot(), review));
      if Consistent(before) { CreateReviewKeepsConsistent(before, data, now); }
    }
  }
}
