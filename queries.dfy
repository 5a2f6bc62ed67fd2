/** The read-only handlers of the mock API: filters, pagination, sorting and
    counts over the tables. None of them changes a table. */
module Queries {
  import opened Wrappers
  import opened Constants
  import opened Api
  import opened Data
  import Marketplace
  import Seqs
  import Text

  /** `parseInt(param) || fallback`: an absent or unparsable parameter (`NaN`) and
      `0` are both falsy and give the fallback. */
  function QueryInt(param: Option<int>, fallback: int): (r: int)
    ensures param.Some? && param.value != 0 ==> r == param.value
    ensures param.None? || param.value == 0 ==> r == fallback
  {
    match param
    case Some(n) => if n != 0 then n else fallback
    case None => fallback
  }

  /** `param && param !== 'all'`: the filter value, when the filter applies. */
  function ActiveFilter(param: Option<string>): (r: Option<string>)
    ensures r.Some? <==> param.Some? && param.value != "" && param.value != "all"
    ensures r.Some? ==> r == param
  {
    match param
    case Some(v) => if v != "" && v != "all" then Some(v) else None
    case None => None
  }

  /** `Math.ceil(total / limit)` for a non-zero integer limit. */
  function CeilDiv(total: nat, limit: int): (r: int)
    requires limit != 0
    ensures limit > 0 ==> (r - 1) * limit < total <= r * limit
    ensures limit > 0 ==> r >= 0
    ensures limit < 0 ==> r <= 0
  {
    if limit > 0 then (total + limit - 1) / limit else -(total / -limit)
  }

  // ---------- GET /tasks ----------

  /** `tasks.map(enrichTask)`. */
  function EnrichedTasks(db: Tables): (r: seq<EnrichedTask>)
    ensures |r| == |db.tasks| && forall j :: 0 <= j < |db.tasks| ==> r[j] == EnrichTask(db, db.tasks[j])
  {
    seq(|db.tasks|, j requires 0 <= j < |db.tasks| => EnrichTask(db, db.tasks[j]))
  }

  function TaskStatusIs(s: string): EnrichedTask -> bool { (t: EnrichedTask) => t.task.status.Name() == s }

  function TaskCategoryIs(c: string): EnrichedTask -> bool {
    (t: EnrichedTask) => Text.Lower(t.task.category) == Text.Lower(c)
  }

  /** What the two filters of GET /tasks ask of one task together. */
  function TaskMatches(status: Option<string>, category: Option<string>): EnrichedTask -> bool {
    (t: EnrichedTask) =>
      (ActiveFilter(status).Some? ==> t.task.status.Name() == status.value) &&
      (ActiveFilter(category).Some? ==> Text.Lower(t.task.category) == Text.Lower(category.value))
  }

  /** The enriched tasks after the status filter and then the case-insensitive
      category filter: the tasks, in table order, that pass both. */
  function FilteredTasks(db: Tables, status: Option<string>, category: Option<string>): (r: seq<EnrichedTask>)
    ensures r == Seqs.Filter(EnrichedTasks(db), TaskMatches(status, category))
  {
    var all := EnrichedTasks(db);
    var byStatus := match ActiveFilter(status)
                    case None => all
                    case Some(s) => Seqs.Filter(all, TaskStatusIs(s));
    var byCategory := match ActiveFilter(category)
                      case None => byStatus
                      case Some(c) => Seqs.Filter(byStatus, TaskCategoryIs(c));
    TwoFiltersAsOne(all, status, category);
    byCategory
  }

  lemma TwoFiltersAsOne(all: seq<EnrichedTask>, status: Option<string>, category: Option<string>)
    ensures (match ActiveFilter(category)
             case None => (match ActiveFilter(status)
                           case None => all
                           case Some(s) => Seqs.Filter(all, TaskStatusIs(s)))
             case Some(c) => Seqs.Filter(match ActiveFilter(status)
                                         case None => all
                                         case Some(s) => Seqs.Filter(all, TaskStatusIs(s)), TaskCategoryIs(c)))
            == Seqs.Filter(all, TaskMatches(status, category))
  {
    var m := TaskMatches(status, category);
    match (ActiveFilter(status), ActiveFilter(category))
    case (None, None) => Seqs.FilterAll(all, m);
    case (Some(s), None) => Seqs.FilterCongruent(all, TaskStatusIs(s), m);
    case (None, Some(c)) => Seqs.FilterCongruent(all, TaskCategoryIs(c), m);
    case (Some(s), Some(c)) => Seqs.FilterFilter(all, TaskStatusIs(s), TaskCategoryIs(c), m);
  }

  /** The filtered tasks are exactly the tasks passing both filters, enriched,
      in the order of the table. */
  lemma FilteredTasksSelection(db: Tables, status: Option<string>, category: Option<string>)
    ensures var r := FilteredTasks(db, status, category);
            Seqs.IsSubsequence(r, EnrichedTasks(db)) &&
            (forall k :: 0 <= k < |r| ==> r[k] == EnrichTask(db, r[k].task) && r[k].task in db.tasks &&
                                          TaskMatches(status, category)(r[k])) &&
            (forall j :: 0 <= j < |db.tasks| && TaskMatches(status, category)(EnrichTask(db, db.tasks[j])) ==>
                         EnrichTask(db, db.tasks[j]) in r)
  {
    var all := EnrichedTasks(db);
    var r := FilteredTasks(db, status, category);
    Seqs.FilterIsSubsequence(all, TaskMatches(status, category));
    forall k | 0 <= k < |r| ensures r[k] == EnrichTask(db, r[k].task) && r[k].task in db.tasks {
      assert r[k] in all;
      var j :| 0 <= j < |all| && all[j] == r[k];
      assert db.tasks[j] == r[k].task;
    }
    forall j | 0 <= j < |db.tasks| && TaskMatches(status, category)(EnrichTask(db, db.tasks[j]))
      ensures EnrichTask(db, db.tasks[j]) in r
    {
      assert all[j] == EnrichTask(db, db.tasks[j]);
    }
  }

  /** One page of a listing with its pagination block. */
  datatype Page<T> = Page(data: seq<T>, page: int, limit: int, total: nat, totalPages: int,
                          hasNext: bool, hasPrev: bool)

  /** The pagination of GET /tasks: `start = (page - 1) * limit`, `end = start + limit`,
      `slice(start, end)`, `totalPages = ceil(total / limit)`, `hasNext = end < total`,
      `hasPrev = page > 1`. */
  function Paginate<T>(s: seq<T>, page: int, limit: int): (r: Page<T>)
    requires limit != 0
    ensures r.page == page && r.limit == limit && r.total == |s|
    ensures r.totalPages == CeilDiv(|s|, limit)
    ensures r.hasNext <==> (page - 1) * limit + limit < |s|
    ensures r.hasPrev <==> page > 1
    ensures r.data == Seqs.Slice(s, (page - 1) * limit, (page - 1) * limit + limit)
  {
    var start := (page - 1) * limit;
    var end := start + limit;
    Page(Seqs.Slice(s, start, end), page, limit, |s|, CeilDiv(|s|, limit), end < |s|, page > 1)
  }

  /** GET /tasks?status&category&page&limit. `limit` falls back to 20, so it is
      never zero. */
  function ListTasks(db: Tables, status: Option<string>, category: Option<string>,
                     page: Option<int>, limit: Option<int>): (r: Page<EnrichedTask>)
    ensures r == Paginate(FilteredTasks(db, status, category), QueryInt(page, 1), QueryInt(limit, 20))
    ensures r.total == |FilteredTasks(db, status, category)|
  {
    Paginate(FilteredTasks(db, status, category), QueryInt(page, 1), QueryInt(limit, 20))
  }

  lemma MulMonotone(a: int, b: int, k: nat)
    requires a <= b
    ensures a * k <= b * k
  {
    var d := b - a;
    assert b * k == a * k + d * k;
  }

  /** With `page, limit >= 1`, the page holds elements `[(page-1)*limit, page*limit)`
      of the list (fewer on the last page, none past it), and there is a next page
      exactly when `page < totalPages`. */
  lemma PaginatePaging<T>(s: seq<T>, page: int, limit: int)
    requires page >= 1 && limit >= 1
    ensures var r := Paginate(s, page, limit);
            var start := (page - 1) * limit;
            0 <= start &&
            (start + limit <= |s| ==> r.data == s[start..start + limit]) &&
            (start <= |s| < start + limit ==> r.data == s[start..]) &&
            (|s| <= start ==> r.data == []) &&
            (r.hasNext <==> page < r.totalPages) &&
            (r.hasPrev <==> page > 1)
  {
    var n := CeilDiv(|s|, limit);
    var start := (page - 1) * limit;
    MulMonotone(0, page - 1, limit);
    if page < n {
      MulMonotone(page, n - 1, limit);
      assert start + limit == page * limit;
    } else {
      MulMonotone(n, page, limit);
      assert start + limit == page * limit;
    }
  }

  /** A page number below 1 is not rejected: page 0 is empty, and a negative page
      counts back from the end of the list, as `slice` treats negative positions. */
  lemma PaginateFromEnd<T>(s: seq<T>, page: int, limit: int)
    requires page <= 0 && limit >= 1
    ensures var r := Paginate(s, page, limit);
            var end := page * limit;
            (page == 0 ==> r.data == []) &&
            (page < 0 && limit - end <= |s| ==> end <= 0 && r.data == s[|s| + end - limit..|s| + end]) &&
            !r.hasPrev
  {
    var n := |s|;
    var start := (page - 1) * limit;
    var end := start + limit;
    assert start == page * limit - limit;
    MulMonotone(page, 0, limit);
    if page == 0 {
      assert Seqs.ClampIndex(end, n) == 0;
    } else if -start <= n {
      MulMonotone(page, -1, limit);
      assert Seqs.ClampIndex(start, n) == n + start;
      assert Seqs.ClampIndex(end, n) == n + end;
    }
  }

  /** Every element is on exactly one page: element `k` is item `k % limit` of page
      `k / limit + 1`. */
  lemma ElementOnItsPage<T>(s: seq<T>, limit: int, k: nat)
    requires limit >= 1 && k < |s|
    ensures var r := Paginate(s, k / limit + 1, limit);
            k % limit < |r.data| && r.data[k % limit] == s[k]
  {
    var q := k / limit;
    var start := q * limit;
    assert start + k % limit == k;
    MulMonotone(0, q, limit);
    assert (q + 1 - 1) * limit == start;
  }

  /** With no parameters, the first page has the first twenty tasks. */
  lemma ListTasksDefaults(db: Tables)
    ensures var r := ListTasks(db, None, None, None, None);
            r.page == 1 && r.limit == 20 && !r.hasPrev &&
            |r.data| == (if |db.tasks| < 20 then |db.tasks| else 20) &&
            forall k :: 0 <= k < |r.data| ==> r.data[k] == EnrichTask(db, db.tasks[k])
  {
    var all := EnrichedTasks(db);
    Seqs.FilterAll(all, TaskMatches(None, None));
    assert FilteredTasks(db, None, None) == all;
    assert ListTasks(db, None, None, None, None) == Paginate(all, 1, 20);
    assert Paginate(all, 1, 20).data == Seqs.Slice(all, 0, 20);
  }

  /** GET /tasks/:id. */
  function GetTask(db: Tables, id: int): (r: Result<EnrichedTask>)
    ensures r.Err? <==> forall j :: 0 <= j < |db.tasks| ==> db.tasks[j].id != id
    ensures r.Err? ==> r.error == ApiError(NotFound, "Task not found") && HttpStatus(r) == 404
    ensures r.Ok? ==> r.value.task.id == id && r.value.task in db.tasks &&
                      r.value.requester == UserById(db.users, r.value.task.requesterId)
    ensures r.Ok? ==> r.value == EnrichTask(db, TaskById(db.tasks, id).value)
  {
    match TaskById(db.tasks, id)
    case None => Err(ApiError(NotFound, "Task not found"))
    case Some(t) => Ok(EnrichTask(db, t))
  }

  // ---------- GET /contracts ----------

  function RequestedBy(user: int): EnrichedContract -> bool { (c: EnrichedContract) => c.contract.requesterId == user }
  function ProvidedBy(user: int): EnrichedContract -> bool { (c: EnrichedContract) => c.contract.providerId == user }
  function Involves(user: int): EnrichedContract -> bool {
    (c: EnrichedContract) => c.contract.requesterId == user || c.contract.providerId == user
  }
  function ContractStatusIs(s: string): EnrichedContract -> bool {
    (c: EnrichedContract) => c.contract.status.Name() == s
  }

  /** The role filter: `requester`, `provider`, or otherwise either side. */
  function RoleFilter(role: Option<string>): (f: EnrichedContract -> bool)
    ensures forall c :: f(c) ==> Involves(CurrentUserId)(c)
    ensures role == Some("requester") ==> forall c :: f(c) <==> c.contract.requesterId == CurrentUserId
    ensures role == Some("provider") ==> forall c :: f(c) <==> c.contract.providerId == CurrentUserId
    ensures role != Some("requester") && role != Some("provider") ==> forall c :: f(c) <==> Involves(CurrentUserId)(c)
  {
    if role == Some("requester") then RequestedBy(CurrentUserId)
    else if role == Some("provider") then ProvidedBy(CurrentUserId)
    else Involves(CurrentUserId)
  }

  /** `contracts.map(enrichContract)`, which throws when one contract does. */
  function EnrichedContracts(db: Tables): (r: Option<seq<EnrichedContract>>)
    ensures r.Some? <==> forall j :: 0 <= j < |db.contracts| ==> EnrichContract(db, db.contracts[j]).Some?
    ensures r.Some? ==> |r.value| == |db.contracts| &&
                        forall j :: 0 <= j < |db.contracts| ==> r.value[j].contract == db.contracts[j]
    ensures r.Some? ==> forall j :: 0 <= j < |db.contracts| ==> r.value[j] == EnrichContract(db, db.contracts[j]).value
  {
    Seqs.MapAll(db.contracts, (c: Contract) => EnrichContract(db, c))
  }

  /** What the role and status filters of GET /contracts ask of one contract together. */
  function ContractMatches(role: Option<string>, status: Option<string>): EnrichedContract -> bool {
    (c: EnrichedContract) => RoleFilter(role)(c) && (ActiveFilter(status).Some? ==> c.contract.status.Name() == status.value)
  }

  /** GET /contracts?status&role. Every contract is enriched first, so one whose
      task or proposal is missing makes the whole request fail. */
  function ListContracts(db: Tables, role: Option<string>, status: Option<string>): (r: Result<seq<EnrichedContract>>)
    ensures r.Ok? <==> EnrichedContracts(db).Some?
    ensures r.Err? ==> r.error == Thrown
    ensures r.Ok? ==> r.value == Seqs.Filter(EnrichedContracts(db).value, ContractMatches(role, status))
  {
    match EnrichedContracts(db)
    case None => Err(Thrown)
    case Some(all) =>
      var mine := Seqs.Filter(all, RoleFilter(role));
      var m := ContractMatches(role, status);
      Ok(match ActiveFilter(status)
         case None => (Seqs.FilterCongruent(all, RoleFilter(role), m); mine)
         case Some(s) => (Seqs.FilterFilter(all, RoleFilter(role), ContractStatusIs(s), m);
                          Seqs.Filter(mine, ContractStatusIs(s))))
  }

  /** Every listed contract is a contract of the table that passes the filters. */
  lemma ListContractsSound(db: Tables, role: Option<string>, status: Option<string>)
    requires ListContracts(db, role, status).Ok?
    ensures var r := ListContracts(db, role, status).value;
            forall k :: 0 <= k < |r| ==> r[k].contract in db.contracts && ContractMatches(role, status)(r[k])
  {
    var all := EnrichedContracts(db).value;
    var r := ListContracts(db, role, status).value;
    forall k | 0 <= k < |r| ensures r[k].contract in db.contracts {
      ContractOfEnriched(db, all, r[k]);
    }
  }

  lemma ContractOfEnriched(db: Tables, all: seq<EnrichedContract>, c: EnrichedContract)
    requires |all| == |db.contracts| && forall j :: 0 <= j < |all| ==> all[j].contract == db.contracts[j]
    requires c in all
    ensures c.contract in db.contracts
  {
    var j :| 0 <= j < |all| && all[j] == c;
    assert db.contracts[j] == c.contract;
  }

  /** Every contract that passes the filters is listed. */
  lemma ListContractsComplete(db: Tables, role: Option<string>, status: Option<string>, j: nat)
    requires ListContracts(db, role, status).Ok? && j < |db.contracts|
    requires ContractMatches(role, status)(EnrichedContracts(db).value[j])
    ensures EnrichedContracts(db).value[j] in ListContracts(db, role, status).value
  {
  }

  /** What a contract must satisfy to pass the filters, field by field. */
  lemma ContractMatchesMeans(role: Option<string>, status: Option<string>, c: EnrichedContract)
    requires ContractMatches(role, status)(c)
    ensures c.contract.requesterId == CurrentUserId || c.contract.providerId == CurrentUserId
    ensures role == Some("requester") ==> c.contract.requesterId == CurrentUserId
    ensures role == Some("provider") ==> c.contract.providerId == CurrentUserId
    ensures ActiveFilter(status).Some? ==> c.contract.status.Name() == status.value
  {
    assert RoleFilter(role)(c);
  }

  /** GET /contracts/:id. */
  function GetContract(db: Tables, id: int): (r: Result<EnrichedContract>)
    ensures (forall j :: 0 <= j < |db.contracts| ==> db.contracts[j].id != id) <==>
            r == Err(ApiError(NotFound, "Contract not found"))
    ensures r.Ok? ==> r.value.contract.id == id && r.value.contract in db.contracts
    ensures r.Ok? <==> ContractById(db.contracts, id).Some? && EnrichContract(db, ContractById(db.contracts, id).value).Some?
    ensures r.Ok? ==> r.value == EnrichContract(db, ContractById(db.contracts, id).value).value
    ensures ContractById(db.contracts, id).Some? && EnrichContract(db, ContractById(db.contracts, id).value).None? ==>
              r == Err(Thrown)
  {
    match ContractById(db.contracts, id)
    case None => Err(ApiError(NotFound, "Contract not found"))
    case Some(c) =>
      match EnrichContract(db, c)
      case None => Err(Thrown)
      case Some(ec) => Ok(ec)
  }

  /** GET /users/:userId. */
  function GetUser(db: Tables, id: int): (r: Result<User>)
    ensures r.Err? <==> forall j :: 0 <= j < |db.users| ==> db.users[j].id != id
    ensures r.Err? ==> r.error == ApiError(NotFound, "User not found")
    ensures r.Ok? ==> r.value.id == id && r.value in db.users
    ensures r.Ok? ==> r.value == UserById(db.users, id).value
  {
    match UserById(db.users, id)
    case None => Err(ApiError(NotFound, "User not found"))
    case Some(u) => Ok(u)
  }

  // ---------- GET /transactions ----------

  function TransactionOf(user: int): Transaction -> bool { (t: Transaction) => t.userId == user }
  function IsIncome(): Transaction -> bool { (t: Transaction) => t.amount > 0 }
  function IsExpense(): Transaction -> bool { (t: Transaction) => t.amount < 0 }

  /** Newest first: each entry is at least as recent as the next. */
  predicate NewestFirst(s: seq<Transaction>) {
    forall i :: 0 <= i < |s| - 1 ==> s[i].createdAt >= s[i + 1].createdAt
  }

  /** Insertion of `x` before the first entry that is not newer than it, so before
      any entry of the same time. Inserting the earlier entries last keeps the
      sort stable (SortNewestFirstStable). */
  function InsertNewestFirst(x: Transaction, s: seq<Transaction>): (r: seq<Transaction>)
    requires NewestFirst(s)
    ensures NewestFirst(r)
    ensures multiset(r) == multiset(s) + multiset{x}
    ensures |r| == |s| + 1
    ensures r[0] == x || (s != [] && r[0] == s[0])
  {
    if s == [] || x.createdAt >= s[0].createdAt then [x] + s
    else
      assert s == [s[0]] + s[1..];
      [s[0]] + InsertNewestFirst(x, s[1..])
  }

  /** `sort((a, b) => b.createdAt - a.createdAt)`: newest first, and stable, since
      JavaScript's `sort` is (SortNewestFirstStable). */
  function SortNewestFirst(s: seq<Transaction>): (r: seq<Transaction>)
    ensures NewestFirst(r)
    ensures multiset(r) == multiset(s)
    ensures |r| == |s|
  {
    if s == [] then []
    else
      assert s == [s[0]] + s[1..];
      InsertNewestFirst(s[0], SortNewestFirst(s[1..]))
  }

  /** The entries of one time `tm`, in their order. */
  function AtTime(tm: nat): Transaction -> bool { (t: Transaction) => t.createdAt == tm }

  /** Inserting `x` puts it before every entry of its own time and leaves the
      entries of every other time in their order. */
  lemma {:induction false} InsertNewestFirstStable(x: Transaction, s: seq<Transaction>, tm: nat)
    requires NewestFirst(s)
    ensures Seqs.Filter(InsertNewestFirst(x, s), AtTime(tm)) == Seqs.Filter([x], AtTime(tm)) + Seqs.Filter(s, AtTime(tm))
  {
    var p := AtTime(tm);
    if s == [] || x.createdAt >= s[0].createdAt {
      Seqs.FilterConcat([x], s, p);
    } else {
      var rest := s[1..];
      assert s == [s[0]] + rest;
      NewestFirstTail(s);
      var inserted := InsertNewestFirst(x, rest);
      assert InsertNewestFirst(x, s) == [s[0]] + inserted;
      InsertNewestFirstStable(x, rest, tm);
      Seqs.FilterConcat([s[0]], inserted, p);
      Seqs.FilterConcat([s[0]], rest, p);
      var head, mid, tail := Seqs.Filter([s[0]], p), Seqs.Filter([x], p), Seqs.Filter(rest, p);
      assert Seqs.Filter(s, p) == head + tail;
      assert Seqs.Filter(InsertNewestFirst(x, s), p) == head + (mid + tail);
      assert !(p(s[0]) && p(x));
      Seqs.FilterSwapSingletons(s[0], x, tail, p);
    }
  }

  /** The tail of a newest-first list is newest-first. */
  lemma NewestFirstTail(s: seq<Transaction>)
    requires NewestFirst(s) && s != []
    ensures NewestFirst(s[1..])
  {
    var rest := s[1..];
    forall i | 0 <= i < |rest| - 1 ensures rest[i].createdAt >= rest[i + 1].createdAt {
      assert rest[i] == s[i + 1] && rest[i + 1] == s[i + 2];
    }
  }

  /** The sort is stable: the entries of each time keep their order in the table. */
  lemma {:induction false} SortNewestFirstStable(s: seq<Transaction>, tm: nat)
    ensures Seqs.Filter(SortNewestFirst(s), AtTime(tm)) == Seqs.Filter(s, AtTime(tm))
  {
    if s != [] {
      assert s == [s[0]] + s[1..];
      SortNewestFirstStable(s[1..], tm);
      InsertNewestFirstStable(s[0], SortNewestFirst(s[1..]), tm);
      Seqs.FilterConcat([s[0]], s[1..], AtTime(tm));
    }
  }

  /** Adjacent order gives the order between any two positions. */
  lemma {:induction false} NewestFirstOrdered(s: seq<Transaction>, i: nat, j: nat)
    requires NewestFirst(s) && i <= j < |s|
    ensures s[i].createdAt >= s[j].createdAt
    decreases j - i
  {
    if i < j {
      NewestFirstOrdered(s, i + 1, j);
    }
  }

  /** What GET /transactions keeps: the current user's entries, only income or only
      expense when the type asks for it. */
  predicate Selected(kind: Option<string>, t: Transaction) {
    t.userId == CurrentUserId &&
    (kind == Some("income") ==> t.amount > 0) && (kind == Some("expense") ==> t.amount < 0)
  }

  /** The current user's transactions, narrowed to income or expense when asked. */
  function SelectedTransactions(db: Tables, kind: Option<string>): (r: seq<Transaction>)
    ensures forall k :: 0 <= k < |r| ==> r[k] in db.transactions && r[k].userId == CurrentUserId
    ensures kind == Some("income") ==> forall k :: 0 <= k < |r| ==> r[k].amount > 0
    ensures kind == Some("expense") ==> forall k :: 0 <= k < |r| ==> r[k].amount < 0
    ensures forall j :: 0 <= j < |db.transactions| && db.transactions[j].userId == CurrentUserId &&
                        (kind == Some("income") ==> db.transactions[j].amount > 0) &&
                        (kind == Some("expense") ==> db.transactions[j].amount < 0) ==>
                        db.transactions[j] in r
    ensures forall t :: multiset(r)[t] == if Selected(kind, t) then multiset(db.transactions)[t] else 0
  {
    var mine := Seqs.Filter(db.transactions, TransactionOf(CurrentUserId));
    Seqs.FilterMultiset(db.transactions, TransactionOf(CurrentUserId));
    Seqs.FilterMultiset(mine, IsIncome());
    Seqs.FilterMultiset(mine, IsExpense());
    if kind == Some("income") then Seqs.Filter(mine, IsIncome())
    else if kind == Some("expense") then Seqs.Filter(mine, IsExpense())
    else mine
  }

  /** GET /transactions?type. */
  function ListTransactions(db: Tables, kind: Option<string>): (r: seq<Transaction>)
    ensures multiset(r) == multiset(SelectedTransactions(db, kind))
    ensures NewestFirst(r)
  {
    SortNewestFirst(SelectedTransactions(db, kind))
  }

  /** The transaction list holds exactly the selected entries, each as often as
      it is in the table, newest first, and entries of the same time in table order. */
  lemma ListTransactionsContents(db: Tables, kind: Option<string>)
    ensures var r := ListTransactions(db, kind);
            (forall t :: t in r ==> t in db.transactions && t.userId == CurrentUserId) &&
            (kind == Some("income") ==> forall t :: t in r ==> t.amount > 0) &&
            (kind == Some("expense") ==> forall t :: t in r ==> t.amount < 0) &&
            (forall j :: 0 <= j < |db.transactions| && db.transactions[j].userId == CurrentUserId &&
                         (kind == Some("income") ==> db.transactions[j].amount > 0) &&
                         (kind == Some("expense") ==> db.transactions[j].amount < 0) ==>
                         db.transactions[j] in r) &&
            (forall i, j :: 0 <= i <= j < |r| ==> r[i].createdAt >= r[j].createdAt) &&
            (forall t :: multiset(r)[t] == if Selected(kind, t) then multiset(db.transactions)[t] else 0) &&
            (forall tm :: Seqs.Filter(r, AtTime(tm)) == Seqs.Filter(SelectedTransactions(db, kind), AtTime(tm)))
  {
    var r := ListTransactions(db, kind);
    var sel := SelectedTransactions(db, kind);
    forall t | t in r ensures t in sel { assert t in multiset(r); }
    forall j | 0 <= j < |db.transactions| && db.transactions[j] in sel ensures db.transactions[j] in r {
      assert db.transactions[j] in multiset(sel);
    }
    forall i, j | 0 <= i <= j < |r| ensures r[i].createdAt >= r[j].createdAt {
      NewestFirstOrdered(r, i, j);
    }
    forall tm ensures Seqs.Filter(r, AtTime(tm)) == Seqs.Filter(sel, AtTime(tm)) {
      SortNewestFirstStable(sel, tm);
    }
  }

  // ---------- GET /dashboard ----------

  function TaskOf(user: int): Task -> bool { (t: Task) => t.requesterId == user }
  function TaskIn(s: TaskStatus): Task -> bool { (t: Task) => t.status == s }
  function ProposalOf(user: int): Proposal -> bool { (p: Proposal) => p.providerId == user }
  function ProposalIn(s: ProposalStatus): Proposal -> bool { (p: Proposal) => p.status == s }
  function ContractOf(user: int): Contract -> bool {
    (c: Contract) => c.requesterId == user || c.providerId == user
  }
  function ContractIn(s: ContractStatus): Contract -> bool { (c: Contract) => c.status == s }
  /** `payment?.phase === 'unfunded'` for the contract's payment. */
  function PaymentUnfunded(payments: seq<ContractPayment>): Contract -> bool {
    (c: Contract) => PaymentFor(payments, c.id).Some? && PaymentFor(payments, c.id).value.phase == PaymentPhase.Unfunded
  }

  datatype TaskStats = TaskStats(draft: nat, open: nat, contracted: nat, needsReview: nat)
  datatype ProposalStats = ProposalStats(pending: nat, accepted: nat, rejected: nat)
  datatype ContractStats = ContractStats(unfunded: nat, active: nat, delivered: nat)
  datatype Dashboard = Dashboard(myTasks: TaskStats, myProposals: ProposalStats, contracts: ContractStats,
                                 balance: Wallet, recentContracts: seq<EnrichedContract>)

  /** The tasks the current user requested, each as often as in the table. */
  function MyTasks(db: Tables): (r: seq<Task>)
    ensures forall t :: multiset(r)[t] == if t.requesterId == CurrentUserId then multiset(db.tasks)[t] else 0
  {
    Seqs.FilterMultiset(db.tasks, TaskOf(CurrentUserId));
    Seqs.Filter(db.tasks, TaskOf(CurrentUserId))
  }

  /** The proposals the current user made, each as often as in the table. */
  function MyProposals(db: Tables): (r: seq<Proposal>)
    ensures forall p :: multiset(r)[p] == if p.providerId == CurrentUserId then multiset(db.proposals)[p] else 0
  {
    Seqs.FilterMultiset(db.proposals, ProposalOf(CurrentUserId));
    Seqs.Filter(db.proposals, ProposalOf(CurrentUserId))
  }

  /** The contracts the current user is a party to, on either side. */
  function MyContracts(db: Tables): (r: seq<Contract>)
    ensures forall c :: multiset(r)[c] ==
              if c.requesterId == CurrentUserId || c.providerId == CurrentUserId then multiset(db.contracts)[c] else 0
  {
    Seqs.FilterMultiset(db.contracts, ContractOf(CurrentUserId));
    Seqs.Filter(db.contracts, ContractOf(CurrentUserId))
  }

  /** The `myTasks` counters; they count distinct statuses, so they never sum to more
      than the tasks counted. */
  function TaskCounts(tasks: seq<Task>): (r: TaskStats)
    ensures r.draft + r.open + r.contracted <= |tasks| && r.needsReview == 0
    ensures r.draft == 0 <==> forall j :: 0 <= j < |tasks| ==> tasks[j].status != TaskStatus.Draft
    ensures r.open == 0 <==> forall j :: 0 <= j < |tasks| ==> tasks[j].status != TaskStatus.Open
    ensures r.contracted == 0 <==> forall j :: 0 <= j < |tasks| ==> tasks[j].status != TaskStatus.Contracted
    ensures tasks == [] ==> r == TaskStats(0, 0, 0, 0)
  {
    Seqs.CountDisjoint3(tasks, TaskIn(TaskStatus.Draft), TaskIn(TaskStatus.Open), TaskIn(TaskStatus.Contracted));
    TaskStats(Seqs.Count(tasks, TaskIn(TaskStatus.Draft)), Seqs.Count(tasks, TaskIn(TaskStatus.Open)),
              Seqs.Count(tasks, TaskIn(TaskStatus.Contracted)), 0)
  }

  /** The `myProposals` counters, bounded the same way. */
  function ProposalCounts(proposals: seq<Proposal>): (r: ProposalStats)
    ensures r.pending + r.accepted + r.rejected <= |proposals|
    ensures r.pending == 0 <==> forall j :: 0 <= j < |proposals| ==> proposals[j].status != ProposalStatus.Pending
    ensures r.accepted == 0 <==> forall j :: 0 <= j < |proposals| ==> proposals[j].status != ProposalStatus.Accepted
    ensures r.rejected == 0 <==> forall j :: 0 <= j < |proposals| ==> proposals[j].status != ProposalStatus.Rejected
    ensures proposals == [] ==> r == ProposalStats(0, 0, 0)
  {
    Seqs.CountDisjoint3(proposals, ProposalIn(ProposalStatus.Pending), ProposalIn(ProposalStatus.Accepted),
                        ProposalIn(ProposalStatus.Rejected));
    ProposalStats(Seqs.Count(proposals, ProposalIn(ProposalStatus.Pending)),
                  Seqs.Count(proposals, ProposalIn(ProposalStatus.Accepted)),
                  Seqs.Count(proposals, ProposalIn(ProposalStatus.Rejected)))
  }

  /** The `contracts` counters: contracts whose payment is unfunded, active ones and delivered ones. */
  function ContractCounts(payments: seq<ContractPayment>, contracts: seq<Contract>): (r: ContractStats)
    ensures r.unfunded <= |contracts| && r.active <= |contracts| && r.delivered <= |contracts|
    ensures r.unfunded == 0 <==> forall j :: 0 <= j < |contracts| ==> !PaymentUnfunded(payments)(contracts[j])
    ensures r.active == 0 <==> forall j :: 0 <= j < |contracts| ==> contracts[j].status != ContractStatus.Active
    ensures r.delivered == 0 <==> forall j :: 0 <= j < |contracts| ==> contracts[j].status != ContractStatus.Delivered
    ensures contracts == [] ==> r == ContractStats(0, 0, 0)
  {
    ContractStats(Seqs.Count(contracts, PaymentUnfunded(payments)),
                  Seqs.Count(contracts, ContractIn(ContractStatus.Active)),
                  Seqs.Count(contracts, ContractIn(ContractStatus.Delivered)))
  }

  /** One more task raises exactly the counter of its status. With the empty case
      above, this fixes every counter as the number of tasks with that status. */
  lemma TaskCountsAppend(tasks: seq<Task>, t: Task)
    ensures var a, b := TaskCounts(tasks), TaskCounts(tasks + [t]);
            b.draft == a.draft + (if t.status == TaskStatus.Draft then 1 else 0) &&
            b.open == a.open + (if t.status == TaskStatus.Open then 1 else 0) &&
            b.contracted == a.contracted + (if t.status == TaskStatus.Contracted then 1 else 0) &&
            b.needsReview == 0
  {
    Seqs.CountAppend(tasks, t, TaskIn(TaskStatus.Draft));
    Seqs.CountAppend(tasks, t, TaskIn(TaskStatus.Open));
    Seqs.CountAppend(tasks, t, TaskIn(TaskStatus.Contracted));
  }

  /** One more proposal raises exactly the counter of its status. */
  lemma ProposalCountsAppend(proposals: seq<Proposal>, p: Proposal)
    ensures var a, b := ProposalCounts(proposals), ProposalCounts(proposals + [p]);
            b.pending == a.pending + (if p.status == ProposalStatus.Pending then 1 else 0) &&
            b.accepted == a.accepted + (if p.status == ProposalStatus.Accepted then 1 else 0) &&
            b.rejected == a.rejected + (if p.status == ProposalStatus.Rejected then 1 else 0)
  {
    Seqs.CountAppend(proposals, p, ProposalIn(ProposalStatus.Pending));
    Seqs.CountAppend(proposals, p, ProposalIn(ProposalStatus.Accepted));
    Seqs.CountAppend(proposals, p, ProposalIn(ProposalStatus.Rejected));
  }

  /** One more contract raises `unfunded` when its payment is unfunded, and the
      counter of its status. */
  lemma ContractCountsAppend(payments: seq<ContractPayment>, contracts: seq<Contract>, c: Contract)
    ensures var a, b := ContractCounts(payments, contracts), ContractCounts(payments, contracts + [c]);
            var pay := PaymentFor(payments, c.id);
            b.unfunded == a.unfunded + (if pay.Some? && pay.value.phase == PaymentPhase.Unfunded then 1 else 0) &&
            b.active == a.active + (if c.status == ContractStatus.Active then 1 else 0) &&
            b.delivered == a.delivered + (if c.status == ContractStatus.Delivered then 1 else 0)
  {
    Seqs.CountAppend(contracts, c, PaymentUnfunded(payments));
    Seqs.CountAppend(contracts, c, ContractIn(ContractStatus.Active));
    Seqs.CountAppend(contracts, c, ContractIn(ContractStatus.Delivered));
  }

  /** `myContracts.slice(0, 3).map(enrichContract)`, for `mine` the user's contracts. */
  function RecentContracts(db: Tables, mine: seq<Contract>): (r: Option<seq<EnrichedContract>>)
    ensures r.Some? <==> forall k :: 0 <= k < |mine| && k < 3 ==> EnrichContract(db, mine[k]).Some?
    ensures r.Some? ==> |r.value| == (if |mine| < 3 then |mine| else 3)
    ensures r.Some? ==> forall k :: 0 <= k < |r.value| ==> r.value[k] == EnrichContract(db, mine[k]).value
    ensures r.Some? ==> forall k :: 0 <= k < |r.value| ==> r.value[k].contract == mine[k]
  {
    Seqs.MapAllFront(mine, 3, ContractEnricher(db));
    Seqs.MapAll(Seqs.Slice(mine, 0, 3), ContractEnricher(db))
  }

  function ContractEnricher(db: Tables): Contract -> Option<EnrichedContract> {
    (c: Contract) => EnrichContract(db, c)
  }

  /** GET /dashboard. The three most recent contracts are enriched, so the request
      fails when one of them cannot be. */
  function GetDashboard(db: Tables): (r: Result<Dashboard>)
    ensures r.Err? <==> RecentContracts(db, MyContracts(db)).None?
    ensures r.Err? ==> r.error == Thrown
    ensures r.Ok? ==> r.value.balance == db.wallet && r.value.recentContracts == RecentContracts(db, MyContracts(db)).value
    ensures r.Ok? ==> r.value.myTasks == TaskCounts(MyTasks(db)) && r.value.myProposals == ProposalCounts(MyProposals(db))
    ensures r.Ok? ==> r.value.contracts == ContractCounts(db.payments, MyContracts(db))
  {
    match RecentContracts(db, MyContracts(db))
    case None => Err(Thrown)
    case Some(recent) =>
      Ok(Dashboard(TaskCounts(MyTasks(db)), ProposalCounts(MyProposals(db)),
                   ContractCounts(db.payments, MyContracts(db)), db.wallet, recent))
  }

  /** In a consistent store an unfunded payment belongs to a draft or cancelled
      contract, so the unfunded, active and delivered counters are disjoint and
      never sum to more than the user's contracts. */
  lemma ContractCountsBounded(db: Tables)
    requires Marketplace.Consistent(db)
    ensures var d := ContractCounts(db.payments, MyContracts(db));
            d.unfunded + d.active + d.delivered <= |MyContracts(db)|
  {
    var mine := MyContracts(db);
    forall j | 0 <= j < |mine| && PaymentUnfunded(db.payments)(mine[j])
      ensures mine[j].status == ContractStatus.Draft || mine[j].status == ContractStatus.Cancelled
    {
      UnfundedIsDraftOrCancelled(db, mine[j]);
    }
    Seqs.CountDisjoint3(mine, PaymentUnfunded(db.payments), ContractIn(ContractStatus.Active),
                        ContractIn(ContractStatus.Delivered));
  }

  lemma UnfundedIsDraftOrCancelled(db: Tables, c: Contract)
    requires Marketplace.Consistent(db) && c in db.contracts && PaymentUnfunded(db.payments)(c)
    ensures c.status == ContractStatus.Draft || c.status == ContractStatus.Cancelled
  {
    var j :| 0 <= j < |db.contracts| && db.contracts[j] == c;
    Marketplace.PaymentIndex(db, c.id);
    assert Marketplace.JointValid(db.contracts[j].status, db.payments[j].phase);
  }
}
