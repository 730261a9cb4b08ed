/** `expenseService`: guarded POST and GET calls for a group's expenses. */
module ExpenseService {
  import opened Common
  import opened ApiTypes

  datatype ExpenseError = GroupIdRequired | MissingFields | AmountNotPositive

  function Message(e: ExpenseError): string
  {
    match e
    case GroupIdRequired => "Group ID is required"
    case MissingFields => "Missing required expense fields"
    case AmountNotPositive => "Amount must be greater than 0"
  }

  const CreateFallback := "Failed to create expense"
  const FetchAllFallback := "Failed to fetch expenses"
  const FetchOneFallback := "Failed to fetch expense"
  const DefaultPage := 0
  const DefaultSize := 20

  predicate HasAllFields(e: ExpenseData)
  {
    e.description != "" && NumTruthy(e.totalAmount) && Present(e.paidBy)
  }

  /** The guard chain of `createExpense`: the group id, then the required fields
      (a zero total is falsy, so it is missing), then a non-positive total. */
  function Check(groupId: Option<Key>, e: ExpenseData): (r: Option<ExpenseError>)
    ensures r == Some(GroupIdRequired) <==> !Present(groupId)
    ensures r == Some(MissingFields) <==> Present(groupId) && !HasAllFields(e)
    ensures r == Some(AmountNotPositive) <==>
      Present(groupId) && HasAllFields(e) && e.totalAmount.value < 0.0
    ensures r.None? <==> Present(groupId) && HasAllFields(e) && e.totalAmount.value > 0.0
  {
    if !Present(groupId) then Some(GroupIdRequired)
    else if !HasAllFields(e) then Some(MissingFields)
    else if e.totalAmount.value <= 0.0 then Some(AmountNotPositive)
    else None
  }

  function CreateExpense<T>(groupId: Option<Key>, e: ExpenseData, reply: Reply<T>): (r: Call<T>)
    ensures r.sent.Some? <==> Check(groupId, e).None?
    ensures r.sent.Some? ==> r.sent.value == PostExpense(groupId.value, e)
    ensures r.sent.None? ==> r.outcome == Rejected(CreateFallback)
    ensures r.sent.Some? && reply.Answered? ==> r.outcome == Resolved(reply.data)
    ensures r.sent.Some? && reply.HttpError? && TextTruthy(reply.serverMessage) ==>
      r.outcome == Rejected(reply.serverMessage.value)
    ensures r.sent.Some? && reply.HttpError? && !TextTruthy(reply.serverMessage) ==>
      r.outcome == Rejected(CreateFallback)
  {
    var mapError := f => ServerMessageOr(f, CreateFallback);
    match Check(groupId, e)
    case Some(err) =>
      assert mapError(LocalError(Message(err))) == CreateFallback;
      Refuse(Message(err), mapError)
    case None => Send(PostExpense(groupId.value, e), reply, mapError)
  }

  /** `getGroupExpenses(groupId, page = 0, size = 20)`: an omitted page or size is
      `None` and takes its default. */
  function GetGroupExpenses<T>(groupId: Option<Key>, page: Option<int>, size: Option<int>,
                               reply: Reply<T>): (r: Call<T>)
    ensures r.sent.Some? <==> Present(groupId)
    ensures r.sent.Some? ==> r.sent.value.GetGroupExpenses? && r.sent.value.groupId == groupId.value
    ensures r.sent.Some? && page.None? ==> r.sent.value.page == DefaultPage
    ensures r.sent.Some? && page.Some? ==> r.sent.value.page == page.value
    ensures r.sent.Some? && size.None? ==> r.sent.value.size == DefaultSize
    ensures r.sent.Some? && size.Some? ==> r.sent.value.size == size.value
    ensures r.sent.None? ==> r.outcome == Rejected(FetchAllFallback)
    ensures r.sent.Some? && reply.Answered? ==> r.outcome == Resolved(reply.data)
    ensures r.sent.Some? && reply.HttpError? && TextTruthy(reply.serverMessage) ==>
      r.outcome == Rejected(reply.serverMessage.value)
    ensures r.sent.Some? && reply.HttpError? && !TextTruthy(reply.serverMessage) ==>
      r.outcome == Rejected(FetchAllFallback)
  {
    var p := match page case Some(v) => v case None => DefaultPage;
    var s := match size case Some(v) => v case None => DefaultSize;
    var mapError := f => ServerMessageOr(f, FetchAllFallback);
    if !Present(groupId) then
      assert mapError(LocalError("Group ID is required")) == FetchAllFallback;
      Refuse("Group ID is required", mapError)
    else Send(Request.GetGroupExpenses(groupId.value, p, s), reply, mapError)
  }

  function GetExpenseById<T>(groupId: Option<Key>, expenseId: Option<Key>, reply: Reply<T>): (r: Call<T>)
    ensures r.sent.Some? <==> Present(groupId) && Present(expenseId)
    ensures r.sent.Some? ==> r.sent.value == GetExpense(groupId.value, expenseId.value)
    ensures r.sent.None? ==> r.outcome == Rejected(FetchOneFallback)
    ensures r.sent.Some? && reply.Answered? ==> r.outcome == Resolved(reply.data)
    ensures r.sent.Some? && reply.HttpError? && TextTruthy(reply.serverMessage) ==>
      r.outcome == Rejected(reply.serverMessage.value)
    ensures r.sent.Some? && reply.HttpError? && !TextTruthy(reply.serverMessage) ==>
      r.outcome == Rejected(FetchOneFallback)
  {
    var mapError := f => ServerMessageOr(f, FetchOneFallback);
    if !Present(groupId) || !Present(expenseId) then
      assert mapError(LocalError("Group ID and Expense ID are required")) == FetchOneFallback;
      Refuse("Group ID and Expense ID are required", mapError)
    else Send(GetExpense(groupId.value, expenseId.value), reply, mapError)
  }

  /** A missing group id is reported first, whatever else is wrong. */
  lemma GroupIdCheckedFirst(groupId: Option<Key>, e: ExpenseData)
    requires !Present(groupId)
    ensures Check(groupId, e) == Some(GroupIdRequired)
  {
  }

  /** The positivity check only ever fires for a negative total: zero is missing. */
  lemma ZeroTotalIsMissing(groupId: Option<Key>, e: ExpenseData)
    requires Present(groupId) && e.totalAmount == Some(0.0)
    ensures Check(groupId, e) == Some(MissingFields)
  {
  }

  /** A locally invalid expense is never sent and rejects with the fallback. */
  lemma InvalidIsNotSent<T>(groupId: Option<Key>, e: ExpenseData, reply: Reply<T>)
    requires Check(groupId, e).Some?
    ensures CreateExpense(groupId, e, reply) == Call(None, Rejected(CreateFallback))
  {
  }
}
