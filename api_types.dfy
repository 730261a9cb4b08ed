/** The request payloads the API services send, the replies they get back, and the
    way every service turns a failure into the string it throws. */
module ApiTypes {
  import opened Common

  datatype SplitType = Equal | Exact | Percentage

  /** One entry of an expense's `splits`: `userId` plus at most one of `amount`
      and `percentage` (`None` is a field left out of the JSON). */
  datatype SplitEntry = SplitEntry(userId: Key, amount: Option<real>, percentage: Option<real>)

  datatype ExpenseData = ExpenseData(
    description: string,
    totalAmount: Option<real>,
    paidBy: Option<Key>,
    splitType: SplitType,
    splits: seq<SplitEntry>)

  datatype SettlementData = SettlementData(
    groupId: Option<Key>,
    fromUser: Option<Key>,
    toUser: Option<Key>,
    amount: Option<real>)

  datatype GroupData = GroupData(
    name: string,
    description: string,
    createdBy: Option<Key>,
    memberIds: seq<Key>)

  datatype RegisterData = RegisterData(name: string, email: string, password: string, phone: string)

  datatype Credentials = Credentials(email: string, password: string)

  /** The one HTTP request a service call sends, with its body or parameters. */
  datatype Request =
    | PostSettlement(settlement: SettlementData)
    | PostExpense(groupId: Key, expense: ExpenseData)
    | GetGroupExpenses(groupId: Key, page: int, size: int)
    | GetExpense(groupId: Key, expenseId: Key)
    | PostGroup(group: GroupData)
    | GetAllGroups
    | GetGroup(groupId: Key)
    | PostMember(groupId: Key, userId: Key)
    | DeleteMember(groupId: Key, userId: Key)
    | PostRegister(user: RegisterData)
    | PostLogin(credentials: Credentials)

  /** What the server answers if the request is sent: the response body, or an
      HTTP error carrying the body's optional `message` and the error's own
      `message` text. The network is outside the model; the reply is an input. */
  datatype Reply<T> =
    | Answered(data: T)
    | HttpError(serverMessage: Option<string>, errorMessage: string)

  /** What a service call throws from inside its `try`: an `Error` built by the
      service's own validation, or the HTTP error. */
  datatype Failure =
    | LocalError(message: string)
    | RequestFailed(serverMessage: Option<string>, errorMessage: string)

  /** How a service's promise settles: with the response body, or by throwing a string. */
  datatype Outcome<T> = Resolved(value: T) | Rejected(reason: string)

  /** One service call: the request it sent, if any, and how it settled. */
  datatype Call<T> = Call(sent: Option<Request>, outcome: Outcome<T>)

  /** `error.response?.data?.message || fallback`: a local `Error` has no
      `response`, so only a server message can replace the fallback. */
  function ServerMessageOr(f: Failure, fallback: string): (r: string)
    ensures f.LocalError? ==> r == fallback
    ensures f.RequestFailed? && TextTruthy(f.serverMessage) ==> r == f.serverMessage.value
    ensures f.RequestFailed? && !TextTruthy(f.serverMessage) ==> r == fallback
  {
    match f
    case LocalError(_) => fallback
    case RequestFailed(serverMessage, _) => FirstTruthy(serverMessage, fallback)
  }

  /** `error.response?.data?.message || error.message || fallback`. */
  function ServerOrErrorMessageOr(f: Failure, fallback: string): (r: string)
    ensures f.LocalError? && f.message != "" ==> r == f.message
    ensures f.LocalError? && f.message == "" ==> r == fallback
    ensures f.RequestFailed? && TextTruthy(f.serverMessage) ==> r == f.serverMessage.value
    ensures f.RequestFailed? && !TextTruthy(f.serverMessage) && f.errorMessage != "" ==> r == f.errorMessage
    ensures f.RequestFailed? && !TextTruthy(f.serverMessage) && f.errorMessage == "" ==> r == fallback
  {
    match f
    case LocalError(message) => FirstTruthy(Some(message), fallback)
    case RequestFailed(serverMessage, errorMessage) =>
      FirstTruthy(serverMessage, FirstTruthy(Some(errorMessage), fallback))
  }

  /** A local check threw `Error(message)`: nothing is sent and the failure is
      rethrown through the service's `catch`. */
  function Refuse<T>(message: string, mapError: Failure -> string): (r: Call<T>)
    ensures r.sent.None?
    ensures r.outcome == Rejected(mapError(LocalError(message)))
  {
    Call(None, Rejected(mapError(LocalError(message))))
  }

  /** Every local check passed: `request` is sent and the server's reply decides. */
  function Send<T>(request: Request, reply: Reply<T>, mapError: Failure -> string): (r: Call<T>)
    ensures r.sent == Some(request)
    ensures reply.Answered? ==> r.outcome == Resolved(reply.data)
    ensures reply.HttpError? ==>
      r.outcome == Rejected(mapError(RequestFailed(reply.serverMessage, reply.errorMessage)))
  {
    match reply
    case Answered(data) => Call(Some(request), Resolved(data))
    case HttpError(serverMessage, errorMessage) =>
      Call(Some(request), Rejected(mapError(RequestFailed(serverMessage, errorMessage))))
  }

  /** What a page's `catch (err)` sees: its own `Error` or a string a service threw. */
  datatype Caught = PageError(message: string) | ThrownString(text: string)

  /** `err.message || fallback` in a page's `catch`: a thrown string has no
      `message`, so every service rejection shows the page's fallback. */
  function PageErrorText(err: Caught, fallback: string): (r: string)
    ensures err.ThrownString? ==> r == fallback
    ensures err.PageError? && err.message != "" ==> r == err.message
  {
    match err
    case PageError(message) => FirstTruthy(Some(message), fallback)
    case ThrownString(_) => fallback
  }
}
