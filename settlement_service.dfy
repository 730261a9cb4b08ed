/** `settlementService.createSettlement`: three local checks in a fixed order, then
    one POST; every failure is rethrown as the server's message or a fixed text. */
module SettlementService {
  import opened Common
  import opened ApiTypes

  datatype SettlementError = MissingFields | AmountNotPositive | SelfPayment

  /** The text of the `Error` each local check throws. */
  function Message(e: SettlementError): string
  {
    match e
    case MissingFields => "Missing required settlement fields"
    case AmountNotPositive => "Amount must be greater than 0"
    case SelfPayment => "Cannot settle with yourself"
  }

  const Fallback := "Failed to create settlement"

  /** Every required field is truthy; a zero amount is falsy, so it is missing. */
  predicate HasAllFields(s: SettlementData)
  {
    Present(s.groupId) && Present(s.fromUser) && Present(s.toUser) && NumTruthy(s.amount)
  }

  /** The guard chain: missing fields, then a non-positive amount, then paying oneself. */
  function Check(s: SettlementData): (e: Option<SettlementError>)
    ensures e == Some(MissingFields) <==> !HasAllFields(s)
    ensures e == Some(AmountNotPositive) <==> HasAllFields(s) && s.amount.value < 0.0
    ensures e == Some(SelfPayment) <==>
      HasAllFields(s) && s.amount.value > 0.0 && s.fromUser.value == s.toUser.value
    ensures e.None? <==> HasAllFields(s) && s.amount.value > 0.0 && s.fromUser.value != s.toUser.value
  {
    if !HasAllFields(s) then Some(MissingFields)
    else if s.amount.value <= 0.0 then Some(AmountNotPositive)
    else if s.fromUser == s.toUser then Some(SelfPayment)
    else None
  }

  function CreateSettlement<T>(s: SettlementData, reply: Reply<T>): (r: Call<T>)
    ensures r.sent.Some? <==> Check(s).None?
    ensures r.sent.Some? ==> r.sent.value == PostSettlement(s)
    ensures r.sent.None? ==> r.outcome == Rejected(Fallback)
    ensures r.sent.Some? && reply.Answered? ==> r.outcome == Resolved(reply.data)
    ensures r.sent.Some? && reply.HttpError? && TextTruthy(reply.serverMessage) ==>
      r.outcome == Rejected(reply.serverMessage.value)
    ensures r.sent.Some? && reply.HttpError? && !TextTruthy(reply.serverMessage) ==>
      r.outcome == Rejected(Fallback)
  {
    var mapError := f => ServerMessageOr(f, Fallback);
    match Check(s)
    case Some(e) =>
      assert mapError(LocalError(Message(e))) == Fallback;
      Refuse(Message(e), mapError)
    case None => Send(PostSettlement(s), reply, mapError)
  }

  /** A zero amount is reported as missing, never as non-positive. */
  lemma ZeroAmountIsMissing(s: SettlementData)
    requires s.amount == Some(0.0)
    ensures Check(s) == Some(MissingFields)
  {
  }

  /** None of the local validation texts ever reaches the caller: a rejected
      settlement carries the fallback or the server's message. */
  lemma LocalMessagesNeverSurface<T>(s: SettlementData, reply: Reply<T>, e: SettlementError)
    requires !(reply.HttpError? && reply.serverMessage == Some(Message(e)))
    ensures CreateSettlement(s, reply).outcome != Rejected(Message(e))
  {
  }

  /** An invalid settlement is not sent and always rejects with the fallback text. */
  lemma InvalidIsNotSent<T>(s: SettlementData, reply: Reply<T>)
    requires Check(s).Some?
    ensures CreateSettlement(s, reply) == Call(None, Rejected(Fallback))
  {
  }
}
