/** `groupService`: one guarded request per operation, each with its own fallback text. */
module GroupService {
  import opened Common
  import opened ApiTypes

  const CreateFallback := "Failed to create group"
  const FetchAllFallback := "Failed to fetch groups"
  const FetchOneFallback := "Failed to fetch group"
  const AddMemberFallback := "Failed to add member"
  const RemoveMemberFallback := "Failed to remove member"

  function CreateGroup<T>(g: GroupData, reply: Reply<T>): (r: Call<T>)
    ensures r.sent.Some? <==> g.name != "" && Present(g.createdBy)
    ensures r.sent.Some? ==> r.sent.value == PostGroup(g)
    ensures r.sent.None? ==> r.outcome == Rejected(CreateFallback)
    ensures r.sent.Some? && reply.Answered? ==> r.outcome == Resolved(reply.data)
    ensures r.sent.Some? && reply.HttpError? && TextTruthy(reply.serverMessage) ==>
      r.outcome == Rejected(reply.serverMessage.value)
    ensures r.sent.Some? && reply.HttpError? && !TextTruthy(reply.serverMessage) ==>
      r.outcome == Rejected(CreateFallback)
  {
    var mapError := f => ServerMessageOr(f, CreateFallback);
    if g.name == "" || !Present(g.createdBy) then
      assert mapError(LocalError("Group name and creator are required")) == CreateFallback;
      Refuse("Group name and creator are required", mapError)
    else Send(PostGroup(g), reply, mapError)
  }

  function GetAllGroups<T>(reply: Reply<T>): (r: Call<T>)
    ensures r.sent == Some(Request.GetAllGroups)
    ensures reply.Answered? ==> r.outcome == Resolved(reply.data)
    ensures reply.HttpError? && TextTruthy(reply.serverMessage) ==> r.outcome == Rejected(reply.serverMessage.value)
    ensures reply.HttpError? && !TextTruthy(reply.serverMessage) ==> r.outcome == Rejected(FetchAllFallback)
  {
    Send(Request.GetAllGroups, reply, f => ServerMessageOr(f, FetchAllFallback))
  }

  function GetGroupById<T>(groupId: Option<Key>, reply: Reply<T>): (r: Call<T>)
    ensures r.sent.Some? <==> Present(groupId)
    ensures r.sent.Some? ==> r.sent.value == GetGroup(groupId.value)
    ensures r.sent.None? ==> r.outcome == Rejected(FetchOneFallback)
    ensures r.sent.Some? && reply.Answered? ==> r.outcome == Resolved(reply.data)
    ensures r.sent.Some? && reply.HttpError? && TextTruthy(reply.serverMessage) ==>
      r.outcome == Rejected(reply.serverMessage.value)
    ensures r.sent.Some? && reply.HttpError? && !TextTruthy(reply.serverMessage) ==>
      r.outcome == Rejected(FetchOneFallback)
  {
    var mapError := f => ServerMessageOr(f, FetchOneFallback);
    if !Present(groupId) then
      assert mapError(LocalError("Group ID is required")) == FetchOneFallback;
      Refuse("Group ID is required", mapError)
    else Send(GetGroup(groupId.value), reply, mapError)
  }

  /** `addMember` posts the body `{userId}` to the group's member list. */
  function AddMember<T>(groupId: Option<Key>, userId: Option<Key>, reply: Reply<T>): (r: Call<T>)
    ensures r.sent.Some? <==> Present(groupId) && Present(userId)
    ensures r.sent.Some? ==> r.sent.value == PostMember(groupId.value, userId.value)
    ensures r.sent.None? ==> r.outcome == Rejected(AddMemberFallback)
    ensures r.sent.Some? && reply.Answered? ==> r.outcome == Resolved(reply.data)
    ensures r.sent.Some? && reply.HttpError? && TextTruthy(reply.serverMessage) ==>
      r.outcome == Rejected(reply.serverMessage.value)
    ensures r.sent.Some? && reply.HttpError? && !TextTruthy(reply.serverMessage) ==>
      r.outcome == Rejected(AddMemberFallback)
  {
    var mapError := f => ServerMessageOr(f, AddMemberFallback);
    if !Present(groupId) || !Present(userId) then
      assert mapError(LocalError("Group ID and User ID are required")) == AddMemberFallback;
      Refuse("Group ID and User ID are required", mapError)
    else Send(PostMember(groupId.value, userId.value), reply, mapError)
  }

  function RemoveMember<T>(groupId: Option<Key>, userId: Option<Key>, reply: Reply<T>): (r: Call<T>)
    ensures r.sent.Some? <==> Present(groupId) && Present(userId)
    ensures r.sent.Some? ==> r.sent.value == DeleteMember(groupId.value, userId.value)
    ensures r.sent.None? ==> r.outcome == Rejected(RemoveMemberFallback)
    ensures r.sent.Some? && reply.Answered? ==> r.outcome == Resolved(reply.data)
    ensures r.sent.Some? && reply.HttpError? && TextTruthy(reply.serverMessage) ==>
      r.outcome == Rejected(reply.serverMessage.value)
    ensures r.sent.Some? && reply.HttpError? && !TextTruthy(reply.serverMessage) ==>
      r.outcome == Rejected(RemoveMemberFallback)
  {
    var mapError := f => ServerMessageOr(f, RemoveMemberFallback);
    if !Present(groupId) || !Present(userId) then
      assert mapError(LocalError("Group ID and User ID are required")) == RemoveMemberFallback;
      Refuse("Group ID and User ID are required", mapError)
    else Send(DeleteMember(groupId.value, userId.value), reply, mapError)
  }

  /** A rejected add or remove carries the server's message exactly when the
      request was sent and failed with a non-empty one; every other rejection,
      local checks included, carries the operation's own fallback. */
  lemma RejectionsAreServerMessageOrFallback<T>(groupId: Option<Key>, userId: Option<Key>, reply: Reply<T>)
    ensures var r := AddMember(groupId, userId, reply);
      r.outcome.Rejected? ==>
        r.outcome.reason == if r.sent.Some? && TextTruthy(reply.serverMessage) then reply.serverMessage.value
                            else AddMemberFallback
    ensures var r := RemoveMember(groupId, userId, reply);
      r.outcome.Rejected? ==>
        r.outcome.reason == if r.sent.Some? && TextTruthy(reply.serverMessage) then reply.serverMessage.value
                            else RemoveMemberFallback
  {
  }
}
