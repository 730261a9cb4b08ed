/** The "Create New Group" form: a name, a description and, for an admin, a list of
    other users to add as members. */
module CreateGroupPage {
  import opened Common
  import opened ApiTypes
  import GroupService
  import AuthContext

  /** A user as the user list returns it. */
  datatype UserSummary = UserSummary(id: Key, name: string, email: string)

  function UserIds(users: seq<UserSummary>): (ids: seq<Key>)
    ensures |ids| == |users|
    ensures forall i :: 0 <= i < |users| ==> ids[i] == users[i].id
  {
    seq(|users|, i requires 0 <= i < |users| => users[i].id)
  }

  /** `users.filter(u => u.id !== user.id)`: everyone but the current user, in
      order; when the current user has no id nobody is filtered out. */
  function Candidates(users: seq<UserSummary>, me: Option<Key>): (r: seq<UserSummary>)
    ensures forall u :: u in r ==> Some(u.id) != me
    ensures forall u :: multiset(r)[u] == if Some(u.id) == me then 0 else multiset(users)[u]
  {
    if users == [] then []
    else
      var init, last := users[..|users| - 1], users[|users| - 1];
      assert users == init + [last];
      if Some(last.id) == me then Candidates(init, me) else Candidates(init, me) + [last]
  }

  /** Without an id to compare with, every user is a candidate. */
  lemma {:induction false} NoIdFiltersNobody(users: seq<UserSummary>)
    ensures Candidates(users, None) == users
  {
    if users != [] {
      assert users == users[..|users| - 1] + [users[|users| - 1]];
      NoIdFiltersNobody(users[..|users| - 1]);
    }
  }

  const NameRequiredMessage := "Group name is required"

  /** A change to one field of the form, as `handleChange` receives it. */
  datatype GroupFormChange = NameChange(name: string) | DescriptionChange(description: string)

  class CreateGroupForm {
    /** `user.id` of the signed-in user. */
    const me: Option<Key>
    var name: string
    var description: string
    var allUsers: seq<UserSummary>
    var selectedUsers: seq<Key>
    var error: string
    var loading: bool
    var loadingUsers: bool

    /** The user list never shows the current user, and the selection holds each
        listed user at most once and nobody who is not listed. */
    ghost predicate Valid()
      reads this
    {
      && (forall u :: u in allUsers ==> Some(u.id) != me)
      && Distinct(selectedUsers)
      && (forall k :: k in selectedUsers ==> k in UserIds(allUsers))
    }

    constructor(me: Option<Key>)
      ensures Valid()
      ensures this.me == me && name == "" && description == ""
      ensures allUsers == [] && selectedUsers == [] && error == ""
      ensures !loading && loadingUsers
    {
      this.me := me;
      name, description := "", "";
      allUsers, selectedUsers := [], [];
      error, loading, loadingUsers := "", false, true;
    }

    /** The mount effect: only an admin asks for the user list, which replaces
        `allUsers` without the current user when it arrives; a failed request
        leaves the list empty as it was. Loading ends either way. */
    method Mount(session: AuthContext.AuthSession, usersReply: Reply<seq<UserSummary>>) returns (requested: bool)
      modifies this`allUsers, this`loadingUsers
      ensures requested == session.IsAdmin()
      ensures !loadingUsers
      ensures requested && usersReply.Answered? ==> allUsers == Candidates(usersReply.data, me)
      ensures !(requested && usersReply.Answered?) ==> allUsers == old(allUsers)
      ensures old(Valid()) && old(selectedUsers) == [] ==> Valid()
    {
      requested := session.IsAdmin();
      if requested {
        match usersReply {
          case Answered(users) => allUsers := Candidates(users, me);
          case HttpError(_, _) =>
        }
      }
      loadingUsers := false;
    }

    /** `handleChange`: the named field takes the new text. */
    method HandleChange(change: GroupFormChange)
      modifies this`name, this`description
      ensures change.NameChange? ==> name == change.name && description == old(description)
      ensures change.DescriptionChange? ==> description == change.description && name == old(name)
    {
      match change {
        case NameChange(text) => name := text;
        case DescriptionChange(text) => description := text;
      }
    }

    /** `handleUserSelect`: a selected user is deselected, any other appended.
        Clicking a listed user keeps the form valid. */
    method HandleUserSelect(userId: Key)
      modifies this`selectedUsers
      ensures selectedUsers == Toggle(old(selectedUsers), userId)
      ensures old(Valid()) && userId in UserIds(allUsers) ==> Valid()
    {
      ghost var before := selectedUsers;
      selectedUsers := Toggle(selectedUsers, userId);
      if Distinct(before) {
        ToggleKeepsDistinct(before, userId);
      }
      forall k | k in selectedUsers && k != userId ensures k in before {
        assert multiset(selectedUsers)[k] == multiset(before)[k];
      }
    }

    /** The group `handleSubmit` sends. */
    function Payload(): (g: GroupData)
      reads this
      ensures g.name == name && g.description == description
      ensures g.createdBy == me && g.memberIds == selectedUsers
    {
      GroupData(name, description, me, selectedUsers)
    }

    /** `handleSubmit`: a blank name is refused by the page; otherwise the group
        is posted, the reply's group id is where the page navigates, and any
        rejection shows the page's fallback. In a valid form the creator is never
        among the member ids sent. */
    method HandleSubmit(reply: Reply<Key>) returns (sent: Option<Request>, navigateTo: Option<Route>)
      modifies this`error, this`loading
      ensures !loading
      ensures AllWhitespace(name) ==> sent.None? && navigateTo.None? && error == NameRequiredMessage
      ensures !AllWhitespace(name) ==>
        && (sent.Some? <==> Present(me))
        && (sent.Some? ==> sent.value == PostGroup(Payload()))
        && (navigateTo.Some? <==> sent.Some? && reply.Answered?)
        && (navigateTo.Some? ==> navigateTo.value == GroupRoute(reply.data) && error == "")
        && (navigateTo.None? ==> error == GroupService.CreateFallback)
      ensures Valid() && me.Some? && sent.Some? ==> me.value !in sent.value.group.memberIds
    {
      error := "";
      loading := true;
      sent, navigateTo := None, None;
      TrimEmptyIffAllWhitespace(name);
      if Trim(name) == "" {
        error := PageErrorText(PageError(NameRequiredMessage), GroupService.CreateFallback);
      } else {
        var call := GroupService.CreateGroup(Payload(), reply);
        sent := call.sent;
        match call.outcome {
          case Resolved(groupId) =>
            navigateTo := Some(GroupRoute(groupId));
          case Rejected(reason) =>
            error := PageErrorText(ThrownString(reason), GroupService.CreateFallback);
        }
      }
      loading := false;
      if Valid() && me.Some? && me.value in selectedUsers {
        var k :| 0 <= k < |allUsers| && UserIds(allUsers)[k] == me.value;
        assert allUsers[k] in allUsers;
      }
    }
  }
}
