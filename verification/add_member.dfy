/**
 * The "add member" dialog of a project: the user-name check against the
 * project's members, the autocomplete list, the validity of the form, the
 * error message chosen when adding fails, and the reset on opening.
 */
module AddMember {
  import opened Wrappers
  import opened GoStrings
  import opened PortalGuards

  const MaxSuggestions: nat := 10
  const UsernameIsRequired: string := "MEMBER.USERNAME_IS_REQUIRED"
  const UsernameAlreadyExists: string := "MEMBER.USERNAME_ALREADY_EXISTS"
  const UsernameDoesNotExist: string := "MEMBER.USERNAME_DOES_NOT_EXISTS"
  const UnknownError: string := "MEMBER.UNKNOWN_ERROR"

  /** Some entry of the member list has this entity name. */
  predicate HasMember(memberList: seq<Member>, name: string) {
    exists m :: m in memberList && m.entityName == name
  }

  /** A user name worth suggesting: it starts with what was typed and is not yet a member. */
  predicate Suggestible(typed: string, memberList: seq<Member>, username: string) {
    HasPrefix(username, typed) && !HasMember(memberList, username)
  }

  /** The suggestible user names, in user-list order. */
  function Candidates(users: seq<string>, typed: string, memberList: seq<Member>): (c: seq<string>)
    ensures |c| <= |users|
    ensures forall x :: x in c ==> x in users && Suggestible(typed, memberList, x)
    ensures forall x :: x in users && Suggestible(typed, memberList, x) ==> x in c
  {
    if users == [] then []
    else
      var rest := Candidates(users[..|users| - 1], typed, memberList);
      var u := users[|users| - 1];
      assert forall x :: x in users ==> x in users[..|users| - 1] || x == u;
      if Suggestible(typed, memberList, u) then rest + [u] else rest
  }

  /**
   * The autocomplete list: the first ten suggestible user names. Every entry
   * starts with the typed text and names a user who is not a member, and
   * when fewer than ten are shown, every such user is shown.
   */
  function Suggestions(users: seq<string>, typed: string, memberList: seq<Member>): (s: seq<string>)
    ensures |s| <= MaxSuggestions
    ensures s <= Candidates(users, typed, memberList)
    ensures forall x :: x in s ==> x in users && HasPrefix(x, typed) && !HasMember(memberList, x)
    ensures |s| < MaxSuggestions ==> forall x :: x in users && Suggestible(typed, memberList, x) ==> x in s
  {
    var c := Candidates(users, typed, memberList);
    if |c| <= MaxSuggestions then c
    else
      assert forall x :: x in c[..MaxSuggestions] ==> x in c;
      c[..MaxSuggestions]
  }

  /** One more user extends the list only when it is suggestible and the list is not full. */
  lemma SuggestionsStep(users: seq<string>, k: nat, typed: string, memberList: seq<Member>)
    requires k < |users|
    ensures Suggestions(users[..k + 1], typed, memberList) ==
      if Suggestible(typed, memberList, users[k]) && |Suggestions(users[..k], typed, memberList)| < MaxSuggestions
      then Suggestions(users[..k], typed, memberList) + [users[k]]
      else Suggestions(users[..k], typed, memberList)
  {
    assert users[..k + 1][..k] == users[..k];
  }

  /** The forEach loop that fills the autocomplete list, pushing while it holds fewer than ten names. */
  method BuildSuggestions(users: seq<string>, typed: string, memberList: seq<Member>) returns (selected: seq<string>)
    ensures selected == Suggestions(users, typed, memberList)
  {
    selected := [];
    var k := 0;
    while k < |users|
      invariant 0 <= k <= |users|
      invariant selected == Suggestions(users[..k], typed, memberList)
    {
      SuggestionsStep(users, k, typed, memberList);
      var u := users[k];
      if HasPrefix(u, typed) && !HasMember(memberList, u) {
        if |selected| < MaxSuggestions {
          selected := selected + [u];
        }
      }
      k := k + 1;
    }
    assert users[..k] == users;
  }

  /** What the lookup of a typed name found: an exact entity-name match among the returned members. */
  function NameTaken(members: Result<seq<Member>, ()>, name: string): (taken: bool)
    ensures taken <==> members.Ok? && HasMember(members.value, name)
  {
    members.Ok? && exists m :: m in members.value && m.entityName == name
  }

  /**
   * The lookup and the autocomplete agree: a name the autocomplete offers is
   * never refused as taken by a lookup over the same members, while every
   * member's own name is; a failed lookup refuses nothing.
   */
  lemma SuggestedNameNotTaken(users: seq<string>, typed: string, memberList: seq<Member>, x: string)
    ensures x in Suggestions(users, typed, memberList) ==> !NameTaken(Ok(memberList), x)
    ensures forall m :: m in memberList ==> NameTaken(Ok(memberList), m.entityName)
    ensures !NameTaken(Err(()), x)
  {
  }

  /** Why adding a member failed: an HTTP response (and whether the application handles it itself), or something else. */
  datatype SubmitError = ResponseError(status: int, appLevel: bool) | OtherError

  /** The feedback after an add: success, the application-level error handler, a translated message, or nothing. */
  datatype Feedback = AddedSuccess | AppLevelError(status: int) | Message(key: string) | Silent

  /** The message for a failed add: 404 and 409 have their own, anything else is unknown. */
  function ErrorMessageKey(status: int): (key: string)
    ensures key == UsernameDoesNotExist <==> status == 404
    ensures key == UsernameAlreadyExists <==> status == 409
    ensures key == UnknownError <==> status != 404 && status != 409
  {
    if status == 404 then UsernameDoesNotExist
    else if status == 409 then UsernameAlreadyExists
    else UnknownError
  }

  function SubmitFeedback(result: Result<(), SubmitError>): (f: Feedback)
    ensures f == AddedSuccess <==> result.Ok?
    ensures f.AppLevelError? <==> result.Err? && result.error.ResponseError? && result.error.appLevel
    ensures f.Message? ==> result.Err? && result.error.ResponseError? && f.key == ErrorMessageKey(result.error.status)
    ensures f == Silent <==> result == Err(OtherError)
  {
    match result
      case Ok(_) => AddedSuccess
      case Err(ResponseError(status, appLevel)) =>
        if appLevel then AppLevelError(status) else Message(ErrorMessageKey(status))
      case Err(OtherError) => Silent
  }

  /** The member-name form control: whether it passes its validators, and its value. */
  datatype Control = Control(valid: bool, value: string)

  /** AddMemberComponent's state. */
  class AddMemberComponent {
    var memberList: seq<Member>
    var entityName: Option<string>
    var roleId: Option<int>
    var addMemberOpened: bool
    var hasChanged: bool
    var isMemberNameValid: bool
    var memberTooltip: string
    var checkOnGoing: bool
    var selectUserName: seq<string>
    var userLists: Option<seq<string>>
    /** Whether ngOnInit subscribed the name checker. */
    var nameCheckerWired: bool

    constructor(memberList: seq<Member>)
      ensures this.memberList == memberList && entityName.None? && roleId.None?
      ensures isMemberNameValid && memberTooltip == UsernameIsRequired && !checkOnGoing
      ensures selectUserName == [] && userLists.None? && !nameCheckerWired
      ensures !addMemberOpened && !hasChanged
    {
      this.memberList := memberList;
      entityName := None;
      roleId := None;
      addMemberOpened := false;
      hasChanged := false;
      isMemberNameValid := true;
      memberTooltip := UsernameIsRequired;
      checkOnGoing := false;
      selectUserName := [];
      userLists := None;
      nameCheckerWired := false;
    }

    /** isValid: the form is valid, the name passed its check, and no check is in flight. */
    predicate IsValid(formValid: bool)
      reads this
      ensures IsValid(formValid) ==> formValid
      ensures checkOnGoing ==> !IsValid(formValid)
      ensures !isMemberNameValid ==> !IsValid(formValid)
      ensures formValid && isMemberNameValid && !checkOnGoing ==> IsValid(formValid)
    {
      formValid && isMemberNameValid && !checkOnGoing
    }

    /**
     * ngOnInit: only for a project on which the user has the administrator
     * role are the user list loaded and the name checker subscribed.
     */
    method OnInit(hasProjectAdminRole: Option<bool>, users: Result<seq<string>, ()>)
      modifies this
      ensures nameCheckerWired == (hasProjectAdminRole == Some(true))
      ensures userLists == if nameCheckerWired && users.Ok? then Some(users.value) else old(userLists)
      ensures isMemberNameValid == old(isMemberNameValid) && checkOnGoing == old(checkOnGoing)
      ensures selectUserName == old(selectUserName) && memberList == old(memberList)
      ensures entityName == old(entityName) && roleId == old(roleId) && addMemberOpened == old(addMemberOpened)
      ensures hasChanged == old(hasChanged) && memberTooltip == old(memberTooltip)
    {
      nameCheckerWired := hasProjectAdminRole == Some(true);
      if nameCheckerWired && users.Ok? {
        userLists := Some(users.value);
      }
    }

    /** The autocomplete: rebuild the suggestion list for the typed text. */
    method Autocomplete(users: seq<string>, typed: string)
      modifies this
      ensures selectUserName == Suggestions(users, typed, memberList)
      ensures memberList == old(memberList) && isMemberNameValid == old(isMemberNameValid)
      ensures checkOnGoing == old(checkOnGoing) && memberTooltip == old(memberTooltip)
      ensures userLists == old(userLists) && nameCheckerWired == old(nameCheckerWired) && entityName == old(entityName)
      ensures roleId == old(roleId) && addMemberOpened == old(addMemberOpened) && hasChanged == old(hasChanged)
    {
      selectUserName := BuildSuggestions(users, typed, memberList);
    }

    /**
     * The name checker's handler for a typed name (after its debounce). A
     * valid name starts the member lookup and rebuilds the suggestions when
     * users are loaded; an invalid one gets the "required" tooltip. Returns
     * whether the lookup was started.
     */
    method NameChanged(cont: Option<Control>) returns (lookupStarted: bool)
      modifies this
      ensures lookupStarted <==> nameCheckerWired && cont.Some? && cont.value.valid
      ensures !nameCheckerWired || cont.None? ==>
        isMemberNameValid == old(isMemberNameValid) && checkOnGoing == old(checkOnGoing)
        && memberTooltip == old(memberTooltip) && selectUserName == old(selectUserName)
      ensures nameCheckerWired && cont.Some? ==> isMemberNameValid == cont.value.valid
      ensures lookupStarted ==> checkOnGoing && !IsValid(true) && memberTooltip == old(memberTooltip)
      ensures lookupStarted ==>
        selectUserName == if userLists.Some? && userLists.value != [] then Suggestions(userLists.value, cont.value.value, memberList)
                          else old(selectUserName)
      ensures nameCheckerWired && cont.Some? && !cont.value.valid ==>
        memberTooltip == UsernameIsRequired && checkOnGoing == old(checkOnGoing) && selectUserName == old(selectUserName)
      ensures memberList == old(memberList) && userLists == old(userLists) && nameCheckerWired == old(nameCheckerWired)
      ensures entityName == old(entityName) && roleId == old(roleId)
      ensures addMemberOpened == old(addMemberOpened) && hasChanged == old(hasChanged)
    {
      lookupStarted := false;
      if !nameCheckerWired || cont.None? {
        return;
      }
      isMemberNameValid := cont.value.valid;
      if cont.value.valid {
        checkOnGoing := true;
        lookupStarted := true;
        if userLists.Some? && userLists.value != [] {
          Autocomplete(userLists.value, cont.value.value);
        }
      } else {
        memberTooltip := UsernameIsRequired;
      }
    }

    /** The member lookup for `name` answered: a taken name is refused; the check is over either way. */
    method NameLookupAnswered(members: Result<seq<Member>, ()>, name: string)
      modifies this
      ensures !checkOnGoing
      ensures NameTaken(members, name) ==> !isMemberNameValid && !IsValid(true) && memberTooltip == UsernameAlreadyExists
      ensures !NameTaken(members, name) ==> isMemberNameValid == old(isMemberNameValid) && memberTooltip == old(memberTooltip)
      ensures selectUserName == old(selectUserName) && memberList == old(memberList) && entityName == old(entityName)
      ensures userLists == old(userLists) && nameCheckerWired == old(nameCheckerWired)
      ensures roleId == old(roleId) && addMemberOpened == old(addMemberOpened) && hasChanged == old(hasChanged)
    {
      if NameTaken(members, name) {
        isMemberNameValid := false;
        memberTooltip := UsernameAlreadyExists;
      }
      checkOnGoing := false;
    }

    /** onSubmit: returns whether the add request is sent; an unset or empty name sends nothing. */
    method OnSubmit() returns (sent: bool)
      ensures sent <==> entityName.Some? && entityName.value != ""
    {
      sent := entityName.Some? && |entityName.value| != 0;
    }

    /** The add request answered: the dialog closes and the feedback is chosen. */
    method SubmitAnswered(result: Result<(), SubmitError>) returns (feedback: Feedback)
      modifies this
      ensures feedback == SubmitFeedback(result)
      ensures !addMemberOpened
      ensures entityName == old(entityName) && memberList == old(memberList) && isMemberNameValid == old(isMemberNameValid)
      ensures roleId == old(roleId) && hasChanged == old(hasChanged) && memberTooltip == old(memberTooltip)
      ensures checkOnGoing == old(checkOnGoing) && selectUserName == old(selectUserName)
      ensures userLists == old(userLists) && nameCheckerWired == old(nameCheckerWired)
    {
      addMemberOpened := false;
      feedback := SubmitFeedback(result);
    }

    /** selectedName: picking a suggestion fills the name and closes the list. */
    method SelectedName(username: string)
      modifies this
      ensures entityName == Some(username) && selectUserName == []
      ensures isMemberNameValid == old(isMemberNameValid) && checkOnGoing == old(checkOnGoing)
      ensures memberList == old(memberList) && roleId == old(roleId)
      ensures addMemberOpened == old(addMemberOpened) && hasChanged == old(hasChanged) && memberTooltip == old(memberTooltip)
      ensures userLists == old(userLists) && nameCheckerWired == old(nameCheckerWired)
    {
      entityName := Some(username);
      selectUserName := [];
    }

    /** leaveInput closes the suggestion list. */
    method LeaveInput()
      modifies this
      ensures selectUserName == []
      ensures entityName == old(entityName) && isMemberNameValid == old(isMemberNameValid)
      ensures checkOnGoing == old(checkOnGoing) && memberList == old(memberList)
      ensures roleId == old(roleId) && addMemberOpened == old(addMemberOpened) && hasChanged == old(hasChanged)
      ensures memberTooltip == old(memberTooltip) && userLists == old(userLists) && nameCheckerWired == old(nameCheckerWired)
    {
      selectUserName := [];
    }

    /** openAddMemberModal: a fresh member with role 1 and an empty name, a valid name and no suggestions. */
    method OpenAddMemberModal()
      modifies this
      ensures addMemberOpened && !hasChanged
      ensures roleId == Some(1) && entityName == Some("")
      ensures isMemberNameValid && memberTooltip == UsernameIsRequired && selectUserName == []
      ensures checkOnGoing == old(checkOnGoing) && memberList == old(memberList)
      ensures userLists == old(userLists) && nameCheckerWired == old(nameCheckerWired)
    {
      entityName := None;
      roleId := None;
      addMemberOpened := true;
      hasChanged := false;
      roleId := Some(1);
      entityName := Some("");
      isMemberNameValid := true;
      memberTooltip := UsernameIsRequired;
      selectUserName := [];
    }
  }
}
