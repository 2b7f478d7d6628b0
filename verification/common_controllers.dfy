/**
 * The core's common controller: login, the user-exists probe, and the
 * password-reset flow (the reset mail and the reset itself), with the
 * rule that decides whose password may be reset.
 */
module CommonControllers {
  import opened Wrappers
  import opened Http

  /** models.User, reduced to the fields these handlers read or write. */
  datatype User = User(userID: int, username: string, email: string, resetUUID: string, password: string)

  const EmptyUser: User := User(0, "", "", "", "")

  /** common.DBAuth, the database authentication mode. */
  const DBAuth: string := "db_auth"

  /**
   * isUserResetable. `u` is the user (None: nil); `mode` the configured
   * authentication mode or the failure to read it.
   */
  function IsUserResetable(u: Option<User>, mode: Result<string, ()>): (ok: bool)
    ensures ok <==> u.Some? && mode.Ok? && (mode.value == DBAuth || u.value.userID == 1)
  {
    if u.None? then false
    else if mode.Err? then false
    else if mode.value == DBAuth then true
    else u.value.userID == 1
  }

  /** Outside database authentication only the administrator (user 1) can reset a password. */
  lemma OnlyAdminOutsideDbAuth(u: User, mode: string)
    requires mode != DBAuth
    ensures IsUserResetable(Some(u), Ok(mode)) <==> u.userID == 1
  {
  }

  /** The end of a handler: an abort with a status, or the handler's normal answer. */
  datatype Reply = Abort(status: int) | Done

  /** Login: the user auth.Login returns is stored in the session; an error or no user answers 401. */
  datatype LoginOutcome = LoginOutcome(reply: Reply, session: Option<User>)

  function Login(result: Result<Option<User>, ()>): (r: LoginOutcome)
    ensures r.session.Some? <==> r.reply == Done
    ensures r.reply == Done <==> result.Ok? && result.value.Some?
    ensures r.reply != Done ==> r.reply == Abort(StatusUnauthorized)
    ensures r.session.Some? ==> r.session == result.value
  {
    match result
      case Err(_) => LoginOutcome(Abort(StatusUnauthorized), None)
      case Ok(None) => LoginOutcome(Abort(StatusUnauthorized), None)
      case Ok(Some(user)) => LoginOutcome(Done, Some(user))
  }

  /** What UserExists answers, and the query it asked the DAO. */
  datatype ExistsOutcome = ExistsOutcome(reply: Reply, query: User, exists_: Option<bool>)

  /**
   * UserExists: the value goes in the query field the target names (any
   * other target queries nothing); the answer is the DAO's, or 500 when it fails.
   */
  function UserExists(target: string, value: string, dao: (User, string) -> Result<bool, ()>): (r: ExistsOutcome)
    ensures target == "username" ==> r.query == EmptyUser.(username := value)
    ensures target == "email" ==> r.query == EmptyUser.(email := value)
    ensures target != "username" && target != "email" ==> r.query == EmptyUser
    ensures dao(r.query, target).Err? <==> r.reply == Abort(StatusInternalServerError)
    ensures dao(r.query, target).Ok? ==> r.reply == Done && r.exists_ == Some(dao(r.query, target).value)
  {
    var q := if target == "username" then EmptyUser.(username := value)
             else if target == "email" then EmptyUser.(email := value)
             else EmptyUser;
    match dao(q, target)
      case Err(_) => ExistsOutcome(Abort(StatusInternalServerError), q, None)
      case Ok(b) => ExistsOutcome(Done, q, Some(b))
  }

  /**
   * SendResetEmail. `validEmail` is the email pattern's verdict; `lookup`
   * the user found by email; `uuid` the random reset UUID; `updateOk` the
   * outcome of storing it; `mailOk` whether the template, the endpoint,
   * the mail settings and the sending all succeeded.
   */
  datatype ResetMailOutcome = ResetMailOutcome(reply: Reply, uuidStored: Option<User>, mailed: bool)

  function SendResetEmail(email: string, validEmail: bool, lookup: Result<Option<User>, ()>,
                          mode: Result<string, ()>, uuid: string, updateOk: bool, mailOk: bool): (r: ResetMailOutcome)
    ensures !validEmail ==> r.reply == Abort(StatusBadRequest)
    ensures validEmail && lookup.Err? ==> r.reply == Abort(StatusInternalServerError)
    ensures validEmail && lookup == Ok(None) ==> r.reply == Abort(StatusNotFound)
    ensures validEmail && lookup.Ok? && lookup.value.Some? && !IsUserResetable(lookup.value, mode) ==>
      r.reply == Abort(StatusForbidden)
    ensures r.uuidStored.Some? <==>
      validEmail && lookup.Ok? && lookup.value.Some? && IsUserResetable(lookup.value, mode)
    ensures r.uuidStored.Some? ==> r.uuidStored.value == EmptyUser.(resetUUID := uuid, email := email)
    ensures r.mailed <==> r.reply == Done
    ensures r.reply == Done <==> r.uuidStored.Some? && updateOk && mailOk
  {
    if !validEmail then ResetMailOutcome(Abort(StatusBadRequest), None, false)
    else match lookup
      case Err(_) => ResetMailOutcome(Abort(StatusInternalServerError), None, false)
      case Ok(None) => ResetMailOutcome(Abort(StatusNotFound), None, false)
      case Ok(Some(u)) =>
        if !IsUserResetable(Some(u), mode) then ResetMailOutcome(Abort(StatusForbidden), None, false)
        else
          var stored := Some(EmptyUser.(resetUUID := uuid, email := email));
          if !updateOk then ResetMailOutcome(Abort(StatusInternalServerError), stored, false)
          else if !mailOk then ResetMailOutcome(Abort(StatusInternalServerError), stored, false)
          else ResetMailOutcome(Done, stored, true)
  }

  /**
   * ResetPassword. `lookup` is the user found by the reset UUID; `writeOk`
   * the outcome of storing the new password.
   */
  datatype ResetOutcome = ResetOutcome(reply: Reply, written: Option<User>)

  function ResetPassword(resetUUID: string, lookup: Result<Option<User>, ()>, mode: Result<string, ()>,
                         password: string, writeOk: bool): (r: ResetOutcome)
    ensures resetUUID == "" ==> r.reply == Abort(StatusBadRequest)
    ensures resetUUID != "" && lookup.Err? ==> r.reply == Abort(StatusInternalServerError)
    ensures resetUUID != "" && lookup == Ok(None) ==> r.reply == Abort(StatusBadRequest)
    ensures resetUUID != "" && lookup.Ok? && lookup.value.Some? && !IsUserResetable(lookup.value, mode) ==>
      r.reply == Abort(StatusForbidden)
    ensures r.written.Some? <==>
      resetUUID != "" && lookup.Ok? && lookup.value.Some? && IsUserResetable(lookup.value, mode) && password != ""
    ensures r.written.Some? ==> r.written.value == lookup.value.value.(password := password)
    ensures r.reply == Done <==> r.written.Some? && writeOk
  {
    if resetUUID == "" then ResetOutcome(Abort(StatusBadRequest), None)
    else match lookup
      case Err(_) => ResetOutcome(Abort(StatusInternalServerError), None)
      case Ok(None) => ResetOutcome(Abort(StatusBadRequest), None)
      case Ok(Some(user)) =>
        if !IsUserResetable(Some(user), mode) then ResetOutcome(Abort(StatusForbidden), None)
        else if password != "" then
          var updated := user.(password := password);
          if !writeOk then ResetOutcome(Abort(StatusInternalServerError), Some(updated))
          else ResetOutcome(Done, Some(updated))
        else ResetOutcome(Abort(StatusBadRequest), None)
  }

  /**
   * The reset flow never changes a password it may not: whatever the
   * request carries, a user who is not resettable keeps their password,
   * and the refusal is 403 even when the new password is also missing.
   */
  lemma NonResettableUntouched(resetUUID: string, user: User, mode: Result<string, ()>, password: string, writeOk: bool)
    requires resetUUID != "" && !IsUserResetable(Some(user), mode)
    ensures ResetPassword(resetUUID, Ok(Some(user)), mode, password, writeOk) == ResetOutcome(Abort(StatusForbidden), None)
  {
  }

  /** A reset mail is only ever sent to an address whose reset UUID was stored first. */
  lemma MailOnlyAfterStoredUuid(email: string, validEmail: bool, lookup: Result<Option<User>, ()>,
                                mode: Result<string, ()>, uuid: string, updateOk: bool, mailOk: bool)
    ensures SendResetEmail(email, validEmail, lookup, mode, uuid, updateOk, mailOk).mailed ==>
      SendResetEmail(email, validEmail, lookup, mode, uuid, updateOk, mailOk).uuidStored
        == Some(EmptyUser.(resetUUID := uuid, email := email))
      && updateOk
  {
  }
}
