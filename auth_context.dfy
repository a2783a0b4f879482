/** The client's session state (src/contexts/AuthContext.tsx): the signed-in
    teacher, kept in React state and mirrored under one local-storage key, and
    the calls to the teacher-auth function that change it. */
module AuthContext {
  import opened Types

  /** The local-storage key holding the signed-in teacher. */
  const StorageKey := "teacher"

  const InvalidCredentials := "Invalid credentials"
  const LoginFailed := "Login failed. Please try again."
  const SignupFailed := "Signup failed. Please try again."

  /** The body `login` sends. It names the account `username`; the handler
      reads a field called `email`, and is modelled separately. */
  datatype LoginBody = LoginBody(action: string, username: string, password: string)

  /** The body `signup` sends; an absent email is None. */
  datatype SignupBody = SignupBody(action: string, username: string, password: string, fullName: string,
                                   email: Option<string>)

  /** The parsed `data` of a reply: its `error` and `teacher` fields, None when absent. */
  datatype ReplyData = ReplyData(error: Option<string>, teacher: Option<Teacher>)

  /** What `functions.invoke` resolves to: an `error`, or a `data` that may be null. */
  datatype Reply = InvokeFailed | Replied(data: Option<ReplyData>)

  /** `{}` or `{ error }`. */
  datatype AuthResult = Ok | Failed(error: string)

  /** A string field is truthy when present and non-empty. */
  predicate Truthy(s: Option<string>)
  {
    s.Some? && s.value != ""
  }

  /** What `login` returns for a reply. A null `data` makes reading
      `data.error` throw, which lands in the same catch as an invocation error. */
  function LoginResult(reply: Reply): (r: AuthResult)
    ensures r.Ok? <==> reply.Replied? && reply.data.Some? && !Truthy(reply.data.value.error) &&
                       reply.data.value.teacher.Some?
    ensures reply.Replied? && reply.data.Some? && Truthy(reply.data.value.error) ==>
      r == Failed(reply.data.value.error.value)
    ensures (reply.Replied? && reply.data.Some? && !Truthy(reply.data.value.error) &&
             reply.data.value.teacher.None?) ==> r == Failed(InvalidCredentials)
    ensures (reply.InvokeFailed? || reply.data.None?) ==> r == Failed(LoginFailed)
  {
    match reply
    case InvokeFailed => Failed(LoginFailed)
    case Replied(None) => Failed(LoginFailed)
    case Replied(Some(d)) =>
      if Truthy(d.error) then Failed(d.error.value)
      else if d.teacher.Some? then Ok
      else Failed(InvalidCredentials)
  }

  /** What `signup` returns for a reply. It never reads `data.teacher`. */
  function SignupResult(reply: Reply): (r: AuthResult)
    ensures r.Ok? <==> reply.Replied? && reply.data.Some? && !Truthy(reply.data.value.error)
    ensures reply.Replied? && reply.data.Some? && Truthy(reply.data.value.error) ==>
      r == Failed(reply.data.value.error.value)
    ensures (reply.InvokeFailed? || reply.data.None?) ==> r == Failed(SignupFailed)
  {
    match reply
    case InvokeFailed => Failed(SignupFailed)
    case Replied(None) => Failed(SignupFailed)
    case Replied(Some(d)) => if Truthy(d.error) then Failed(d.error.value) else Ok
  }

  /** An error field wins over a teacher in the same reply. */
  lemma ErrorFieldWins(e: string, t: Teacher)
    requires e != ""
    ensures LoginResult(Replied(Some(ReplyData(Some(e), Some(t))))) == Failed(e)
    ensures LoginResult(Replied(Some(ReplyData(Some(""), Some(t))))) == Ok
  {
  }

  /** The teacher after the mount effect: the stored one when the key is
      present, otherwise whatever was there. */
  function Restored(storage: map<string, Teacher>, current: Option<Teacher>): (t: Option<Teacher>)
    ensures StorageKey in storage ==> t == Some(storage[StorageKey])
    ensures StorageKey !in storage ==> t == current
  {
    if StorageKey in storage then Some(storage[StorageKey]) else current
  }

  /** After logging out, a fresh page load restores nobody. */
  lemma RestoreAfterLogout(storage: map<string, Teacher>)
    ensures Restored(storage - {StorageKey}, None) == None
  {
  }

  /** After logging in, a fresh page load restores the same teacher. */
  lemma RestoreAfterLogin(storage: map<string, Teacher>, t: Teacher, current: Option<Teacher>)
    ensures Restored(storage[StorageKey := t], current) == Some(t)
  {
  }

  /** `isSuperAdmin`. */
  function IsSuperAdminOf(teacher: Option<Teacher>): (b: bool)
    ensures b <==> teacher.Some? && teacher.value.access_level == SuperAdmin
  {
    match teacher
    case None => false
    case Some(t) => t.access_level.SuperAdmin?
  }

  class Provider {
    var teacher: Option<Teacher>
    var loading: bool
    /** The browser's local storage, reduced to the values this provider writes. */
    var storage: map<string, Teacher>

    /** Mounting starts with nobody signed in and `loading` set. */
    constructor (storage: map<string, Teacher>)
      ensures teacher == None && loading && this.storage == storage
    {
      teacher := None;
      loading := true;
      this.storage := storage;
    }

    function IsSuperAdmin(): bool
      reads this
    {
      IsSuperAdminOf(teacher)
    }

    /** The mount effect: restore from storage, then clear `loading`. */
    method RestoreSession()
      modifies this
      ensures teacher == Restored(old(storage), old(teacher)) && !loading && storage == old(storage)
    {
      if StorageKey in storage {
        teacher := Some(storage[StorageKey]);
      }
      loading := false;
    }

    /** `login`: sends the body, then on success sets the teacher and mirrors
        it into storage; every failure leaves both as they were. */
    method Login(username: string, password: string, reply: Reply) returns (sent: LoginBody, result: AuthResult)
      modifies this
      ensures sent == LoginBody("login", username, password)
      ensures result == LoginResult(reply)
      ensures result.Ok? ==> teacher == reply.data.value.teacher && storage == old(storage)[StorageKey := teacher.value]
      ensures !result.Ok? ==> teacher == old(teacher) && storage == old(storage)
      ensures loading == old(loading)
    {
      sent := LoginBody("login", username, password);
      if reply.InvokeFailed? || reply.data.None? {
        return sent, Failed(LoginFailed);
      }
      var d := reply.data.value;
      if Truthy(d.error) {
        return sent, Failed(d.error.value);
      }
      if d.teacher.Some? {
        teacher := d.teacher;
        storage := storage[StorageKey := d.teacher.value];
        return sent, Ok;
      }
      result := Failed(InvalidCredentials);
    }

    /** `signup`: sends the body and reports the reply; the session is untouched. */
    method Signup(username: string, password: string, fullName: string, email: Option<string>, reply: Reply)
      returns (sent: SignupBody, result: AuthResult)
      ensures sent == SignupBody("signup", username, password, fullName, email)
      ensures result == SignupResult(reply)
    {
      sent := SignupBody("signup", username, password, fullName, email);
      if reply.InvokeFailed? || reply.data.None? {
        return sent, Failed(SignupFailed);
      }
      var d := reply.data.value;
      if Truthy(d.error) {
        return sent, Failed(d.error.value);
      }
      result := Ok;
    }

    /** `logout`: nobody signed in and the key removed. */
    method Logout()
      modifies this
      ensures teacher == None && storage == old(storage) - {StorageKey} && loading == old(loading)
    {
      teacher := None;
      storage := storage - {StorageKey};
    }
  }
}
