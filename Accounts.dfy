/**
 * Account validation and the authentication decision of the account manager.
 * The user collection of the database is an abstract map from username to the
 * stored record, and the password hash is an uninterpreted function.
 */
module Accounts {
  import opened Wrappers

  /** Usernames must be strictly shorter than this. */
  const MaxUsernameLength: nat := 24
  /** Passwords must be at least this long. */
  const MinPasswordLength: nat := 4

  /** Membership in the character class [a-zA-Z0-9]. */
  predicate IsAlphanumeric(c: char) {
    ('a' <= c <= 'z') || ('A' <= c <= 'Z') || ('0' <= c <= '9')
  }

  /**
   * The regular-expression search /[^a-zA-Z0-9]/.test(s): scans s from the left
   * for a character outside the class.
   */
  function ContainsDisallowed(s: string): (found: bool)
    ensures found <==> exists i :: 0 <= i < |s| && !IsAlphanumeric(s[i])
  {
    if s == [] then false
    else if !IsAlphanumeric(s[0]) then true
    else
      var rest := ContainsDisallowed(s[1..]);
      assert forall i :: 1 <= i < |s| ==> s[i] == s[1..][i - 1];
      rest
  }

  /** A username is valid iff it is shorter than 24 characters and purely alphanumeric. */
  function IsValidUsername(username: string): (valid: bool)
    ensures valid <==> |username| < MaxUsernameLength &&
                       forall i :: 0 <= i < |username| ==> IsAlphanumeric(username[i])
  {
    |username| < MaxUsernameLength && !ContainsDisallowed(username)
  }

  lemma EmptyUsernameIsValid()
    ensures IsValidUsername("")
  {
  }

  lemma LongUsernameIsInvalid(username: string)
    requires |username| >= MaxUsernameLength
    ensures !IsValidUsername(username)
  {
  }

  /** One character outside [a-zA-Z0-9] anywhere makes a username invalid. */
  lemma DisallowedCharacterInvalidates(username: string, i: nat)
    requires i < |username| && !IsAlphanumeric(username[i])
    ensures !IsValidUsername(username)
  {
  }

  /** A password is valid iff it has at least four characters. */
  function IsValidPassword(password: string): (valid: bool)
    ensures valid <==> |password| >= MinPasswordLength
  {
    |password| >= MinPasswordLength
  }

  lemma PasswordLengthThreshold(password: string)
    ensures |password| == 3 ==> !IsValidPassword(password)
    ensures |password| == 4 ==> IsValidPassword(password)
  {
  }

  /** A stored user document: the username and the hash of the password. */
  datatype UserRecord = UserRecord(username: string, password: string)

  /** The user collection, looked up by username (a unique index). */
  type Users = map<string, UserRecord>

  /**
   * Inserting a user: the unique index on username makes the insert fail when
   * the name is taken; otherwise the record stores hash(password).
   */
  function RegisterUser(users: Users, hash: string -> string, username: string, password: string): (r: Option<Users>)
    ensures r.None? <==> username in users
    ensures r.Some? ==> r.value.Keys == users.Keys + {username}
    ensures r.Some? ==> r.value[username] == UserRecord(username, hash(password))
    ensures r.Some? ==> forall u :: u in users ==> r.value[u] == users[u]
  {
    if username in users then None
    else Some(users[username := UserRecord(username, hash(password))])
  }

  /** The decision of isUserAuthenticated: a document exists and its password is hash(password). */
  function IsUserAuthenticated(users: Users, hash: string -> string, username: string, password: string): (ok: bool)
    ensures ok ==> username in users
    ensures username in users ==> (ok <==> users[username].password == hash(password))
  {
    username in users && users[username].password == hash(password)
  }

  lemma AbsentUserNeverAuthenticated(users: Users, hash: string -> string, username: string, password: string)
    requires username !in users
    ensures !IsUserAuthenticated(users, hash, username, password)
  {
  }

  /**
   * After a successful registration, exactly the passwords with the same hash
   * authenticate the new user.
   */
  lemma RegisterThenAuthenticate(users: Users, hash: string -> string, username: string, password: string, attempt: string)
    requires username !in users
    ensures RegisterUser(users, hash, username, password).Some?
    ensures var users' := RegisterUser(users, hash, username, password).value;
            IsUserAuthenticated(users', hash, username, attempt) <==> hash(attempt) == hash(password)
  {
  }

  /** Registration does not change who else can authenticate. */
  lemma RegisterKeepsOtherUsers(users: Users, hash: string -> string, username: string, password: string,
                                other: string, attempt: string)
    requires username !in users && other != username
    ensures var users' := RegisterUser(users, hash, username, password).value;
            IsUserAuthenticated(users', hash, other, attempt) == IsUserAuthenticated(users, hash, other, attempt)
  {
  }
}
