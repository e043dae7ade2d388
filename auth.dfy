/**
 * The account actions: updateUserProfile, which may change only the
 * caller's email, and changePassword, which checks the new password's
 * length and the current password before storing the new one's hash; and
 * isValidEmail, the email shape test /^[^\s@]+@[^\s@]+\.[^\s@]+$/.
 *
 * The store keeps emails unique, as the `findUnique` by email presumes.
 * Password checking and hashing belong to the platform and are
 * parameters.
 */
module Auth {
  import opened Wrappers
  import opened Text
  import opened Entities
  import opened Lists

  const NotAuthorized := HttpError(Unauthorized, "Not authorized")
  const ProfileFailed := HttpError(InternalError, "Failed to update user profile")
  const PasswordFailed := HttpError(InternalError, "Failed to change password")

  /** The fewest characters a new password may have. */
  const MinPasswordLength := 8

  /** `[^\s@]`: a character that is neither whitespace nor `@`. */
  predicate Plain(c: char)
  {
    !IsSpace(c) && c != '@'
  }

  /** Every character of `s` from index `lo` up to `hi` is plain. */
  predicate PlainBetween(s: string, lo: int, hi: int)
    requires 0 <= lo <= hi <= |s|
  {
    forall i :: lo <= i < hi ==> Plain(s[i])
  }

  /**
   * The strings the email pattern matches: plain text, `@`, plain text, a
   * `.`, plain text, each run of plain text non-empty.
   */
  ghost predicate MatchesEmailPattern(s: string)
  {
    exists a, b :: 0 < a && a + 1 < b && b + 1 < |s| && s[a] == '@' && s[b] == '.' &&
      PlainBetween(s, 0, a) && PlainBetween(s, a + 1, b) && PlainBetween(s, b + 1, |s|)
  }

  /** The number of times `c` occurs in `s`. */
  function Occurrences(s: string, c: char): (n: nat)
    ensures n == 0 <==> c !in s
  {
    if s == [] then 0 else (if s[0] == c then 1 else 0) + Occurrences(s[1..], c)
  }

  /** A character found at one index only occurs once. */
  lemma {:induction false} OnlyOccurrence(s: string, c: char, a: nat)
    requires a < |s| && s[a] == c
    requires forall i :: 0 <= i < |s| && i != a ==> s[i] != c
    ensures Occurrences(s, c) == 1
  {
    if a == 0 {
      assert c !in s[1..];
    } else {
      OnlyOccurrence(s[1..], c, a - 1);
    }
  }

  /** A character that occurs once occurs at no other index. */
  lemma {:induction false} SingleOccurrence(s: string, c: char, a: nat)
    requires Occurrences(s, c) == 1 && a < |s| && s[a] == c
    ensures forall i :: 0 <= i < |s| && i != a ==> s[i] != c
  {
    if s[0] == c {
      forall i | 0 < i < |s| ensures s[i] != c {
        assert s[i] == s[1..][i - 1];
      }
    } else {
      SingleOccurrence(s[1..], c, a - 1);
      forall i | 0 < i < |s| && i != a ensures s[i] != c {
        assert s[i] == s[1..][i - 1];
      }
    }
  }

  /**
   * isValidEmail: no whitespace, exactly one `@`, some text before it, and
   * after it a `.` that is neither the first nor the last character.
   */
  predicate IsValidEmail(s: string)
    ensures IsValidEmail(s) ==> |s| >= 5 && '@' in s && s[0] != '@'
  {
    && (forall i :: 0 <= i < |s| ==> !IsSpace(s[i]))
    && Occurrences(s, '@') == 1
    && var a := FirstIndex(s, '@');
       a > 0 && a + 4 <= |s| && '.' in s[a + 2..|s| - 1]
  }

  /** An email `isValidEmail` accepts matches the pattern. */
  lemma ValidEmailMatches(s: string)
    requires IsValidEmail(s)
    ensures MatchesEmailPattern(s)
  {
    var a := FirstIndex(s, '@');
    SingleOccurrence(s, '@', a);
    var j :| 0 <= j < |s| - a - 3 && s[a + 2..|s| - 1][j] == '.';
    var b := a + 2 + j;
    assert s[b] == '.';
    assert PlainBetween(s, 0, a) && PlainBetween(s, a + 1, b) && PlainBetween(s, b + 1, |s|);
  }

  /** An email matching the pattern is one `isValidEmail` accepts. */
  lemma MatchingEmailValid(s: string)
    requires MatchesEmailPattern(s)
    ensures IsValidEmail(s)
  {
    var a, b :| 0 < a && a + 1 < b && b + 1 < |s| && s[a] == '@' && s[b] == '.' &&
      PlainBetween(s, 0, a) && PlainBetween(s, a + 1, b) && PlainBetween(s, b + 1, |s|);
    PatternParts(s, a, b);
    OnlyOccurrence(s, '@', a);
    assert FirstIndex(s, '@') == a;
    assert s[a + 2..|s| - 1][b - a - 2] == '.';
  }

  /** The pieces of a match hold no whitespace, and `@` only at its own index. */
  lemma PatternParts(s: string, a: nat, b: nat)
    requires 0 < a && a + 1 < b && b + 1 < |s| && s[a] == '@' && s[b] == '.'
    requires PlainBetween(s, 0, a) && PlainBetween(s, a + 1, b) && PlainBetween(s, b + 1, |s|)
    ensures forall i :: 0 <= i < |s| ==> !IsSpace(s[i])
    ensures forall i :: 0 <= i < |s| && i != a ==> s[i] != '@'
  {
    assert !IsSpace('@') && !IsSpace('.');
    forall i | 0 <= i < |s|
      ensures !IsSpace(s[i]) && (i != a ==> s[i] != '@')
    {
      if i != a && i != b {
        assert Plain(s[i]);
      }
    }
  }

  /** isValidEmail accepts exactly the strings the email pattern matches. */
  lemma ValidEmailIffPattern(s: string)
    ensures IsValidEmail(s) <==> MatchesEmailPattern(s)
  {
    if IsValidEmail(s) {
      ValidEmailMatches(s);
    }
    if MatchesEmailPattern(s) {
      MatchingEmailValid(s);
    }
  }

  /**
   * The fields updateUserProfile's `select` returns: everything but the
   * password hash (the username and the timestamps are not modelled).
   */
  datatype Profile = Profile(id: Id, email: Option<string>, role: string, organizationId: Option<Id>)

  function ProfileOf(u: User): Profile
  {
    Profile(u.id, u.email, u.role, u.organizationId)
  }

  /** The profile a reply carries does not depend on the password hash. */
  lemma ProfileWithholdsPassword(u: User, password: string)
    ensures ProfileOf(u.(password := password)) == ProfileOf(u)
    ensures ProfileOf(u).email == u.email && ProfileOf(u).id == u.id
  {
  }

  class UserStore {
    var users: map<Id, User>

    /**
     * Users are stored under their ids, and no two hold the same email
     * (any number may hold none).
     */
    ghost predicate Valid()
      reads this
    {
      && (forall id :: id in users ==> users[id].id == id)
      && (forall id1, id2 :: id1 in users && id2 in users && id1 != id2 && users[id1].email.Some? ==>
            users[id1].email != users[id2].email)
    }

    /** Another user than `userId` holds `email`. */
    predicate HeldByOther(email: string, userId: Id)
      reads this
    {
      exists id :: id in users && id != userId && users[id].email == Some(email)
    }

    /** A given email other than null that another user holds: the store's unique index refuses it. */
    predicate Clashes(email: Arg<string>, userId: Id)
      reads this
    {
      email.Given? && email.value.Some? && HeldByOther(email.value.value, userId)
    }

    /**
     * updateUserProfile: 401 without a caller; a truthy email must have the
     * email shape (400) and must not be another user's (400); then only the
     * email is written, and only when it is not `undefined`: an empty email
     * and a `null` one are written too. A
     * write the store refuses (an unknown caller, an email held by another
     * user) is a 500, and so is a failure of that write, which `storeFails`
     * stands for. Role and organization are accepted and ignored. The reply
     * is the caller's new profile, without the password hash.
     */
    method UpdateUserProfile(user: Option<Id>, email: Arg<string>, role: Arg<string>, organizationId: Arg<Id>,
                             storeFails: bool) returns (r: Result<Profile>)
      requires Valid()
      modifies this
      ensures Valid()
      ensures user.None? ==> r == Err(NotAuthorized)
      ensures user.Some? && email.Given? && Truthy(email.value) && !IsValidEmail(email.value.value) ==>
        r == Err(HttpError(BadRequest, "Invalid email format"))
      ensures user.Some? && email.Given? && Truthy(email.value) && IsValidEmail(email.value.value)
              && old(HeldByOther(email.value.value, user.value)) ==>
        r == Err(HttpError(BadRequest, "Email is already in use"))
      ensures r.Ok? <==>
        && user.Some? && (email.Given? && Truthy(email.value) ==> IsValidEmail(email.value.value))
        && !old(Clashes(email, user.value))
        && user.value in old(users) && !storeFails
      ensures r.Ok? ==>
        var before := old(users)[user.value];
        users == old(users)[user.value := before.(email := Apply(email, before.email))]
      ensures r.Ok? ==> r.value == ProfileOf(users[user.value]) && r.value.id == user.value
      ensures r.Err? ==> users == old(users)
      ensures r.Err? && user.Some? && (email.Given? && Truthy(email.value) ==> IsValidEmail(email.value.value))
              && !(email.Given? && Truthy(email.value) && old(HeldByOther(email.value.value, user.value))) ==>
        r == Err(ProfileFailed)
      ensures r.Ok? && email == Given(None) ==> users[user.value].email == None && r.value.email == None
    {
      if user.None? {
        return Err(NotAuthorized);
      }
      var userId := user.value;
      if email.Given? && Truthy(email.value) && !IsValidEmail(email.value.value) {
        return Err(HttpError(BadRequest, "Invalid email format"));
      }
      if email.Given? && Truthy(email.value) && HeldByOther(email.value.value, userId) {
        return Err(HttpError(BadRequest, "Email is already in use"));
      }
      if storeFails || userId !in users || Clashes(email, userId) {
        return Err(ProfileFailed);
      }
      var before := users[userId];
      var updatedUser := before.(email := Apply(email, before.email));
      users := users[userId := updatedUser];
      r := Ok(ProfileOf(updatedUser));
    }

    /**
     * changePassword: 401 without a caller; a new password shorter than
     * eight characters is refused (400) before any lookup; a wrong current
     * password is a 400; a failing store is a 500; otherwise the caller's
     * password becomes the hash of the new one and nothing else changes.
     * `storeFails` stands for a failure of the user lookup, the first store
     * call inside the `try`; it is a 500 whatever the current password.
     */
    method ChangePassword(user: Option<Id>, currentPassword: Option<string>, newPassword: Option<string>,
                          verify: (Option<string>, string) -> bool, hash: string -> string, storeFails: bool)
      returns (r: Result<()>)
      requires Valid()
      modifies this
      ensures Valid()
      ensures user.None? ==> r == Err(NotAuthorized)
      ensures user.Some? && (newPassword.None? || |newPassword.value| < MinPasswordLength) ==>
        r == Err(HttpError(BadRequest, "New password must be at least 8 characters long"))
      ensures r.Ok? <==>
        && user.Some? && newPassword.Some? && |newPassword.value| >= MinPasswordLength && !storeFails
        && user.value in old(users) && verify(currentPassword, old(users)[user.value].password)
      ensures
        (&& user.Some? && newPassword.Some? && |newPassword.value| >= MinPasswordLength && !storeFails
         && user.value in old(users) && !verify(currentPassword, old(users)[user.value].password)) ==>
        r == Err(HttpError(BadRequest, "Current password is incorrect"))
      ensures user.Some? && newPassword.Some? && |newPassword.value| >= MinPasswordLength
              && (storeFails || user.value !in old(users)) ==>
        r == Err(PasswordFailed)
      ensures r.Ok? ==> users == old(users)[user.value := old(users)[user.value].(password := hash(newPassword.value))]
      ensures r.Err? ==> users == old(users)
    {
      if user.None? {
        return Err(NotAuthorized);
      }
      if newPassword.None? || |newPassword.value| < MinPasswordLength {
        return Err(HttpError(BadRequest, "New password must be at least 8 characters long"));
      }
      if storeFails || user.value !in users {
        return Err(PasswordFailed);
      }
      var passwordValid := verify(currentPassword, users[user.value].password);
      if !passwordValid {
        return Err(HttpError(BadRequest, "Current password is incorrect"));
      }
      var hashedPassword := hash(newPassword.value);
      users := users[user.value := users[user.value].(password := hashedPassword)];
      r := Ok(());
    }
  }
}
