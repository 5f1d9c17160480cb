/** The custom user model of `account/models.py`: roles, the account record
    with its defaults and permission checks, and the manager that creates
    ordinary users and superusers. */
module AccountModels {
  import opened Common
  import opened Text

  /** The user roles and their integer codes. */
  datatype Role = SuperUser | Admin | User

  function RoleCode(r: Role): (c: int)
    ensures 1 <= c <= 3
  {
    match r
    case SuperUser => 1
    case Admin => 2
    case User => 3
  }

  /** The role stored under an integer code, if any. */
  function RoleOfCode(c: int): (r: Option<Role>)
    ensures r.Some? <==> 1 <= c <= 3
  {
    if c == 1 then Some(SuperUser)
    else if c == 2 then Some(Admin)
    else if c == 3 then Some(User)
    else None
  }

  /** Codes and roles correspond one to one: SUPER_USER=1, ADMIN=2, USER=3. */
  lemma RoleCodes(r: Role)
    ensures RoleOfCode(RoleCode(r)) == Some(r)
    ensures r == SuperUser <==> RoleCode(r) == 1
    ensures r == Admin <==> RoleCode(r) == 2
    ensures r == User <==> RoleCode(r) == 3
  {
  }

  /** `BaseUserManager.normalize_email`: when the stripped address contains an
      `@`, the part after the last `@` is lower-cased; otherwise the address
      is returned as given. */
  function NormalizeEmail(email: string): string
  {
    var s := Strip(email);
    var at := LastIndexOf(s, '@');
    if at < 0 then email else s[..at] + "@" + Lower(s[at + 1..])
  }

  /** Normalising yields the empty string exactly for the empty address. */
  lemma NormalizeEmailEmpty(email: string)
    ensures NormalizeEmail(email) == "" <==> email == ""
  {
  }

  /** Lower-casing neither makes nor removes an `@` or a white-space character. */
  lemma LowerCharKeeps(c: char)
    ensures LowerChar(c) == '@' <==> c == '@'
    ensures IsSpace(LowerChar(c)) <==> IsSpace(c)
    ensures LowerChar(LowerChar(c)) == LowerChar(c)
  {
  }

  /** The address with its last `@` at `at` and nothing to strip is
      normalised by lower-casing what follows that `@`. */
  lemma NormalizeSplit(e: string, at: int)
    requires 0 <= at < |e| && e[at] == '@'
    requires forall i :: at < i < |e| ==> e[i] != '@'
    requires !IsSpace(e[0]) && !IsSpace(e[|e| - 1])
    ensures NormalizeEmail(e) == e[..at] + "@" + Lower(e[at + 1..])
  {
    StripOfTrimmed(e);
    LastIndexOfAt(e, '@', at);
  }

  /** An address already in normal form, a local part that does not start
      with white space, an `@`, and a lower-case domain without `@` that does
      not end with white space, is left as it is. */
  lemma NormalFormFixed(local: string, domain: string)
    requires local == [] || !IsSpace(local[0])
    requires NormalDomain(domain)
    ensures NormalizeEmail(local + "@" + domain) == local + "@" + domain
  {
    var e := local + "@" + domain;
    var at := |local|;
    assert e[at] == '@';
    assert forall i :: at < i < |e| ==> e[i] != '@' by {
      forall i | at < i < |e|
        ensures e[i] != '@'
      {
        assert e[i] == domain[i - at - 1];
      }
    }
    assert e[0] == if local == [] then '@' else local[0];
    assert e[|e| - 1] == if domain == [] then '@' else domain[|domain| - 1];
    JoinedParts(local, domain);
    NormalizeSplit(e, at);
    LowerFixed(domain);
  }

  /** The two sides of the `@` joining them are the local part and the domain. */
  lemma JoinedParts(local: string, domain: string)
    ensures (local + "@" + domain)[..|local|] == local
    ensures (local + "@" + domain)[|local| + 1..] == domain
  {
  }

  /** A domain in normal form: lower case, free of `@`, and not ending with
      white space. */
  predicate NormalDomain(domain: string)
  {
    && (forall i :: 0 <= i < |domain| ==> domain[i] != '@' && LowerChar(domain[i]) == domain[i])
    && (domain == [] || !IsSpace(domain[|domain| - 1]))
  }

  /** After the last `@` of a stripped address, the lower-cased domain holds
      no `@`, is its own lower-casing and does not end with white space. */
  lemma NormalizedDomain(s: string, at: int)
    requires 0 <= at < |s| && s[at] == '@' && !IsSpace(s[|s| - 1])
    requires forall i :: at < i < |s| ==> s[i] != '@'
    ensures NormalDomain(Lower(s[at + 1..]))
  {
    var rest := s[at + 1..];
    var domain := Lower(rest);
    forall i | 0 <= i < |domain|
      ensures domain[i] != '@' && LowerChar(domain[i]) == domain[i]
    {
      assert rest[i] == s[at + 1 + i];
      LowerCharKeeps(rest[i]);
    }
    if domain != [] {
      assert rest[|rest| - 1] == s[|s| - 1];
      LowerCharKeeps(rest[|rest| - 1]);
    }
  }

  /** Normalising twice is normalising once, so `create_superuser` (which
      normalises before calling `create_user`) stores the same address as
      `create_user` would. */
  lemma NormalizeEmailIdempotent(email: string)
    ensures NormalizeEmail(NormalizeEmail(email)) == NormalizeEmail(email)
  {
    var s := Strip(email);
    var at := LastIndexOf(s, '@');
    if at >= 0 {
      var local := s[..at];
      var domain := Lower(s[at + 1..]);
      NormalizedDomain(s, at);
      assert local == [] || !IsSpace(local[0]) by {
        if at > 0 {
          assert local[0] == s[0];
        }
      }
      assert NormalizeEmail(email) == local + "@" + domain;
      NormalFormFixed(local, domain);
    } else {
      assert NormalizeEmail(email) == email;
    }
  }

  const MissingEmail := "User must have an email address."
  const MissingUsername := "User must have an username"
  /** The database error `save` raises when a unique column already holds
      the value. */
  const DuplicateAccount := "IntegrityError"

  /** An account row. */
  class Account {
    var id: int
    var firstName: string
    var lastName: string
    var username: string
    var email: string
    var phoneNumber: string
    /** The password given to `set_password`; `None` marks it unusable. */
    var password: Option<string>
    var isAdmin: bool
    var isStaff: bool
    var isActive: bool
    var isSuperadmin: bool
    var role: Role

    /** A new, unsaved account: role USER, active, and neither admin, staff
        nor superadmin. */
    constructor (firstName: string, lastName: string, username: string, email: string)
      ensures this.firstName == firstName && this.lastName == lastName
      ensures this.username == username && this.email == email
      ensures phoneNumber == "" && password == None && id == 0
      ensures role == User && isActive && !isAdmin && !isStaff && !isSuperadmin
    {
      id := 0;
      this.firstName := firstName;
      this.lastName := lastName;
      this.username := username;
      this.email := email;
      phoneNumber := "";
      password := None;
      isAdmin := false;
      isStaff := false;
      isActive := true;
      isSuperadmin := false;
      role := User;
    }

    /** `has_perm`: every permission is granted exactly to admins. */
    function HasPerm(perm: string): (granted: bool)
      reads this
      ensures granted <==> isAdmin
    {
      isAdmin
    }

    /** `has_module_perms`: every module is open to every account. */
    function HasModulePerms(appLabel: string): (granted: bool)
      ensures granted
    {
      true
    }

    /** The flag and role assignments of `create_superuser`: all four flags
        raised and role SUPER_USER; names, address, password and key kept. */
    method MakeSuperuser()
      modifies this
      ensures isAdmin && isActive && isStaff && isSuperadmin && role == SuperUser
      ensures id == old(id) && firstName == old(firstName) && lastName == old(lastName)
      ensures username == old(username) && email == old(email) && password == old(password)
      ensures phoneNumber == old(phoneNumber)
    {
      isAdmin := true;
      isActive := true;
      isStaff := true;
      isSuperadmin := true;
      role := SuperUser;
    }

    /** The string form of an account is its email address. */
    function Label(): (s: string)
      reads this
      ensures s == email
    {
      email
    }
  }

  /** `MyAccountManager` together with the account table it saves into. */
  class AccountManager {
    var users: seq<Account>
    var nextId: int

    constructor ()
      ensures users == [] && nextId == 1
    {
      users := [];
      nextId := 1;
    }

    /** Whether saving an account with this username and this stored email
        would violate one of the two unique columns. */
    predicate Taken(username: string, storedEmail: string)
      reads this, users
    {
      exists i :: 0 <= i < |users| && (users[i].username == username || users[i].email == storedEmail)
    }

    /** The uniqueness test the database makes when the row is saved. */
    method IsTaken(username: string, storedEmail: string) returns (taken: bool)
      ensures taken == Taken(username, storedEmail)
    {
      var i := 0;
      while i < |users|
        invariant 0 <= i <= |users|
        invariant forall k :: 0 <= k < i ==> users[k].username != username && users[k].email != storedEmail
      {
        if users[i].username == username || users[i].email == storedEmail {
          return true;
        }
        i := i + 1;
      }
      return false;
    }

    /** The two unique columns: no username and no email is stored twice. */
    predicate Unique()
      reads this, users
    {
      forall i, j :: 0 <= i < j < |users| ==>
        users[i].username != users[j].username && users[i].email != users[j].email
    }

    /** `create_user`: a missing email is refused first, then a missing
        username; then `save` fails when the username or the normalised
        email is already stored; otherwise a USER account is saved with the
        given names and the normalised email. */
    method CreateUser(firstName: string, lastName: string, username: string, email: string,
                      password: Option<string>) returns (r: Result<Account, string>)
      modifies this
      ensures email == "" ==> r == Failure(MissingEmail)
      ensures email != "" && username == "" ==> r == Failure(MissingUsername)
      ensures email != "" && username != "" && old(Taken(username, NormalizeEmail(email))) ==> r == Failure(DuplicateAccount)
      ensures r.Failure? ==> users == old(users) && nextId == old(nextId)
      ensures r.Success? <==> email != "" && username != "" && !old(Taken(username, NormalizeEmail(email)))
      ensures old(Unique()) ==> Unique()
      ensures r.Success? ==>
        var u := r.value;
        && fresh(u)
        && users == old(users) + [u] && u.id == old(nextId) && nextId == old(nextId) + 1
        && u.firstName == firstName && u.lastName == lastName && u.username == username
        && u.email == NormalizeEmail(email) && u.password == password && u.phoneNumber == ""
        && u.role == User && u.isActive && !u.isAdmin && !u.isStaff && !u.isSuperadmin
    {
      if email == "" {
        return Failure(MissingEmail);
      }
      if username == "" {
        return Failure(MissingUsername);
      }
      var normalized := NormalizeEmail(email);
      var taken := IsTaken(username, normalized);
      if taken {
        return Failure(DuplicateAccount);
      }
      var user := Insert(firstName, lastName, username, normalized, password);
      r := Success(user);
    }

    /** The new account row built by `self.model(...)`, given its password by
        `set_password` and saved under the next key. The unique columns are
        free, so the two stay unique. */
    method Insert(firstName: string, lastName: string, username: string, storedEmail: string,
                  password: Option<string>) returns (u: Account)
      requires !Taken(username, storedEmail)
      modifies this
      ensures fresh(u) && users == old(users) + [u] && u.id == old(nextId) && nextId == old(nextId) + 1
      ensures u.firstName == firstName && u.lastName == lastName && u.username == username
      ensures u.email == storedEmail && u.password == password && u.phoneNumber == ""
      ensures u.role == User && u.isActive && !u.isAdmin && !u.isStaff && !u.isSuperadmin
      ensures old(Unique()) ==> Unique()
    {
      ghost var wasUnique := Unique();
      ghost var before := users;
      u := new Account(firstName, lastName, username, storedEmail);
      u.password := password;
      u.id := nextId;
      nextId := nextId + 1;
      users := users + [u];
      assert wasUnique ==> Unique() by {
        if wasUnique {
          forall i, j | 0 <= i < j < |users|
            ensures users[i].username != users[j].username && users[i].email != users[j].email
          {
            assert users[i] == before[i];
            if j < |before| {
              assert users[j] == before[j];
            }
          }
        }
      }
    }

    /** `create_superuser`: creates the account as `create_user` does, then
        raises all four flags and sets role SUPER_USER; it returns nothing. */
    method CreateSuperuser(firstName: string, lastName: string, username: string, email: string,
                           password: Option<string>) returns (r: Result<(), string>)
      modifies this
      ensures r == if email == "" then Failure(MissingEmail)
                   else if username == "" then Failure(MissingUsername)
                   else if old(Taken(username, NormalizeEmail(email))) then Failure(DuplicateAccount)
                   else Success(())
      ensures r.Failure? ==> users == old(users) && nextId == old(nextId)
      ensures old(Unique()) ==> Unique()
      ensures r.Success? ==>
        && |users| == |old(users)| + 1 && users[..|old(users)|] == old(users)
        && nextId == old(nextId) + 1
        && var u := users[|users| - 1];
        && fresh(u) && u.id == old(nextId)
        && u.firstName == firstName && u.lastName == lastName && u.username == username
        && u.email == NormalizeEmail(email) && u.password == password && u.phoneNumber == ""
        && u.isAdmin && u.isActive && u.isStaff && u.isSuperadmin && u.role == SuperUser
    {
      var normalized := NormalizeEmail(email);
      NormalizeEmailEmpty(email);
      NormalizeEmailIdempotent(email);
      var created := CreateUser(firstName, lastName, username, normalized, password);
      if created.Failure? {
        return Failure(created.error);
      }
      var user := created.value;
      assert users == old(users) + [user];
      user.MakeSuperuser();
      r := Success(());
    }
  }
}
