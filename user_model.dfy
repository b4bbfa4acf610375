/**
 * The user record (models/User.js): role and status enumerations with
 * their defaults, the team and department references, and the setters
 * that store the name trimmed and the e-mail trimmed and lower-cased.
 * The password field belongs to authentication and is not modelled.
 */
module UserModel {
  import opened Wrappers
  import opened Table
  import opened JsText

  datatype Role = Superadmin | Admin | TeamLeader | Employee

  datatype UserStatus = UserActive | UserInactive

  datatype User = User(
    name: string,
    email: string,
    mobile: Option<string>,
    role: Role,
    status: UserStatus,
    department: Option<Id>,
    team: Option<Id>)

  /** The fields a client supplies when a user is created. */
  datatype UserInput = UserInput(
    name: Option<string>,
    email: Option<string>,
    mobile: Option<string>,
    role: Option<Role>,
    status: Option<UserStatus>)

  /** The e-mail setters in schema order: `trim`, then `lowercase`. */
  function NormalEmail(s: string): string {
    ToLower(Trim(s))
  }

  /** A stored user's strings are already in the form the setters produce. */
  predicate Normalised(u: User) {
    && Trim(u.name) == u.name
    && NormalEmail(u.email) == u.email
    && (u.mobile.Some? ==> Trim(u.mobile.value) == u.mobile.value)
  }

  /** The unique index on `email`. */
  ghost predicate EmailsUnique(rows: seq<Row<User>>) {
    forall i, j :: 0 <= i < j < |rows| ==> rows[i].doc.email != rows[j].doc.email
  }

  /** Lower-casing an ASCII letter never makes or unmakes white space. */
  lemma LowerKeepsWhitespace(c: char)
    ensures IsWhitespace(LowerChar(c)) == IsWhitespace(c)
  {
  }

  lemma {:induction false} TrimStartLower(s: string)
    ensures TrimStart(ToLower(s)) == ToLower(TrimStart(s))
    decreases |s|
  {
    if s != [] {
      LowerKeepsWhitespace(s[0]);
      if IsWhitespace(s[0]) {
        assert ToLower(s)[1..] == ToLower(s[1..]);
        TrimStartLower(s[1..]);
      }
    }
  }

  lemma {:induction false} TrimEndLower(s: string)
    ensures TrimEnd(ToLower(s)) == ToLower(TrimEnd(s))
    decreases |s|
  {
    if s != [] {
      LowerKeepsWhitespace(s[|s| - 1]);
      if IsWhitespace(s[|s| - 1]) {
        assert ToLower(s)[..|s| - 1] == ToLower(s[..|s| - 1]);
        TrimEndLower(s[..|s| - 1]);
      }
    }
  }

  /** The two e-mail setters commute: their order in the schema does not change what is stored. */
  lemma TrimLowerCommute(s: string)
    ensures Trim(ToLower(s)) == ToLower(Trim(s))
  {
    TrimStartLower(s);
    TrimEndLower(TrimStart(s));
  }

  /** Running the e-mail setters on a stored e-mail changes nothing. */
  lemma NormalEmailIdempotent(s: string)
    ensures NormalEmail(NormalEmail(s)) == NormalEmail(s)
  {
    TrimLowerCommute(Trim(s));
    TrimIdempotent(s);
    ToLowerIdempotent(Trim(s));
  }

  /**
   * `new User(input)` with the setters applied before validation: the
   * name and e-mail are required after trimming (white space alone is
   * refused); role and status take their defaults; no department or team.
   */
  function FromInput(u: UserInput): (r: Option<User>)
    ensures r.Some? <==> u.name.Some? && Trim(u.name.value) != "" && u.email.Some? && Trim(u.email.value) != ""
    ensures r.Some? ==> Normalised(r.value) && r.value.department.None? && r.value.team.None?
  {
    if u.name.Some? && Trim(u.name.value) != "" && u.email.Some? && Trim(u.email.value) != "" then
      TrimIdempotent(u.name.value);
      NormalEmailIdempotent(u.email.value);
      var mobile := if u.mobile.Some? then Some(Trim(u.mobile.value)) else None;
      assert mobile.Some? ==> Trim(mobile.value) == mobile.value by {
        if u.mobile.Some? {
          TrimIdempotent(u.mobile.value);
        }
      }
      Some(User(Trim(u.name.value), NormalEmail(u.email.value), mobile,
        u.role.GetOr(Employee), u.status.GetOr(UserActive), None, None))
    else None
  }

  /** A new user is an active employee unless the input says otherwise. */
  lemma Defaults(u: UserInput)
    requires FromInput(u).Some? && u.role.None? && u.status.None?
    ensures FromInput(u).value.role == Employee && FromInput(u).value.status == UserActive
  {
  }

  /** E-mails that differ only in letter case and outer white space are stored alike, so the unique index treats them as one. */
  lemma EmailCaseInsensitive(a: string, b: string)
    requires Trim(a) == Trim(b) || ToLower(a) == ToLower(b)
    ensures NormalEmail(a) == NormalEmail(b)
  {
    TrimLowerCommute(a);
    TrimLowerCommute(b);
  }
}
