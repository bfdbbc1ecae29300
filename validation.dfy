/** The request validators of internal/validation: each is an ordered chain
    of checks in which the first failing check decides the response. Body
    parsing is an input (None when the body does not parse); the database
    lookups become membership in sets of the stored values. */
module Validation {
  import opened Common

  // ---------------------------------------------------------------------
  // The chain of checks

  /** One check of a chain: whether it fails, and the response it gives. */
  datatype Rule = Rule(fails: bool, status: int, message: string)

  /** The response of a chain: the first failing rule's, or Next. */
  function FirstFailure(rules: seq<Rule>): (g: Gate)
    ensures g.Next? <==> forall i :: 0 <= i < |rules| ==> !rules[i].fails
    ensures g.Halt? ==> exists i :: 0 <= i < |rules| && rules[i].fails
                                   && (forall k :: 0 <= k < i ==> !rules[k].fails)
                                   && g == Halt(rules[i].status, rules[i].message)
  {
    if rules == [] then Next
    else if rules[0].fails then Halt(rules[0].status, rules[0].message)
    else
      var g := FirstFailure(rules[1..]);
      assert forall i :: 1 <= i < |rules| ==> rules[i] == rules[1..][i - 1];
      g
  }

  /** The rule that decides a chain is the first failing one, whatever
      comes after it. */
  lemma {:induction false} FirstFailureAt(rules: seq<Rule>, i: int)
    requires 0 <= i < |rules| && rules[i].fails
    requires forall k :: 0 <= k < i ==> !rules[k].fails
    ensures FirstFailure(rules) == Halt(rules[i].status, rules[i].message)
  {
    if i > 0 {
      assert rules[1..][i - 1] == rules[i];
      FirstFailureAt(rules[1..], i - 1);
    }
  }

  const MsgInvalidBody := "Invalid request body"

  // ---------------------------------------------------------------------
  // Password complexity

  predicate IsAsciiDigit(c: char) { '0' <= c <= '9' }
  predicate IsAsciiUpper(c: char) { 'A' <= c <= 'Z' }
  predicate IsAsciiLower(c: char) { 'a' <= c <= 'z' }

  /** The four ranges of ASCII punctuation the password check counts as
      special: '!'..'/', ':'..'@', '['..'`', '{'..'~'. */
  predicate IsSpecial(c: char) {
    ('!' <= c <= '/') || (':' <= c <= '@') || ('[' <= c <= '`') || ('{' <= c <= '~')
  }

  /** The three classes are disjoint, and lower-case letters, the space and
      every non-ASCII character belong to none of them. */
  lemma ClassesDisjoint(c: char)
    ensures !(IsAsciiDigit(c) && IsAsciiUpper(c)) && !(IsAsciiDigit(c) && IsSpecial(c))
            && !(IsAsciiUpper(c) && IsSpecial(c))
    ensures IsAsciiLower(c) || c == ' ' || c as int >= 0x80 ==>
              !IsAsciiDigit(c) && !IsAsciiUpper(c) && !IsSpecial(c)
  {
  }

  predicate HasDigit(s: string) { exists i :: 0 <= i < |s| && IsAsciiDigit(s[i]) }
  predicate HasUpper(s: string) { exists i :: 0 <= i < |s| && IsAsciiUpper(s[i]) }
  predicate HasSpecial(s: string) { exists i :: 0 <= i < |s| && IsSpecial(s[i]) }

  /** What CheckPasswordComplexity decides: a digit, an upper-case letter and
      a special character all occur. */
  predicate PasswordComplex(s: string) {
    HasDigit(s) && HasUpper(s) && HasSpecial(s)
  }

  /** CheckPasswordComplexity: one pass over the characters setting three
      flags; the switch sets at most one flag per character. */
  method CheckPasswordComplexity(password: string) returns (ok: bool)
    ensures ok <==> PasswordComplex(password)
  {
    var hasNumber, hasUpper, hasSpecial := false, false, false;
    for i := 0 to |password|
      invariant hasNumber <==> HasDigit(password[..i])
      invariant hasUpper <==> HasUpper(password[..i])
      invariant hasSpecial <==> HasSpecial(password[..i])
    {
      var c := password[i];
      assert password[..i + 1] == password[..i] + [c];
      if IsAsciiDigit(c) {
        hasNumber := true;
      } else if IsAsciiUpper(c) {
        hasUpper := true;
      } else if IsSpecial(c) {
        hasSpecial := true;
      }
    }
    assert password[..|password|] == password;
    ok := hasNumber && hasUpper && hasSpecial;
  }

  /** Lower-case letters, spaces and non-ASCII characters never make a
      password complex. */
  lemma {:induction false} PlainPasswordNotComplex(s: string)
    requires forall i :: 0 <= i < |s| ==> IsAsciiLower(s[i]) || s[i] == ' ' || s[i] as int >= 0x80
    ensures !HasDigit(s) && !HasUpper(s) && !HasSpecial(s)
  {
    forall i | 0 <= i < |s|
      ensures !IsAsciiDigit(s[i]) && !IsAsciiUpper(s[i]) && !IsSpecial(s[i])
    {
      ClassesDisjoint(s[i]);
    }
  }

  // ---------------------------------------------------------------------
  // The e-mail pattern ^[a-z0-9._%+\-]+@[a-z0-9.\-]+\.[a-z]{2,}$

  predicate IsLocalChar(c: char) {
    IsAsciiLower(c) || IsAsciiDigit(c) || c == '.' || c == '_' || c == '%' || c == '+' || c == '-'
  }

  predicate IsDomainChar(c: char) {
    IsAsciiLower(c) || IsAsciiDigit(c) || c == '.' || c == '-'
  }

  /** The pattern matches `s` split as local part `s[..at]`, '@', domain
      `s[at + 1..dot]`, '.', and top-level part `s[dot + 1..]`. */
  predicate EmailSplit(s: string, at: int, dot: int) {
    && 1 <= at && at + 2 <= dot && dot + 3 <= |s|
    && (forall k :: 0 <= k < at ==> IsLocalChar(s[k]))
    && s[at] == '@'
    && (forall k :: at + 1 <= k < dot ==> IsDomainChar(s[k]))
    && s[dot] == '.'
    && (forall k :: dot + 1 <= k < |s| ==> IsAsciiLower(s[k]))
  }

  /** The meaning of the regular expression: some split matches. */
  ghost predicate EmailPattern(s: string) {
    exists at, dot :: EmailSplit(s, at, dot)
  }

  /** The first position of `c` in `s`. */
  function IndexOf(s: string, c: char): (r: Option<nat>)
    ensures r.Some? ==> r.value < |s| && s[r.value] == c && forall k :: 0 <= k < r.value ==> s[k] != c
    ensures r.None? ==> forall k :: 0 <= k < |s| ==> s[k] != c
  {
    if s == [] then None
    else if s[0] == c then Some(0)
    else
      match IndexOf(s[1..], c)
      case None => None
      case Some(k) => Some(k + 1)
  }

  /** The last position of `c` in `s`. */
  function LastIndexOf(s: string, c: char): (r: Option<nat>)
    ensures r.Some? ==> r.value < |s| && s[r.value] == c && forall k :: r.value < k < |s| ==> s[k] != c
    ensures r.None? ==> forall k :: 0 <= k < |s| ==> s[k] != c
  {
    if s == [] then None
    else if s[|s| - 1] == c then Some(|s| - 1)
    else LastIndexOf(s[..|s| - 1], c)
  }

  /** A matcher for the pattern: no character class admits '@', so the split
      is at the only '@'; the top-level part has no '.', so it follows the
      last '.'. */
  function MatchesEmail(s: string): (b: bool)
    ensures b ==> IndexOf(s, '@').Some? && LastIndexOf(s, '.').Some?
                  && EmailSplit(s, IndexOf(s, '@').value, LastIndexOf(s, '.').value)
    ensures '@' !in s || '.' !in s ==> !b
  {
    match IndexOf(s, '@')
    case None => false
    case Some(at) =>
      match LastIndexOf(s, '.')
      case None => false
      case Some(dot) =>
        && 1 <= at && at + 2 <= dot && dot + 3 <= |s|
        && (forall k :: 0 <= k < at ==> IsLocalChar(s[k]))
        && (forall k :: at + 1 <= k < dot ==> IsDomainChar(s[k]))
        && (forall k :: dot + 1 <= k < |s| ==> IsAsciiLower(s[k]))
  }

  /** The matcher accepts exactly the strings the pattern matches. */
  lemma MatchesEmailCorrect(s: string)
    ensures MatchesEmail(s) <==> EmailPattern(s)
  {
    if MatchesEmail(s) {
      var at, dot := IndexOf(s, '@').value, LastIndexOf(s, '.').value;
      assert EmailSplit(s, at, dot);
    }
    if EmailPattern(s) {
      var at, dot :| EmailSplit(s, at, dot);
      assert IndexOf(s, '@') == Some(at);
      assert LastIndexOf(s, '.') == Some(dot);
    }
  }

  /** The pattern is lower-case only: a string holding an upper-case ASCII
      letter never matches. */
  lemma UpperCaseEmailRejected(s: string, i: int)
    requires 0 <= i < |s| && IsAsciiUpper(s[i])
    ensures !EmailPattern(s)
  {
    forall at, dot | EmailSplit(s, at, dot)
      ensures false
    {
    }
  }

  // ---------------------------------------------------------------------
  // CreateRegisterValidator

  /** The fields of the registration body the validator reads. */
  datatype RegisterBody = RegisterBody(fullName: string, email: string, password: string)

  const MsgPasswordRequired := "Password is required"
  const MsgPasswordLength := "Password must be between 6 and 20 characters"
  const MsgPasswordComplexity := "Password must contain at least 1 number, 1 uppercase letter, and 1 special character"
  const MsgInvalidEmail := "Invalid email format"
  const MsgEmailExists := "Email already exists"
  const MsgNameExists := "Name already exists"

  /** The register checks after the body has parsed; `refuseComplex` says
      which password outcome the complexity check refuses. */
  function RegisterRules(b: RegisterBody, emails: set<string>, names: set<string>, refuseComplex: bool): (rules: seq<Rule>)
    ensures |rules| == 6
    ensures forall i :: 0 <= i < |rules| ==> rules[i].status == StatusBadRequest
  {
    [ Rule(b.password == "", StatusBadRequest, MsgPasswordRequired),
      Rule(Utf8Len(b.password) < 6 || Utf8Len(b.password) > 20, StatusBadRequest, MsgPasswordLength),
      Rule(PasswordComplex(b.password) == refuseComplex, StatusBadRequest, MsgPasswordComplexity),
      Rule(!MatchesEmail(b.email), StatusBadRequest, MsgInvalidEmail),
      Rule(b.email in emails, StatusBadRequest, MsgEmailExists),
      Rule(b.fullName in names, StatusBadRequest, MsgNameExists) ]
  }

  /** Every register check passes exactly when the body meets them all. */
  lemma RegisterRulesPass(b: RegisterBody, emails: set<string>, names: set<string>, refuseComplex: bool)
    ensures var rules := RegisterRules(b, emails, names, refuseComplex);
            (forall i :: 0 <= i < |rules| ==> !rules[i].fails) <==>
              && 6 <= Utf8Len(b.password) <= 20
              && PasswordComplex(b.password) != refuseComplex
              && MatchesEmail(b.email) && b.email !in emails && b.fullName !in names
  {
    var rules := RegisterRules(b, emails, names, refuseComplex);
    if !rules[0].fails && !rules[1].fails && !rules[2].fails && !rules[3].fails && !rules[4].fails && !rules[5].fails {
      forall i | 0 <= i < |rules|
        ensures !rules[i].fails
      {
        assert i == 0 || i == 1 || i == 2 || i == 3 || i == 4 || i == 5;
      }
    }
  }

  /** CreateRegisterValidator as written: the complexity check refuses a
      password that IS complex. `emails` and `names` are the stored users'
      e-mails and full names. */
  function CreateRegisterValidator(body: Option<RegisterBody>, emails: set<string>, names: set<string>): (g: Gate)
    ensures body.None? ==> g == Halt(StatusBadRequest, MsgInvalidBody)
    ensures body.Some? && body.value.password == "" ==> g == Halt(StatusBadRequest, MsgPasswordRequired)
    ensures g.Next? <==>
              && body.Some?
              && 6 <= Utf8Len(body.value.password) <= 20
              && !PasswordComplex(body.value.password)
              && EmailPattern(body.value.email)
              && body.value.email !in emails
              && body.value.fullName !in names
  {
    match body
    case None => Halt(StatusBadRequest, MsgInvalidBody)
    case Some(b) =>
      MatchesEmailCorrect(b.email);
      RegisterRulesPass(b, emails, names, true);
      FirstFailure(RegisterRules(b, emails, names, true))
  }

  /** The register chain with the complexity check the message describes:
      a password that is NOT complex is refused. */
  function CreateRegisterValidatorIntended(body: Option<RegisterBody>, emails: set<string>, names: set<string>): (g: Gate)
    ensures body.None? ==> g == Halt(StatusBadRequest, MsgInvalidBody)
    ensures body.Some? && body.value.password == "" ==> g == Halt(StatusBadRequest, MsgPasswordRequired)
    ensures g.Next? <==>
              && body.Some?
              && 6 <= Utf8Len(body.value.password) <= 20
              && PasswordComplex(body.value.password)
              && EmailPattern(body.value.email)
              && body.value.email !in emails
              && body.value.fullName !in names
  {
    match body
    case None => Halt(StatusBadRequest, MsgInvalidBody)
    case Some(b) =>
      MatchesEmailCorrect(b.email);
      RegisterRulesPass(b, emails, names, false);
      FirstFailure(RegisterRules(b, emails, names, false))
  }

  /** Each register check, when every earlier one passes, decides the
      response with its own message; `refuseComplex` picks the validator as
      written (true) or as intended (false). */
  lemma RegisterFirstFailure(b: RegisterBody, emails: set<string>, names: set<string>, refuseComplex: bool)
    ensures var g := FirstFailure(RegisterRules(b, emails, names, refuseComplex));
            var n := Utf8Len(b.password);
            && (b.password != "" && (n < 6 || n > 20) ==> g == Halt(StatusBadRequest, MsgPasswordLength))
            && (6 <= n <= 20 && PasswordComplex(b.password) == refuseComplex ==>
                  g == Halt(StatusBadRequest, MsgPasswordComplexity))
            && (6 <= n <= 20 && PasswordComplex(b.password) != refuseComplex && !MatchesEmail(b.email) ==>
                  g == Halt(StatusBadRequest, MsgInvalidEmail))
            && ((6 <= n <= 20 && PasswordComplex(b.password) != refuseComplex && MatchesEmail(b.email)
                 && b.email in emails) ==> g == Halt(StatusBadRequest, MsgEmailExists))
            && ((6 <= n <= 20 && PasswordComplex(b.password) != refuseComplex && MatchesEmail(b.email)
                 && b.email !in emails && b.fullName in names) ==> g == Halt(StatusBadRequest, MsgNameExists))
  {
    var rules := RegisterRules(b, emails, names, refuseComplex);
    var n := Utf8Len(b.password);
    if b.password != "" && (n < 6 || n > 20) {
      FirstFailureAt(rules, 1);
    }
    if 6 <= n <= 20 {
      if PasswordComplex(b.password) == refuseComplex {
        FirstFailureAt(rules, 2);
      } else if !MatchesEmail(b.email) {
        FirstFailureAt(rules, 3);
      } else if b.email in emails {
        FirstFailureAt(rules, 4);
      } else if b.fullName in names {
        FirstFailureAt(rules, 5);
      }
    }
  }

  /** As written, a password of acceptable length with a digit, an
      upper-case letter and a special character is refused with the
      complexity message, whatever the rest of the body. */
  lemma RegisterRefusesStrongPassword(b: RegisterBody, emails: set<string>, names: set<string>)
    requires 6 <= Utf8Len(b.password) <= 20 && PasswordComplex(b.password)
    ensures CreateRegisterValidator(Some(b), emails, names) == Halt(StatusBadRequest, MsgPasswordComplexity)
  {
    RegisterFirstFailure(b, emails, names, true);
  }

  /** A concrete instance: "Abc12!" is six ASCII bytes with an upper-case
      letter, a digit and '!', so the validator as written refuses it. */
  lemma StrongPasswordExample(fullName: string, email: string, emails: set<string>, names: set<string>)
    ensures Utf8Len("Abc12!") == 6 && PasswordComplex("Abc12!")
    ensures CreateRegisterValidator(Some(RegisterBody(fullName, email, "Abc12!")), emails, names)
            == Halt(StatusBadRequest, MsgPasswordComplexity)
  {
    var p := "Abc12!";
    Utf8LenAscii(p);
    assert IsAsciiUpper(p[0]) && IsAsciiDigit(p[3]) && IsSpecial(p[5]);
    RegisterRefusesStrongPassword(RegisterBody(fullName, email, p), emails, names);
  }

  /** As intended, a password that lacks any one of the three classes is
      refused with the complexity message. */
  lemma IntendedRefusesWeakPassword(b: RegisterBody, emails: set<string>, names: set<string>)
    requires 6 <= Utf8Len(b.password) <= 20 && !PasswordComplex(b.password)
    ensures CreateRegisterValidatorIntended(Some(b), emails, names) == Halt(StatusBadRequest, MsgPasswordComplexity)
  {
    RegisterFirstFailure(b, emails, names, false);
  }

  /** The length check counts bytes: six two-byte characters make a password
      of twelve bytes, which passes the lower bound. */
  lemma PasswordLengthIsBytes()
    ensures Utf8Len("éééééé") == 12
  {
  }

  // ---------------------------------------------------------------------
  // AuthValidator

  datatype LoginBody = LoginBody(email: string, password: string)

  const MsgInvalidCredentials := "Invalid email or password"

  /** AuthValidator: password present, e-mail matching the pattern, and a
      stored user with that e-mail (else 401). No length or complexity rule
      applies at login. */
  function AuthValidator(body: Option<LoginBody>, emails: set<string>): (g: Gate)
    ensures body.None? ==> g == Halt(StatusBadRequest, MsgInvalidBody)
    ensures body.Some? && body.value.password == "" ==> g == Halt(StatusBadRequest, MsgPasswordRequired)
    ensures body.Some? && body.value.password != "" && !EmailPattern(body.value.email) ==>
              g == Halt(StatusBadRequest, MsgInvalidEmail)
    ensures (body.Some? && body.value.password != "" && EmailPattern(body.value.email)
             && body.value.email !in emails) ==> g == Halt(StatusUnauthorized, MsgInvalidCredentials)
    ensures g.Next? <==> body.Some? && body.value.password != "" && EmailPattern(body.value.email)
                         && body.value.email in emails
  {
    match body
    case None => Halt(StatusBadRequest, MsgInvalidBody)
    case Some(b) =>
      MatchesEmailCorrect(b.email);
      var rules := [ Rule(b.password == "", StatusBadRequest, MsgPasswordRequired),
                     Rule(!MatchesEmail(b.email), StatusBadRequest, MsgInvalidEmail),
                     Rule(b.email !in emails, StatusUnauthorized, MsgInvalidCredentials) ];
      if b.password != "" && !MatchesEmail(b.email) then
        FirstFailureAt(rules, 1);
        FirstFailure(rules)
      else if b.password != "" && MatchesEmail(b.email) && b.email !in emails then
        FirstFailureAt(rules, 2);
        FirstFailure(rules)
      else
        FirstFailure(rules)
  }

  /** A registered user's password of any length and make-up gets past the
      login validator. */
  lemma LoginHasNoPasswordRule(email: string, password: string, emails: set<string>)
    requires password != "" && EmailPattern(email) && email in emails
    ensures AuthValidator(Some(LoginBody(email, password)), emails) == Next
  {
  }

  // ---------------------------------------------------------------------
  // CreateProjectValidator

  /** The project fields the validator reads. */
  datatype ProjectBody = ProjectBody(ownerId: ObjectId, name: string, tags: seq<string>,
                                     description: string, category: string)

  const MsgNameRequired := "Project name is required"
  const MsgNameTooLong := "Project name must be at most 100 characters"
  const MsgTagRequired := "At least one tag is required"
  const MsgDescriptionRequired := "Project description is required"
  const MsgDescriptionTooLong := "Project description must be at most 500 characters"
  const MsgCategoryRequired := "Project category is required"

  /** validateUserId's message for an owner id no user has. */
  function UnknownUserMessage(id: ObjectId): (m: string)
    ensures m == "user with id " + id + " does not exist"
  {
    "user with id " + id + " does not exist"
  }

  /** CreateProjectValidator: the owner must be a stored user (`userIds`),
      then name, tags, description and category are checked in turn; the
      lengths are in bytes. */
  function CreateProjectValidator(body: Option<ProjectBody>, userIds: set<ObjectId>): (g: Gate)
    ensures body.None? ==> g == Halt(StatusBadRequest, MsgInvalidBody)
    ensures body.Some? && body.value.ownerId !in userIds ==>
              g == Halt(StatusBadRequest, UnknownUserMessage(body.value.ownerId))
    ensures g.Next? <==>
              && body.Some? && body.value.ownerId in userIds
              && 1 <= Utf8Len(body.value.name) <= 100
              && |body.value.tags| > 0
              && 1 <= Utf8Len(body.value.description) <= 500
              && body.value.category != ""
  {
    match body
    case None => Halt(StatusBadRequest, MsgInvalidBody)
    case Some(p) =>
      ProjectRulesPass(p, userIds);
      if p.ownerId !in userIds then
        FirstFailureAt(ProjectRules(p, userIds), 0);
        FirstFailure(ProjectRules(p, userIds))
      else
        FirstFailure(ProjectRules(p, userIds))
  }

  function ProjectRules(p: ProjectBody, userIds: set<ObjectId>): (rules: seq<Rule>)
    ensures |rules| == 7
    ensures forall i :: 0 <= i < |rules| ==> rules[i].status == StatusBadRequest
  {
    [ Rule(p.ownerId !in userIds, StatusBadRequest, UnknownUserMessage(p.ownerId)),
      Rule(p.name == "", StatusBadRequest, MsgNameRequired),
      Rule(Utf8Len(p.name) > 100, StatusBadRequest, MsgNameTooLong),
      Rule(|p.tags| == 0, StatusBadRequest, MsgTagRequired),
      Rule(p.description == "", StatusBadRequest, MsgDescriptionRequired),
      Rule(Utf8Len(p.description) > 500, StatusBadRequest, MsgDescriptionTooLong),
      Rule(p.category == "", StatusBadRequest, MsgCategoryRequired) ]
  }

  /** Every project rule passes exactly when the body meets them all. */
  lemma ProjectRulesPass(p: ProjectBody, userIds: set<ObjectId>)
    ensures var rules := ProjectRules(p, userIds);
            (forall i :: 0 <= i < |rules| ==> !rules[i].fails) <==>
              && p.ownerId in userIds && 1 <= Utf8Len(p.name) <= 100 && |p.tags| > 0
              && 1 <= Utf8Len(p.description) <= 500 && p.category != ""
  {
    var rules := ProjectRules(p, userIds);
    if !rules[0].fails && !rules[1].fails && !rules[2].fails && !rules[3].fails && !rules[4].fails
       && !rules[5].fails && !rules[6].fails {
      forall i | 0 <= i < |rules|
        ensures !rules[i].fails
      {
        assert i == 0 || i == 1 || i == 2 || i == 3 || i == 4 || i == 5 || i == 6;
      }
    }
  }

  /** The field rules in their order: each, when the earlier ones pass,
      decides the response. */
  lemma ProjectFirstFailure(p: ProjectBody, userIds: set<ObjectId>)
    requires p.ownerId in userIds
    ensures var g := CreateProjectValidator(Some(p), userIds);
            && (p.name == "" ==> g == Halt(StatusBadRequest, MsgNameRequired))
            && (Utf8Len(p.name) > 100 ==> g == Halt(StatusBadRequest, MsgNameTooLong))
            && (1 <= Utf8Len(p.name) <= 100 && |p.tags| == 0 ==> g == Halt(StatusBadRequest, MsgTagRequired))
            && (1 <= Utf8Len(p.name) <= 100 && |p.tags| > 0 && p.description == "" ==>
                  g == Halt(StatusBadRequest, MsgDescriptionRequired))
            && (1 <= Utf8Len(p.name) <= 100 && |p.tags| > 0 && Utf8Len(p.description) > 500 ==>
                  g == Halt(StatusBadRequest, MsgDescriptionTooLong))
            && ((1 <= Utf8Len(p.name) <= 100 && |p.tags| > 0 && 1 <= Utf8Len(p.description) <= 500
                 && p.category == "") ==> g == Halt(StatusBadRequest, MsgCategoryRequired))
  {
    var rules := ProjectRules(p, userIds);
    if p.name == "" {
      FirstFailureAt(rules, 1);
    } else if Utf8Len(p.name) > 100 {
      FirstFailureAt(rules, 2);
    } else if |p.tags| == 0 {
      FirstFailureAt(rules, 3);
    } else if p.description == "" {
      FirstFailureAt(rules, 4);
    } else if Utf8Len(p.description) > 500 {
      FirstFailureAt(rules, 5);
    } else if p.category == "" {
      FirstFailureAt(rules, 6);
    }
  }

  // ---------------------------------------------------------------------
  // CreateStatusValidator and CreateRoleValidator

  const MsgStatusNameRequired := "Status name is required"
  const MsgStatusNameTooLong := "Status name must be at most 100 characters"

  /** CreateStatusValidator: only the name is checked, for 1 to 100 bytes. */
  function CreateStatusValidator(name: Option<string>): (g: Gate)
    ensures name.None? ==> g == Halt(StatusBadRequest, MsgInvalidBody)
    ensures name == Some("") ==> g == Halt(StatusBadRequest, MsgStatusNameRequired)
    ensures name.Some? && Utf8Len(name.value) > 100 ==> g == Halt(StatusBadRequest, MsgStatusNameTooLong)
    ensures g.Next? <==> name.Some? && 1 <= Utf8Len(name.value) <= 100
  {
    match name
    case None => Halt(StatusBadRequest, MsgInvalidBody)
    case Some(n) =>
      if n == "" then Halt(StatusBadRequest, MsgStatusNameRequired)
      else if Utf8Len(n) > 100 then Halt(StatusBadRequest, MsgStatusNameTooLong)
      else Next
  }

  const MsgRoleNameRequired := "Role name is required"

  /** The role fields of the body; only the role name is checked. */
  datatype RoleBody = RoleBody(userId: ObjectId, projectId: ObjectId, roleName: string)

  /** CreateRoleValidator: any non-empty role name passes, of any length,
      whatever the user and project ids. */
  function CreateRoleValidator(body: Option<RoleBody>): (g: Gate)
    ensures body.None? ==> g == Halt(StatusBadRequest, MsgInvalidBody)
    ensures body.Some? && body.value.roleName == "" ==> g == Halt(StatusBadRequest, MsgRoleNameRequired)
    ensures g.Next? <==> body.Some? && body.value.roleName != ""
  {
    match body
    case None => Halt(StatusBadRequest, MsgInvalidBody)
    case Some(r) => if r.roleName == "" then Halt(StatusBadRequest, MsgRoleNameRequired) else Next
  }

  /** The role validator ignores the ids: two bodies with the same role name
      get the same response. */
  lemma RoleIdsIgnored(a: RoleBody, b: RoleBody)
    requires a.roleName == b.roleName
    ensures CreateRoleValidator(Some(a)) == CreateRoleValidator(Some(b))
  {
  }
}
