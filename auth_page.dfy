/** The sign-in / sign-up page (src/pages/Auth.tsx): the two form schemas,
    the field-error map built from a failed parse, and the page's form and
    error state. Whether the e-mail has a valid format (zod's `email()`
    check) is a parameter. */
module AuthPage {
  import opened Types
  import AuthContext

  /** A validation issue: the path of the offending field and the message. */
  datatype Issue = Issue(path: seq<string>, message: string)

  const InvalidEmail := "Please enter a valid email"
  const ShortPassword := "Password must be at least 6 characters"
  const ShortName := "Name must be at least 2 characters"
  const PasswordsDiffer := "Passwords don't match"

  /** The issues of `loginSchema.safeParse`, in the order the fields are
      declared. */
  function LoginIssues(email: string, password: string, emailValid: bool): (issues: seq<Issue>)
    ensures |issues| == 0 <==> emailValid && |password| >= 6
    ensures forall i :: 0 <= i < |issues| ==> issues[i].path == ["email"] || issues[i].path == ["password"]
    ensures Issue(["email"], InvalidEmail) in issues <==> !emailValid
    ensures Issue(["password"], ShortPassword) in issues <==> |password| < 6
  {
    (if emailValid then [] else [Issue(["email"], InvalidEmail)])
    + (if |password| >= 6 then [] else [Issue(["password"], ShortPassword)])
  }

  /** The issues of `registerSchema.safeParse`. Failed length or format
      checks do not stop the parse, so the password comparison runs as well
      and reports on the confirmation field. */
  function RegisterIssues(name: string, email: string, password: string, confirmPassword: string,
                          emailValid: bool): (issues: seq<Issue>)
    ensures |issues| == 0 <==> |name| >= 2 && emailValid && |password| >= 6 && password == confirmPassword
    ensures Issue(["name"], ShortName) in issues <==> |name| < 2
    ensures Issue(["email"], InvalidEmail) in issues <==> !emailValid
    ensures Issue(["password"], ShortPassword) in issues <==> |password| < 6
    ensures Issue(["confirmPassword"], PasswordsDiffer) in issues <==> password != confirmPassword
  {
    (if |name| >= 2 then [] else [Issue(["name"], ShortName)])
    + (if emailValid then [] else [Issue(["email"], InvalidEmail)])
    + (if |password| >= 6 then [] else [Issue(["password"], ShortPassword)])
    + (if password == confirmPassword then [] else [Issue(["confirmPassword"], PasswordsDiffer)])
  }

  // -------------------------------------------------------- error map

  /** The map the `forEach` over the issues leaves behind. */
  function FieldErrorsOf(issues: seq<Issue>): map<string, string>
  {
    if issues == [] then map[]
    else
      var m := FieldErrorsOf(issues[..|issues| - 1]);
      var last := issues[|issues| - 1];
      if |last.path| > 0 && last.path[0] != "" then m[last.path[0] := last.message] else m
  }

  /** `result.error.errors.forEach(err => { if (err.path[0]) fieldErrors[...] = err.message })` */
  method FieldErrors(issues: seq<Issue>) returns (fieldErrors: map<string, string>)
    ensures fieldErrors == FieldErrorsOf(issues)
  {
    fieldErrors := map[];
    for i := 0 to |issues|
      invariant fieldErrors == FieldErrorsOf(issues[..i])
    {
      var err := issues[i];
      assert issues[..i + 1][..i] == issues[..i];
      if |err.path| > 0 && err.path[0] != "" {
        fieldErrors := fieldErrors[err.path[0] := err.message];
      }
    }
    assert issues[..|issues|] == issues;
  }

  /** Issue `i` names field `key`. */
  predicate Names(issues: seq<Issue>, i: int, key: string)
    requires 0 <= i < |issues|
  {
    |issues[i].path| > 0 && issues[i].path[0] == key && key != ""
  }

  /** The map has an entry exactly for the fields some issue names, and
      each entry holds the message of the last issue naming that field. */
  lemma {:induction false} FieldErrorsLastWins(issues: seq<Issue>, key: string)
    ensures key in FieldErrorsOf(issues) <==> exists i :: 0 <= i < |issues| && Names(issues, i, key)
    ensures key in FieldErrorsOf(issues) ==>
              exists i :: 0 <= i < |issues| && Names(issues, i, key) && FieldErrorsOf(issues)[key] == issues[i].message
                          && forall j :: i < j < |issues| ==> !Names(issues, j, key)
  {
    if issues != [] {
      var n := |issues| - 1;
      var prefix := issues[..n];
      FieldErrorsLastWins(prefix, key);
      forall i | 0 <= i < n ensures Names(issues, i, key) == Names(prefix, i, key) {
      }
      if Names(issues, n, key) {
        assert FieldErrorsOf(issues)[key] == issues[n].message;
      } else {
        assert key in FieldErrorsOf(issues) <==> key in FieldErrorsOf(prefix);
        assert key in FieldErrorsOf(prefix) ==> FieldErrorsOf(issues)[key] == FieldErrorsOf(prefix)[key];
        if key in FieldErrorsOf(prefix) {
          var i :| 0 <= i < n && Names(prefix, i, key) && FieldErrorsOf(prefix)[key] == prefix[i].message
                   && forall j :: i < j < n ==> !Names(prefix, j, key);
          assert Names(issues, i, key);
        }
      }
    }
  }

  /** A mismatched confirmation in registration is reported on the
      confirmation field, whatever else is wrong. */
  lemma MismatchReportedOnConfirmation(name: string, email: string, password: string, confirmPassword: string,
                                       emailValid: bool)
    requires password != confirmPassword
    ensures FieldErrorsOf(RegisterIssues(name, email, password, confirmPassword, emailValid))["confirmPassword"]
            == PasswordsDiffer
  {
    var issues := RegisterIssues(name, email, password, confirmPassword, emailValid);
    var n := |issues| - 1;
    assert issues[n] == Issue(["confirmPassword"], PasswordsDiffer);
  }

  // -------------------------------------------------------------- page

  const FieldNames: seq<string> := ["name", "email", "password", "confirmPassword"]

  datatype SubmitOutcome = Rejected | LoggedIn | LoginRefused | Registered | RegisterRefused

  class Page {
    const session: AuthContext.Session
    var isLogin: bool
    var formData: map<string, string>
    var errors: map<string, string>

    /** The four form fields always have a value. */
    ghost predicate Valid()
      reads this
    {
      forall k :: k in FieldNames ==> k in formData
    }

    /** The page opens in sign-in mode unless the `mode` query parameter is
        "register". */
    constructor (session: AuthContext.Session, modeParam: Option<string>)
      ensures this.session == session
      ensures isLogin <==> modeParam != Some("register")
      ensures formData == map["name" := "", "email" := "", "password" := "", "confirmPassword" := ""]
      ensures errors == map[]
      ensures Valid()
    {
      this.session := session;
      isLogin := modeParam != Some("register");
      formData := map["name" := "", "email" := "", "password" := "", "confirmPassword" := ""];
      errors := map[];
    }

    /** `handleChange`: the edited field takes the new value and its error
        is blanked; nothing else changes. */
    method HandleChange(field: string, value: string)
      requires Valid()
      modifies this
      ensures formData == old(formData)[field := value]
      ensures errors == old(errors)[field := ""]
      ensures forall k :: k != field ==> (k in formData <==> k in old(formData))
      ensures forall k :: k != field && k in formData ==> formData[k] == old(formData)[k]
      ensures forall k :: k != field && k in errors ==> k in old(errors) && errors[k] == old(errors)[k]
      ensures isLogin == old(isLogin) && Valid()
    {
      formData := formData[field := value];
      errors := errors[field := ""];
    }

    /** `handleSubmit`. A form the schema rejects only fills the error map;
        login or register runs only on a form the schema accepts. */
    method HandleSubmit(emailValid: bool, now: nat, random: real) returns (outcome: SubmitOutcome)
      requires Valid() && 0.0 <= random < 1.0
      modifies this, session
      ensures isLogin == old(isLogin) && formData == old(formData) && Valid()
      ensures isLogin ==>
                var issues := LoginIssues(formData["email"], formData["password"], emailValid);
                if |issues| > 0 then outcome == Rejected && errors == FieldErrorsOf(issues) && session.user == old(session.user)
                else errors == map[] && (outcome == LoggedIn <==> formData["email"] != "")
                     && (outcome == LoggedIn || outcome == LoginRefused)
                     && (outcome == LoggedIn ==>
                           session.user == Some(AuthContext.LoginUser(formData["email"], formData["password"], now, random)))
                     && (outcome == LoginRefused ==> session.user == old(session.user))
      ensures !isLogin ==>
                var issues := RegisterIssues(formData["name"], formData["email"], formData["password"],
                                             formData["confirmPassword"], emailValid);
                if |issues| > 0 then outcome == Rejected && errors == FieldErrorsOf(issues) && session.user == old(session.user)
                else errors == map[] && (outcome == Registered <==> formData["email"] != "")
                     && (outcome == Registered || outcome == RegisterRefused)
                     && (outcome == Registered ==>
                           session.user == Some(AuthContext.RegisteredUser(formData["name"], formData["email"], now)))
                     && (outcome == RegisterRefused ==> session.user == old(session.user))
    {
      errors := map[];
      var email, password := formData["email"], formData["password"];
      if isLogin {
        var issues := LoginIssues(email, password, emailValid);
        if |issues| > 0 {
          errors := FieldErrors(issues);
          return Rejected;
        }
        var ok := session.Login(email, password, now, random);
        outcome := if ok then LoggedIn else LoginRefused;
      } else {
        var name, confirm := formData["name"], formData["confirmPassword"];
        var issues := RegisterIssues(name, email, password, confirm, emailValid);
        if |issues| > 0 {
          errors := FieldErrors(issues);
          return Rejected;
        }
        var ok := session.Register(name, email, password, now);
        outcome := if ok then Registered else RegisterRefused;
      }
    }
  }
}
