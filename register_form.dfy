/**
 * The registration form of `finance/tailwindcss4/src/components/Register.jsx`:
 * `validate`, which returns the message of the first failing check or `""`,
 * and the body `handleSubmit` posts to /register.
 */
module RegisterForm {
  import opened JsonData
  import opened Text
  import opened Seqs
  import Backend

  datatype Form = Form(name: string, email: string, password: string, confirmPassword: string, terms: bool)

  const FillRequired := "Please fill all required fields."
  const InvalidEmail := "Please enter a valid email address."
  const ShortPassword := "Password must be at least 6 characters."
  const PasswordMismatch := "Passwords do not match."
  const TermsRequired := "You must agree to the Terms and Conditions."

  /** Name and address are not blank after trimming, and a password was typed. */
  predicate FieldsFilled(f: Form) {
    Trim(f.name) != "" && Trim(f.email) != "" && f.password != ""
  }

  // ---------------------------------------------------------------------------
  // The address pattern `^[^\s@]+@[^\s@]+\.[^\s@]+$`

  /** One `[^\s@]+` run. */
  ghost predicate Part(p: string) {
    p != [] && NoSpace(p) && '@' !in p
  }

  /** The pattern as written: some split into part, `@`, part, `.`, part. */
  ghost predicate MatchesEmailPattern(s: string) {
    exists i, j :: 0 < i && i + 1 < j && j + 1 < |s| && s[i] == '@' && s[j] == '.' &&
      Part(s[..i]) && Part(s[i + 1..j]) && Part(s[j + 1..])
  }

  /** The first `@` of the address, or -1. */
  function AtIndex(s: string): int {
    IndexOf(s, (c: char) => c == '@')
  }

  /**
   * The pattern decided directly: no whitespace, exactly one `@`, not first, and
   * a `.` after it that is neither right after the `@` nor last.
   */
  predicate EmailShape(s: string) {
    var i := AtIndex(s);
    && NoSpace(s)
    && 0 < i && i + 3 <= |s|
    && '@' !in s[i + 1..]
    && '.' in s[i + 2..|s| - 1]
  }

  /** Position `k` of `s` read through the slice `s[lo..hi]`. */
  lemma SliceChars(s: string, lo: nat, hi: nat, k: nat)
    requires lo <= k < hi <= |s|
    ensures s[lo..hi][k - lo] == s[k]
  {
  }

  /** An address the pattern matches has the shape. */
  lemma PatternHasShape(s: string, i: nat, j: nat)
    requires 0 < i && i + 1 < j && j + 1 < |s| && s[i] == '@' && s[j] == '.'
    requires Part(s[..i]) && Part(s[i + 1..j]) && Part(s[j + 1..])
    ensures EmailShape(s)
  {
    forall k | 0 <= k < |s|
      ensures !IsSpace(s[k]) && (k != i ==> s[k] != '@')
    {
      if k < i {
        SliceChars(s, 0, i, k);
        assert s[..i][k] in s[..i];
      } else if i < k < j {
        SliceChars(s, i + 1, j, k);
        assert s[i + 1..j][k - i - 1] in s[i + 1..j];
      } else if j < k {
        SliceChars(s, j + 1, |s|, k);
        assert s[j + 1..][k - j - 1] in s[j + 1..];
      }
    }
    assert AtIndex(s) == i;
    var tail := s[i + 1..];
    forall m | 0 <= m < |tail| ensures tail[m] != '@' {
      SliceChars(s, i + 1, |s|, i + 1 + m);
    }
    SliceChars(s, i + 2, |s| - 1, j);
  }

  /** An address of the shape is matched by the pattern, splitting at the `@` and at a `.` after it. */
  lemma ShapeMatchesPattern(s: string)
    requires EmailShape(s)
    ensures MatchesEmailPattern(s)
  {
    var i := AtIndex(s);
    var mid := s[i + 2..|s| - 1];
    var k :| 0 <= k < |mid| && mid[k] == '.';
    var j := i + 2 + k;
    SliceChars(s, i + 2, |s| - 1, j);
    forall c | c in s[..i] ensures c != '@' && !IsSpace(c) {
      var m :| 0 <= m < i && s[..i][m] == c;
      SliceChars(s, 0, i, m);
    }
    forall c | c in s[i + 1..j] ensures c != '@' && !IsSpace(c) {
      var m :| 0 <= m < j - i - 1 && s[i + 1..j][m] == c;
      SliceChars(s, i + 1, j, i + 1 + m);
      SliceChars(s, i + 1, |s|, i + 1 + m);
      assert s[i + 1..][m] in s[i + 1..];
    }
    forall c | c in s[j + 1..] ensures c != '@' && !IsSpace(c) {
      var m :| 0 <= m < |s| - j - 1 && s[j + 1..][m] == c;
      SliceChars(s, j + 1, |s|, j + 1 + m);
      SliceChars(s, i + 1, |s|, j + 1 + m);
      assert s[i + 1..][j - i + m] in s[i + 1..];
    }
    assert Part(s[..i]) && Part(s[i + 1..j]) && Part(s[j + 1..]);
  }

  /** The direct decision accepts exactly the addresses the pattern matches. */
  lemma EmailShapeIsPattern(s: string)
    ensures EmailShape(s) <==> MatchesEmailPattern(s)
  {
    if MatchesEmailPattern(s) {
      var i, j :| 0 < i && i + 1 < j && j + 1 < |s| && s[i] == '@' && s[j] == '.' &&
        Part(s[..i]) && Part(s[i + 1..j]) && Part(s[j + 1..]);
      PatternHasShape(s, i, j);
    }
    if EmailShape(s) {
      ShapeMatchesPattern(s);
    }
  }

  // ---------------------------------------------------------------------------
  // validate

  /** `validate()`: the message of the first failing check, or `""`. */
  function Validate(f: Form): string {
    if !FieldsFilled(f) then FillRequired
    else if !EmailShape(f.email) then InvalidEmail
    else if |f.password| < 6 then ShortPassword
    else if f.password != f.confirmPassword then PasswordMismatch
    else if !f.terms then TermsRequired
    else ""
  }

  /** Every check passes. */
  ghost predicate Acceptable(f: Form) {
    FieldsFilled(f) && MatchesEmailPattern(f.email) && |f.password| >= 6 &&
    f.password == f.confirmPassword && f.terms
  }

  /** `validate` returns `""` exactly when every check passes. */
  lemma ValidateAcceptsExactly(f: Form)
    ensures Validate(f) == "" <==> Acceptable(f)
  {
    EmailShapeIsPattern(f.email);
  }

  /** Each message is given exactly when its check is the first to fail, in the order of the form. */
  lemma ValidateReportsFirstFailure(f: Form)
    ensures Validate(f) == FillRequired <==> !FieldsFilled(f)
    ensures Validate(f) == InvalidEmail <==> FieldsFilled(f) && !MatchesEmailPattern(f.email)
    ensures Validate(f) == ShortPassword <==> FieldsFilled(f) && MatchesEmailPattern(f.email) && |f.password| < 6
    ensures Validate(f) == PasswordMismatch <==>
      FieldsFilled(f) && MatchesEmailPattern(f.email) && |f.password| >= 6 && f.password != f.confirmPassword
    ensures Validate(f) == TermsRequired <==>
      FieldsFilled(f) && MatchesEmailPattern(f.email) && |f.password| >= 6 && f.password == f.confirmPassword && !f.terms
  {
    EmailShapeIsPattern(f.email);
  }

  /** A name or address of whitespace only, or an empty password, asks for the required fields. */
  lemma BlankFieldsRejected(f: Form)
    requires (forall k :: 0 <= k < |f.name| ==> IsSpace(f.name[k])) ||
             (forall k :: 0 <= k < |f.email| ==> IsSpace(f.email[k])) ||
             f.password == ""
    ensures Validate(f) == FillRequired
  {
    TrimEmptyIffAllSpace(f.name);
    TrimEmptyIffAllSpace(f.email);
  }

  // ---------------------------------------------------------------------------
  // The request body

  /** `{ name: name.trim(), email: email.trim().toLowerCase(), password }` */
  function Payload(f: Form): (r: Doc)
    ensures r.Keys == {"name", "email", "password"}
    ensures r["password"] == JStr(f.password)
  {
    map["name" := JStr(Trim(f.name)), "email" := JStr(Normalize(f.email)), "password" := JStr(f.password)]
  }

  /**
   * For an accepted form trimming the address changes nothing (it has no
   * whitespace), so the address sent is the typed one lower-cased; and the body
   * passes the server's required-fields check.
   */
  lemma AcceptedPayload(f: Form)
    requires Validate(f) == ""
    ensures Trim(f.email) == f.email
    ensures Payload(f)["email"] == JStr(Lower(f.email))
    ensures Backend.RegisterFieldsPresent(Payload(f))
  {
    assert EmailShape(f.email);
    TrimOfNoSpace(f.email);
    var p := Payload(f);
    assert |Lower(Trim(f.email))| == |Trim(f.email)|;
    assert Truthy(p["name"]) && Truthy(p["email"]) && Truthy(p["password"]);
  }

  /** The server stores the address exactly as the form sent it: normalising twice is normalising once. */
  lemma ServerKeepsSentEmail(f: Form)
    ensures Normalize(Payload(f)["email"].s) == Payload(f)["email"].s
  {
    NormalizeIdempotent(f.email);
  }
}
