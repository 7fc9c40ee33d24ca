/**
 * The event registration form of eventregistration.py: Python's strip and
 * (ASCII) lower, the email pattern, the submit-time validation, the
 * append-and-count bookkeeping, the clear action and today's count.
 */
module EventRegistration {
  import opened Optional

  // ---------------------------------------------------------------------
  // Characters and the two string operations the form applies
  // ---------------------------------------------------------------------

  /** The characters Python's str.strip() removes (those for which str.isspace() holds). */
  predicate IsSpace(c: char)
  {
    || c == ' '
    || '\t' <= c <= '\r'
    || '\U{1c}' <= c <= '\U{1f}'
    || c == '\U{85}' || c == '\U{a0}' || c == '\U{1680}'
    || '\U{2000}' <= c <= '\U{200a}'
    || c == '\U{2028}' || c == '\U{2029}' || c == '\U{202f}' || c == '\U{205f}'
    || c == '\U{3000}'
  }

  predicate AllSpace(s: string)
  {
    forall k :: 0 <= k < |s| ==> IsSpace(s[k])
  }

  /** The number of leading whitespace characters. */
  function Lead(s: string): (n: nat)
    ensures n <= |s|
    ensures forall k :: 0 <= k < n ==> IsSpace(s[k])
    ensures n < |s| ==> !IsSpace(s[n])
  {
    if |s| == 0 || !IsSpace(s[0]) then 0 else 1 + Lead(s[1..])
  }

  /** The position just after the last non-whitespace character (0 when there is none). */
  function Trail(s: string): (n: nat)
    ensures n <= |s|
    ensures forall k :: n <= k < |s| ==> IsSpace(s[k])
    ensures n > 0 ==> !IsSpace(s[n - 1])
  {
    if |s| == 0 || !IsSpace(s[|s| - 1]) then |s| else Trail(s[..|s| - 1])
  }

  /**
   * str.strip(): the slice left once whitespace is removed from both ends;
   * it is empty exactly when the string is all whitespace.
   */
  function Strip(s: string): (r: string)
    ensures exists i, j :: 0 <= i <= j <= |s| && r == s[i..j]
                           && (forall k :: 0 <= k < i ==> IsSpace(s[k]))
                           && (forall k :: j <= k < |s| ==> IsSpace(s[k]))
    ensures r != [] ==> !IsSpace(r[0]) && !IsSpace(r[|r| - 1])
    ensures r == [] <==> AllSpace(s)
  {
    var i := Lead(s);
    var j := Trail(s);
    if i < j then
      assert !AllSpace(s) by { assert !IsSpace(s[i]); }
      s[i..j]
    else
      assert AllSpace(s);
      assert s[i..i] == [];
      []
  }

  /** Stripping twice removes nothing more. */
  lemma StripIdempotent(s: string)
    ensures Strip(Strip(s)) == Strip(s)
  {
  }

  /** The ASCII part of str.lower(). */
  function LowerChar(c: char): (r: char)
  {
    if 'A' <= c <= 'Z' then (c as int + 32) as char else c
  }

  /** str.lower(), character by character. */
  function Lower(s: string): (r: string)
    ensures |r| == |s|
    ensures forall k :: 0 <= k < |s| ==> r[k] == LowerChar(s[k])
    ensures forall k :: 0 <= k < |s| ==> !('A' <= r[k] <= 'Z')
  {
    if s == [] then [] else [LowerChar(s[0])] + Lower(s[1..])
  }

  /** Lower-casing a lower-cased string changes nothing. */
  lemma LowerIdempotent(s: string)
    ensures Lower(Lower(s)) == Lower(s)
  {
  }

  // ---------------------------------------------------------------------
  // The email pattern ^[a-zA-Z0-9._%+-]+@[a-zA-Z0-9.-]+\.[a-zA-Z]{2,}$
  // ---------------------------------------------------------------------

  predicate IsLetter(c: char) { 'a' <= c <= 'z' || 'A' <= c <= 'Z' }

  predicate IsDigit(c: char) { '0' <= c <= '9' }

  /** The local-part class [a-zA-Z0-9._%+-]. */
  predicate IsLocalChar(c: char)
  {
    IsLetter(c) || IsDigit(c) || c == '.' || c == '_' || c == '%' || c == '+' || c == '-'
  }

  /** The domain class [a-zA-Z0-9.-]. */
  predicate IsDomainChar(c: char)
  {
    IsLetter(c) || IsDigit(c) || c == '.' || c == '-'
  }

  /** Every character of s[i..j] is in the local-part class. */
  predicate LocalIn(s: string, i: nat, j: nat)
    requires i <= j <= |s|
  {
    forall k :: i <= k < j ==> IsLocalChar(s[k])
  }

  /** Every character of s[i..j] is in the domain class. */
  predicate DomainIn(s: string, i: nat, j: nat)
    requires i <= j <= |s|
  {
    forall k :: i <= k < j ==> IsDomainChar(s[k])
  }

  /** Every character of s[i..j] is a letter. */
  predicate LettersIn(s: string, i: nat, j: nat)
    requires i <= j <= |s|
  {
    forall k :: i <= k < j ==> IsLetter(s[k])
  }

  /**
   * s splits as local '@' domain '.' suffix at the given positions: a
   * non-empty local part, a non-empty domain body, a suffix of two or more
   * letters.
   */
  ghost predicate SplitsAt(s: string, at: int, dot: int)
  {
    && 1 <= at && at + 2 <= dot && dot + 3 <= |s|
    && LocalIn(s, 0, at) && s[at] == '@'
    && DomainIn(s, at + 1, dot) && s[dot] == '.'
    && LettersIn(s, dot + 1, |s|)
  }

  /** The whole string matches the pattern (the declarative reading of the regex). */
  ghost predicate MatchesPattern(s: string)
  {
    exists at, dot :: SplitsAt(s, at, dot)
  }

  /** The first position of c in s. */
  function IndexOf(s: string, c: char): (r: Option<nat>)
    ensures r.Some? ==> r.value < |s| && s[r.value] == c && c !in s[..r.value]
    ensures r.None? ==> c !in s
  {
    if s == [] then None
    else if s[0] == c then Some(0)
    else match IndexOf(s[1..], c)
      case None => None
      case Some(i) =>
        assert s[..i + 1] == [s[0]] + s[1..][..i];
        Some(i + 1)
  }

  /** The last position of c in s. */
  function LastIndexOf(s: string, c: char): (r: Option<nat>)
    ensures r.Some? ==> r.value < |s| && s[r.value] == c && c !in s[r.value + 1..]
    ensures r.None? ==> c !in s
  {
    if s == [] then None
    else if s[|s| - 1] == c then Some(|s| - 1)
    else match LastIndexOf(s[..|s| - 1], c)
      case None =>
        assert s == s[..|s| - 1] + [s[|s| - 1]];
        None
      case Some(i) =>
        assert s[i + 1..] == s[..|s| - 1][i + 1..] + [s[|s| - 1]];
        Some(i)
  }

  /** The scan: split at the first '@' and the last '.', then check each part. */
  predicate HasEmailShape(s: string)
  {
    match IndexOf(s, '@')
    case None => false
    case Some(at) =>
      match LastIndexOf(s, '.')
      case None => false
      case Some(dot) =>
        && 1 <= at && at + 2 <= dot && dot + 3 <= |s|
        && LocalIn(s, 0, at) && DomainIn(s, at + 1, dot) && LettersIn(s, dot + 1, |s|)
  }

  /** A split forces the '@' to be the first one and the '.' to be the last one. */
  lemma SplitIsUnique(s: string, at: int, dot: int)
    requires SplitsAt(s, at, dot)
    ensures IndexOf(s, '@') == Some(at)
    ensures LastIndexOf(s, '.') == Some(dot)
  {
    assert '@' !in s[..at] by {
      forall k | 0 <= k < at
        ensures s[..at][k] != '@'
      {
        assert IsLocalChar(s[k]);
      }
    }
    var suffix := s[dot + 1..];
    assert '.' !in suffix by {
      forall k | 0 <= k < |suffix|
        ensures suffix[k] != '.'
      {
        assert suffix[k] == s[dot + 1 + k] && IsLetter(s[dot + 1 + k]);
      }
    }
    assert '@' in s[..at + 1] by {
      assert s[..at + 1][at] == '@';
    }
    assert '.' in s[dot..] by {
      assert s[dot..][0] == '.';
    }
  }

  /** The scan accepts exactly the strings the pattern describes. */
  lemma ShapeMatchesPattern(s: string)
    ensures HasEmailShape(s) <==> MatchesPattern(s)
  {
    if HasEmailShape(s) {
      var at := IndexOf(s, '@').value;
      var dot := LastIndexOf(s, '.').value;
      assert SplitsAt(s, at, dot);
    }
    if MatchesPattern(s) {
      var at, dot :| SplitsAt(s, at, dot);
      SplitIsUnique(s, at, dot);
    }
  }

  /**
   * is_valid_email: re.match anchored by ^ and $, where $ also accepts a
   * single trailing newline.
   */
  predicate IsValidEmail(s: string)
    ensures s == [] || s[|s| - 1] != '\n' ==> (IsValidEmail(s) <==> MatchesPattern(s))
  {
    ShapeMatchesPattern(s);
    HasEmailShape(s) || (|s| > 0 && s[|s| - 1] == '\n' && HasEmailShape(s[..|s| - 1]))
  }

  /** On a stripped string the trailing-newline allowance never applies. */
  lemma StrippedEmailMatchesPattern(email: string)
    ensures IsValidEmail(Strip(email)) <==> MatchesPattern(Strip(email))
  {
    ShapeMatchesPattern(Strip(email));
  }

  /** An accepted address holds exactly one '@'. */
  lemma AcceptedHasOneAt(s: string)
    requires MatchesPattern(s)
    ensures exists at :: 0 <= at < |s| && s[at] == '@'
                         && forall k :: 0 <= k < |s| && k != at ==> s[k] != '@'
  {
    var at, dot :| SplitsAt(s, at, dot);
    assert forall k :: 0 <= k < |s| && k != at ==> s[k] != '@';
  }

  /** Lower-casing a character keeps it in each class of the pattern. */
  lemma LowerCharKeepsClasses(c: char)
    ensures IsLocalChar(c) ==> IsLocalChar(LowerChar(c))
    ensures IsDomainChar(c) ==> IsDomainChar(LowerChar(c))
    ensures IsLetter(c) ==> IsLetter(LowerChar(c))
  {
  }

  /** Lower-casing keeps every character in its class, so an accepted address stays accepted. */
  lemma LowerKeepsPattern(s: string)
    requires MatchesPattern(s)
    ensures MatchesPattern(Lower(s))
  {
    var at, dot :| SplitsAt(s, at, dot);
    LowerKeepsSplit(s, at, dot);
  }

  /** Lower-casing keeps a split of the address at the same positions. */
  lemma LowerKeepsSplit(s: string, at: int, dot: int)
    requires SplitsAt(s, at, dot)
    ensures SplitsAt(Lower(s), at, dot)
  {
    forall k | 0 <= k < |s|
      ensures IsLocalChar(s[k]) ==> IsLocalChar(Lower(s)[k])
      ensures IsDomainChar(s[k]) ==> IsDomainChar(Lower(s)[k])
      ensures IsLetter(s[k]) ==> IsLetter(Lower(s)[k])
    {
      LowerCharKeepsClasses(s[k]);
    }
  }

  // ---------------------------------------------------------------------
  // Records, validation and the registry
  // ---------------------------------------------------------------------

  /** One row of the registration table. */
  datatype Registration = Registration(name: string, email: string, event: string, time: string)

  /** The messages the submit handler can collect, in the order it checks them. */
  datatype Error = NameRequired | EmailRequired | InvalidEmail | EventRequired | AlreadyRegistered

  function Position(e: Error): nat
  {
    match e
    case NameRequired => 0
    case EmailRequired => 1
    case InvalidEmail => 2
    case EventRequired => 3
    case AlreadyRegistered => 4
  }

  /** existing_emails: the lower-cased email of every record, in order. */
  function ExistingEmails(regs: seq<Registration>): (r: seq<string>)
    ensures |r| == |regs|
    ensures forall i :: 0 <= i < |regs| ==> r[i] == Lower(regs[i].email)
  {
    if regs == [] then [] else [Lower(regs[0].email)] + ExistingEmails(regs[1..])
  }

  /**
   * The submit handler's checks: each message is present exactly when its
   * condition holds (the format is checked only for a non-blank email, the
   * duplicate test ignores case), and the messages keep the check order.
   */
  function Validate(name: string, email: string, event: string, regs: seq<Registration>): (errors: seq<Error>)
    ensures NameRequired in errors <==> AllSpace(name)
    ensures EmailRequired in errors <==> AllSpace(email)
    ensures InvalidEmail in errors <==> !AllSpace(email) && !IsValidEmail(Strip(email))
    ensures EventRequired in errors <==> event == ""
    ensures AlreadyRegistered in errors <==> IsRegistered(Lower(Strip(email)), regs)
    ensures InOrder(errors)
  {
    var e := Strip(email);
    var errors := AppendIf([], Strip(name) == "", NameRequired);
    var errors := AppendIf(errors, e == "", EmailRequired);
    var errors := AppendIf(errors, e != "" && !IsValidEmail(e), InvalidEmail);
    var errors := AppendIf(errors, event == "", EventRequired);
    AppendIf(errors, IsRegistered(Lower(e), regs), AlreadyRegistered)
  }

  /** The format message is raised exactly for a non-blank email outside the pattern. */
  lemma InvalidEmailMeansPatternMismatch(name: string, email: string, event: string, regs: seq<Registration>)
    ensures InvalidEmail in Validate(name, email, event, regs) <==>
              !AllSpace(email) && !MatchesPattern(Strip(email))
  {
    StrippedEmailMatchesPattern(email);
  }

  /** The messages appear in the order the checks run, each at most once. */
  predicate InOrder(errors: seq<Error>)
  {
    forall i, j :: 0 <= i < j < |errors| ==> Position(errors[i]) < Position(errors[j])
  }

  /** errors.append(e) when the check failed; the list stays in check order. */
  function AppendIf(errors: seq<Error>, failed: bool, e: Error): (r: seq<Error>)
    requires InOrder(errors) && forall x :: x in errors ==> Position(x) < Position(e)
    ensures InOrder(r)
    ensures forall x :: x in r <==> x in errors || (failed && x == e)
    ensures forall x :: x in r ==> Position(x) <= Position(e)
  {
    if failed then errors + [e] else errors
  }

  /** The duplicate test: some record's email equals `email` once lower-cased. */
  function IsRegistered(email: string, regs: seq<Registration>): (b: bool)
    ensures b <==> exists i :: 0 <= i < |regs| && Lower(regs[i].email) == email
  {
    email in ExistingEmails(regs)
  }

  /** No two records share an email, ignoring case. */
  predicate DistinctEmails(regs: seq<Registration>)
  {
    forall i, j :: 0 <= i < j < |regs| ==> Lower(regs[i].email) != Lower(regs[j].email)
  }

  /** The stored form of an accepted email still matches the pattern. */
  lemma StoredEmailMatchesPattern(email: string)
    requires IsValidEmail(Strip(email))
    ensures MatchesPattern(Lower(Strip(email)))
  {
    StrippedEmailMatchesPattern(email);
    LowerKeepsPattern(Strip(email));
  }

  /** A submission with no message stores an email that matches the pattern. */
  lemma AcceptedEmailMatchesPattern(name: string, email: string, event: string, regs: seq<Registration>)
    requires Validate(name, email, event, regs) == []
    ensures MatchesPattern(Lower(Strip(email)))
  {
    var errors := Validate(name, email, event, regs);
    assert InvalidEmail !in errors && EmailRequired !in errors;
    StoredEmailMatchesPattern(email);
  }

  /** A submission with no message stores an email no record holds yet, so the emails stay distinct. */
  lemma AcceptedKeepsDistinct(name: string, email: string, event: string, time: string, regs: seq<Registration>)
    requires Validate(name, email, event, regs) == []
    ensures DistinctEmails(regs) ==> DistinctEmails(regs + [Registration(Strip(name), Lower(Strip(email)), event, time)])
  {
    var errors := Validate(name, email, event, regs);
    assert AlreadyRegistered !in errors;
    LowerIdempotent(Strip(email));
    AppendKeepsDistinct(regs, Registration(Strip(name), Lower(Strip(email)), event, time));
  }

  /** Appending a record whose email passed the duplicate test keeps the emails distinct. */
  lemma AppendKeepsDistinct(regs: seq<Registration>, x: Registration)
    requires !IsRegistered(x.email, regs) && Lower(x.email) == x.email
    ensures DistinctEmails(regs) ==> DistinctEmails(regs + [x])
  {
  }

  /** Python's str.startswith. */
  predicate StartsWith(s: string, prefix: string)
  {
    |prefix| <= |s| && s[..|prefix|] == prefix
  }

  /** today_count: the records whose registration time starts with today's date string. */
  function TodayCount(regs: seq<Registration>, today: string): (r: nat)
    ensures r <= |regs|
  {
    if regs == [] then 0
    else TodayCount(regs[..|regs| - 1], today) + (if StartsWith(regs[|regs| - 1].time, today) then 1 else 0)
  }

  /** A new record adds one to today's count exactly when it was made today. */
  lemma TodayCountAppend(regs: seq<Registration>, x: Registration, today: string)
    ensures TodayCount(regs + [x], today) ==
            TodayCount(regs, today) + (if StartsWith(x.time, today) then 1 else 0)
  {
    assert (regs + [x])[..|regs|] == regs;
  }

  /** The "Latest Event" metric: names longer than 20 characters are cut to 20 and marked with "...". */
  function LatestEventLabel(event: string): (r: string)
    ensures |event| <= 20 ==> r == event
    ensures |event| > 20 ==> |r| == 23 && r[..20] == event[..20] && r[20..] == "..."
  {
    if |event| > 20 then event[..20] + "..." else event
  }

  class Registry {
    var registrations: seq<Registration>
    var registrationCount: nat

    /** The counter always equals the number of records. */
    ghost predicate Valid()
      reads this
    {
      registrationCount == |registrations|
    }

    /** Start-up: the records read from the CSV file (an empty list when it is missing or unreadable). */
    constructor (loaded: seq<Registration>)
      ensures Valid()
      ensures registrations == loaded
    {
      registrations := loaded;
      registrationCount := |loaded|;
    }

    /**
     * Register Now: validate; with no message, append the record holding
     * the stripped name and the stripped, lower-cased email and count it.
     * The registration time is given.
     */
    method Submit(name: string, email: string, event: string, time: string) returns (errors: seq<Error>)
      requires Valid()
      modifies this
      ensures Valid()
      ensures errors == Validate(name, email, event, old(registrations))
      ensures errors == [] ==>
                registrations == old(registrations) + [Registration(Strip(name), Lower(Strip(email)), event, time)]
      ensures errors != [] ==> registrations == old(registrations)
      ensures DistinctEmails(old(registrations)) ==> DistinctEmails(registrations)
    {
      var regs := registrations;
      errors := Validate(name, email, event, regs);
      if errors == [] {
        AcceptedKeepsDistinct(name, email, event, time, regs);
        registrations := regs + [Registration(Strip(name), Lower(Strip(email)), event, time)];
        registrationCount := registrationCount + 1;
      }
    }

    /** Clear All Registrations, once confirmed: no records and a zero count. */
    method Clear()
      modifies this
      ensures Valid()
      ensures registrations == [] && registrationCount == 0
    {
      registrations := [];
      registrationCount := 0;
    }
  }
}
