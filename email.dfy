/** The email format check used by the signup and login forms
    (`validate_email`, a fixed ASCII regular expression
    `^[a-zA-Z0-9._%+-]+@[a-zA-Z0-9.-]+\.[a-zA-Z]{2,}$` applied with `re.match`). */
module EmailValidation {
  import opened Wrappers

  predicate IsLetter(c: char) { 'a' <= c <= 'z' || 'A' <= c <= 'Z' }

  predicate IsDigit(c: char) { '0' <= c <= '9' }

  /** Characters allowed before the `@`. */
  predicate IsLocalChar(c: char) { IsLetter(c) || IsDigit(c) || c in "._%+-" }

  /** Characters allowed between the `@` and the final `.`. */
  predicate IsDomainChar(c: char) { IsLetter(c) || IsDigit(c) || c == '.' || c == '-' }

  predicate AllLocal(s: string) { forall i :: 0 <= i < |s| ==> IsLocalChar(s[i]) }

  predicate AllDomain(s: string) { forall i :: 0 <= i < |s| ==> IsDomainChar(s[i]) }

  predicate AllLetters(s: string) { forall i :: 0 <= i < |s| ==> IsLetter(s[i]) }

  /** Index of the first occurrence of `c` in `s`. */
  function IndexOf(s: string, c: char): (r: Option<nat>)
    ensures r.Some? ==> r.value < |s| && s[r.value] == c && c !in s[..r.value]
    ensures r.None? <==> c !in s
  {
    if |s| == 0 then None
    else if s[0] == c then Some(0)
    else
      match IndexOf(s[1..], c)
      case None => None
      case Some(i) => assert s[1..][..i] == s[1..i + 1]; Some(i + 1)
  }

  /** Index of the last occurrence of `c` in `s`. */
  function LastIndexOf(s: string, c: char): (r: Option<nat>)
    ensures r.Some? ==> r.value < |s| && s[r.value] == c && c !in s[r.value + 1..]
    ensures r.None? <==> c !in s
  {
    if |s| == 0 then None
    else if s[|s| - 1] == c then Some(|s| - 1)
    else
      var init := s[..|s| - 1];
      match LastIndexOf(init, c)
      case None => assert s == init + [s[|s| - 1]]; None
      case Some(i) => assert s[i + 1..] == init[i + 1..] + [s[|s| - 1]]; Some(i)
  }

  /** The three parts around the `@` at `at` and the `.` at `dot` are
      non-empty, of the right characters, and the last one is at least two
      letters long. */
  predicate PartsOk(s: string, at: nat, dot: nat) {
    && 0 < at && at + 1 < dot && dot + 2 < |s|
    && AllLocal(s[..at]) && AllDomain(s[at + 1..dot]) && AllLetters(s[dot + 1..])
  }

  /** The pattern matched against the whole of `s`: the parts around the only
      `@` and the last `.` after it. */
  function MatchesWhole(s: string): bool {
    match IndexOf(s, '@')
    case None => false
    case Some(at) =>
      match LastIndexOf(s[at + 1..], '.')
      case None => false
      case Some(d) => PartsOk(s, at, at + 1 + d)
  }

  /** `validate_email`: Python's `$` also matches just before one trailing
      newline, so a single final "\n" is tolerated. */
  function ValidateEmail(email: string): bool {
    || MatchesWhole(email)
    || (|email| > 0 && email[|email| - 1] == '\n' && MatchesWhole(email[..|email| - 1]))
  }

  /** The address shape as split points: `s == L + "@" + D + "." + T` with `at`
      the index of the `@` and `dot` that of the `.` before `T`. */
  ghost predicate SplitAt(s: string, at: int, dot: int) {
    0 <= at < dot < |s| && s[at] == '@' && s[dot] == '.' && PartsOk(s, at, dot)
  }

  ghost predicate EmailShape(s: string) {
    exists at, dot :: SplitAt(s, at, dot)
  }

  /** The first `c` is found wherever the prefix before it holds no `c`. */
  lemma IndexOfAt(s: string, c: char, k: nat)
    requires k < |s| && s[k] == c && c !in s[..k]
    ensures IndexOf(s, c) == Some(k)
  {
    assert s[k] in s;
  }

  /** The last `c` is found wherever the suffix after it holds no `c`. */
  lemma LastIndexOfAt(s: string, c: char, k: nat)
    requires k < |s| && s[k] == c && c !in s[k + 1..]
    ensures LastIndexOf(s, c) == Some(k)
  {
    assert s[k] in s;
  }

  lemma MatchesWholeHasShape(s: string)
    requires MatchesWhole(s)
    ensures EmailShape(s)
  {
    var at := IndexOf(s, '@').value;
    var d := LastIndexOf(s[at + 1..], '.').value;
    assert s[at + 1..][d] == s[at + 1 + d];
    assert SplitAt(s, at, at + 1 + d);
  }

  lemma LocalHasNoAt(x: string)
    requires AllLocal(x)
    ensures '@' !in x
  {
    forall i | 0 <= i < |x| ensures x[i] != '@' { assert IsLocalChar(x[i]); }
  }

  lemma LettersHaveNoDot(x: string)
    requires AllLetters(x)
    ensures '.' !in x
  {
    forall i | 0 <= i < |x| ensures x[i] != '.' { assert IsLetter(x[i]); }
  }

  /** In the shape, the `@` is the first one. */
  lemma ShapeAtIsFirst(s: string, at: int, dot: int)
    requires SplitAt(s, at, dot)
    ensures IndexOf(s, '@') == Some(at)
  {
    LocalHasNoAt(s[..at]);
    IndexOfAt(s, '@', at);
  }

  /** In the shape, the `.` is the last one after the `@`. */
  lemma ShapeDotIsLast(s: string, at: int, dot: int)
    requires SplitAt(s, at, dot)
    ensures LastIndexOf(s[at + 1..], '.') == Some(dot - (at + 1))
  {
    var d := dot - (at + 1);
    var rest := s[at + 1..];
    assert rest[d + 1..] == s[dot + 1..];
    LettersHaveNoDot(s[dot + 1..]);
    LastIndexOfAt(rest, '.', d);
  }

  lemma ShapeMatchesWhole(s: string, at: int, dot: int)
    requires SplitAt(s, at, dot)
    ensures MatchesWhole(s)
  {
    ShapeAtIsFirst(s, at, dot);
    ShapeDotIsLast(s, at, dot);
  }

  lemma MatchesWholeShape(s: string)
    ensures MatchesWhole(s) <==> EmailShape(s)
  {
    if MatchesWhole(s) { MatchesWholeHasShape(s); }
    if EmailShape(s) {
      var at, dot :| SplitAt(s, at, dot);
      ShapeMatchesWhole(s, at, dot);
    }
  }

  /** Both directions of the format check, including the tolerated newline. */
  lemma ValidateEmailIff(email: string)
    ensures ValidateEmail(email) <==>
      || EmailShape(email)
      || (|email| > 0 && email[|email| - 1] == '\n' && EmailShape(email[..|email| - 1]))
  {
    MatchesWholeShape(email);
    if |email| > 0 { MatchesWholeShape(email[..|email| - 1]); }
  }

  /** A string without a newline is accepted exactly when it has the shape. */
  lemma ValidateEmailNoNewline(email: string)
    requires '\n' !in email
    ensures ValidateEmail(email) <==> EmailShape(email)
  {
    ValidateEmailIff(email);
    if |email| > 0 { assert email[|email| - 1] in email; }
  }

  /** Sample verdicts: the one-letter top-level domain of "a@b.c" is rejected. */
  lemma ValidateEmailRejects()
    ensures !ValidateEmail("")
    ensures !ValidateEmail("not-an-email")
    ensures !ValidateEmail("a@b.c")
  {
    assert '@' !in "not-an-email" by { assert forall i :: 0 <= i < |"not-an-email"| ==> "not-an-email"[i] != '@'; }
    IndexOfAt("a@b.c", '@', 1);
    assert "a@b.c"[2..] == "b.c";
    LastIndexOfAt("b.c", '.', 1);
    assert "b.c"[2..] == "c";
  }

  lemma ValidateEmailAccepts()
    ensures ValidateEmail("your.email@example.com")
  {
    var local, domain, tld := "your.email", "example", "com";
    assert AllLocal(local) && AllDomain(domain) && AllLetters(tld);
    var s := local + "@" + domain + "." + tld;
    assert s == "your.email@example.com";
    var at, dot := |local|, |local| + 1 + |domain|;
    assert s[..at] == local && s[at + 1..dot] == domain && s[dot + 1..] == tld;
    assert SplitAt(s, at, dot);
    ShapeMatchesWhole(s, at, dot);
  }

  /** Some address passes the check (the form's own placeholder does). */
  lemma SomeValidEmail() returns (email: string)
    ensures ValidateEmail(email) && email != ""
  {
    email := "your.email@example.com";
    ValidateEmailAccepts();
  }
}
