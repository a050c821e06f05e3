/** The browser side of the registration form (script.js): the mirror of the
    rule table, the field check the browser runs before submitting, the
    account-number normaliser and preview, and `FormManager`, whose fields
    stand for the parts of the page its methods change (the input values,
    the preview text, the modal, the hidden `confirmed` input, the spinner
    and the submission). */
module Client {
  import opened Wrappers
  import opened Charset

  // ---------------------------------------------------------------------
  // Trimming and the e-mail pattern
  // ---------------------------------------------------------------------

  /** `String.prototype.trim` on ASCII text strips the same six characters as `\s`. */
  function JsTrim(s: string): (r: string)
    ensures |r| <= |s|
    ensures r == [] || (!IsRegexSpace(r[0]) && !IsRegexSpace(r[|r| - 1]))
  {
    TrimEnds(s, IsRegexSpace);
    TrimSlice(s, IsRegexSpace);
    Trim(s, IsRegexSpace)
  }

  /** `[^\s@]` */
  predicate IsEmailChar(c: char) {
    !IsRegexSpace(c) && c != '@'
  }

  /** `[^\s@]*` */
  predicate AllEmailChars(s: string) {
    s == [] || (IsEmailChar(s[0]) && AllEmailChars(s[1..]))
  }

  /** The position of the first `@`, or `|s|` when there is none. */
  function AtIndex(s: string): (i: nat)
    ensures i <= |s|
    ensures i < |s| ==> s[i] == '@'
    ensures forall k | 0 <= k < i :: s[k] != '@'
  {
    if s == [] || s[0] == '@' then 0 else 1 + AtIndex(s[1..])
  }

  /** `/^[^\s@]+@[^\s@]+\.[^\s@]+$/`: the text before the first `@` is a
      non-empty run of `[^\s@]`; the text after it is a run of `[^\s@]` with
      a dot that has at least one character on each side. An accepted text
      holds an `@` and is at least five characters long. */
  predicate MatchesEmail(s: string)
    ensures MatchesEmail(s) ==> '@' in s && 5 <= |s|
  {
    var i := AtIndex(s);
    0 < i < |s| && AllEmailChars(s[..i])
    && var d := s[i + 1..];
       AllEmailChars(d) && 3 <= |d| && '.' in d[1..|d| - 1]
  }

  lemma {:induction false} AllEmailCharsMeaning(s: string)
    ensures AllEmailChars(s) <==> forall k | 0 <= k < |s| :: IsEmailChar(s[k])
  {
    if s != [] {
      AllEmailCharsMeaning(s[1..]);
      assert forall k | 1 <= k < |s| :: s[k] == s[1..][k - 1];
    }
  }

  predicate NoSpace(s: string) {
    forall k | 0 <= k < |s| :: !IsRegexSpace(s[k])
  }

  /** `s[i]` is the only `@` in `s`. */
  predicate OnlyAt(s: string, i: nat) {
    forall k | 0 <= k < |s| && s[k] == '@' :: k == i
  }

  /** Some dot lies after `s[i]` with at least one character on each side of it. */
  predicate DotAfter(s: string, i: nat) {
    exists j | i + 1 < j < |s| - 1 :: s[j] == '.'
  }

  /** The e-mail pattern in plain words: no white space anywhere, exactly one
      `@`, not at the start, and a dot after it with text on both sides. */
  predicate EmailShape(s: string) {
    NoSpace(s) && exists i: nat | 0 < i < |s| :: s[i] == '@' && OnlyAt(s, i) && DotAfter(s, i)
  }

  lemma EmailMatchHasShape(s: string)
    requires MatchesEmail(s)
    ensures EmailShape(s)
  {
    var i := AtIndex(s);
    var d := s[i + 1..];
    AllEmailCharsMeaning(s[..i]);
    AllEmailCharsMeaning(d);
    forall k | 0 <= k < |s| && k != i
      ensures IsEmailChar(s[k])
    {
      if k < i {
        assert s[..i][k] == s[k];
      } else {
        assert d[k - i - 1] == s[k];
      }
    }
    var m :| 0 <= m < |d[1..|d| - 1]| && d[1..|d| - 1][m] == '.';
    assert s[i + 2 + m] == '.';
    assert DotAfter(s, i);
    assert OnlyAt(s, i);
  }

  /** Every character other than `s[i]` is a `[^\s@]` character. */
  lemma OthersAreEmailChars(s: string, i: nat)
    requires i < |s| && NoSpace(s) && OnlyAt(s, i)
    ensures AllEmailChars(s[..i]) && AllEmailChars(s[i + 1..])
  {
    AllEmailCharsMeaning(s[..i]);
    AllEmailCharsMeaning(s[i + 1..]);
    assert forall k | 0 <= k < |s| && k != i :: IsEmailChar(s[k]);
    var d := s[i + 1..];
    assert forall k | 0 <= k < |d| :: d[k] == s[i + 1 + k];
  }

  lemma EmailShapeMatches(s: string)
    requires EmailShape(s)
    ensures MatchesEmail(s)
  {
    var i: nat :| 0 < i < |s| && s[i] == '@' && OnlyAt(s, i) && DotAfter(s, i);
    var j :| i + 1 < j < |s| - 1 && s[j] == '.';
    assert AtIndex(s) == i;
    OthersAreEmailChars(s, i);
    var d := s[i + 1..];
    assert d[1..|d| - 1][j - i - 2] == s[j];
  }

  /** The browser's e-mail pattern accepts exactly the texts with no white
      space, one `@` not at the start, and a dot after it with text on both sides. */
  lemma EmailPatternMeaning(s: string)
    ensures MatchesEmail(s) <==> EmailShape(s)
  {
    if MatchesEmail(s) {
      EmailMatchHasShape(s);
    }
    if EmailShape(s) {
      EmailShapeMatches(s);
    }
  }

  // ---------------------------------------------------------------------
  // The rule table and the field check
  // ---------------------------------------------------------------------

  datatype Pattern = NamePattern | EmailPattern | AccountPattern

  predicate Matches(p: Pattern, s: string) {
    match p
    case NamePattern => MatchesName(s)
    case EmailPattern => MatchesEmail(s)
    case AccountPattern => MatchesAccount(s)
  }

  datatype Rule = Rule(required: bool, pattern: Option<Pattern>, message: string)

  const FirstNameMessage := "First name must contain only letters, spaces, hyphens, or apostrophes and be 1-50 characters long"
  const LastNameMessage := "Last name must contain only letters, spaces, hyphens, or apostrophes and be 1-50 characters long"
  const EmailMessage := "Please enter a valid email address"
  const AccountMessage := "Account number must be exactly 12 alphanumeric characters"
  const YearMessage := "Please select a year"

  /** The form's required inputs in page order; they are also the keys of the
      browser's rule table. */
  const RequiredInputs: seq<string> := ["firstName", "lastName", "email", "accountNumber", "year"]

  /** `this.validationRules[fieldName]`; the year has no pattern. */
  function RuleFor(name: string): Option<Rule> {
    if name == "firstName" then Some(Rule(true, Some(NamePattern), FirstNameMessage))
    else if name == "lastName" then Some(Rule(true, Some(NamePattern), LastNameMessage))
    else if name == "email" then Some(Rule(true, Some(EmailPattern), EmailMessage))
    else if name == "accountNumber" then Some(Rule(true, Some(AccountPattern), AccountMessage))
    else if name == "year" then Some(Rule(true, None, YearMessage))
    else None
  }

  /** `getFieldDisplayName`: the label of a table field, any other name as it is. */
  function DisplayName(name: string): (r: string)
    ensures name !in RequiredInputs ==> r == name
    ensures name in RequiredInputs ==> r != [] && 'A' <= r[0] <= 'Z'
  {
    if name == "firstName" then "First Name"
    else if name == "lastName" then "Last Name"
    else if name == "email" then "Email Address"
    else if name == "accountNumber" then "Account Number"
    else if name == "year" then "Year"
    else name
  }

  /** Each field of the table is shown by a label that differs from its key
      (the year's only by its capital); every other name is shown as it is. */
  lemma DisplayNames(name: string)
    ensures name !in RequiredInputs ==> DisplayName(name) == name
    ensures name in RequiredInputs ==> DisplayName(name) != name
    ensures name in RequiredInputs && name != "year" ==> ' ' in DisplayName(name)
  {
    if name in RequiredInputs {
      assert name == "firstName" || name == "lastName" || name == "email"
          || name == "accountNumber" || name == "year";
      if name == "year" {
        assert DisplayName(name)[0] != name[0];
      } else if name == "firstName" {
        assert DisplayName(name)[5] == ' ';
      } else if name == "lastName" {
        assert DisplayName(name)[4] == ' ';
      } else if name == "email" {
        assert DisplayName(name)[5] == ' ';
      } else {
        assert DisplayName(name)[7] == ' ';
      }
    }
  }

  /** The decision `validateField` takes on the trimmed value: None when the
      field passes, Some(message) when it fails. */
  function FieldVerdict(name: string, value: string): (r: Option<string>)
    ensures name !in RequiredInputs ==> r == None
    ensures r.Some? && value == "" ==> r.value == DisplayName(name) + " is required"
    ensures r.Some? && value != "" ==> r.value == RuleFor(name).value.message
  {
    match RuleFor(name)
    case None => None
    case Some(rule) =>
      if rule.required && value == "" then Some(DisplayName(name) + " is required")
      else if value != "" && rule.pattern.Some? && !Matches(rule.pattern.value, value) then Some(rule.message)
      else None
  }

  /** `validateField` on the raw input value, which it trims first. */
  function ClientCheck(name: string, raw: string): (r: Option<string>)
    ensures r.Some? ==> name in RequiredInputs
    ensures name in RequiredInputs && JsTrim(raw) == "" ==> r.Some?
  {
    FieldVerdict(name, JsTrim(raw))
  }

  /** Names outside the table always pass. */
  lemma ClientUnknownPasses(name: string, raw: string)
    requires name !in RequiredInputs
    ensures ClientCheck(name, raw) == None
  {
  }

  /** Every field is required: a value that trims to nothing earns
      `<display name> is required`. */
  lemma ClientRequired(name: string, raw: string)
    requires name in RequiredInputs && JsTrim(raw) == ""
    ensures ClientCheck(name, raw) == Some(DisplayName(name) + " is required")
  {
    assert RuleFor(name).Some? && RuleFor(name).value.required by {
      assert name == "firstName" || name == "lastName" || name == "email"
          || name == "accountNumber" || name == "year";
    }
  }

  /** Surrounding white space never changes the verdict. */
  lemma ClientIgnoresSurroundingSpace(name: string, raw: string)
    ensures ClientCheck(name, JsTrim(raw)) == ClientCheck(name, raw)
  {
    TrimIdempotent(raw, IsRegexSpace);
  }

  lemma ClientFirstName(value: string)
    ensures FieldVerdict("firstName", value)
      == if value == "" then Some("First Name is required")
         else if MatchesName(value) then None else Some(FirstNameMessage)
  {
    assert DisplayName("firstName") + " is required" == "First Name is required";
  }

  lemma ClientLastName(value: string)
    ensures FieldVerdict("lastName", value)
      == if value == "" then Some("Last Name is required")
         else if MatchesName(value) then None else Some(LastNameMessage)
  {
    assert DisplayName("lastName") + " is required" == "Last Name is required";
  }

  lemma ClientEmail(value: string)
    ensures FieldVerdict("email", value)
      == if value == "" then Some("Email Address is required")
         else if MatchesEmail(value) then None else Some(EmailMessage)
  {
    assert DisplayName("email") + " is required" == "Email Address is required";
  }

  lemma ClientAccountNumber(value: string)
    ensures FieldVerdict("accountNumber", value)
      == if value == "" then Some("Account Number is required")
         else if MatchesAccount(value) then None else Some(AccountMessage)
  {
    assert DisplayName("accountNumber") + " is required" == "Account Number is required";
  }

  /** The year has no pattern: any value but "" passes. */
  lemma ClientYear(value: string)
    ensures FieldVerdict("year", value) == if value == "" then Some("Year is required") else None
  {
    assert DisplayName("year") + " is required" == "Year is required";
  }

  /** Whether every required input passes `validateField`. */
  predicate FormPasses(values: map<string, string>) {
    forall name | name in RequiredInputs :: ClientCheck(name, InputValue(values, name)).None?
  }

  /** An input's current value; an input not on the page reads as "". */
  function InputValue(values: map<string, string>, name: string): string {
    if name in values then values[name] else ""
  }

  // ---------------------------------------------------------------------
  // The account-number normaliser
  // ---------------------------------------------------------------------

  /** `toUpperCase` on one ASCII character. */
  function UpperChar(c: char): char {
    if 'a' <= c <= 'z' then (c as int - 32) as char else c
  }

  function UpperCase(s: string): (r: string)
    ensures |r| == |s| && forall i | 0 <= i < |s| :: r[i] == UpperChar(s[i])
  {
    if s == [] then [] else [UpperChar(s[0])] + UpperCase(s[1..])
  }

  /** `[A-Z0-9]` */
  predicate IsUpperAlnum(c: char) {
    'A' <= c <= 'Z' || '0' <= c <= '9'
  }

  /** `.replace(/[^A-Z0-9]/g, "")`: keeps the upper-case letters and digits, in order. */
  function KeepUpperAlnum(s: string): (r: string)
    ensures |r| <= |s|
    ensures forall i | 0 <= i < |r| :: IsUpperAlnum(r[i])
  {
    if s == [] then []
    else (if IsUpperAlnum(s[0]) then [s[0]] else []) + KeepUpperAlnum(s[1..])
  }

  /** The new input value `formatAccountNumber` computes: only `[A-Z0-9]`,
      never longer than what was typed. */
  function FormatAccount(s: string): (r: string)
    ensures |r| <= |s|
    ensures forall i | 0 <= i < |r| :: IsUpperAlnum(r[i])
  {
    KeepUpperAlnum(UpperCase(s))
  }

  /** The replace works character by character: filtering a concatenation
      filters each part. */
  lemma {:induction false} KeepUpperAlnumAppend(a: string, b: string)
    ensures KeepUpperAlnum(a + b) == KeepUpperAlnum(a) + KeepUpperAlnum(b)
  {
    if a == [] {
      assert a + b == b;
    } else {
      assert (a + b)[0] == a[0];
      assert (a + b)[1..] == a[1..] + b;
      KeepUpperAlnumAppend(a[1..], b);
    }
  }

  /** One character is kept exactly when it is in `[A-Z0-9]`. */
  lemma KeepUpperAlnumChar(c: char)
    ensures KeepUpperAlnum([c]) == if IsUpperAlnum(c) then [c] else []
  {
    assert [c][1..] == [];
  }

  /** No `[A-Z0-9]` character is lost. */
  lemma {:induction false} KeepUpperAlnumKeeps(s: string, c: char)
    requires c in s && IsUpperAlnum(c)
    ensures c in KeepUpperAlnum(s)
  {
    if s[0] == c {
      assert KeepUpperAlnum(s)[0] == c;
    } else {
      KeepUpperAlnumKeeps(s[1..], c);
      var t := KeepUpperAlnum(s[1..]);
      var j :| 0 <= j < |t| && t[j] == c;
      var h := if IsUpperAlnum(s[0]) then [s[0]] else [];
      assert KeepUpperAlnum(s) == h + t;
      assert KeepUpperAlnum(s)[|h| + j] == c;
    }
  }

  lemma {:induction false} UpperCaseAppend(a: string, b: string)
    ensures UpperCase(a + b) == UpperCase(a) + UpperCase(b)
  {
    if a == [] {
      assert a + b == b;
    } else {
      assert (a + b)[0] == a[0];
      assert (a + b)[1..] == a[1..] + b;
      UpperCaseAppend(a[1..], b);
    }
  }

  /** The normaliser is determined character by character: a concatenation
      is normalised part by part, and one character becomes its upper-case
      form when it is an ASCII letter or digit and disappears otherwise. */
  lemma FormatAccountByChar(a: string, b: string, c: char)
    ensures FormatAccount(a + b) == FormatAccount(a) + FormatAccount(b)
    ensures FormatAccount([c]) == if IsAsciiAlnum(c) then [UpperChar(c)] else []
  {
    UpperCaseAppend(a, b);
    KeepUpperAlnumAppend(UpperCase(a), UpperCase(b));
    assert UpperCase([c]) == [UpperChar(c)];
    KeepUpperAlnumChar(UpperChar(c));
  }

  /** Every letter and digit typed survives normalisation, upper-cased. */
  lemma FormatAccountKeeps(s: string, c: char)
    requires c in s && IsAsciiAlnum(c)
    ensures UpperChar(c) in FormatAccount(s)
  {
    var i :| 0 <= i < |s| && s[i] == c;
    assert UpperCase(s)[i] == UpperChar(c);
    KeepUpperAlnumKeeps(UpperCase(s), UpperChar(c));
  }

  /** A typed separator (a dash, a space, any character other than an ASCII
      letter or digit) is dropped and the text around it is kept, so
      "ab-12 cd" becomes "AB12CD". */
  lemma FormatAccountDropsSeparator(a: string, sep: char, b: string)
    requires !IsAsciiAlnum(sep)
    ensures FormatAccount(a + [sep] + b) == FormatAccount(a) + FormatAccount(b)
  {
    FormatAccountByChar(a + [sep], b, sep);
    FormatAccountByChar(a, [sep], sep);
  }

  lemma {:induction false} KeepAllUpperAlnum(s: string)
    requires forall i | 0 <= i < |s| :: IsUpperAlnum(s[i])
    ensures KeepUpperAlnum(s) == s
  {
    if s != [] {
      KeepAllUpperAlnum(s[1..]);
      assert [s[0]] + s[1..] == s;
    }
  }

  /** The normaliser yields only `[A-Z0-9]`, and an input made only of ASCII
      letters and digits is upper-cased in full, never cut to 12 characters. */
  lemma FormatAccountKeepsAlnum(s: string)
    ensures forall i | 0 <= i < |FormatAccount(s)| :: IsUpperAlnum(FormatAccount(s)[i])
    ensures (forall i | 0 <= i < |s| :: IsAsciiAlnum(s[i])) ==> FormatAccount(s) == UpperCase(s)
    ensures (forall i | 0 <= i < |s| :: IsAsciiAlnum(s[i])) ==> |FormatAccount(s)| == |s|
  {
    if forall i | 0 <= i < |s| :: IsAsciiAlnum(s[i]) {
      KeepAllUpperAlnum(UpperCase(s));
    }
  }

  /** Normalising twice is normalising once. */
  lemma FormatAccountIdempotent(s: string)
    ensures FormatAccount(FormatAccount(s)) == FormatAccount(s)
  {
    var t := FormatAccount(s);
    assert UpperCase(t) == t;
    KeepAllUpperAlnum(t);
  }

  /** A normalised value satisfies the account pattern exactly when it is 12 long. */
  lemma FormattedAccountMatches(s: string)
    ensures MatchesAccount(FormatAccount(s)) <==> |FormatAccount(s)| == 12
  {
  }

  // ---------------------------------------------------------------------
  // The account-number preview
  // ---------------------------------------------------------------------

  /** The characters `.` does not match in a JavaScript regular expression. */
  predicate IsLineTerminator(c: char) {
    c == '\n' || c == '\r' || c == '\U{2028}' || c == '\U{2029}'
  }

  predicate NoLineTerminator(s: string) {
    forall i | 0 <= i < |s| :: !IsLineTerminator(s[i])
  }

  /** The length of the longest run of at most `max` characters other than
      line terminators at the head of `s`: what `.{1,max}` takes greedily. */
  function RunLength(s: string, max: nat): (n: nat)
    ensures n <= max && n <= |s|
    ensures forall k | 0 <= k < n :: !IsLineTerminator(s[k])
    ensures n < max && n < |s| ==> IsLineTerminator(s[n])
    ensures 0 < max && s != [] && !IsLineTerminator(s[0]) ==> 0 < n
  {
    if max == 0 || s == [] || IsLineTerminator(s[0]) then 0 else 1 + RunLength(s[1..], max - 1)
  }

  /** `value.match(/.{1,4}/g)`, the matches in order; the empty sequence stands for `null`. */
  function DotChunks(s: string): (parts: seq<string>)
    ensures s == [] ==> parts == []
    ensures forall k | 0 <= k < |parts| :: 1 <= |parts[k]| <= 4
    decreases |s|
  {
    if s == [] then []
    else if IsLineTerminator(s[0]) then DotChunks(s[1..])
    else
      var n := RunLength(s, 4);
      [s[..n]] + DotChunks(s[n..])
  }

  function JoinDash(parts: seq<string>): string {
    if parts == [] then ""
    else if |parts| == 1 then parts[0]
    else parts[0] + "-" + JoinDash(parts[1..])
  }

  function Flatten(parts: seq<string>): string {
    if parts == [] then "" else parts[0] + Flatten(parts[1..])
  }

  const PreviewPlaceholder := "Account number will appear here"

  /** The text `updateAccountPreview` shows for a value. */
  function PreviewText(value: string): string {
    if |value| > 0 then
      var parts := DotChunks(value);
      if parts == [] then value else JoinDash(parts)
    else PreviewPlaceholder
  }

  /** On text without line terminators the matches cover the text in order:
      every one is 4 long except the last, which is 1 to 4 long. */
  lemma {:induction false} ChunkShape(s: string)
    requires NoLineTerminator(s)
    ensures Flatten(DotChunks(s)) == s
    ensures s != [] <==> DotChunks(s) != []
    ensures forall k | 0 <= k < |DotChunks(s)| - 1 :: |DotChunks(s)[k]| == 4
    ensures DotChunks(s) != [] ==> 1 <= |DotChunks(s)[|DotChunks(s)| - 1]| <= 4
  {
    if s != [] {
      var n := RunLength(s, 4);
      var rest := s[n..];
      assert NoLineTerminator(rest) by {
        forall i | 0 <= i < |rest| ensures !IsLineTerminator(rest[i]) {
          assert rest[i] == s[n + i];
        }
      }
      ChunkShape(rest);
      assert DotChunks(s) == [s[..n]] + DotChunks(rest);
      assert s[..n] + rest == s;
      if rest != [] {
        assert n == 4;
      }
    }
  }

  function RemoveDashes(s: string): (r: string)
    ensures '-' !in r
  {
    if s == [] then [] else (if s[0] == '-' then [] else [s[0]]) + RemoveDashes(s[1..])
  }

  lemma {:induction false} RemoveDashesAppend(a: string, b: string)
    ensures RemoveDashes(a + b) == RemoveDashes(a) + RemoveDashes(b)
  {
    if a != [] {
      assert (a + b)[0] == a[0];
      assert (a + b)[1..] == a[1..] + b;
      RemoveDashesAppend(a[1..], b);
      var h := if a[0] == '-' then [] else [a[0]];
      assert RemoveDashes(a + b) == h + RemoveDashes(a[1..] + b);
      assert RemoveDashes(a) == h + RemoveDashes(a[1..]);
    } else {
      assert a + b == b;
    }
  }

  lemma {:induction false} RemoveDashesNone(s: string)
    requires '-' !in s
    ensures RemoveDashes(s) == s
  {
    if s != [] {
      RemoveDashesNone(s[1..]);
      assert [s[0]] + s[1..] == s;
    }
  }

  /** Joining dash-free parts with dashes and removing the dashes again gives
      the parts run together. */
  lemma {:induction false} UndashJoin(parts: seq<string>)
    requires forall k | 0 <= k < |parts| :: '-' !in parts[k]
    ensures RemoveDashes(JoinDash(parts)) == Flatten(parts)
  {
    if |parts| == 1 {
      RemoveDashesNone(parts[0]);
      assert Flatten(parts) == parts[0] + Flatten([]);
    } else if |parts| > 1 {
      UndashJoin(parts[1..]);
      RemoveDashesAppend(parts[0] + "-", JoinDash(parts[1..]));
      RemoveDashesAppend(parts[0], "-");
      RemoveDashesNone(parts[0]);
    }
  }

  /** Removing the dashes from the preview of a dash-free value without line
      terminators gives the value back. */
  lemma PreviewUndash(v: string)
    requires v != [] && NoLineTerminator(v) && '-' !in v
    ensures RemoveDashes(PreviewText(v)) == v
  {
    ChunkShape(v);
    var parts := DotChunks(v);
    forall k | 0 <= k < |parts| ensures '-' !in parts[k] {
      ChunkNoDash(v, k);
    }
    UndashJoin(parts);
  }

  /** The matches are pieces of the text, so a dash-free text has dash-free matches. */
  lemma {:induction false} ChunkNoDash(s: string, k: nat)
    requires '-' !in s && k < |DotChunks(s)|
    ensures '-' !in DotChunks(s)[k]
  {
    if IsLineTerminator(s[0]) {
      ChunkNoDash(s[1..], k);
    } else {
      var n := RunLength(s, 4);
      if k > 0 {
        ChunkNoDash(s[n..], k - 1);
      } else {
        assert DotChunks(s)[0] == s[..n];
      }
    }
  }

  /** A 12-character value without line terminators is shown as `XXXX-XXXX-XXXX`;
      an empty value shows the placeholder. */
  lemma PreviewTwelve(v: string)
    requires |v| == 12 && NoLineTerminator(v)
    ensures PreviewText(v) == v[..4] + "-" + v[4..8] + "-" + v[8..]
  {
    var a := v[4..];
    var b := v[8..];
    assert forall k | 0 <= k < 8 :: a[k] == v[k + 4];
    assert forall k | 0 <= k < 4 :: b[k] == v[k + 8];
    assert RunLength(v, 4) == 4;
    assert RunLength(a, 4) == 4;
    assert RunLength(b, 4) == 4;
    assert b[4..] == [] && a[4..] == b && v[4..] == a;
    assert DotChunks(b) == [b[..4]];
    assert DotChunks(a) == [a[..4]] + DotChunks(b);
    assert DotChunks(v) == [v[..4]] + DotChunks(a);
    var parts := DotChunks(v);
    assert a[..4] == v[4..8] && b[..4] == b == v[8..];
    assert parts == [v[..4], v[4..8], v[8..]];
    assert JoinDash(parts[2..]) == v[8..];
    assert JoinDash(parts[1..]) == v[4..8] + "-" + v[8..];
  }

  /** An empty value shows the placeholder text instead of a preview. */
  lemma PreviewEmpty()
    ensures PreviewText("") == PreviewPlaceholder
  {
  }

  /** What the browser previews after normalising: the value back once the
      dashes are removed. */
  lemma PreviewOfFormatted(s: string)
    requires FormatAccount(s) != []
    ensures RemoveDashes(PreviewText(FormatAccount(s))) == FormatAccount(s)
  {
    var v := FormatAccount(s);
    FormatAccountKeepsAlnum(s);
    assert '-' !in v by {
      forall i | 0 <= i < |v| ensures v[i] != '-' {
        assert IsUpperAlnum(v[i]);
      }
    }
    assert NoLineTerminator(v) by {
      forall i | 0 <= i < |v| ensures !IsLineTerminator(v[i]) {
        assert IsUpperAlnum(v[i]);
      }
    }
    PreviewUndash(v);
  }

  // ---------------------------------------------------------------------
  // FormManager
  // ---------------------------------------------------------------------

  /** The page state the form manager reads and changes. */
  class FormManager {
    /** The current value of each input, by name. */
    var values: map<string, string>
    /** The text of the account-number preview. */
    var preview: string
    /** Whether the verification modal is displayed. */
    var modalOpen: bool
    /** The value of the hidden `confirmed` input. */
    var confirmedValue: string
    var spinnerShown: bool
    /** Whether the form has been handed to the browser for submission. */
    var submitted: bool

    /** What holds at every step: the form goes out only after the
        `confirmed` input was set to "true" and the spinner shown. */
    predicate Valid()
      reads this
    {
      submitted ==> confirmedValue == "true" && spinnerShown
    }

    /** `constructor` and `init`: the page's inputs as loaded; the preview
        shows the loaded account number, or the placeholder when it is empty. */
    constructor (values: map<string, string>)
      ensures this.values == values && preview == PreviewText(InputValue(values, "accountNumber"))
      ensures !modalOpen && confirmedValue == "false" && !spinnerShown && !submitted
      ensures Valid()
    {
      this.values := values;
      modalOpen := false;
      confirmedValue := "false";
      spinnerShown := false;
      submitted := false;
      preview := PreviewPlaceholder;
      new;
      var account := InputValue(values, "accountNumber");
      if account != "" {
        UpdateAccountPreview(account);
      }
    }

    /** `validateField`'s verdict on the input `name`; the error display is left out. */
    method ValidateField(name: string) returns (isValid: bool)
      ensures isValid <==> ClientCheck(name, InputValue(values, name)).None?
    {
      var value := JsTrim(InputValue(values, name));
      var found := RuleFor(name);
      if found.None? {
        return true;
      }
      var rules := found.value;
      isValid := true;
      if rules.required && value == "" {
        isValid := false;
      } else if value != "" && rules.pattern.Some? && !Matches(rules.pattern.value, value) {
        isValid := false;
      }
    }

    /** `validateForm`: checks every required input, without stopping at the
        first failure, and reports whether all passed. */
    method ValidateForm() returns (isFormValid: bool)
      ensures isFormValid <==> FormPasses(values)
    {
      isFormValid := true;
      for i := 0 to |RequiredInputs|
        invariant isFormValid <==> forall k | 0 <= k < i :: ClientCheck(RequiredInputs[k], InputValue(values, RequiredInputs[k])).None?
      {
        var ok := ValidateField(RequiredInputs[i]);
        if !ok {
          isFormValid := false;
        }
      }
    }

    /** `handleSubmit`: the verification modal opens exactly when the form
        passes; otherwise nothing this model tracks changes. */
    method HandleSubmit()
      requires Valid()
      modifies this`modalOpen
      ensures FormPasses(values) ==> modalOpen
      ensures !FormPasses(values) ==> modalOpen == old(modalOpen)
      ensures Valid()
    {
      var ok := ValidateForm();
      if ok {
        modalOpen := true;
      }
    }

    /** `closeVerificationModal`: cancelling only hides the modal. */
    method CloseVerificationModal()
      requires Valid()
      modifies this`modalOpen
      ensures !modalOpen
      ensures Valid()
    {
      modalOpen := false;
    }

    /** `confirmSubmission`: shows the spinner, sets the `confirmed` input to
        "true" and submits the form (the deferral through `setTimeout` is
        collapsed into one step). */
    method ConfirmSubmission()
      requires Valid()
      modifies this`spinnerShown, this`confirmedValue, this`submitted
      ensures spinnerShown && confirmedValue == "true" && submitted
      ensures Valid()
    {
      spinnerShown := true;
      confirmedValue := "true";
      submitted := true;
    }

    /** `formatAccountNumber`: normalises the account input in place and
        refreshes the preview. */
    method FormatAccountNumber()
      requires Valid()
      modifies this`values, this`preview
      ensures values == old(values)["accountNumber" := FormatAccount(InputValue(old(values), "accountNumber"))]
      ensures preview == PreviewText(values["accountNumber"])
      ensures Valid()
    {
      var value := FormatAccount(InputValue(values, "accountNumber"));
      values := values["accountNumber" := value];
      UpdateAccountPreview(value);
    }

    /** `updateAccountPreview`: the preview text for `value`. */
    method UpdateAccountPreview(value: string)
      requires Valid()
      modifies this`preview
      ensures preview == PreviewText(value)
      ensures Valid()
    {
      if |value| > 0 {
        var parts := DotChunks(value);
        preview := if parts != [] then JoinDash(parts) else value;
      } else {
        preview := PreviewPlaceholder;
      }
    }
  }
}
