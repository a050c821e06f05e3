/** The server side of the registration form (RegistrationSystem.php): the
    rule table, the sanitiser, the per-field and whole-form validators, the
    anti-forgery token guard and the request outcome. The pure parts are
    functions; `RegistrationSystem` keeps the error map, the form data and the
    success message as fields that its methods update. */
module Server {
  import opened Wrappers
  import opened Charset

  // ---------------------------------------------------------------------
  // Text helpers with PHP's meaning
  // ---------------------------------------------------------------------

  /** The characters PHP's `trim` strips by default: space, tab, line feed,
      carriage return, NUL and vertical tab. */
  predicate IsPhpTrimChar(c: char) {
    c == ' ' || c == '\t' || c == '\n' || c == '\r' || c == '\0' || c == '\U{B}'
  }

  /** PHP's `trim` with its default character set: the result is no longer
      than the input and neither starts nor ends with a stripped character. */
  function PhpTrim(s: string): (r: string)
    ensures |r| <= |s|
    ensures r == [] || (!IsPhpTrimChar(r[0]) && !IsPhpTrimChar(r[|r| - 1]))
  {
    TrimEnds(s, IsPhpTrimChar);
    TrimSlice(s, IsPhpTrimChar);
    Trim(s, IsPhpTrimChar)
  }

  /** PHP's `empty` on a string: true for "" and for "0". No PHP-empty value
      satisfies a pattern or the year list, so the "is required" branch is
      the only one such a value can reach. */
  predicate PhpEmpty(s: string)
    ensures PhpEmpty(s) ==> !MatchesName(s) && !MatchesAccount(s) && s !in Years
  {
    assert "0"[0] == '0' && !IsNameChar('0');
    s == "" || s == "0"
  }

  /** PHP's `ucfirst` on ASCII: a leading lower-case letter becomes upper case. */
  function Ucfirst(s: string): (r: string)
    ensures |r| == |s| && (s != [] ==> r[1..] == s[1..])
    ensures s != [] && 'a' <= s[0] <= 'z' ==> r[0] == (s[0] as int - 32) as char
    ensures s != [] && !('a' <= s[0] <= 'z') ==> r == s
  {
    if s != [] && 'a' <= s[0] <= 'z' then [(s[0] as int - 32) as char] + s[1..] else s
  }

  /** The five characters that `htmlspecialchars` with ENT_QUOTES replaces. */
  predicate IsHtmlSpecial(c: char) {
    c == '&' || c == '"' || c == '\'' || c == '<' || c == '>'
  }

  function EscapeChar(c: char): string {
    if c == '&' then "&amp;"
    else if c == '"' then "&quot;"
    else if c == '\'' then "&#039;"
    else if c == '<' then "&lt;"
    else if c == '>' then "&gt;"
    else [c]
  }

  /** `htmlspecialchars($s, ENT_QUOTES, 'UTF-8')` on ASCII text. */
  function HtmlEscape(s: string): (r: string)
    ensures forall i | 0 <= i < |r| :: r[i] != '<' && r[i] != '>' && r[i] != '"' && r[i] != '\''
    ensures (forall i | 0 <= i < |s| :: !IsHtmlSpecial(s[i])) ==> r == s
  {
    if s == [] then [] else EscapeChar(s[0]) + HtmlEscape(s[1..])
  }

  /** The character an entity at the head of `s` stands for, with the
      entity's length, for the five entities that `HtmlEscape` produces. */
  function EntityAt(s: string): Option<(char, nat)>
    requires s != [] && s[0] == '&'
  {
    if |s| >= 5 && s[..5] == "&amp;" then Some(('&', 5))
    else if |s| >= 6 && s[..6] == "&quot;" then Some(('"', 6))
    else if |s| >= 6 && s[..6] == "&#039;" then Some(('\'', 6))
    else if |s| >= 4 && s[..4] == "&lt;" then Some(('<', 4))
    else if |s| >= 4 && s[..4] == "&gt;" then Some(('>', 4))
    else None
  }

  /** Replaces the five entities that `HtmlEscape` produces by the characters
      they stand for; every other character is copied. */
  function HtmlUnescape(s: string): string {
    if s == [] then []
    else if s[0] != '&' then [s[0]] + HtmlUnescape(s[1..])
    else match EntityAt(s)
      case Some((c, n)) => [c] + HtmlUnescape(s[n..])
      case None => [s[0]] + HtmlUnescape(s[1..])
  }

  lemma UnescapeEntity(e: string, c: char, t: string)
    requires e in {"&amp;", "&quot;", "&#039;", "&lt;", "&gt;"}
    requires EntityAt(e + t) == Some((c, |e|))
    ensures HtmlUnescape(e + t) == [c] + HtmlUnescape(t)
  {
    assert (e + t)[|e|..] == t;
  }

  lemma UnescapeEscapeChar(c: char, t: string)
    ensures HtmlUnescape(EscapeChar(c) + t) == [c] + HtmlUnescape(t)
  {
    var s := EscapeChar(c) + t;
    if c == '&' {
      assert s[..5] == "&amp;";
      UnescapeEntity("&amp;", c, t);
    } else if c == '"' {
      assert s[..6] == "&quot;" && s[1] == 'q';
      UnescapeEntity("&quot;", c, t);
    } else if c == '\'' {
      assert s[..6] == "&#039;" && s[1] == '#';
      UnescapeEntity("&#039;", c, t);
    } else if c == '<' {
      assert s[..4] == "&lt;" && s[1] == 'l';
      UnescapeEntity("&lt;", c, t);
    } else if c == '>' {
      assert s[..4] == "&gt;" && s[1] == 'g';
      UnescapeEntity("&gt;", c, t);
    } else {
      assert s[0] == c && s[1..] == t;
    }
  }

  /** Escaping loses nothing: unescaping gives the text back. */
  lemma {:induction false} UnescapeEscape(s: string)
    ensures HtmlUnescape(HtmlEscape(s)) == s
  {
    if s != [] {
      UnescapeEscapeChar(s[0], HtmlEscape(s[1..]));
      UnescapeEscape(s[1..]);
      assert [s[0]] + s[1..] == s;
    }
  }

  /** A special character in the input leaves an ampersand in the output. */
  lemma {:induction false} EscapeKeepsAmpersand(s: string, c: char)
    requires c in s && IsHtmlSpecial(c)
    ensures '&' in HtmlEscape(s)
  {
    if s[0] == c {
      assert EscapeChar(c)[0] == '&';
      assert HtmlEscape(s)[0] == '&';
    } else {
      EscapeKeepsAmpersand(s[1..], c);
      var j :| 0 <= j < |HtmlEscape(s[1..])| && HtmlEscape(s[1..])[j] == '&';
      assert HtmlEscape(s)[|EscapeChar(s[0])| + j] == '&';
    }
  }

  /** `sanitizeInput`: trim, then escape. */
  function Sanitize(s: string): (r: string)
    ensures forall i | 0 <= i < |r| :: r[i] != '<' && r[i] != '>' && r[i] != '"' && r[i] != '\''
    ensures (forall i | 0 <= i < |PhpTrim(s)| :: !IsHtmlSpecial(PhpTrim(s)[i])) ==> r == PhpTrim(s)
    ensures HtmlUnescape(r) == PhpTrim(s)
  {
    UnescapeEscape(PhpTrim(s));
    HtmlEscape(PhpTrim(s))
  }

  /** Text without surrounding white space or special characters comes back unchanged. */
  lemma SanitizeClean(s: string)
    requires IsClean(s)
    ensures Sanitize(s) == s
  {
    assert TrimStart(s, IsPhpTrimChar) == s;
    assert TrimEnd(s, IsPhpTrimChar) == s;
  }

  /** A raw apostrophe survives trimming and is escaped to `&#039;`. */
  lemma SanitizedApostrophe(s: string)
    requires '\'' in s
    ensures '&' in Sanitize(s)
  {
    TrimKeeps(s, IsPhpTrimChar, '\'');
    EscapeKeepsAmpersand(PhpTrim(s), '\'');
  }

  // ---------------------------------------------------------------------
  // The rule table
  // ---------------------------------------------------------------------

  datatype Pattern = NamePattern | AccountPattern

  predicate Matches(p: Pattern, s: string) {
    match p
    case NamePattern => MatchesName(s)
    case AccountPattern => MatchesAccount(s)
  }

  datatype Rule = Rule(required: bool, pattern: Option<Pattern>, options: Option<seq<string>>, message: string)

  const FirstNameMessage := "First name must contain only letters, spaces, hyphens, or apostrophes and be 1-50 characters long"
  const LastNameMessage := "Last name must contain only letters, spaces, hyphens, or apostrophes and be 1-50 characters long"
  const EmailMessage := "Please enter a valid email address"
  const AccountMessage := "Account number must be exactly 12 alphanumeric characters"
  const YearMessage := "Please select a valid year"
  const Years: seq<string> := ["2025", "2024", "2023", "2022", "2021"]

  /** The rule table's keys in table order. */
  const FieldNames: seq<string> := ["firstName", "lastName", "email", "accountNumber", "year"]

  /** `$this->validationRules[$name]`, absent for names outside the table. */
  function RuleFor(name: string): Option<Rule> {
    if name == "firstName" then Some(Rule(true, Some(NamePattern), None, FirstNameMessage))
    else if name == "lastName" then Some(Rule(true, Some(NamePattern), None, LastNameMessage))
    else if name == "email" then Some(Rule(true, None, None, EmailMessage))
    else if name == "accountNumber" then Some(Rule(true, Some(AccountPattern), None, AccountMessage))
    else if name == "year" then Some(Rule(true, None, Some(Years), YearMessage))
    else None
  }

  /** The message stored for a required field left empty. */
  function RequiredMessage(name: string): string {
    Ucfirst(name) + " is required"
  }

  /** The decision `validateField` takes on an already sanitised value:
      None when the field passes, Some(message) when it fails.
      `validEmail` stands for PHP's FILTER_VALIDATE_EMAIL filter. */
  function FieldCheck(name: string, value: string, validEmail: string -> bool): (r: Option<string>)
    ensures r.Some? ==> name in FieldNames
    ensures r.Some? && PhpEmpty(value) ==> r.value == RequiredMessage(name)
    ensures r.Some? && !PhpEmpty(value) ==> r.value == RuleFor(name).value.message
  {
    match RuleFor(name)
    case None => None
    case Some(rule) =>
      if rule.required && PhpEmpty(value) then Some(RequiredMessage(name))
      else if PhpEmpty(value) && !rule.required then None
      else if name == "email" && !validEmail(value) then Some(rule.message)
      else if rule.pattern.Some? && !Matches(rule.pattern.value, value) then Some(rule.message)
      else if rule.options.Some? && value !in rule.options.value then Some(rule.message)
      else None
  }

  /** Names outside the table always validate. */
  lemma UnknownFieldPasses(name: string, value: string, validEmail: string -> bool)
    requires name !in FieldNames
    ensures FieldCheck(name, value, validEmail) == None
  {
  }

  lemma FirstNameCheck(value: string, validEmail: string -> bool)
    ensures FieldCheck("firstName", value, validEmail)
      == if PhpEmpty(value) then Some("FirstName is required")
         else if MatchesName(value) then None else Some(FirstNameMessage)
  {
    assert RequiredMessage("firstName") == "FirstName is required";
  }

  lemma LastNameCheck(value: string, validEmail: string -> bool)
    ensures FieldCheck("lastName", value, validEmail)
      == if PhpEmpty(value) then Some("LastName is required")
         else if MatchesName(value) then None else Some(LastNameMessage)
  {
    assert RequiredMessage("lastName") == "LastName is required";
  }

  lemma EmailCheck(value: string, validEmail: string -> bool)
    ensures FieldCheck("email", value, validEmail)
      == if PhpEmpty(value) then Some("Email is required")
         else if validEmail(value) then None else Some(EmailMessage)
  {
    assert RequiredMessage("email") == "Email is required";
  }

  lemma AccountNumberCheck(value: string, validEmail: string -> bool)
    ensures FieldCheck("accountNumber", value, validEmail)
      == if PhpEmpty(value) then Some("AccountNumber is required")
         else if MatchesAccount(value) then None else Some(AccountMessage)
  {
    assert RequiredMessage("accountNumber") == "AccountNumber is required";
  }

  lemma YearCheck(value: string, validEmail: string -> bool)
    ensures FieldCheck("year", value, validEmail)
      == if PhpEmpty(value) then Some("Year is required")
         else if value in Years then None else Some(YearMessage)
  {
    assert RequiredMessage("year") == "Year is required";
  }

  /** What each field of the table accepts, and the message it stores otherwise.
      "0" counts as empty, so it earns the "is required" message. */
  lemma FieldCheckByField(value: string, validEmail: string -> bool)
    ensures FieldCheck("firstName", value, validEmail)
      == if PhpEmpty(value) then Some("FirstName is required")
         else if MatchesName(value) then None else Some(FirstNameMessage)
    ensures FieldCheck("lastName", value, validEmail)
      == if PhpEmpty(value) then Some("LastName is required")
         else if MatchesName(value) then None else Some(LastNameMessage)
    ensures FieldCheck("email", value, validEmail)
      == if PhpEmpty(value) then Some("Email is required")
         else if validEmail(value) then None else Some(EmailMessage)
    ensures FieldCheck("accountNumber", value, validEmail)
      == if PhpEmpty(value) then Some("AccountNumber is required")
         else if MatchesAccount(value) then None else Some(AccountMessage)
    ensures FieldCheck("year", value, validEmail)
      == if PhpEmpty(value) then Some("Year is required")
         else if value in Years then None else Some(YearMessage)
  {
    FirstNameCheck(value, validEmail);
    LastNameCheck(value, validEmail);
    EmailCheck(value, validEmail);
    AccountNumberCheck(value, validEmail);
    YearCheck(value, validEmail);
  }

  /** The three matchers accept exactly their pattern or list; "" and "0" are in none. */
  lemma FieldPassesExactly(value: string, validEmail: string -> bool)
    ensures FieldCheck("firstName", value, validEmail) == None <==> MatchesName(value)
    ensures FieldCheck("lastName", value, validEmail) == None <==> MatchesName(value)
    ensures FieldCheck("accountNumber", value, validEmail) == None <==> MatchesAccount(value)
    ensures FieldCheck("year", value, validEmail) == None <==> value in Years
    ensures FieldCheck("email", value, validEmail) == None <==> !PhpEmpty(value) && validEmail(value)
  {
    FieldCheckByField(value, validEmail);
    if value == "0" {
      assert !IsNameChar(value[0]);
      assert |value| != 12;
    }
  }

  lemma AmpersandNotName(v: string)
    requires '&' in v
    ensures !MatchesName(v)
  {
    var j :| 0 <= j < |v| && v[j] == '&';
    assert !IsNameChar(v[j]);
  }

  /** A raw first or last name with an apostrophe never passes: the sanitiser
      has turned it into `&#039;` before the pattern sees it. */
  lemma ServerRejectsApostrophe(raw: string, validEmail: string -> bool)
    requires '\'' in raw
    ensures FieldCheck("firstName", Sanitize(raw), validEmail).Some?
    ensures FieldCheck("lastName", Sanitize(raw), validEmail).Some?
  {
    SanitizedApostrophe(raw);
    AmpersandNotName(Sanitize(raw));
    FirstNameCheck(Sanitize(raw), validEmail);
    LastNameCheck(Sanitize(raw), validEmail);
  }

  // ---------------------------------------------------------------------
  // Whole-form validation
  // ---------------------------------------------------------------------

  /** The value `validateForm` checks and records for a field: the sanitised
      posted value, or "" when the field was not posted. */
  function FieldValue(data: map<string, string>, name: string, sanitize: string -> string): string {
    if name in data then sanitize(data[name]) else ""
  }

  /** The error map left after checking `names` in order: a failing name
      maps to its message, a passing one is left alone. */
  function CollectErrors(names: seq<string>, check: string -> Option<string>): map<string, string> {
    if names == [] then map[]
    else
      var name := names[|names| - 1];
      var prev := CollectErrors(names[..|names| - 1], check);
      match check(name)
      case Some(m) => prev[name := m]
      case None => prev
  }

  /** The map left after recording `value(name)` for each of `names` in order. */
  function CollectValues(names: seq<string>, value: string -> string): map<string, string> {
    if names == [] then map[]
    else CollectValues(names[..|names| - 1], value)[names[|names| - 1] := value(names[|names| - 1])]
  }

  function Lookup(m: map<string, string>, key: string): Option<string> {
    if key in m then Some(m[key]) else None
  }

  /** Visiting one more name extends the error map by that name's verdict. */
  lemma CollectErrorsNext(names: seq<string>, i: nat, check: string -> Option<string>)
    requires i < |names|
    ensures CollectErrors(names[..i + 1], check)
      == match check(names[i])
         case Some(m) => CollectErrors(names[..i], check)[names[i] := m]
         case None => CollectErrors(names[..i], check)
  {
    assert names[..i + 1][..i] == names[..i];
  }

  /** Visiting one more name records that name's value. */
  lemma CollectValuesNext(names: seq<string>, i: nat, value: string -> string)
    requires i < |names|
    ensures CollectValues(names[..i + 1], value) == CollectValues(names[..i], value)[names[i] := value(names[i])]
  {
    assert names[..i + 1][..i] == names[..i];
  }

  lemma UpdateUnion(a: map<string, string>, b: map<string, string>, k: string, v: string)
    ensures (a + b)[k := v] == a + b[k := v]
  {
  }

  lemma PrefixFull<T>(s: seq<T>)
    ensures s[..|s|] == s
  {
  }

  /** One iteration of `validateForm` on the error map. */
  lemma ErrorsStep(names: seq<string>, data: map<string, string>, validEmail: string -> bool, sanitize: string -> string, i: nat,
                   before: map<string, string>, after: map<string, string>, ok: bool)
    requires i < |names|
    requires before == CollectErrors(names[..i], FormCheck(data, validEmail, sanitize))
    requires ok <==> FieldCheck(names[i], FieldValue(data, names[i], sanitize), validEmail).None?
    requires after == match FieldCheck(names[i], FieldValue(data, names[i], sanitize), validEmail)
                      case Some(m) => before[names[i] := m]
                      case None => before
    ensures after == CollectErrors(names[..i + 1], FormCheck(data, validEmail, sanitize))
    ensures ok ==> after == before
    ensures !ok ==> after != map[]
  {
    CollectErrorsNext(names, i, FormCheck(data, validEmail, sanitize));
    if !ok {
      assert names[i] in after;
    }
  }

  /** One iteration of `validateForm` on the recorded values. */
  lemma ValuesStep(names: seq<string>, data: map<string, string>, sanitize: string -> string, i: nat, start: map<string, string>,
                   before: map<string, string>, value: string)
    requires i < |names|
    requires before == start + CollectValues(names[..i], ValueOf(data, sanitize))
    requires value == FieldValue(data, names[i], sanitize)
    ensures before[names[i] := value] == start + CollectValues(names[..i + 1], ValueOf(data, sanitize))
  {
    CollectValuesNext(names, i, ValueOf(data, sanitize));
    UpdateUnion(start, CollectValues(names[..i], ValueOf(data, sanitize)), names[i], value);
  }

  /** Every visited name's entry is its check's verdict, and only visited names have entries. */
  lemma {:induction false} CollectErrorsSpec(names: seq<string>, check: string -> Option<string>)
    ensures forall key | key in CollectErrors(names, check) :: key in names
    ensures forall name | name in names :: Lookup(CollectErrors(names, check), name) == check(name)
  {
    if names != [] {
      var last := names[|names| - 1];
      var init := names[..|names| - 1];
      CollectErrorsSpec(init, check);
      assert names == init + [last];
    }
  }

  /** Every visited name maps to its value, and only visited names have entries. */
  lemma {:induction false} CollectValuesSpec(names: seq<string>, value: string -> string)
    ensures forall key | key in CollectValues(names, value) :: key in names
    ensures forall name | name in names :: Lookup(CollectValues(names, value), name) == Some(value(name))
  {
    if names != [] {
      var last := names[|names| - 1];
      var init := names[..|names| - 1];
      CollectValuesSpec(init, value);
      assert names == init + [last];
    }
  }

  /** The verdict `validateField` gives each field inside `validateForm`. */
  function FormCheck(data: map<string, string>, validEmail: string -> bool, sanitize: string -> string): string -> Option<string> {
    name => FieldCheck(name, FieldValue(data, name, sanitize), validEmail)
  }

  /** The error map `validateForm` leaves behind. */
  function FormErrors(names: seq<string>, data: map<string, string>, validEmail: string -> bool, sanitize: string -> string): map<string, string> {
    CollectErrors(names, FormCheck(data, validEmail, sanitize))
  }

  /** The values `validateForm` records. */
  function FormValues(names: seq<string>, data: map<string, string>, sanitize: string -> string): map<string, string> {
    CollectValues(names, ValueOf(data, sanitize))
  }

  /** `validateForm`'s error map: its keys are field names of the table, and
      each field's entry is exactly what `validateField` decides for it, so
      every field is visited and none short-circuits another. */
  lemma FormErrorsSpec(data: map<string, string>, validEmail: string -> bool, sanitize: string -> string)
    ensures forall key | key in FormErrors(FieldNames, data, validEmail, sanitize) :: key in FieldNames
    ensures forall name | name in FieldNames ::
      Lookup(FormErrors(FieldNames, data, validEmail, sanitize), name) == FieldCheck(name, FieldValue(data, name, sanitize), validEmail)
  {
    CollectErrorsSpec(FieldNames, FormCheck(data, validEmail, sanitize));
  }

  /** `validateForm` records a value for every field of the table and no other:
      the sanitised posted value, or "" when the field is absent. */
  lemma FormValuesSpec(data: map<string, string>, sanitize: string -> string)
    ensures forall key | key in FormValues(FieldNames, data, sanitize) :: key in FieldNames
    ensures forall name | name in FieldNames :: Lookup(FormValues(FieldNames, data, sanitize), name) == Some(FieldValue(data, name, sanitize))
  {
    CollectValuesSpec(FieldNames, ValueOf(data, sanitize));
  }

  /** Every field of the table is required: a PHP-empty value ("" or "0")
      earns exactly `ucfirst(name) . ' is required'`. */
  lemma RequiredWhenEmpty(name: string, value: string, validEmail: string -> bool)
    requires name in FieldNames && PhpEmpty(value)
    ensures FieldCheck(name, value, validEmail) == Some(RequiredMessage(name))
  {
    assert RuleFor(name).Some? && RuleFor(name).value.required by {
      assert name == "firstName" || name == "lastName" || name == "email"
          || name == "accountNumber" || name == "year";
    }
  }

  /** A field missing from the post gets exactly its "is required" message,
      whatever the other fields hold. */
  lemma MissingFieldRequired(data: map<string, string>, name: string, validEmail: string -> bool, sanitize: string -> string)
    requires name in FieldNames && name !in data
    ensures name in FormErrors(FieldNames, data, validEmail, sanitize)
    ensures FormErrors(FieldNames, data, validEmail, sanitize)[name] == RequiredMessage(name)
  {
    FormErrorsSpec(data, validEmail, sanitize);
    RequiredWhenEmpty(name, FieldValue(data, name, sanitize), validEmail);
    assert Lookup(FormErrors(FieldNames, data, validEmail, sanitize), name) == Some(RequiredMessage(name));
  }

  /** When every field of the table passes, the error map is empty. */
  lemma NoErrorsWhenAllPass(data: map<string, string>, validEmail: string -> bool, sanitize: string -> string)
    requires forall name | name in FieldNames :: FieldCheck(name, FieldValue(data, name, sanitize), validEmail).None?
    ensures FormErrors(FieldNames, data, validEmail, sanitize) == map[]
  {
    FormErrorsSpec(data, validEmail, sanitize);
    var e := FormErrors(FieldNames, data, validEmail, sanitize);
    assert forall key :: key !in e;
  }

  /** A value with nothing for `trim` to strip and nothing for
      `htmlspecialchars` to escape. */
  predicate IsClean(s: string) {
    (s == [] || (!IsPhpTrimChar(s[0]) && !IsPhpTrimChar(s[|s| - 1])))
    && forall i | 0 <= i < |s| :: !IsHtmlSpecial(s[i])
  }

  /** A submission of clean values that each pass their rule: sanitising
      keeps every value, no error is recorded, and the form data holds the
      posted values as they were sent. */
  lemma CleanSubmissionPasses(data: map<string, string>, validEmail: string -> bool)
    requires forall name | name in FieldNames :: name in data && IsClean(data[name])
    requires forall name | name in FieldNames :: FieldCheck(name, data[name], validEmail).None?
    ensures FormErrors(FieldNames, data, validEmail, Sanitize) == map[]
    ensures forall name | name in FieldNames :: Lookup(FormValues(FieldNames, data, Sanitize), name) == Some(data[name])
  {
    forall name | name in FieldNames
      ensures FieldValue(data, name, Sanitize) == data[name]
    {
      SanitizeClean(data[name]);
    }
    NoErrorsWhenAllPass(data, validEmail, Sanitize);
    FormValuesSpec(data, Sanitize);
  }

  // ---------------------------------------------------------------------
  // The anti-forgery token
  // ---------------------------------------------------------------------

  predicate IsLowerHexDigit(c: char) {
    '0' <= c <= '9' || 'a' <= c <= 'f'
  }

  /** What `bin2hex(random_bytes(32))` produces: 64 lower-case hexadecimal digits. */
  predicate IsFreshToken(t: string) {
    |t| == 64 && forall i | 0 <= i < |t| :: IsLowerHexDigit(t[i])
  }

  /** `generateCSRFToken`'s effect on the session's token: a token is stored
      only when none is set. */
  function IssueToken(stored: Option<string>, newToken: string): (r: Option<string>)
    ensures r.Some?
    ensures stored.Some? ==> r == stored
  {
    if stored.None? then Some(newToken) else stored
  }

  /** `validateCSRFToken` given the session's token: refused when the session
      has none or the submitted one is PHP-empty, otherwise accepted exactly
      when the two are equal (`hash_equals`). */
  predicate TokenAccepted(stored: Option<string>, token: string)
    ensures TokenAccepted(stored, token) <==> stored == Some(token) && !PhpEmpty(token)
  {
    if stored.None? || PhpEmpty(token) then false else stored.value == token
  }

  /** Once a token is stored, issuing again keeps it, whatever fresh value is offered. */
  lemma TokenIssuedOnce(stored: Option<string>, fresh1: string, fresh2: string)
    ensures IssueToken(stored, fresh1).Some?
    ensures IssueToken(IssueToken(stored, fresh1), fresh2) == IssueToken(stored, fresh1)
    ensures stored.Some? ==> IssueToken(stored, fresh1) == stored
  {
  }

  /** The token check: no session token, an empty token or one that differs
      from the session's is refused; the session's own token is accepted
      unless it is PHP-empty, and a freshly issued token is never PHP-empty. */
  lemma TokenCheck(stored: Option<string>, token: string)
    ensures stored.None? ==> !TokenAccepted(stored, token)
    ensures PhpEmpty(token) ==> !TokenAccepted(stored, token)
    ensures stored.Some? && token != stored.value ==> !TokenAccepted(stored, token)
    ensures stored == Some(token) && !PhpEmpty(token) ==> TokenAccepted(stored, token)
    ensures IsFreshToken(token) ==> TokenAccepted(IssueToken(None, token), token)
  {
  }

  // ---------------------------------------------------------------------
  // Requests and outcomes
  // ---------------------------------------------------------------------

  /** What `processForm` returns: `false`, `'validation_passed'` or `true`.
      The page treats only `Succeeded` (`=== true`) as a completed registration. */
  datatype Outcome = Failed | ValidationPassed | Succeeded

  /** The request method and the posted fields. */
  datatype Request = Request(requestMethod: string, post: map<string, string>)

  /** `$_POST['csrf_token'] ?? ''` */
  function SubmittedToken(post: map<string, string>): string {
    if "csrf_token" in post then post["csrf_token"] else ""
  }

  /** `isset($_POST['confirmed']) && $_POST['confirmed'] === 'true'` */
  predicate IsConfirmed(post: map<string, string>) {
    "confirmed" in post && post["confirmed"] == "true"
  }

  const GeneralKey := "general"
  const SecurityMessage := "Security token validation failed. Please refresh the page and try again."
  const SuccessMessage := "Registration completed successfully! Your information has been processed."

  /** The session store's one entry this model uses: the anti-forgery token. */
  class Session {
    var csrfToken: Option<string>

    constructor (token: Option<string>)
      ensures csrfToken == token
    {
      csrfToken := token;
    }
  }

  /** One request's registration handler. */
  class RegistrationSystem {
    var errors: map<string, string>
    var successMessage: string
    var formData: map<string, string>
    const session: Session
    /** Stands for PHP's FILTER_VALIDATE_EMAIL filter. */
    const validEmail: string -> bool
    const sanitize: string -> string
    const ruleNames: seq<string>

    /** `__construct`: issues the session's token if it has none.
        `freshToken` stands for `bin2hex(random_bytes(32))`. */
    constructor (session: Session, freshToken: string, validEmail: string -> bool)
      requires IsFreshToken(freshToken)
      modifies session
      ensures this.session == session && this.validEmail == validEmail && this.sanitize == Sanitize && this.ruleNames == FieldNames
      ensures errors == map[] && successMessage == "" && formData == map[]
      ensures session.csrfToken == IssueToken(old(session.csrfToken), freshToken)
    {
      errors := map[];
      successMessage := "";
      formData := map[];
      this.session := session;
      this.validEmail := validEmail;
      this.sanitize := Sanitize;
      this.ruleNames := FieldNames;
      new;
      GenerateCSRFToken(freshToken);
    }

    method GenerateCSRFToken(freshToken: string)
      requires IsFreshToken(freshToken)
      modifies session
      ensures session.csrfToken == IssueToken(old(session.csrfToken), freshToken)
    {
      if session.csrfToken.None? {
        session.csrfToken := Some(freshToken);
      }
    }

    /** `validateField`: records a failing field's message in `errors`. */
    method ValidateField(name: string, value: string) returns (ok: bool)
      modifies this`errors
      ensures ok <==> FieldCheck(name, value, validEmail).None?
      ensures errors == match FieldCheck(name, value, validEmail)
                        case Some(m) => old(errors)[name := m]
                        case None => old(errors)
    {
      var found := RuleFor(name);
      if found.None? {
        return true;
      }
      var rules := found.value;
      if rules.required && PhpEmpty(value) {
        errors := errors[name := RequiredMessage(name)];
        return false;
      }
      if PhpEmpty(value) && !rules.required {
        return true;
      }
      if name == "email" && !validEmail(value) {
        errors := errors[name := rules.message];
        return false;
      }
      if rules.pattern.Some? && !Matches(rules.pattern.value, value) {
        errors := errors[name := rules.message];
        return false;
      }
      if rules.options.Some? && value !in rules.options.value {
        errors := errors[name := rules.message];
        return false;
      }
      return true;
    }

    /** `validateForm`: clears `errors`, then visits every rule in table order,
        recording each field's sanitised value and its verdict. */
    method ValidateForm(data: map<string, string>) returns (isValid: bool)
      modifies this`errors, this`formData
      ensures errors == FormErrors(ruleNames, data, validEmail, sanitize)
      ensures formData == old(formData) + FormValues(ruleNames, data, sanitize)
      ensures isValid <==> errors == map[]
    {
      errors := map[];
      isValid := true;
      for i := 0 to |ruleNames|
        invariant errors == CollectErrors(ruleNames[..i], FormCheck(data, validEmail, sanitize))
        invariant formData == old(formData) + CollectValues(ruleNames[..i], ValueOf(data, sanitize))
        invariant isValid <==> errors == map[]
      {
        var ok := VisitField(data, i, old(formData));
        if !ok {
          isValid := false;
        }
      }
      PrefixFull(ruleNames);
    }

    /** One pass of `validateForm`'s loop: records the `i`-th field's
        sanitised value and validates it. */
    method VisitField(data: map<string, string>, i: nat, ghost start: map<string, string>) returns (ok: bool)
      requires i < |ruleNames|
      requires errors == CollectErrors(ruleNames[..i], FormCheck(data, validEmail, sanitize))
      requires formData == start + CollectValues(ruleNames[..i], ValueOf(data, sanitize))
      modifies this`errors, this`formData
      ensures errors == CollectErrors(ruleNames[..i + 1], FormCheck(data, validEmail, sanitize))
      ensures formData == start + CollectValues(ruleNames[..i + 1], ValueOf(data, sanitize))
      ensures ok ==> errors == old(errors)
      ensures !ok ==> errors != map[]
    {
      var name := ruleNames[i];
      var value := if name in data then sanitize(data[name]) else "";
      ValuesStep(ruleNames, data, sanitize, i, start, formData, value);
      formData := formData[name := value];
      ghost var before := errors;
      ok := ValidateField(name, value);
      ErrorsStep(ruleNames, data, validEmail, sanitize, i, before, errors, ok);
    }

    /** `processForm`. */
    method ProcessForm(request: Request) returns (result: Outcome)
      modifies this`errors, this`formData, this`successMessage
      ensures request.requestMethod != "POST" ==>
        result == Failed && errors == old(errors) && formData == old(formData)
        && successMessage == old(successMessage)
      ensures request.requestMethod == "POST" && !TokenAccepted(session.csrfToken, SubmittedToken(request.post)) ==>
        result == Failed && errors == old(errors)[GeneralKey := SecurityMessage]
        && formData == old(formData) && successMessage == old(successMessage)
      ensures request.requestMethod == "POST" && TokenAccepted(session.csrfToken, SubmittedToken(request.post)) ==>
        && errors == FormErrors(ruleNames, request.post, validEmail, sanitize)
        && result == (if errors != map[] then Failed
                      else if IsConfirmed(request.post) then Succeeded
                      else ValidationPassed)
        && formData == (if result == Succeeded then map[] else old(formData) + FormValues(ruleNames, request.post, sanitize))
        && successMessage == (if result == Succeeded then SuccessMessage else old(successMessage))
      ensures request.requestMethod == "POST" && !TokenAccepted(session.csrfToken, SubmittedToken(request.post)) ==>
        HasErrors() && HasGeneralError() && GetGeneralError() == SecurityMessage
      ensures result == Succeeded ==>
        !HasErrors() && GetSuccessMessage() == SuccessMessage && forall name :: GetFieldValue(name) == ""
    {
      if request.requestMethod != "POST" {
        return Failed;
      }
      var isConfirmed := IsConfirmed(request.post);
      var csrfToken := SubmittedToken(request.post);
      if !TokenAccepted(session.csrfToken, csrfToken) {
        errors := errors[GeneralKey := SecurityMessage];
        assert HasFieldError(GeneralKey);
        return Failed;
      }
      var valid := ValidateForm(request.post);
      if !valid {
        return Failed;
      }
      if !isConfirmed {
        return ValidationPassed;
      }
      result := HandleSuccessfulSubmission();
    }

    /** `handleSuccessfulSubmission`: the logging is left out. */
    method HandleSuccessfulSubmission() returns (result: Outcome)
      modifies this`formData, this`successMessage
      ensures result == Succeeded && successMessage == SuccessMessage && formData == map[]
    {
      successMessage := SuccessMessage;
      formData := map[];
      return Succeeded;
    }

    function GetErrors(): map<string, string>
      reads this
    {
      errors
    }

    function GetSuccessMessage(): string
      reads this
    {
      successMessage
    }

    function GetFormData(): map<string, string>
      reads this
    {
      formData
    }

    function GetCSRFToken(): string
      reads this, session
    {
      if session.csrfToken.Some? then session.csrfToken.value else ""
    }

    /** Whether any entry, field or general, is recorded. */
    predicate HasErrors()
      reads this
      ensures HasErrors() <==> exists name :: HasFieldError(name)
    {
      NonEmptyHasKey(errors);
      assert forall name | name in errors :: HasFieldError(name);
      errors != map[]
    }

    function GetFieldError(name: string): string
      reads this
    {
      if name in errors then errors[name] else ""
    }

    function GetFieldValue(name: string): string
      reads this
    {
      if name in formData then formData[name] else ""
    }

    predicate HasFieldError(name: string)
      reads this
    {
      name in errors
    }

    predicate HasGeneralError()
      reads this
    {
      GeneralKey in errors
    }

    function GetGeneralError(): string
      reads this
    {
      GetFieldError(GeneralKey)
    }

    /** What the page reads through the getters is one consistent view of
        the state: an error is shown for a key exactly when one is recorded,
        a missing entry reads as "", and the token embedded in the page
        passes the token check whenever the session holds a non-empty one. */
    lemma GettersAgree()
      ensures HasErrors() <==> GetErrors() != map[]
      ensures HasGeneralError() <==> HasFieldError(GeneralKey)
      ensures GetGeneralError() == GetFieldError(GeneralKey)
      ensures forall name | HasFieldError(name) :: GetFieldError(name) == GetErrors()[name]
      ensures forall name | !HasFieldError(name) :: GetFieldError(name) == ""
      ensures forall name | name in GetFormData() :: GetFieldValue(name) == GetFormData()[name]
      ensures forall name | name !in GetFormData() :: GetFieldValue(name) == ""
      ensures TokenAccepted(session.csrfToken, GetCSRFToken())
        <==> session.csrfToken.Some? && !PhpEmpty(session.csrfToken.value)
    {
    }
  }

  lemma NonEmptyHasKey(m: map<string, string>)
    ensures m != map[] ==> exists k :: k in m
  {
    if m != map[] {
      assert m.Keys != {};
      var k :| k in m.Keys;
    }
  }

  /** The values `validateForm` records, as a function of the field name. */
  function ValueOf(data: map<string, string>, sanitize: string -> string): string -> string {
    name => FieldValue(data, name, sanitize)
  }
}
