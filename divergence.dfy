/** Where the browser's check (script.js) and the server's check
    (RegistrationSystem.php) of the same submitted value agree, and where
    they do not. The server sees the posted value after `sanitizeInput`; the
    browser sees the input's value and trims it itself. */
module Divergence {
  import opened Wrappers
  import opened Charset
  import Server
  import Client

  /** Both sides call an empty field required, but only the year's message
      reads the same on both: the server capitalises the key, the browser
      uses the field's label. */
  lemma RequiredMessagesDiffer(validEmail: string -> bool)
    ensures Server.FieldCheck("firstName", Server.Sanitize(""), validEmail) == Some("FirstName is required")
    ensures Client.ClientCheck("firstName", "") == Some("First Name is required")
    ensures Server.FieldCheck("lastName", Server.Sanitize(""), validEmail) == Some("LastName is required")
    ensures Client.ClientCheck("lastName", "") == Some("Last Name is required")
    ensures Server.FieldCheck("email", Server.Sanitize(""), validEmail) == Some("Email is required")
    ensures Client.ClientCheck("email", "") == Some("Email Address is required")
    ensures Server.FieldCheck("accountNumber", Server.Sanitize(""), validEmail) == Some("AccountNumber is required")
    ensures Client.ClientCheck("accountNumber", "") == Some("Account Number is required")
    ensures Server.FieldCheck("year", Server.Sanitize(""), validEmail) == Some("Year is required")
    ensures Client.ClientCheck("year", "") == Some("Year is required")
  {
    Server.SanitizeClean("");
    Server.FirstNameCheck("", validEmail);
    Server.LastNameCheck("", validEmail);
    Server.EmailCheck("", validEmail);
    Server.AccountNumberCheck("", validEmail);
    Server.YearCheck("", validEmail);
    assert Client.JsTrim("") == "";
    Client.ClientFirstName("");
    Client.ClientLastName("");
    Client.ClientEmail("");
    Client.ClientAccountNumber("");
    Client.ClientYear("");
  }

  /** "0" is empty to PHP, so the server asks for every field; the browser
      accepts it as a year and holds the other fields to their patterns. */
  lemma ZeroDiffers(name: string, validEmail: string -> bool)
    requires name in Server.FieldNames
    ensures Server.FieldCheck(name, Server.Sanitize("0"), validEmail) == Some(Server.RequiredMessage(name))
    ensures name == "year" ==> Client.ClientCheck(name, "0") == None
    ensures name != "year" ==> Client.ClientCheck(name, "0") == Some(Client.RuleFor(name).value.message)
  {
    Server.SanitizeClean("0");
    Server.RequiredWhenEmpty(name, "0", validEmail);
    assert Client.JsTrim("0") == "0";
    assert !IsNameChar('0');
    assert Client.AtIndex("0") == 1;
    assert name == "firstName" || name == "lastName" || name == "email"
        || name == "accountNumber" || name == "year";
  }

  /** The browser accepts any year that is not blank; the server accepts only
      the five years of its list. */
  lemma YearDiffers(raw: string, validEmail: string -> bool)
    requires Client.JsTrim(raw) != ""
    requires !Server.PhpEmpty(Server.Sanitize(raw)) && Server.Sanitize(raw) !in Server.Years
    ensures Client.ClientCheck("year", raw) == None
    ensures Server.FieldCheck("year", Server.Sanitize(raw), validEmail) == Some(Server.YearMessage)
  {
    Client.ClientYear(Client.JsTrim(raw));
    Server.YearCheck(Server.Sanitize(raw), validEmail);
  }

  /** "1999" is one such year. */
  lemma YearExample(validEmail: string -> bool)
    ensures Client.ClientCheck("year", "1999") == None
    ensures Server.FieldCheck("year", Server.Sanitize("1999"), validEmail) == Some(Server.YearMessage)
  {
    Server.SanitizeClean("1999");
    assert Client.JsTrim("1999") == "1999";
    YearDiffers("1999", validEmail);
  }

  /** A name with an apostrophe that the browser accepts is refused by the
      server, which matches the escaped text. */
  lemma ApostropheDiffers(raw: string, validEmail: string -> bool)
    requires '\'' in raw && MatchesName(Client.JsTrim(raw))
    ensures Client.ClientCheck("firstName", raw) == None && Client.ClientCheck("lastName", raw) == None
    ensures Server.FieldCheck("firstName", Server.Sanitize(raw), validEmail).Some?
    ensures Server.FieldCheck("lastName", Server.Sanitize(raw), validEmail).Some?
  {
    Client.ClientFirstName(Client.JsTrim(raw));
    Client.ClientLastName(Client.JsTrim(raw));
    Server.ServerRejectsApostrophe(raw, validEmail);
  }

  /** "O'Neil" is such a name. */
  lemma ApostropheExample(validEmail: string -> bool)
    ensures Client.ClientCheck("lastName", "O'Neil") == None
    ensures Server.FieldCheck("lastName", Server.Sanitize("O'Neil"), validEmail).Some?
  {
    assert Client.JsTrim("O'Neil") == "O'Neil";
    ApostropheDiffers("O'Neil", validEmail);
  }

  /** The two trims strip different sets: a leading form feed is stripped by
      the browser but kept by PHP, so a valid account number preceded by one
      passes the browser and fails the server. */
  lemma FormFeedDiffers(account: string, validEmail: string -> bool)
    requires MatchesAccount(account)
    ensures Client.ClientCheck("accountNumber", "\U{C}" + account) == None
    ensures Server.FieldCheck("accountNumber", Server.Sanitize("\U{C}" + account), validEmail)
      == Some(Server.AccountMessage)
  {
    var raw := "\U{C}" + account;
    assert raw[1..] == account;
    assert IsAsciiAlnum(account[0]) && IsAsciiAlnum(account[11]);
    assert TrimStart(raw, IsRegexSpace) == account;
    assert TrimEnd(account, IsRegexSpace) == account;
    Client.ClientAccountNumber(account);
    assert forall i | 0 <= i < |raw| :: !Server.IsHtmlSpecial(raw[i]) by {
      forall i | 1 <= i < |raw| ensures !Server.IsHtmlSpecial(raw[i]) {
        assert raw[i] == account[i - 1];
      }
    }
    Server.SanitizeClean(raw);
    Server.AccountNumberCheck(raw, validEmail);
  }

  /** "AB12CD34EF56" after a form feed is one such value. */
  lemma FormFeedExample(validEmail: string -> bool)
    ensures Client.ClientCheck("accountNumber", "\U{C}AB12CD34EF56") == None
    ensures Server.FieldCheck("accountNumber", Server.Sanitize("\U{C}AB12CD34EF56"), validEmail)
      == Some(Server.AccountMessage)
  {
    assert MatchesAccount("AB12CD34EF56");
    assert "\U{C}" + "AB12CD34EF56" == "\U{C}AB12CD34EF56";
    FormFeedDiffers("AB12CD34EF56", validEmail);
  }

  /** A value with nothing either trim would strip and nothing to escape. */
  predicate Plain(raw: string) {
    Server.IsClean(raw) && (raw == [] || (!IsRegexSpace(raw[0]) && !IsRegexSpace(raw[|raw| - 1])))
  }

  /** On a plain value the two sides accept the same account numbers. */
  lemma AccountAgrees(raw: string, validEmail: string -> bool)
    requires Plain(raw)
    ensures Server.FieldCheck("accountNumber", Server.Sanitize(raw), validEmail).None?
        <==> Client.ClientCheck("accountNumber", raw).None?
  {
    Server.SanitizeClean(raw);
    assert Client.JsTrim(raw) == raw;
    Server.AccountNumberCheck(raw, validEmail);
    Client.ClientAccountNumber(raw);
  }

  /** On a plain value (which has no apostrophe, since it has nothing to
      escape) the two sides accept the same first and last names. */
  lemma NameAgrees(raw: string, validEmail: string -> bool)
    requires Plain(raw)
    ensures Server.FieldCheck("firstName", Server.Sanitize(raw), validEmail).None?
        <==> Client.ClientCheck("firstName", raw).None?
    ensures Server.FieldCheck("lastName", Server.Sanitize(raw), validEmail).None?
        <==> Client.ClientCheck("lastName", raw).None?
  {
    Server.SanitizeClean(raw);
    assert Client.JsTrim(raw) == raw;
    Server.FirstNameCheck(raw, validEmail);
    Server.LastNameCheck(raw, validEmail);
    Client.ClientFirstName(raw);
    Client.ClientLastName(raw);
    if raw == "0" {
      assert !IsNameChar(raw[0]);
    }
  }
}
