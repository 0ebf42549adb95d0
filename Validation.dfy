/** The accounting application's pattern checks (e-mail address, French VAT
    number) and the field checks of its account, client and supplier forms.
    The patterns are anchored with `re.match` and `$`, so a match may also
    be followed by one final newline. */
module Validation {
  import opened Text
  import Siret

  // ---------------------------------------------------------------- e-mail

  /** `[a-zA-Z0-9._%+-]` */
  predicate LocalChar(c: char)
  {
    IsAsciiLetter(c) || IsDigit(c) || c == '.' || c == '_' || c == '%' || c == '+' || c == '-'
  }

  /** `[a-zA-Z0-9.-]` */
  predicate DomainChar(c: char)
  {
    IsAsciiLetter(c) || IsDigit(c) || c == '.' || c == '-'
  }

  predicate AllLocal(s: string) { forall i :: 0 <= i < |s| ==> LocalChar(s[i]) }

  predicate AllDomain(s: string) { forall i :: 0 <= i < |s| ==> DomainChar(s[i]) }

  predicate AllLetters(s: string) { forall i :: 0 <= i < |s| ==> IsAsciiLetter(s[i]) }

  /** The pattern `[a-zA-Z0-9._%+-]+@[a-zA-Z0-9.-]+\.[a-zA-Z]{2,}` matching
      the whole of `s`, with the '@' at `a` and the last dot at `b`. */
  ghost predicate EmailSplit(s: string, a: int, b: int)
  {
    && 0 < a && a + 1 < b && b + 3 <= |s|
    && AllLocal(s[..a]) && s[a] == '@'
    && AllDomain(s[a + 1..b]) && s[b] == '.'
    && AllLetters(s[b + 1..])
  }

  ghost predicate EmailBody(s: string)
  {
    exists a, b :: EmailSplit(s, a, b)
  }

  /** What `re.match(pattern, email) is not None` accepts. */
  ghost predicate EmailMatches(s: string)
  {
    EmailBody(s) || (|s| > 0 && s[|s| - 1] == '\n' && EmailBody(s[..|s| - 1]))
  }

  /** The first position of `c` in `s`. */
  function Find(s: string, c: char): (r: Option<nat>)
    ensures r.None? <==> c !in s
    ensures r.Some? ==> r.value < |s| && s[r.value] == c && c !in s[..r.value]
  {
    if s == [] then None
    else if s[0] == c then Some(0)
    else
      match Find(s[1..], c)
      case None => None
      case Some(i) =>
        assert s[..i + 1] == [s[0]] + s[1..][..i];
        Some(i + 1)
  }

  /** The last position of `c` in `s`. */
  function FindLast(s: string, c: char): (r: Option<nat>)
    ensures r.None? <==> c !in s
    ensures r.Some? ==> r.value < |s| && s[r.value] == c && c !in s[r.value + 1..]
  {
    if s == [] then None
    else if s[|s| - 1] == c then Some(|s| - 1)
    else
      match FindLast(s[..|s| - 1], c)
      case None => None
      case Some(i) =>
        assert s[i + 1..] == s[..|s| - 1][i + 1..] + [s[|s| - 1]];
        Some(i)
  }

  /** The match of the e-mail pattern without the trailing newline: the first
      '@' ends the local part, the last '.' after it starts the top level. */
  function EmailBodyCheck(s: string): bool
  {
    match Find(s, '@')
    case None => false
    case Some(a) =>
      var rest := s[a + 1..];
      && a > 0 && AllLocal(s[..a]) && AllDomain(rest)
      && match FindLast(rest, '.')
         case None => false
         case Some(k) => k > 0 && k + 3 <= |rest| && AllLetters(rest[k + 1..])
  }

  lemma DomainPrefix(t: string, k: nat)
    requires AllDomain(t) && k <= |t|
    ensures AllDomain(t[..k])
  {
    forall i | 0 <= i < k ensures DomainChar(t[..k][i]) { assert t[..k][i] == t[i]; }
  }

  /** When the check accepts, the first '@' and the last '.' after it split
      the string as the pattern wants. */
  lemma EmailCheckSound(s: string)
    requires EmailBodyCheck(s)
    ensures EmailBody(s)
  {
    var a := Find(s, '@').value;
    var rest := s[a + 1..];
    assert a > 0 && AllLocal(s[..a]) && AllDomain(rest);
    var k := FindLast(rest, '.').value;
    assert 0 < k && k + 3 <= |rest| && AllLetters(rest[k + 1..]);
    var b := a + 1 + k;
    assert s[a + 1..b] == rest[..k];
    DomainPrefix(rest, k);
    assert s[b + 1..] == rest[k + 1..];
    assert EmailSplit(s, a, b);
  }

  /** The local part holds no '@', so the pattern's '@' is the first one. */
  lemma SplitAtIsFirst(s: string, a: int, b: int)
    requires EmailSplit(s, a, b)
    ensures Find(s, '@') == Some(a)
  {
    assert '@' !in s[..a] by {
      forall i | 0 <= i < a ensures s[..a][i] != '@' { assert LocalChar(s[..a][i]); }
    }
    assert s[a] == '@';
  }

  /** The top level holds no '.', so the pattern's dot is the last one. */
  lemma SplitDotIsLast(rest: string, k: int)
    requires 0 <= k < |rest| && rest[k] == '.' && AllLetters(rest[k + 1..])
    ensures FindLast(rest, '.') == Some(k)
  {
    var top := rest[k + 1..];
    assert '.' !in top by {
      forall i | 0 <= i < |top| ensures top[i] != '.' { assert IsAsciiLetter(top[i]); }
    }
  }

  lemma EmailCheckComplete(s: string, a: int, b: int)
    requires EmailSplit(s, a, b)
    ensures EmailBodyCheck(s)
  {
    SplitAtIsFirst(s, a, b);
    var rest := s[a + 1..];
    var k := b - a - 1;
    assert rest[..k] == s[a + 1..b];
    assert rest[k + 1..] == s[b + 1..];
    assert AllDomain(rest) by {
      forall i | 0 <= i < |rest| ensures DomainChar(rest[i]) {
        if i < k { assert rest[i] == rest[..k][i]; }
        else if i > k { assert rest[i] == rest[k + 1..][i - k - 1]; }
      }
    }
    SplitDotIsLast(rest, k);
  }

  /** The check without the newline accepts exactly the pattern's matches. */
  lemma BodyCheckSpec(s: string)
    ensures EmailBodyCheck(s) <==> EmailBody(s)
  {
    if EmailBodyCheck(s) {
      EmailCheckSound(s);
    }
    if EmailBody(s) {
      var a, b :| EmailSplit(s, a, b);
      EmailCheckComplete(s, a, b);
    }
  }

  /** A match ends with a letter, never with a newline. */
  lemma BodyEndsWithLetter(s: string)
    requires s != []
    ensures EmailBody(s) ==> IsAsciiLetter(s[|s| - 1])
  {
    if EmailBody(s) {
      var a, b :| EmailSplit(s, a, b);
      assert s[|s| - 1] == s[b + 1..][|s| - b - 2];
    }
  }

  /** `validate_email`: true exactly for the strings the e-mail pattern
      matches, `$` letting one final newline through. */
  function ValidEmail(email: string): (ok: bool)
    ensures ok <==> EmailMatches(email)
  {
    if |email| > 0 && email[|email| - 1] == '\n' then
      BodyCheckSpec(email[..|email| - 1]);
      BodyEndsWithLetter(email);
      EmailBodyCheck(email[..|email| - 1])
    else
      BodyCheckSpec(email);
      EmailBodyCheck(email)
  }

  // ---------------------------------------------------------------- VAT number

  /** `[0-9A-Z]` */
  predicate KeyChar(c: char) { IsDigit(c) || IsAsciiUpper(c) }

  /** `FR[0-9A-Z]{2}[0-9]{9}` on the whole string. */
  predicate VatBody(s: string)
  {
    && |s| == 13 && s[..2] == "FR"
    && KeyChar(s[2]) && KeyChar(s[3])
    && AllDigits(s[4..])
  }

  /** `validate_tva_number`: what it accepts is 13 characters, or 14
      ending in a newline, starting with "FR", a two-character key and digits. */
  predicate ValidVat(tva: string)
    ensures ValidVat(tva) ==> |tva| == 13 || (|tva| == 14 && tva[13] == '\n')
    ensures ValidVat(tva) ==> var s := tva[..13]; s == "FR" + s[2..4] + s[4..] && AllDigits(s[4..])
    ensures ValidVat(tva) ==> KeyChar(tva[2]) && KeyChar(tva[3])
  {
    assert |tva| == 13 ==> tva[..13] == tva;
    assert |tva| >= 13 ==> tva[..13] == tva[..13][..2] + tva[..13][2..4] + tva[..13][4..];
    VatBody(tva) || (|tva| == 14 && tva[13] == '\n' && VatBody(tva[..13]))
  }

  /** A French VAT number is "FR", a two-character key and the nine digits of
      the SIREN, optionally followed by one final newline. */
  lemma VatComposition(key: string, siren: string)
    requires |key| == 2 && KeyChar(key[0]) && KeyChar(key[1])
    requires |siren| == 9 && AllDigits(siren)
    ensures ValidVat("FR" + key + siren)
    ensures ValidVat("FR" + key + siren + "\n")
  {
    var s := "FR" + key + siren;
    assert s[..2] == "FR" && s[2] == key[0] && s[3] == key[1] && s[4..] == siren;
    assert (s + "\n")[..13] == s;
  }

  // ---------------------------------------------------------------- forms

  /** Why the account-creation form refuses, in the order it checks. */
  datatype UserFormError =
    | MissingField        // username, password, last or first name empty
    | PasswordMismatch    // password and confirmation differ
    | PasswordTooShort    // fewer than four characters
    | InvalidEmail        // a non-empty e-mail that does not match

  /** The 'Créer' handler of the account-creation window. None: the account
      is created. */
  function CheckUserForm(username: string, password: string, confirm: string,
                         nom: string, prenom: string, email: string): (r: Option<UserFormError>)
    ensures r.None? <==>
      && username != "" && password != "" && nom != "" && prenom != ""
      && password == confirm && |password| >= 4
      && (email == "" || ValidEmail(email))
    ensures r == Some(MissingField) <==> username == "" || password == "" || nom == "" || prenom == ""
    ensures r == Some(PasswordMismatch) <==>
      username != "" && password != "" && nom != "" && prenom != "" && password != confirm
    ensures r == Some(PasswordTooShort) <==>
      username != "" && password != "" && nom != "" && prenom != "" && password == confirm && |password| < 4
    ensures r == Some(InvalidEmail) <==>
      && username != "" && password != "" && nom != "" && prenom != ""
      && password == confirm && |password| >= 4 && email != "" && !ValidEmail(email)
  {
    if username == "" || password == "" || nom == "" || prenom == "" then Some(MissingField)
    else if password != confirm then Some(PasswordMismatch)
    else if |password| < 4 then Some(PasswordTooShort)
    else if email != "" && !ValidEmail(email) then Some(InvalidEmail)
    else None
  }

  /** Why the client or supplier form refuses, in the order it checks. */
  datatype PartyFormError = MissingCodeOrName | BadEmail | BadSiret | BadNumbers | CodeTaken

  /** The numeric fields of the client form read as `float(limite or 0)` and
      `int(conditions or 30)`: a blank field takes its default, which always
      converts, and `float()` is the parameter `parseFloat`. */
  predicate NumbersValid(limite: string, conditions: string, parseFloat: string -> Option<real>)
  {
    (limite == "" || parseFloat(limite).Some?) && (conditions == "" || ParseInt(conditions).Some?)
  }

  /** The 'Enregistrer' handler of the client form: code and name first, then
      an e-mail if one is given, then a SIRET if one is given, then the credit
      limit and payment terms, and last the uniqueness of the code.
      `codeTaken` is the answer of the query for another client with that code. */
  function CheckClientForm(code: string, nom: string, email: string, siret: string,
                           limite: string, conditions: string, codeTaken: bool,
                           parseFloat: string -> Option<real>): (r: Option<PartyFormError>)
    ensures r.None? <==>
      code != "" && nom != "" && (email == "" || ValidEmail(email)) && (siret == "" || Siret.SiretValid(siret))
      && NumbersValid(limite, conditions, parseFloat) && !codeTaken
    ensures r == Some(MissingCodeOrName) <==> code == "" || nom == ""
    ensures r == Some(BadEmail) <==> code != "" && nom != "" && email != "" && !ValidEmail(email)
    ensures r == Some(BadSiret) <==>
      code != "" && nom != "" && (email == "" || ValidEmail(email)) && siret != "" && !Siret.SiretValid(siret)
    ensures r == Some(BadNumbers) <==>
      code != "" && nom != "" && (email == "" || ValidEmail(email)) && (siret == "" || Siret.SiretValid(siret))
      && !NumbersValid(limite, conditions, parseFloat)
    ensures r == Some(CodeTaken) <==>
      code != "" && nom != "" && (email == "" || ValidEmail(email)) && (siret == "" || Siret.SiretValid(siret))
      && NumbersValid(limite, conditions, parseFloat) && codeTaken
  {
    if code == "" || nom == "" then Some(MissingCodeOrName)
    else if email != "" && !ValidEmail(email) then Some(BadEmail)
    else if siret != "" && !Siret.SiretValid(siret) then Some(BadSiret)
    else if !NumbersValid(limite, conditions, parseFloat) then Some(BadNumbers)
    else if codeTaken then Some(CodeTaken)
    else None
  }

  /** The 'Enregistrer' handler of the supplier form, which has no SIRET check. */
  function CheckSupplierForm(code: string, nom: string, email: string): (r: Option<PartyFormError>)
    ensures r != Some(BadSiret) && r != Some(BadNumbers) && r != Some(CodeTaken)
    ensures r.None? <==> code != "" && nom != "" && (email == "" || ValidEmail(email))
    ensures r == Some(MissingCodeOrName) <==> code == "" || nom == ""
    ensures r == Some(BadEmail) <==> code != "" && nom != "" && email != "" && !ValidEmail(email)
  {
    if code == "" || nom == "" then Some(MissingCodeOrName)
    else if email != "" && !ValidEmail(email) then Some(BadEmail)
    else None
  }

  /** A supplier's fields pass exactly when the same fields with no SIRET,
      blank numeric fields and a new code pass the client form. */
  lemma SupplierIsClientWithoutSiret(code: string, nom: string, email: string, parseFloat: string -> Option<real>)
    ensures CheckSupplierForm(code, nom, email) == CheckClientForm(code, nom, email, "", "", "", false, parseFloat)
  {
  }
}
