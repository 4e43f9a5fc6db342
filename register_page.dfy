/** The registration page: the CPF and phone input masks, the ordered validation
    chain that reports the first failing check, and the submit flow. */
module RegisterPage {
  import opened Wrappers
  import opened Strings
  import opened Seqs

  // ---------------------------------------------------------------------------
  // Regular-expression effects used by the masks

  /** `s.replace(/\D/g, '')`: the digits of `s`, in order. */
  function StripNonDigits(s: string): (d: string)
    ensures AllDigits(d) && |d| <= |s|
  {
    Filter(s, IsDigit)
  }

  /** Stripping distributes over concatenation. */
  lemma StripAppend(a: string, b: string)
    ensures StripNonDigits(a + b) == StripNonDigits(a) + StripNonDigits(b)
  {
    FilterAppend(a, b, IsDigit);
  }

  /** A digit string is left as it is. */
  lemma StripDigits(d: string)
    requires AllDigits(d)
    ensures StripNonDigits(d) == d
  {
    FilterKeepsAll(d, IsDigit);
  }

  /** `n` digits start at index `i` of `s`. */
  predicate DigitRunAt(s: string, i: int, n: nat) {
    0 <= i && i + n <= |s| && forall m | i <= m < i + n :: IsDigit(s[m])
  }

  /** The leftmost index from `i` on where `n` digits start: where an unanchored
      `\d{n}` pattern begins to match. */
  function RunFrom(s: string, n: nat, i: nat): (r: Option<nat>)
    decreases |s| - i
    ensures r.Some? ==> i <= r.value && DigitRunAt(s, r.value, n)
                        && forall k | i <= k < r.value :: !DigitRunAt(s, k, n)
    ensures r.None? ==> forall k | i <= k :: !DigitRunAt(s, k, n)
  {
    if i + n > |s| then None
    else if DigitRunAt(s, i, n) then Some(i)
    else RunFrom(s, n, i + 1)
  }

  /** The leftmost run of `n` digits is the one at `j`. */
  lemma LeftmostRunAt(s: string, n: nat, j: nat)
    requires DigitRunAt(s, j, n)
    requires forall k | 0 <= k < j :: !DigitRunAt(s, k, n)
    ensures RunFrom(s, n, 0) == Some(j)
  {
  }

  /** `s.replace(/(\d{keep})(\d{runLen - keep})/, '$1<sep>$2')` (no `g` flag): `sep`
      is inserted after the first `keep` digits of the leftmost run of `runLen` digits. */
  function InsertAfterRun(s: string, runLen: nat, keep: nat, sep: char): (r: string)
    requires keep <= runLen
    ensures RunFrom(s, runLen, 0).None? ==> r == s
    ensures RunFrom(s, runLen, 0).Some? ==> |r| == |s| + 1
  {
    match RunFrom(s, runLen, 0)
    case None => s
    case Some(i) => s[..i + keep] + [sep] + s[i + keep..]
  }

  /** `s.replace(/(\d{3})(\d{1,2})$/, '$1-$2')`: a match must reach the end, so it
      starts 5 or 4 characters before it, and the leftmost of the two that fits wins. */
  function HyphenBeforeTail(s: string): (r: string)
    ensures !DigitRunAt(s, |s| - 5, 5) && !DigitRunAt(s, |s| - 4, 4) ==> r == s
  {
    if DigitRunAt(s, |s| - 5, 5) then s[..|s| - 2] + "-" + s[|s| - 2..]
    else if DigitRunAt(s, |s| - 4, 4) then s[..|s| - 1] + "-" + s[|s| - 1..]
    else s
  }

  // ---------------------------------------------------------------------------
  // CPF mask

  /** The CPF mask on a digit string `d`: "." after the 3rd digit when there are at
      least 4, "." after the 6th when at least 7, "-" after the 9th when at least 10;
      more than 11 digits are left unformatted. */
  function CpfFormat(d: string): string {
    if |d| > 11 || |d| <= 3 then d
    else if |d| <= 6 then d[..3] + "." + d[3..]
    else if |d| <= 9 then d[..3] + "." + d[3..6] + "." + d[6..]
    else d[..3] + "." + d[3..6] + "." + d[6..9] + "-" + d[9..]
  }

  /** First replace: on a digit string the leftmost 4-digit run starts at 0. */
  lemma CpfFirstDot(d: string)
    requires AllDigits(d)
    ensures InsertAfterRun(d, 4, 3, '.') == if |d| >= 4 then d[..3] + "." + d[3..] else d
  {
    if |d| >= 4 {
      LeftmostRunAt(d, 4, 0);
    }
  }

  /** Second replace: the dot at index 3 blocks every run before index 4. */
  lemma CpfSecondDot(d: string)
    requires AllDigits(d) && |d| >= 4
    ensures var s := d[..3] + "." + d[3..];
      InsertAfterRun(s, 4, 3, '.') == if |d| >= 7 then d[..3] + "." + d[3..6] + "." + d[6..] else s
  {
    var s := d[..3] + "." + d[3..];
    assert s[3] == '.';
    assert forall k | 0 <= k < 4 :: !DigitRunAt(s, k, 4) by {
      forall k | 0 <= k < 4 ensures !DigitRunAt(s, k, 4) {
        assert !IsDigit(s[3]);
      }
    }
    if |d| >= 7 {
      assert forall m | 4 <= m < 8 :: s[m] == d[m - 1];
      LeftmostRunAt(s, 4, 4);
      assert s[..7] == d[..3] + "." + d[3..6];
      assert s[7..] == d[6..];
    } else {
      assert forall k | 4 <= k :: !DigitRunAt(s, k, 4);
    }
  }

  /** Third replace, for each length of digit string. */
  lemma CpfHyphen(d: string)
    requires AllDigits(d) && |d| <= 11
    ensures var s := if |d| <= 3 then d
                     else if |d| <= 6 then d[..3] + "." + d[3..]
                     else d[..3] + "." + d[3..6] + "." + d[6..];
      HyphenBeforeTail(s) == CpfFormat(d)
  {
    if |d| <= 3 {
    } else if |d| <= 6 {
      var s := d[..3] + "." + d[3..];
      assert !IsDigit(s[3]);
    } else {
      var s := d[..3] + "." + d[3..6] + "." + d[6..];
      assert !IsDigit(s[7]);
      if |d| >= 10 {
        assert forall m | 8 <= m < |s| :: s[m] == d[m - 2];
        if |d| == 11 {
          assert DigitRunAt(s, |s| - 5, 5);
        } else {
          assert DigitRunAt(s, |s| - 4, 4);
        }
        assert s[..11] == d[..3] + "." + d[3..6] + "." + d[6..9];
        assert s[11..] == d[9..];
      }
    }
  }

  /** The three replaces in a row are the CPF mask. */
  lemma CpfSteps(d: string)
    requires AllDigits(d) && |d| <= 11
    ensures HyphenBeforeTail(InsertAfterRun(InsertAfterRun(d, 4, 3, '.'), 4, 3, '.')) == CpfFormat(d)
  {
    CpfFirstDot(d);
    if |d| >= 4 {
      CpfSecondDot(d);
    } else {
      CpfFirstDot(d);
    }
    CpfHyphen(d);
  }

  /** The CPF branch of `handleChange`, step by step. */
  method CpfMask(value: string) returns (formatted: string)
    ensures formatted == CpfFormat(StripNonDigits(value))
  {
    formatted := StripNonDigits(value);
    if |formatted| <= 11 {
      ghost var d := formatted;
      formatted := InsertAfterRun(formatted, 4, 3, '.');
      formatted := InsertAfterRun(formatted, 4, 3, '.');
      formatted := HyphenBeforeTail(formatted);
      CpfSteps(d);
    }
  }

  /** Stripping text followed by a block of digits keeps the block. */
  lemma StripThenDigits(x: string, e: string)
    requires AllDigits(e)
    ensures StripNonDigits(x + e) == StripNonDigits(x) + e
  {
    StripAppend(x, e);
    StripDigits(e);
  }

  /** Stripping text followed by separators drops the separators. */
  lemma StripThenSeparators(x: string, sep: string)
    requires forall k | 0 <= k < |sep| :: !IsDigit(sep[k])
    ensures StripNonDigits(x + sep) == StripNonDigits(x)
  {
    StripAppend(x, sep);
    FilterRejectsAll(sep, IsDigit);
    assert StripNonDigits(x) + [] == StripNonDigits(x);
  }

  /** Stripping a masked CPF removes exactly its two dots and its hyphen. */
  lemma StripFullCpf(a: string, b: string, c: string, e: string)
    requires AllDigits(a) && AllDigits(b) && AllDigits(c) && AllDigits(e)
    ensures StripNonDigits(a + "." + b + "." + c + "-" + e) == a + b + c + e
  {
    StripThenDigits(a + "." + b + "." + c + "-", e);
    StripThenSeparators(a + "." + b + "." + c, "-");
    StripThenDigits(a + "." + b + ".", c);
    StripThenSeparators(a + "." + b, ".");
    StripThenDigits(a + ".", b);
    StripThenSeparators(a, ".");
    StripDigits(a);
  }

  /** A slice of a digit string is a digit string. */
  lemma DigitsSlice(d: string, i: nat, j: nat)
    requires AllDigits(d) && i <= j <= |d|
    ensures AllDigits(d[i..j])
  {
  }

  /** The CPF mask keeps exactly the digits, in order. */
  lemma CpfKeepsDigits(d: string)
    requires AllDigits(d)
    ensures StripNonDigits(CpfFormat(d)) == d
  {
    if |d| > 11 || |d| <= 3 {
      StripDigits(d);
    } else if |d| <= 6 {
      var a, b := d[..3], d[3..];
      DigitsSlice(d, 0, 3);
      DigitsSlice(d, 3, |d|);
      StripThenDigits(a + ".", b);
      StripThenSeparators(a, ".");
      StripDigits(a);
      assert d == a + b;
    } else if |d| <= 9 {
      var a, b, c := d[..3], d[3..6], d[6..];
      DigitsSlice(d, 0, 3);
      DigitsSlice(d, 3, 6);
      DigitsSlice(d, 6, |d|);
      StripThenDigits(a + "." + b + ".", c);
      StripThenSeparators(a + "." + b, ".");
      StripThenDigits(a + ".", b);
      StripThenSeparators(a, ".");
      StripDigits(a);
      assert d == a + b + c;
    } else {
      var a, b, c, e := d[..3], d[3..6], d[6..9], d[9..];
      DigitsSlice(d, 0, 3);
      DigitsSlice(d, 3, 6);
      DigitsSlice(d, 6, 9);
      DigitsSlice(d, 9, |d|);
      StripFullCpf(a, b, c, e);
      assert d == a + b + c + e;
    }
  }

  /** The only characters the CPF mask adds are "." and "-". */
  lemma CpfSeparators(d: string)
    requires AllDigits(d)
    ensures forall k | 0 <= k < |CpfFormat(d)| :: IsDigit(CpfFormat(d)[k]) || CpfFormat(d)[k] in ".-"
  {
  }

  /** Masking an already masked CPF changes nothing. */
  lemma CpfIdempotent(value: string)
    ensures CpfFormat(StripNonDigits(CpfFormat(StripNonDigits(value)))) == CpfFormat(StripNonDigits(value))
  {
    CpfKeepsDigits(StripNonDigits(value));
  }

  /** `/^\d{3}\.\d{3}\.\d{3}-\d{2}$/.test(s)`. */
  predicate CpfWellFormed(s: string) {
    && |s| == 14 && s[3] == '.' && s[7] == '.' && s[11] == '-'
    && forall k | 0 <= k < 14 && k != 3 && k != 7 && k != 11 :: IsDigit(s[k])
  }

  /** The mask produces a CPF the validator accepts exactly when it is given 11 digits. */
  lemma CpfWellFormedIffEleven(d: string)
    requires AllDigits(d)
    ensures CpfWellFormed(CpfFormat(d)) <==> |d| == 11
  {
    var s := CpfFormat(d);
    if |d| == 11 {
      assert forall k | 0 <= k < 14 && k != 3 && k != 7 && k != 11 ::
        s[k] == d[if k < 3 then k else if k < 7 then k - 1 else if k < 11 then k - 2 else k - 3];
    } else if |d| > 11 || |d| <= 3 {
      assert |s| != 14 || IsDigit(s[3]);
    } else if |d| <= 6 {
      assert |s| <= 7;
    } else if |d| <= 9 {
      assert |s| <= 11;
    } else {
      assert |s| == 13;
    }
  }

  /** A well-formed CPF is left as it is by the mask. */
  lemma CpfWellFormedIsFixpoint(s: string)
    requires CpfWellFormed(s)
    ensures CpfFormat(StripNonDigits(s)) == s
  {
    var a, b, c, e := s[..3], s[4..7], s[8..11], s[12..];
    assert s == a + "." + b + "." + c + "-" + e;
    StripFullCpf(a, b, c, e);
    var d := a + b + c + e;
    assert d[..3] == a && d[3..6] == b && d[6..9] == c && d[9..] == e;
  }

  // ---------------------------------------------------------------------------
  // Phone mask

  /** The phone mask on a digit string `d`: up to two digits bare, then "(" + the
      first two + ") " + the rest, with "-" after the next five digits when there are
      at least 8 digits; more than 11 digits are left unformatted. */
  function PhoneFormat(d: string): string {
    if |d| > 11 || |d| <= 2 then d
    else if |d| <= 7 then "(" + d[..2] + ") " + d[2..]
    else "(" + d[..2] + ") " + d[2..7] + "-" + d[7..]
  }

  /** The hyphen replace on the bracketed form: "(", ")" and " " block every run of
      six digits before index 5. */
  lemma PhoneHyphen(d: string)
    requires AllDigits(d) && 8 <= |d| <= 11
    ensures InsertAfterRun("(" + d[..2] + ") " + d[2..], 6, 5, '-') == "(" + d[..2] + ") " + d[2..7] + "-" + d[7..]
  {
    var s := "(" + d[..2] + ") " + d[2..];
    assert !IsDigit(s[4]);
    assert forall k | 0 <= k < 5 :: !DigitRunAt(s, k, 6);
    assert forall m | 5 <= m < |s| :: s[m] == d[m - 3];
    LeftmostRunAt(s, 6, 5);
    assert s[..10] == "(" + d[..2] + ") " + d[2..7];
    assert s[10..] == d[7..];
  }

  /** The phone branch of `handleChange`, step by step. */
  method PhoneMask(value: string) returns (formatted: string)
    ensures formatted == PhoneFormat(StripNonDigits(value))
  {
    formatted := StripNonDigits(value);
    if |formatted| <= 11 {
      ghost var d := formatted;
      if |formatted| > 2 {
        formatted := "(" + formatted[..2] + ") " + formatted[2..];
      }
      if |formatted| > 10 {
        PhoneHyphen(d);
        formatted := InsertAfterRun(formatted, 6, 5, '-');
      }
    }
  }

  /** Stripping the "(aa) " prefix of a masked phone number keeps the area digits. */
  lemma StripAreaCode(a: string)
    requires AllDigits(a)
    ensures StripNonDigits("(" + a + ") ") == a
  {
    StripAppend("(", a);
    StripThenSeparators([], "(");
    StripDigits(a);
    StripThenSeparators("(" + a, ") ");
  }

  /** The phone mask keeps exactly the digits, in order. */
  lemma PhoneKeepsDigits(d: string)
    requires AllDigits(d)
    ensures StripNonDigits(PhoneFormat(d)) == d
  {
    if |d| > 11 || |d| <= 2 {
      StripDigits(d);
    } else if |d| <= 7 {
      var a, b := d[..2], d[2..];
      DigitsSlice(d, 0, 2);
      DigitsSlice(d, 2, |d|);
      StripAreaCode(a);
      StripThenDigits("(" + a + ") ", b);
      assert d == a + b;
    } else {
      var a, b, c := d[..2], d[2..7], d[7..];
      DigitsSlice(d, 0, 2);
      DigitsSlice(d, 2, 7);
      DigitsSlice(d, 7, |d|);
      StripAreaCode(a);
      StripThenDigits("(" + a + ") " + b + "-", c);
      StripThenSeparators("(" + a + ") " + b, "-");
      StripThenDigits("(" + a + ") ", b);
      assert d == a + b + c;
    }
  }

  /** Masking an already masked phone number changes nothing. */
  lemma PhoneIdempotent(value: string)
    ensures PhoneFormat(StripNonDigits(PhoneFormat(StripNonDigits(value)))) == PhoneFormat(StripNonDigits(value))
  {
    PhoneKeepsDigits(StripNonDigits(value));
  }

  /** Eleven digits give the full "(dd) ddddd-dddd" layout. */
  lemma PhoneElevenDigits(d: string)
    requires AllDigits(d) && |d| == 11
    ensures var p := PhoneFormat(d);
      |p| == 15 && p[0] == '(' && p[3] == ')' && p[4] == ' ' && p[10] == '-'
      && forall k | 0 <= k < 15 && k !in {0, 3, 4, 10} :: IsDigit(p[k])
  {
    var p := PhoneFormat(d);
    assert forall k | 0 <= k < 15 && k !in {0, 3, 4, 10} ::
      p[k] == d[if k < 3 then k - 1 else if k < 10 then k - 3 else k - 4];
  }

  // ---------------------------------------------------------------------------
  // Validation

  datatype Form = Form(name: string, phone: string, cpf: string, email: string,
                       password: string, confirmPassword: string)

  datatype Field = Name | Phone | Cpf | Email | Password | ConfirmPassword

  /** `s` is "local@domain.tld" with the "@" at `i` and a "." at `j`: every part
      non-empty, no whitespace anywhere, and no other "@". */
  predicate EmailShape(s: string, i: int, j: int) {
    && 0 < i && i + 1 < j && j + 1 < |s|
    && s[i] == '@' && s[j] == '.'
    && forall k | 0 <= k < |s| :: !IsWhitespace(s[k]) && (s[k] == '@' ==> k == i)
  }

  /** `/^[^\s@]+@[^\s@]+\.[^\s@]+$/.test(s)`, stated by the shape it accepts. */
  predicate EmailValid(s: string) {
    exists i, j | 0 <= i < |s| && 0 <= j < |s| :: EmailShape(s, i, j)
  }

  /** "a@b.c" is accepted; "a@b", "@b.c", "a@.c" and "a b@c.d" are not. */
  lemma EmailExamples()
    ensures EmailValid("a@b.c")
    ensures !EmailValid("a@b") && !EmailValid("@b.c") && !EmailValid("a@.c") && !EmailValid("a b@c.d")
  {
    assert EmailShape("a@b.c", 1, 3);
    forall i, j ensures !EmailShape("@b.c", i, j) {
      if 0 < i < 4 { assert "@b.c"[0] == '@'; }
    }
    forall i, j ensures !EmailShape("a@.c", i, j) {
      assert "a@.c"[2] == '.';
    }
    forall i, j ensures !EmailShape("a b@c.d", i, j) {
      assert IsWhitespace("a b@c.d"[1]);
    }
  }

  /** The failures `validateForm` can report, in the order it checks them. */
  datatype FormError =
    | EmptyField
    | CpfInvalid
    | EmailInvalid
    | PasswordTooShort
    | PasswordMismatch
    | TermsNotAccepted

  function ErrorMessage(e: FormError): string {
    match e
    case EmptyField => "Por favor, preencha todos os campos."
    case CpfInvalid => "CPF inválido. Use o formato 000.000.000-00"
    case EmailInvalid => "Email inválido."
    case PasswordTooShort => "A senha deve ter pelo menos 6 caracteres."
    case PasswordMismatch => "As senhas não coincidem."
    case TermsNotAccepted => "Você precisa aceitar os termos de uso para continuar."
  }

  /** Position of each check in the chain. */
  function Rank(e: FormError): nat {
    match e
    case EmptyField => 0
    case CpfInvalid => 1
    case EmailInvalid => 2
    case PasswordTooShort => 3
    case PasswordMismatch => 4
    case TermsNotAccepted => 5
  }

  /** Check `e`, taken on its own, rejects the form. */
  predicate Fails(form: Form, terms: bool, e: FormError) {
    match e
    case EmptyField =>
      form.name == "" || form.phone == "" || form.cpf == "" || form.email == ""
      || form.password == "" || form.confirmPassword == ""
    case CpfInvalid => !CpfWellFormed(form.cpf)
    case EmailInvalid => !EmailValid(form.email)
    case PasswordTooShort => |form.password| < 6
    case PasswordMismatch => form.password != form.confirmPassword
    case TermsNotAccepted => !terms
  }

  /** `validateForm`: None when the form is valid, else the error it reports. */
  function ValidateForm(form: Form, terms: bool): (r: Option<FormError>)
    ensures r.None? <==> forall e :: !Fails(form, terms, e)
    ensures r.Some? ==> Fails(form, terms, r.value)
                        && forall e | Rank(e) < Rank(r.value) :: !Fails(form, terms, e)
  {
    if form.name == "" || form.phone == "" || form.cpf == "" || form.email == ""
       || form.password == "" || form.confirmPassword == "" then
      assert Fails(form, terms, EmptyField);
      Some(EmptyField)
    else if !CpfWellFormed(form.cpf) then
      assert Fails(form, terms, CpfInvalid);
      Some(CpfInvalid)
    else if !EmailValid(form.email) then
      assert Fails(form, terms, EmailInvalid);
      Some(EmailInvalid)
    else if |form.password| < 6 then
      assert Fails(form, terms, PasswordTooShort);
      Some(PasswordTooShort)
    else if form.password != form.confirmPassword then
      assert Fails(form, terms, PasswordMismatch);
      Some(PasswordMismatch)
    else if !terms then
      assert Fails(form, terms, TermsNotAccepted);
      Some(TermsNotAccepted)
    else None
  }

  /** The form after `handleChange` on `field`: the CPF and phone go through their
      masks, the other fields take the value as typed. */
  function Changed(form: Form, field: Field, value: string): Form {
    match field
    case Name => form.(name := value)
    case Phone => form.(phone := PhoneFormat(StripNonDigits(value)))
    case Cpf => form.(cpf := CpfFormat(StripNonDigits(value)))
    case Email => form.(email := value)
    case Password => form.(password := value)
    case ConfirmPassword => form.(confirmPassword := value)
  }

  /** Typing the same value into the CPF or phone field twice, or retyping what the
      field shows, leaves it as it is. */
  lemma ChangeIdempotent(form: Form, field: Field, value: string)
    ensures var f := Changed(form, field, value);
      Changed(f, field, value) == f
    ensures field == Cpf ==> Changed(Changed(form, Cpf, value), Cpf, Changed(form, Cpf, value).cpf) == Changed(form, Cpf, value)
    ensures field == Phone ==> Changed(Changed(form, Phone, value), Phone, Changed(form, Phone, value).phone) == Changed(form, Phone, value)
  {
    CpfIdempotent(value);
    PhoneIdempotent(value);
  }

  const FailureMessage := "Falha no cadastro. Por favor, tente novamente."

  class RegisterPage {
    var form: Form
    var termsAccepted: bool
    var marketingAccepted: bool
    var isLoading: bool
    var error: string

    constructor ()
      ensures form == Form("", "", "", "", "", "")
      ensures !termsAccepted && !marketingAccepted && !isLoading && error == ""
    {
      form := Form("", "", "", "", "", "");
      termsAccepted, marketingAccepted, isLoading, error := false, false, false, "";
    }

    /** `handleChange` for an input named after `field`. */
    method HandleChange(field: Field, value: string)
      modifies this
      ensures form == Changed(old(form), field, value)
      ensures termsAccepted == old(termsAccepted) && marketingAccepted == old(marketingAccepted)
      ensures isLoading == old(isLoading) && error == old(error)
    {
      match field
      case Cpf =>
        var masked := CpfMask(value);
        form := form.(cpf := masked);
      case Phone =>
        var masked := PhoneMask(value);
        form := form.(phone := masked);
      case Name => form := form.(name := value);
      case Email => form := form.(email := value);
      case Password => form := form.(password := value);
      case ConfirmPassword => form := form.(confirmPassword := value);
    }

    method SetTermsAccepted(accepted: bool)
      modifies this
      ensures termsAccepted == accepted
      ensures form == old(form) && marketingAccepted == old(marketingAccepted)
      ensures isLoading == old(isLoading) && error == old(error)
    {
      termsAccepted := accepted;
    }

    method SetMarketingAccepted(accepted: bool)
      modifies this
      ensures marketingAccepted == accepted
      ensures form == old(form) && termsAccepted == old(termsAccepted)
      ensures isLoading == old(isLoading) && error == old(error)
    {
      marketingAccepted := accepted;
    }

    /** `handleSubmit` up to its `await`: the error is cleared, the form validated, and
        only a valid form turns the spinner on and goes on (`proceeds`). */
    method Submit() returns (proceeds: bool)
      modifies this
      ensures proceeds <==> ValidateForm(form, termsAccepted).None?
      ensures !proceeds ==> error == ErrorMessage(ValidateForm(form, termsAccepted).value)
                            && isLoading == old(isLoading)
      ensures proceeds ==> error == "" && isLoading
      ensures form == old(form) && termsAccepted == old(termsAccepted)
      ensures marketingAccepted == old(marketingAccepted)
    {
      error := "";
      var failure := ValidateForm(form, termsAccepted);
      if failure.Some? {
        error := ErrorMessage(failure.value);
        proceeds := false;
      } else {
        isLoading := true;
        proceeds := true;
      }
    }

    /** `handleSubmit` after its `await`: on success the page goes to "/login"; if
        the registration step threw, the failure message is shown. The spinner stops
        either way. */
    method FinishRegistration(succeeded: bool) returns (target: Option<string>)
      modifies this
      ensures succeeded ==> target == Some("/login") && error == old(error)
      ensures !succeeded ==> target == None && error == FailureMessage
      ensures !isLoading
      ensures form == old(form) && termsAccepted == old(termsAccepted)
      ensures marketingAccepted == old(marketingAccepted)
    {
      if succeeded {
        target := Some("/login");
      } else {
        error := FailureMessage;
        target := None;
      }
      isLoading := false;
    }
  }
}
