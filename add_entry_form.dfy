/** The password generator of components/dashboard/AddEntryForm.tsx. */
module AddEntryForm {
  import Dashboard

  const UPPERCASE: string := "ABCDEFGHIJKLMNOPQRSTUVWXYZ"
  const LOWERCASE: string := "abcdefghijklmnopqrstuvwxyz"
  const NUMBERS: string := "0123456789"
  const SYMBOLS: string := "!@#$%^&*()_+{}[]<>?/|"
  const PASSWORD_LENGTH: nat := 12

  /** The four check boxes of the customisation dialog. */
  datatype CharsetOptions = CharsetOptions(useUppercase: bool, useLowercase: bool, useNumbers: bool, useSymbols: bool)

  /** Every set is enabled until the user unticks one. */
  const DEFAULT_OPTIONS: CharsetOptions := CharsetOptions(true, true, true, true)

  /** The enabled sets, concatenated in the order uppercase, lowercase, digits, symbols. */
  function Charset(o: CharsetOptions): string
  {
    Part(o.useUppercase, UPPERCASE) + Part(o.useLowercase, LOWERCASE) + Part(o.useNumbers, NUMBERS) + Part(o.useSymbols, SYMBOLS)
  }

  /** `chars` when its box is ticked, nothing otherwise. */
  function Part(enabled: bool, chars: string): string
  {
    if enabled then chars else ""
  }

  /** A character is available exactly when it belongs to an enabled set, and the charset is empty
      exactly when no set is enabled. */
  lemma CharsetMembers(o: CharsetOptions, c: char)
    ensures c in Charset(o) <==>
      || (o.useUppercase && c in UPPERCASE) || (o.useLowercase && c in LOWERCASE)
      || (o.useNumbers && c in NUMBERS) || (o.useSymbols && c in SYMBOLS)
    ensures Charset(o) == "" <==> !o.useUppercase && !o.useLowercase && !o.useNumbers && !o.useSymbols
  {
  }

  /** With the defaults the charset has 26 + 26 + 10 + 21 = 83 characters. */
  lemma DefaultCharsetSize()
    ensures |Charset(DEFAULT_OPTIONS)| == 83
  {
  }

  /** `Math.floor(Math.random() * n)`, for a draw `r` of `Math.random()`. */
  function RandomIndex(r: real, n: nat): (i: nat)
    requires 0.0 <= r < 1.0 && n > 0
    ensures i < n
  {
    var x := r * n as real;
    assert x < n as real by {
      assert r * n as real < 1.0 * n as real;
    }
    x.Floor
  }

  /** `generatePassword`: with no set enabled it alerts and leaves the form alone; otherwise it puts
      a 12-character password drawn from the charset, one draw per character, into the form's
      password field and changes nothing else. */
  method GeneratePassword(o: CharsetOptions, form: Dashboard.Form, draws: seq<real>)
    returns (alerted: bool, updated: Dashboard.Form)
    requires |draws| == PASSWORD_LENGTH
    requires forall i :: 0 <= i < |draws| ==> 0.0 <= draws[i] < 1.0
    ensures alerted <==> Charset(o) == ""
    ensures alerted ==> updated == form
    ensures !alerted ==>
      && updated == form.(password := updated.password)
      && |updated.password| == PASSWORD_LENGTH
      && forall i :: 0 <= i < PASSWORD_LENGTH ==>
           updated.password[i] == Charset(o)[RandomIndex(draws[i], |Charset(o)|)]
           && updated.password[i] in Charset(o)
  {
    var charset := "";
    if o.useUppercase { charset := charset + UPPERCASE; }
    assert charset == Part(o.useUppercase, UPPERCASE);
    if o.useLowercase { charset := charset + LOWERCASE; }
    assert charset == Part(o.useUppercase, UPPERCASE) + Part(o.useLowercase, LOWERCASE);
    if o.useNumbers { charset := charset + NUMBERS; }
    assert charset == Part(o.useUppercase, UPPERCASE) + Part(o.useLowercase, LOWERCASE) + Part(o.useNumbers, NUMBERS);
    if o.useSymbols { charset := charset + SYMBOLS; }
    assert charset == Charset(o);

    if charset == "" {
      return true, form;
    }

    var generated := "";
    for i := 0 to PASSWORD_LENGTH
      invariant |generated| == i
      invariant forall j :: 0 <= j < i ==> generated[j] == charset[RandomIndex(draws[j], |charset|)]
    {
      var randIndex := RandomIndex(draws[i], |charset|);
      generated := generated + [charset[randIndex]];
    }
    alerted := false;
    updated := Dashboard.WithField(form, Dashboard.PasswordField, generated);
  }
}
