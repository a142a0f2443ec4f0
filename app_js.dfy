// The site-wide script's form validator and dark-mode theme switch. Showing
// error text, CSS classes on inputs and the theme's DOM classes are recorded
// as the verdicts and fields they follow from; the page itself stays outside.

module AppJs {
  import opened Common
  import opened JsValue

  // ---------------------------------------------------------------------------
  // The e-mail pattern /^[^\s@]+@[^\s@]+\.[^\s@]+$/

  /** Text the class [^\s@] matches at every position. */
  predicate Clean(s: string)
  {
    forall j :: 0 <= j < |s| ==> !IsSpace(s[j]) && s[j] != '@'
  }

  /** The language of the pattern: a local part, '@', a domain part, '.', a last part, each non-empty and clean. */
  predicate EmailPattern(s: string)
  {
    exists i, k :: 0 < i && i + 1 < k && k + 1 < |s| && s[i] == '@' && s[k] == '.' &&
      Clean(s[..i]) && Clean(s[i + 1..k]) && Clean(s[k + 1..])
  }

  /** No character of `s` is white space. */
  predicate NoSpace(s: string)
    decreases |s|
  {
    s == [] || (!IsSpace(s[0]) && NoSpace(s[1..]))
  }

  lemma {:induction false} NoSpaceIff(s: string)
    ensures NoSpace(s) <==> forall j :: 0 <= j < |s| ==> !IsSpace(s[j])
    decreases |s|
  {
    if s != [] {
      NoSpaceIff(s[1..]);
      assert forall j :: 0 < j < |s| ==> s[j] == s[1..][j - 1];
    }
  }

  /** emailRegex.test(value), decided by one look for white space, one for the '@' and one for a '.' after it. */
  predicate MatchEmail(s: string)
  {
    NoSpace(s) && AtFrom(s, 0)
  }

  /** Scanning from position i, the first '@' splits the text as AtSplits requires. */
  predicate AtFrom(s: string, i: nat)
    decreases |s| - i
  {
    i < |s| && (if s[i] == '@' then AtSplits(s, Some(i)) else AtFrom(s, i + 1))
  }

  /** The '@' found is not the first character, no other '@' follows it, and a '.' follows it with text on both sides. */
  predicate AtSplits(s: string, at: Option<nat>)
  {
    at.Some? && 0 < at.value && at.value + 2 <= |s| - 1 && '@' !in s[at.value + 1..] && '.' in s[at.value + 2..|s| - 1]
  }

  /** The scan from i, with no '@' before i, judges the first '@' of the text. */
  lemma {:induction false} AtFromFirst(s: string, i: nat)
    requires i <= |s| && '@' !in s[..i]
    ensures AtFrom(s, i) <==> AtSplits(s, IndexOf(s, '@'))
    decreases |s| - i
  {
    if i == |s| {
      assert s[..i] == s;
      IndexOfFacts(s, '@');
    } else if s[i] == '@' {
      IndexOfFirst(s, '@', i);
    } else {
      assert s[..i + 1] == s[..i] + [s[i]];
      AtFromFirst(s, i + 1);
    }
  }

  /** The scan judges the text by its first '@'. */
  lemma MatchEmailByIndex(s: string)
    ensures MatchEmail(s) <==> NoSpace(s) && AtSplits(s, IndexOf(s, '@'))
  {
    AtFromFirst(s, 0);
  }

  /** When the scan accepts, the '@' it found is the only one. */
  lemma OnlyAt(s: string, i: nat)
    requires MatchEmail(s) && IndexOf(s, '@') == Some(i)
    ensures forall j :: 0 <= j < |s| && j != i ==> s[j] != '@'
  {
    MatchEmailByIndex(s);
    IndexOfFacts(s, '@');
    forall j | 0 <= j < |s| && j != i ensures s[j] != '@' {
      if j < i {
        assert s[j] == s[..i][j];
      } else {
        assert s[j] == s[i + 1..][j - i - 1];
      }
    }
  }

  /** What the scan accepts is in the pattern's language. */
  lemma MatchEmailSound(s: string)
    requires MatchEmail(s)
    ensures EmailPattern(s)
  {
    MatchEmailByIndex(s);
    IndexOfFacts(s, '@');
    var i := IndexOf(s, '@').value;
    OnlyAt(s, i);
    NoSpaceIff(s);
    var t := s[i + 2..|s| - 1];
    var k' :| 0 <= k' < |t| && t[k'] == '.';
    var k := i + 2 + k';
    assert s[k] == '.';
    assert Clean(s[..i]);
    assert Clean(s[i + 1..k]);
    assert Clean(s[k + 1..]);
  }

  /** Everything in the pattern's language is accepted by the scan. */
  lemma MatchEmailComplete(s: string, i: nat, k: nat)
    requires 0 < i && i + 1 < k && k + 1 < |s| && s[i] == '@' && s[k] == '.'
    requires Clean(s[..i]) && Clean(s[i + 1..k]) && Clean(s[k + 1..])
    ensures MatchEmail(s)
  {
    forall j | 0 <= j < |s| ensures !IsSpace(s[j]) && (j != i ==> s[j] != '@') {
      if j < i {
        assert s[j] == s[..i][j];
      } else if i < j < k {
        assert s[j] == s[i + 1..k][j - i - 1];
      } else if k < j {
        assert s[j] == s[k + 1..][j - k - 1];
      }
    }
    NoSpaceIff(s);
    assert '@' !in s[..i];
    IndexOfFirst(s, '@', i);
    assert '@' !in s[i + 1..];
    assert s[i + 2..|s| - 1][k - i - 2] == '.';
    MatchEmailByIndex(s);
  }

  /** The scan accepts exactly the pattern's language. */
  lemma MatchEmailIff(s: string)
    ensures MatchEmail(s) <==> EmailPattern(s)
  {
    if MatchEmail(s) {
      MatchEmailSound(s);
    }
    if EmailPattern(s) {
      var i, k :| 0 < i && i + 1 < k && k + 1 < |s| && s[i] == '@' && s[k] == '.' &&
        Clean(s[..i]) && Clean(s[i + 1..k]) && Clean(s[k + 1..]);
      MatchEmailComplete(s, i, k);
    }
  }

  /** The pattern needs exactly one '@': text with none, or with two, never matches. */
  lemma EmailNeedsOneAt(s: string)
    ensures '@' !in s ==> !MatchEmail(s)
    ensures (exists a, b :: 0 <= a < b < |s| && s[a] == '@' && s[b] == '@') ==> !MatchEmail(s)
  {
    MatchEmailByIndex(s);
    IndexOfFacts(s, '@');
    if MatchEmail(s) {
      OnlyAt(s, IndexOf(s, '@').value);
    }
  }

  // ---------------------------------------------------------------------------
  // FormValidator

  /** An input, textarea or select: its required flag, its type, its value and its minlength attribute. */
  datatype Input = Input(required: bool, kind: string, value: string, minLength: Option<string>)

  datatype Verdict = Valid | Invalid(message: string)

  datatype Alert = Alert(message: string, kind: string)

  /**
   * Number(s) for an attribute value: surrounding white space is ignored, the
   * empty string is 0, an optional sign and decimal digits are their value,
   * and anything else is NaN.
   */
  function ToNumber(s: string): (r: JsVal)
    ensures r.Num? || r.NaN?
  {
    var t := Trim(s);
    if t == "" then Num(0)
    else if AllDigits(t) then Num(DigitsValue(t))
    else if t[0] == '-' && |t| > 1 && AllDigits(t[1..]) then Num(-(DigitsValue(t[1..]) as int))
    else if t[0] == '+' && |t| > 1 && AllDigits(t[1..]) then Num(DigitsValue(t[1..]))
    else NaN
  }

  /** `n < v` for a length n and a number v: false whenever v is NaN. */
  predicate Below(n: nat, v: JsVal)
  {
    v.Num? && n < v.n
  }

  /** validateInput(input): the checks run in order and the first that fails gives the message. */
  function ValidateInput(x: Input): Verdict
  {
    var v := Trim(x.value);
    if x.required && v == "" then Invalid("This field is required")
    else if x.kind == "email" && v != "" && !MatchEmail(v) then Invalid("Please enter a valid email")
    else if x.kind == "password" && v != "" && JsLength(v) < 8 then Invalid("Password must be at least 8 characters")
    else if x.minLength.Some? && Below(JsLength(v), ToNumber(x.minLength.value)) then
      Invalid("Minimum " + x.minLength.value + " characters required")
    else Valid
  }

  /** What a valid input satisfies, stated against the pattern's language. */
  predicate Acceptable(x: Input)
  {
    var v := Trim(x.value);
    (x.required ==> v != "") &&
    (x.kind == "email" && v != "" ==> EmailPattern(v)) &&
    (x.kind == "password" && v != "" ==> JsLength(v) >= 8) &&
    (x.minLength.Some? ==> !Below(JsLength(v), ToNumber(x.minLength.value)))
  }

  /** An input is valid exactly when it passes every check. */
  lemma ValidIffAcceptable(x: Input)
    ensures ValidateInput(x) == Valid <==> Acceptable(x)
  {
    MatchEmailIff(Trim(x.value));
  }

  /** A required input whose trimmed value is empty fails first, whatever else is wrong with it. */
  lemma RequiredFailsFirst(x: Input)
    requires x.required && forall i :: 0 <= i < |x.value| ==> IsSpace(x.value[i])
    ensures ValidateInput(x) == Invalid("This field is required")
  {
    TrimEmpty(x.value);
  }

  /** A non-empty e-mail outside the pattern's language fails with the e-mail message unless it is missing. */
  lemma BadEmailFails(x: Input)
    requires x.kind == "email" && Trim(x.value) != "" && !EmailPattern(Trim(x.value))
    ensures ValidateInput(x) == Invalid("Please enter a valid email")
  {
    MatchEmailIff(Trim(x.value));
  }

  /** A non-empty password shorter than eight UTF-16 units after trimming fails. */
  lemma ShortPasswordFails(x: Input)
    requires x.kind == "password" && Trim(x.value) != "" && JsLength(Trim(x.value)) < 8
    ensures ValidateInput(x) == Invalid("Password must be at least 8 characters")
  {
  }

  /** Four characters above U+FFFF are eight UTF-16 units, enough for a password. */
  lemma AstralPasswordPasses(x: Input)
    requires x.kind == "password" && x.minLength.None? && |x.value| == 4
    requires forall i :: 0 <= i < |x.value| ==> x.value[i] > '\U{FFFF}'
    ensures ValidateInput(x) == Valid
  {
    assert !IsSpace(x.value[0]) && !IsSpace(x.value[3]);
    TrimNothing(x.value);
    JsLengthAstral(x.value);
  }

  /** A minlength of decimal digits is compared as a number. */
  lemma MinLengthNumeric(x: Input, n: string)
    requires x.minLength == Some(n) && !x.required && x.kind != "email" && x.kind != "password"
    requires n != [] && AllDigits(n)
    ensures ValidateInput(x) == Valid <==> JsLength(Trim(x.value)) >= DigitsValue(n)
  {
    assert !IsSpace(n[0]) && !IsSpace(n[|n| - 1]);
    TrimNothing(n);
    assert ToNumber(n) == Num(DigitsValue(n));
  }

  /** A minlength that is not a number never fails. */
  lemma MinLengthNaN(x: Input, n: string)
    requires x.minLength == Some(n) && !x.required && x.kind != "email" && x.kind != "password"
    requires ToNumber(n).NaN?
    ensures ValidateInput(x) == Valid
  {
  }

  /** Text with no white space at either end is its own trim. */
  lemma TrimNothing(s: string)
    requires s != [] && !IsSpace(s[0]) && !IsSpace(s[|s| - 1])
    ensures Trim(s) == s
  {
  }

  /**
   * validateForm(e, form): every input is validated (each shows its own
   * error or success), and the submit is prevented, with an alert, when any
   * of them is invalid.
   */
  method ValidateForm(inputs: seq<Input>) returns (verdicts: seq<Verdict>, prevented: bool, alert: Option<Alert>)
    ensures verdicts == Verdicts(inputs)
    ensures prevented <==> exists i :: 0 <= i < |inputs| && !Acceptable(inputs[i])
    ensures alert == (if prevented then Some(Alert("Please fix the errors in the form", "danger")) else None)
  {
    var isValid;
    verdicts, isValid := ForEachInput(ValidateInput, inputs);
    FormVerdicts(inputs);
    prevented := !isValid;
    alert := if prevented then Some(Alert("Please fix the errors in the form", "danger")) else None;
  }

  /** inputs.forEach with a check: each input's verdict in order, and whether every one was valid. */
  method ForEachInput(check: Input -> Verdict, inputs: seq<Input>) returns (verdicts: seq<Verdict>, isValid: bool)
    ensures verdicts == Each(check, inputs)
    ensures isValid <==> AllValid(verdicts)
  {
    isValid := true;
    verdicts := [];
    var j := 0;
    while j < |inputs|
      invariant 0 <= j <= |inputs|
      invariant verdicts == Each(check, inputs[..j])
      invariant isValid <==> AllValid(verdicts)
    {
      assert inputs[..j + 1][..j] == inputs[..j];
      var verdict := check(inputs[j]);
      if verdict != Valid {
        isValid := false;
      }
      verdicts := verdicts + [verdict];
      j := j + 1;
    }
    assert inputs[..j] == inputs;
  }

  /** validateInput applied to each input in turn. */
  function Verdicts(inputs: seq<Input>): (r: seq<Verdict>)
  {
    Each(ValidateInput, inputs)
  }

  /** A check applied to each input in turn. */
  function Each(check: Input -> Verdict, inputs: seq<Input>): seq<Verdict>
    decreases |inputs|
  {
    if inputs == [] then [] else Each(check, inputs[..|inputs| - 1]) + [check(inputs[|inputs| - 1])]
  }

  lemma {:induction false} EachAt(check: Input -> Verdict, inputs: seq<Input>)
    ensures |Each(check, inputs)| == |inputs|
    ensures forall i :: 0 <= i < |inputs| ==> Each(check, inputs)[i] == check(inputs[i])
    decreases |inputs|
  {
    if inputs != [] {
      var init := inputs[..|inputs| - 1];
      EachAt(check, init);
      assert forall i :: 0 <= i < |init| ==> init[i] == inputs[i];
    }
  }

  /** The verdicts line up with the inputs. */
  lemma VerdictsAt(inputs: seq<Input>)
    ensures |Verdicts(inputs)| == |inputs|
    ensures forall i :: 0 <= i < |inputs| ==> Verdicts(inputs)[i] == ValidateInput(inputs[i])
  {
    EachAt(ValidateInput, inputs);
  }

  /** No verdict is an error. */
  predicate AllValid(vs: seq<Verdict>)
    decreases |vs|
  {
    vs == [] || (AllValid(vs[..|vs| - 1]) && vs[|vs| - 1] == Valid)
  }

  /** When a check passes exactly what `ok` accepts, its verdicts are all valid exactly when every input is accepted. */
  lemma {:induction false} EachAllValid(check: Input -> Verdict, ok: Input -> bool, inputs: seq<Input>)
    requires forall x :: check(x) == Valid <==> ok(x)
    ensures AllValid(Each(check, inputs)) <==> forall i :: 0 <= i < |inputs| ==> ok(inputs[i])
    decreases |inputs|
  {
    if inputs != [] {
      var init := inputs[..|inputs| - 1];
      var last := inputs[|inputs| - 1];
      var vs := Each(check, inputs);
      EachAllValid(check, ok, init);
      assert vs == Each(check, init) + [check(last)];
      assert vs[..|vs| - 1] == Each(check, init);
      assert AllValid(vs) <==> AllValid(Each(check, init)) && check(last) == Valid;
      assert (forall i :: 0 <= i < |inputs| ==> ok(inputs[i])) <==>
             (forall i :: 0 <= i < |init| ==> ok(init[i])) && ok(last) by {
        assert forall i :: 0 <= i < |init| ==> init[i] == inputs[i];
      }
    }
  }

  /** A form's verdicts are all valid exactly when its inputs are all acceptable. */
  lemma FormVerdicts(inputs: seq<Input>)
    ensures AllValid(Verdicts(inputs)) <==> forall i :: 0 <= i < |inputs| ==> Acceptable(inputs[i])
  {
    forall x ensures ValidateInput(x) == Valid <==> Acceptable(x) {
      ValidIffAcceptable(x);
    }
    EachAllValid(ValidateInput, Acceptable, inputs);
  }

  // ---------------------------------------------------------------------------
  // ThemeManager

  /** getSystemTheme(): the colour scheme the system prefers. */
  function SystemTheme(prefersDark: bool): string
  {
    if prefersDark then "dark" else "light"
  }

  /** `localStorage.getItem('theme') || this.getSystemTheme()`. */
  function InitialTheme(stored: Option<string>, prefersDark: bool): (r: string)
    ensures stored.Some? && stored.value != "" ==> r == stored.value
    ensures stored.None? || stored == Some("") ==> r == SystemTheme(prefersDark)
  {
    match stored
    case Some(t) => if t != "" then t else SystemTheme(prefersDark)
    case None => SystemTheme(prefersDark)
  }

  /** The theme toggleTheme switches to. */
  function Toggled(theme: string): string
  {
    if theme == "dark" then "light" else "dark"
  }

  /** The toggle button's text for a theme. */
  function ToggleLabel(theme: string): string
  {
    if theme == "dark" then "\U{2600}\U{FE0F}" else "\U{1F319}"
  }

  /** Toggling flips dark and light, so toggling twice restores either. */
  lemma ToggleTwice(theme: string)
    requires theme == "dark" || theme == "light"
    ensures Toggled(theme) != theme
    ensures Toggled(Toggled(theme)) == theme
  {
  }

  /** Any other stored theme name is replaced by dark, and from then on the theme is dark or light. */
  lemma ToggleOtherTheme(theme: string)
    requires theme != "dark" && theme != "light"
    ensures Toggled(theme) == "dark" && Toggled(Toggled(theme)) == "light"
  {
  }

  class ThemeManager {
    /** The current theme name. */
    var theme: string
    /** Whether the document and the body carry the dark-mode class. */
    var darkMode: bool
    /** The saved 'theme' entry of localStorage. */
    var stored: Option<string>
    /** Whether the page has a theme toggle button, and its text and pressed state. */
    const hasToggle: bool
    var buttonText: string
    var pressed: bool

    /** The page's dark-mode class and the toggle button follow the theme. */
    predicate Valid()
      reads this
    {
      darkMode == (theme == "dark") && (hasToggle ==> buttonText == ToggleLabel(theme) && pressed == (theme == "dark"))
    }

    /** new ThemeManager(): the saved theme or the system's, applied to the page. */
    constructor (stored: Option<string>, prefersDark: bool, hasToggle: bool)
      ensures Valid()
      ensures theme == InitialTheme(stored, prefersDark) && this.stored == stored && this.hasToggle == hasToggle
    {
      var t := InitialTheme(stored, prefersDark);
      theme := t;
      darkMode := t == "dark";
      this.stored := stored;
      this.hasToggle := hasToggle;
      buttonText := ToggleLabel(t);
      pressed := t == "dark";
    }

    /** applyTheme(theme) */
    method ApplyTheme(t: string)
      modifies this
      ensures theme == t && darkMode == (t == "dark")
      ensures stored == old(stored) && buttonText == old(buttonText) && pressed == old(pressed)
    {
      darkMode := t == "dark";
      theme := t;
    }

    /** updateToggleState(toggle) */
    method UpdateToggleState()
      modifies this
      ensures hasToggle ==> buttonText == ToggleLabel(theme) && pressed == (theme == "dark")
      ensures !hasToggle ==> buttonText == old(buttonText) && pressed == old(pressed)
      ensures theme == old(theme) && darkMode == old(darkMode) && stored == old(stored)
    {
      if hasToggle {
        buttonText := ToggleLabel(theme);
        pressed := theme == "dark";
      }
    }

    /** toggleTheme(): switch, apply and save the theme, and refresh the button. */
    method ToggleTheme()
      modifies this
      ensures Valid()
      ensures theme == Toggled(old(theme)) && stored == Some(theme)
    {
      var newTheme := if theme == "dark" then "light" else "dark";
      ApplyTheme(newTheme);
      stored := Some(newTheme);
      UpdateToggleState();
    }

    /** The system colour-scheme listener: it follows the system only while no theme is saved. */
    method SystemThemeChanged(prefersDark: bool)
      requires Valid()
      modifies this
      ensures stored == old(stored) && buttonText == old(buttonText) && pressed == old(pressed)
      ensures old(stored).None? || old(stored) == Some("") ==> theme == SystemTheme(prefersDark)
      ensures old(stored).Some? && old(stored).value != "" ==> theme == old(theme) && Valid()
    {
      if stored.None? || stored == Some("") {
        ApplyTheme(SystemTheme(prefersDark));
      }
    }
  }
}
