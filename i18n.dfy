/** The three translation-key mappers: each lowercases its text and returns
    the key of the first needle, in a fixed priority order, that the text
    contains. */
module I18n {
  import opened Text

  /** One entry of a priority list: a lowercase needle and the key it selects. */
  datatype Rule = Rule(needle: string, key: string)

  const LabelRules: seq<Rule> := [
    Rule("username", "sign.up.form.fields.username.label"),
    Rule("first name", "sign.up.form.fields.firstName.label"),
    Rule("last name", "sign.up.form.fields.lastName.label"),
    Rule("password", "sign.up.form.fields.password.label"),
    Rule("email", "sign.up.form.fields.email.label")
  ]

  /** The placeholder list has no password entry. */
  const PlaceholderRules: seq<Rule> := [
    Rule("username", "sign.up.form.fields.username.placeholder"),
    Rule("first name", "sign.up.form.fields.firstName.placeholder"),
    Rule("last name", "sign.up.form.fields.lastName.placeholder"),
    Rule("email", "sign.up.form.fields.email.placeholder")
  ]

  /** Specific phrases come before the generic words they contain. */
  const ActionTextRules: seq<Rule> := [
    Rule("continue with password", "sign.up.form.button.continue.with.password"),
    Rule("continue with email otp", "sign.up.form.button.continue.with.email.otp"),
    Rule("continue with google", "sign.up.form.button.continue.with.google"),
    Rule("continue", "sign.up.form.button.continue"),
    Rule("next", "sign.up.form.button.next"),
    Rule("done", "sign.up.form.button.done")
  ]

  /** Rule `k` is the first rule, in list order, whose needle occurs in `lower`. */
  ghost predicate IsFirstMatch(rules: seq<Rule>, lower: string, k: int)
  {
    0 <= k < |rules| && Includes(lower, rules[k].needle)
    && forall j :: 0 <= j < k ==> !Includes(lower, rules[j].needle)
  }

  ghost predicate NoRuleMatches(rules: seq<Rule>, lower: string)
  {
    forall k :: 0 <= k < |rules| ==> !Includes(lower, rules[k].needle)
  }

  /** `r` is what a priority list selects for `lower`: the first matching
      rule's key, or `fallback` when no needle occurs. */
  ghost predicate ChosenByPriority(rules: seq<Rule>, lower: string, fallback: string, r: string)
  {
    (forall k :: IsFirstMatch(rules, lower, k) ==> r == rules[k].key)
    && (NoRuleMatches(rules, lower) ==> r == fallback)
  }

  /** The key of the first rule, in list order, whose needle occurs in
      `lower`; `fallback` when none does. A reference reading of a priority
      list, independent of the mappers' if-chains. */
  function SelectByPriority(rules: seq<Rule>, lower: string, fallback: string): string
  {
    if rules == [] then fallback
    else if Includes(lower, rules[0].needle) then rules[0].key
    else SelectByPriority(rules[1..], lower, fallback)
  }

  /** The reference reading selects the first matching rule and falls back
      only when no rule matches. */
  lemma {:induction false} SelectByPriorityIsFirstMatch(rules: seq<Rule>, lower: string, fallback: string)
    ensures ChosenByPriority(rules, lower, fallback, SelectByPriority(rules, lower, fallback))
  {
    if rules != [] && !Includes(lower, rules[0].needle) {
      var rest := rules[1..];
      SelectByPriorityIsFirstMatch(rest, lower, fallback);
      forall k | IsFirstMatch(rules, lower, k)
        ensures SelectByPriority(rules, lower, fallback) == rules[k].key
      {
        assert k != 0;
        assert IsFirstMatch(rest, lower, k - 1) by {
          forall j | 0 <= j < k - 1 ensures !Includes(lower, rest[j].needle) {
            assert rest[j] == rules[j + 1];
          }
        }
      }
      if NoRuleMatches(rules, lower) {
        forall k | 0 <= k < |rest| ensures !Includes(lower, rest[k].needle) {
          assert rest[k] == rules[k + 1];
        }
      }
    }
  }

  /** `mapLabelToI18n`. */
  function MapLabelToI18n(labelText: string): (r: string)
  {
    if labelText == "" then ""
    else
      var lower := Lower(labelText);
      if Includes(lower, "username") then "sign.up.form.fields.username.label"
      else if Includes(lower, "first name") then "sign.up.form.fields.firstName.label"
      else if Includes(lower, "last name") then "sign.up.form.fields.lastName.label"
      else if Includes(lower, "password") then "sign.up.form.fields.password.label"
      else if Includes(lower, "email") then "sign.up.form.fields.email.label"
      else labelText
  }

  /** `mapPlaceholderToI18n`. */
  function MapPlaceholderToI18n(placeholder: string): (r: string)
  {
    if placeholder == "" then ""
    else
      var lower := Lower(placeholder);
      if Includes(lower, "username") then "sign.up.form.fields.username.placeholder"
      else if Includes(lower, "first name") then "sign.up.form.fields.firstName.placeholder"
      else if Includes(lower, "last name") then "sign.up.form.fields.lastName.placeholder"
      else if Includes(lower, "email") then "sign.up.form.fields.email.placeholder"
      else placeholder
  }

  /** `mapActionTextToI18n`; unlike the other two it has no empty-text case. */
  function MapActionTextToI18n(text: string): (r: string)
  {
    var lower := Lower(text);
    if Includes(lower, "continue with password") then "sign.up.form.button.continue.with.password"
    else if Includes(lower, "continue with email otp") then "sign.up.form.button.continue.with.email.otp"
    else if Includes(lower, "continue with google") then "sign.up.form.button.continue.with.google"
    else if Includes(lower, "continue") then "sign.up.form.button.continue"
    else if Includes(lower, "next") then "sign.up.form.button.next"
    else if Includes(lower, "done") then "sign.up.form.button.done"
    else text
  }

  /** The label mapper returns "" for an empty label; otherwise it selects by
      the label priority list (username, first name, last name, password,
      email), falling back to the label itself. */
  lemma LabelByPriority(labelText: string)
    ensures labelText == "" ==> MapLabelToI18n(labelText) == ""
    ensures labelText != "" ==> ChosenByPriority(LabelRules, Lower(labelText), labelText, MapLabelToI18n(labelText))
  {
    var lower := Lower(labelText);
    assert MapLabelToI18n(labelText) == SelectByPriority(LabelRules, lower, labelText) || labelText == "" by {
      assert SelectByPriority(LabelRules[0..], lower, labelText) == if Includes(lower, "username") then "sign.up.form.fields.username.label" else SelectByPriority(LabelRules[1..], lower, labelText);
      assert SelectByPriority(LabelRules[1..], lower, labelText) == if Includes(lower, "first name") then "sign.up.form.fields.firstName.label" else SelectByPriority(LabelRules[2..], lower, labelText);
      assert SelectByPriority(LabelRules[2..], lower, labelText) == if Includes(lower, "last name") then "sign.up.form.fields.lastName.label" else SelectByPriority(LabelRules[3..], lower, labelText);
      assert SelectByPriority(LabelRules[3..], lower, labelText) == if Includes(lower, "password") then "sign.up.form.fields.password.label" else SelectByPriority(LabelRules[4..], lower, labelText);
      assert SelectByPriority(LabelRules[4..], lower, labelText) == if Includes(lower, "email") then "sign.up.form.fields.email.label" else SelectByPriority(LabelRules[5..], lower, labelText);
      assert LabelRules[5..] == [];
    }
    SelectByPriorityIsFirstMatch(LabelRules, lower, labelText);
  }

  /** The placeholder mapper: the same shape over the placeholder list,
      which has no password entry. */
  lemma PlaceholderByPriority(placeholder: string)
    ensures placeholder == "" ==> MapPlaceholderToI18n(placeholder) == ""
    ensures placeholder != "" ==> ChosenByPriority(PlaceholderRules, Lower(placeholder), placeholder, MapPlaceholderToI18n(placeholder))
  {
    var lower := Lower(placeholder);
    assert MapPlaceholderToI18n(placeholder) == SelectByPriority(PlaceholderRules, lower, placeholder) || placeholder == "" by {
      assert SelectByPriority(PlaceholderRules[0..], lower, placeholder) == if Includes(lower, "username") then "sign.up.form.fields.username.placeholder" else SelectByPriority(PlaceholderRules[1..], lower, placeholder);
      assert SelectByPriority(PlaceholderRules[1..], lower, placeholder) == if Includes(lower, "first name") then "sign.up.form.fields.firstName.placeholder" else SelectByPriority(PlaceholderRules[2..], lower, placeholder);
      assert SelectByPriority(PlaceholderRules[2..], lower, placeholder) == if Includes(lower, "last name") then "sign.up.form.fields.lastName.placeholder" else SelectByPriority(PlaceholderRules[3..], lower, placeholder);
      assert SelectByPriority(PlaceholderRules[3..], lower, placeholder) == if Includes(lower, "email") then "sign.up.form.fields.email.placeholder" else SelectByPriority(PlaceholderRules[4..], lower, placeholder);
      assert PlaceholderRules[4..] == [];
    }
    SelectByPriorityIsFirstMatch(PlaceholderRules, lower, placeholder);
  }

  /** The button-text mapper selects by the button priority list, falling
      back to the text itself. */
  lemma ActionTextByPriority(text: string)
    ensures ChosenByPriority(ActionTextRules, Lower(text), text, MapActionTextToI18n(text))
  {
    var lower := Lower(text);
    assert MapActionTextToI18n(text) == SelectByPriority(ActionTextRules, lower, text) by {
      assert SelectByPriority(ActionTextRules[0..], lower, text) == if Includes(lower, "continue with password") then "sign.up.form.button.continue.with.password" else SelectByPriority(ActionTextRules[1..], lower, text);
      assert SelectByPriority(ActionTextRules[1..], lower, text) == if Includes(lower, "continue with email otp") then "sign.up.form.button.continue.with.email.otp" else SelectByPriority(ActionTextRules[2..], lower, text);
      assert SelectByPriority(ActionTextRules[2..], lower, text) == if Includes(lower, "continue with google") then "sign.up.form.button.continue.with.google" else SelectByPriority(ActionTextRules[3..], lower, text);
      assert SelectByPriority(ActionTextRules[3..], lower, text) == if Includes(lower, "continue") then "sign.up.form.button.continue" else SelectByPriority(ActionTextRules[4..], lower, text);
      assert SelectByPriority(ActionTextRules[4..], lower, text) == if Includes(lower, "next") then "sign.up.form.button.next" else SelectByPriority(ActionTextRules[5..], lower, text);
      assert SelectByPriority(ActionTextRules[5..], lower, text) == if Includes(lower, "done") then "sign.up.form.button.done" else SelectByPriority(ActionTextRules[6..], lower, text);
      assert ActionTextRules[6..] == [];
    }
    SelectByPriorityIsFirstMatch(ActionTextRules, lower, text);
  }

  /** The specific Google phrase wins over the generic "continue" key it contains. */
  lemma ContinueWithGoogle()
    ensures MapActionTextToI18n("Continue with Google") == "sign.up.form.button.continue.with.google"
  {
    var lower := Lower("Continue with Google");
    assert lower == "continue with google";
    LongerNeverIncluded(lower, "continue with password");
    LongerNeverIncluded(lower, "continue with email otp");
    assert OccursAt(lower, "continue with google", 0);
  }

  /** A password label gets the password key, while the same text as a
      placeholder is returned unchanged: placeholders have no password rule. */
  lemma PasswordOnlyForLabels()
    ensures MapLabelToI18n("Password") == "sign.up.form.fields.password.label"
    ensures MapPlaceholderToI18n("Password") == "Password"
  {
    var lower := Lower("Password");
    assert lower == "password";
    FirstCharAbsent(lower, "username");
    LongerNeverIncluded(lower, "first name");
    LongerNeverIncluded(lower, "last name");
    FirstCharAbsent(lower, "email");
    assert OccursAt(lower, "password", 0);
  }

  /** Matching ignores ASCII case: any label whose lowercase form contains
      "username" maps to the username key, and so does the same label
      written in capitals. */
  lemma UsernameLabelCaseInsensitive(labelText: string)
    requires Includes(Lower(labelText), "username")
    ensures MapLabelToI18n(labelText) == "sign.up.form.fields.username.label"
    ensures MapLabelToI18n(Upper(labelText)) == "sign.up.form.fields.username.label"
  {
    LowerIgnoresCase(labelText);
  }

  /** For example, "Enter your Username". */
  lemma UsernameLabelExample()
    ensures MapLabelToI18n("Enter your Username") == "sign.up.form.fields.username.label"
  {
    var lower := Lower("Enter your Username");
    assert lower == "enter your username";
    assert OccursAt(lower, "username", 11);
    UsernameLabelCaseInsensitive("Enter your Username");
  }
}
