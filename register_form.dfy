/**
 * The sign-up page (frontend/src/pages/auth/Register.tsx): the password
 * rules checked before an account is requested, and the page state its two
 * submit handlers update. The authentication calls the handlers await are
 * outside the model: each handler receives their outcome as a parameter and
 * records the call it made.
 */
module RegisterForm {
  import opened Wrappers

  /** The rules, in the order handleRegister checks them. */
  datatype PasswordRule = Mismatch | TooShort | NoUpper | NoLower | NoDigit

  /** The message shown for a broken rule. */
  function RuleMessage(rule: PasswordRule): string
  {
    match rule
    case Mismatch => "パスワードが一致しません"
    case TooShort => "パスワードは8文字以上である必要があります"
    case NoUpper => "パスワードには大文字を含める必要があります"
    case NoLower => "パスワードには小文字を含める必要があります"
    case NoDigit => "パスワードには数字を含める必要があります"
  }

  /** Different rules are reported with different messages. */
  lemma RuleMessagesDistinct(a: PasswordRule, b: PasswordRule)
    ensures RuleMessage(a) == RuleMessage(b) <==> a == b
  {
    var m, s, u, l, d := RuleMessage(Mismatch), RuleMessage(TooShort), RuleMessage(NoUpper), RuleMessage(NoLower), RuleMessage(NoDigit);
    assert m[5] == 'が' && s[5] == 'は' && u[5] == 'に' && l[5] == 'に' && d[5] == 'に';
    assert u[7] == '大' && l[7] == '小' && d[7] == '数';
  }

  const MinPasswordLength: nat := 8

  /**
   * A JavaScript string's `length`: UTF-16 code units, so a character
   * outside the Basic Multilingual Plane counts twice.
   */
  function Utf16Length(s: string): (n: nat)
    ensures |s| <= n <= 2 * |s|
    ensures (forall i :: 0 <= i < |s| ==> (s[i] as int) < 0x1_0000) ==> n == |s|
  {
    if |s| == 0 then 0
    else (if (s[0] as int) < 0x1_0000 then 1 else 2) + Utf16Length(s[1..])
  }

  /** `/[A-Z]/.test(s)`. */
  predicate HasUpper(s: string)
  {
    exists i :: 0 <= i < |s| && 'A' <= s[i] <= 'Z'
  }

  /** `/[a-z]/.test(s)`. */
  predicate HasLower(s: string)
  {
    exists i :: 0 <= i < |s| && 'a' <= s[i] <= 'z'
  }

  /** `/[0-9]/.test(s)`. */
  predicate HasDigit(s: string)
  {
    exists i :: 0 <= i < |s| && '0' <= s[i] <= '9'
  }

  /** The first rule the two entries break, or None when they pass all five. */
  function BrokenRule(password: string, confirm: string): Option<PasswordRule>
  {
    if password != confirm then Some(Mismatch)
    else if Utf16Length(password) < MinPasswordLength then Some(TooShort)
    else if !HasUpper(password) then Some(NoUpper)
    else if !HasLower(password) then Some(NoLower)
    else if !HasDigit(password) then Some(NoDigit)
    else None
  }

  /** A password the page accepts: confirmed, at least 8 code units, with an upper-case letter, a lower-case letter and a digit. */
  predicate Acceptable(password: string, confirm: string)
  {
    && password == confirm
    && Utf16Length(password) >= MinPasswordLength
    && HasUpper(password) && HasLower(password) && HasDigit(password)
  }

  /**
   * Each rule is reported exactly when every earlier rule holds and it does
   * not; nothing is reported exactly when the password is acceptable.
   */
  lemma BrokenRuleOrder(password: string, confirm: string)
    ensures var r := BrokenRule(password, confirm);
      && (r == Some(Mismatch) <==> password != confirm)
      && (r == Some(TooShort) <==> password == confirm && Utf16Length(password) < 8)
      && (r == Some(NoUpper) <==> password == confirm && Utf16Length(password) >= 8 && !HasUpper(password))
      && (r == Some(NoLower) <==> password == confirm && Utf16Length(password) >= 8 && HasUpper(password)
                                  && !HasLower(password))
      && (r == Some(NoDigit) <==> password == confirm && Utf16Length(password) >= 8 && HasUpper(password)
                                  && HasLower(password) && !HasDigit(password))
      && (r.None? <==> Acceptable(password, confirm))
  {
  }

  /** A long enough password with all three kinds of character is accepted, whatever else it holds. */
  lemma AcceptedByWitnesses(password: string, u: nat, l: nat, d: nat)
    requires u < |password| && l < |password| && d < |password|
    requires 'A' <= password[u] <= 'Z' && 'a' <= password[l] <= 'z' && '0' <= password[d] <= '9'
    requires |password| >= 8
    ensures BrokenRule(password, password).None?
  {
  }

  /**
   * Length is counted in UTF-16 code units: seven letters and digits are
   * too short, but six of them and an emoji are long enough.
   */
  lemma LengthInCodeUnits()
    ensures BrokenRule("Abcde12", "Abcde12") == Some(TooShort)
    ensures BrokenRule("Abcd12\U{1F600}", "Abcd12\U{1F600}").None?
  {
    var p := "Abcd12\U{1F600}";
    assert Utf16Length(p[6..]) == 2;
    assert 'A' <= p[0] <= 'Z' && 'a' <= p[1] <= 'z' && '0' <= p[4] <= '9';
  }

  /** What a failed authentication call reports: `err.message`, empty when the error has none. */
  datatype CallOutcome = Succeeded | Failed(message: string)

  /** `err.message || fallback`. */
  function FailureText(message: string, fallback: string): (t: string)
    ensures t != "" <== fallback != ""
    ensures message != "" ==> t == message
    ensures message == "" ==> t == fallback
  {
    if message != "" then message else fallback
  }

  const SentMessage := "確認コードをメールアドレスに送信しました"
  const RegisterFailed := "アカウント登録に失敗しました"
  const CompletedMessage := "アカウント登録が完了しました。ログインしてください。"
  const ConfirmFailed := "確認コードの検証に失敗しました"

  /** A call the page made to the authentication context, with `loading` as it was during the call. */
  datatype AuthCall =
    | RegisterCall(email: string, password: string, loadingDuringCall: bool)
    | ConfirmCall(email: string, code: string, loadingDuringCall: bool)

  /** The Register component's state. */
  class RegisterPage {
    var email: string
    var password: string
    var confirmPassword: string
    var verificationCode: string
    var error: string
    var success: string
    var loading: bool
    var needsConfirmation: bool
    /** Whether the two-second redirect to /login has been scheduled. */
    var redirectScheduled: bool
    var calls: seq<AuthCall>

    /**
     * What the page keeps true between events: nothing is loading, every
     * account was requested with an acceptable password and while the
     * button was disabled, and the confirmation form is only shown after
     * an account was requested.
     */
    predicate Valid()
      reads this
    {
      && !loading
      && (forall c :: c in calls ==> c.loadingDuringCall)
      && (forall c :: c in calls && c.RegisterCall? ==> Acceptable(c.password, c.password))
      && (needsConfirmation ==> exists c :: c in calls && c.RegisterCall?)
      && (redirectScheduled ==> exists c :: c in calls && c.ConfirmCall?)
    }

    /** The initial render: every field empty, nothing loading, the sign-up form shown. */
    constructor ()
      ensures email == "" && password == "" && confirmPassword == "" && verificationCode == ""
      ensures error == "" && success == "" && !loading && !needsConfirmation && !redirectScheduled
      ensures calls == []
      ensures Valid()
    {
      email, password, confirmPassword, verificationCode := "", "", "", "";
      error, success := "", "";
      loading, needsConfirmation, redirectScheduled := false, false, false;
      calls := [];
    }

    /** The inputs' onChange handlers. */
    method SetEmail(value: string)
      modifies this
      ensures email == value
      ensures password == old(password) && confirmPassword == old(confirmPassword)
      ensures verificationCode == old(verificationCode) && error == old(error) && success == old(success)
      ensures loading == old(loading) && needsConfirmation == old(needsConfirmation)
      ensures redirectScheduled == old(redirectScheduled) && calls == old(calls)
      ensures old(Valid()) ==> Valid()
    {
      email := value;
    }

    method SetPassword(value: string)
      modifies this
      ensures password == value
      ensures email == old(email) && confirmPassword == old(confirmPassword)
      ensures verificationCode == old(verificationCode) && error == old(error) && success == old(success)
      ensures loading == old(loading) && needsConfirmation == old(needsConfirmation)
      ensures redirectScheduled == old(redirectScheduled) && calls == old(calls)
      ensures old(Valid()) ==> Valid()
    {
      password := value;
    }

    method SetConfirmPassword(value: string)
      modifies this
      ensures confirmPassword == value
      ensures email == old(email) && password == old(password)
      ensures verificationCode == old(verificationCode) && error == old(error) && success == old(success)
      ensures loading == old(loading) && needsConfirmation == old(needsConfirmation)
      ensures redirectScheduled == old(redirectScheduled) && calls == old(calls)
      ensures old(Valid()) ==> Valid()
    {
      confirmPassword := value;
    }

    method SetVerificationCode(value: string)
      modifies this
      ensures verificationCode == value
      ensures email == old(email) && password == old(password) && confirmPassword == old(confirmPassword)
      ensures error == old(error) && success == old(success)
      ensures loading == old(loading) && needsConfirmation == old(needsConfirmation)
      ensures redirectScheduled == old(redirectScheduled) && calls == old(calls)
      ensures old(Valid()) ==> Valid()
    {
      verificationCode := value;
    }

    /**
     * handleRegister: clears both messages; a broken rule is reported and
     * nothing else happens; otherwise `register` is called with `loading`
     * set, and its outcome either moves the page on to confirmation or is
     * reported. `loading` is cleared once the call has settled.
     */
    method HandleRegister(outcome: CallOutcome)
      modifies this
      ensures email == old(email) && password == old(password) && confirmPassword == old(confirmPassword)
      ensures verificationCode == old(verificationCode) && redirectScheduled == old(redirectScheduled)
      ensures var rule := BrokenRule(old(password), old(confirmPassword));
        && (rule.Some? ==>
             && error == RuleMessage(rule.value) && success == ""
             && loading == old(loading) && needsConfirmation == old(needsConfirmation) && calls == old(calls))
        && (rule.None? ==>
             && calls == old(calls) + [RegisterCall(old(email), old(password), true)]
             && !loading
             && (outcome.Succeeded? ==> error == "" && success == SentMessage && needsConfirmation)
             && (outcome.Failed? ==>
                  error == FailureText(outcome.message, RegisterFailed) && success == ""
                  && needsConfirmation == old(needsConfirmation)))
      ensures old(Valid()) ==> Valid()
    {
      error := "";
      success := "";
      var rule := BrokenRule(password, confirmPassword);
      if rule.Some? {
        error := RuleMessage(rule.value);
        return;
      }
      BrokenRuleOrder(password, confirmPassword);
      loading := true;
      calls := calls + [RegisterCall(email, password, loading)];
      assert calls[|calls| - 1] in calls;
      match outcome {
        case Succeeded =>
          success := SentMessage;
          needsConfirmation := true;
        case Failed(message) =>
          error := FailureText(message, RegisterFailed);
      }
      loading := false;
    }

    /**
     * handleConfirm: clears the error (not the success message), calls
     * `confirmRegistration` with `loading` set; success announces the
     * completed sign-up and schedules the redirect, failure is reported.
     */
    method HandleConfirm(outcome: CallOutcome)
      modifies this
      ensures email == old(email) && password == old(password) && confirmPassword == old(confirmPassword)
      ensures verificationCode == old(verificationCode) && needsConfirmation == old(needsConfirmation)
      ensures calls == old(calls) + [ConfirmCall(old(email), old(verificationCode), true)]
      ensures !loading
      ensures outcome.Succeeded? ==> error == "" && success == CompletedMessage && redirectScheduled
      ensures outcome.Failed? ==>
        && error == FailureText(outcome.message, ConfirmFailed)
        && success == old(success) && redirectScheduled == old(redirectScheduled)
      ensures old(Valid()) ==> Valid()
    {
      error := "";
      loading := true;
      calls := calls + [ConfirmCall(email, verificationCode, loading)];
      assert calls[|calls| - 1] in calls;
      match outcome {
        case Succeeded =>
          success := CompletedMessage;
          redirectScheduled := true;
        case Failed(message) =>
          error := FailureText(message, ConfirmFailed);
      }
      loading := false;
    }
  }
}
