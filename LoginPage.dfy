/**
 * The login/signup page's form state and its handlers up to the point where
 * it would call the authentication service. Each React state variable is a
 * field; each `set...` call assigns it; each effect that re-runs a
 * validator when its inputs change is folded into the handler that changes
 * those inputs.
 */
module LoginPage {
  import opened Wrappers
  import opened Strings
  import opened FormRules

  /** A message the authentication step (not modelled) may put in the e-mail field. */
  const EmailAlreadyRegistered := "⚠ Email already registered"

  const EmailMessages: set<string> :=
    {"", InvalidEmailFormat, LakeheadEmailRequired, InvalidEmailDomain, EmailAlreadyRegistered}
  const NicknameMessages: set<string> := {"", NicknameLengthError, NicknameCharsError, NicknameTakenError}
  const PasswordMessages: set<string> := {"", PasswordTooShort, PasswordsDoNotMatch}

  class Form {
    var showForm: bool
    var isSignUp: bool
    var email: string
    var password: string
    var confirmPassword: string
    var nickname: string
    var isPending: bool
    var error: string
    var emailError: string
    var passwordError: string
    var nicknameError: string
    var checkingNickname: bool

    /** Every error field holds one of the messages its validators write. */
    predicate Valid()
      reads this`emailError, this`nicknameError, this`passwordError
    {
      emailError in EmailMessages && nicknameError in NicknameMessages && passwordError in PasswordMessages
    }

    constructor ()
      ensures Valid()
      ensures !showForm && !isSignUp && !isPending && !checkingNickname
      ensures email == password == confirmPassword == nickname == ""
      ensures error == emailError == passwordError == nicknameError == ""
    {
      showForm := false;
      isSignUp := false;
      email := "";
      password := "";
      confirmPassword := "";
      nickname := "";
      isPending := false;
      error := "";
      emailError := "";
      passwordError := "";
      nicknameError := "";
      checkingNickname := false;
    }

    /** `validateEmail`: the format check first, then the domain rule of the current mode. */
    method ValidateEmail(value: string)
      modifies this`emailError
      ensures emailError == EmailError(value, isSignUp)
    {
      if value == "" {
        emailError := "";
        return;
      }
      if !IsEmailFormat(value) {
        emailError := InvalidEmailFormat;
        return;
      }
      if isSignUp {
        if !EndsWith(value, LakeheadSuffix) {
          emailError := LakeheadEmailRequired;
          return;
        }
      } else {
        if !EndsWith(value, LakeheadSuffix) && !EndsWith(value, GmailSuffix) {
          emailError := InvalidEmailDomain;
          return;
        }
      }
      emailError := "";
    }

    /**
     * `validateNicknameLocal`: the length rule before the character rule;
     * on empty or acceptable input only the two local messages are cleared.
     */
    method ValidateNicknameLocal(value: string) returns (ok: bool)
      modifies this`nicknameError
      ensures ok <==> NicknameLocallyValid(value)
      ensures nicknameError == NicknameErrorAfterLocal(old(nicknameError), value)
    {
      if value == "" {
        nicknameError := ClearLocalNicknameError(nicknameError);
        return false;
      }
      if Utf16Length(value) < MinNicknameLength || Utf16Length(value) > MaxNicknameLength {
        nicknameError := NicknameLengthError;
        return false;
      }
      if !MatchesNicknamePattern(value) {
        nicknameError := NicknameCharsError;
        return false;
      }
      nicknameError := ClearLocalNicknameError(nicknameError);
      return true;
    }

    /** `validatePassword`. */
    method ValidatePassword(value: string)
      modifies this`passwordError
      ensures passwordError == PasswordError(value)
    {
      if value == "" {
        passwordError := "";
        return;
      }
      if Utf16Length(value) < MinPasswordLength {
        passwordError := PasswordTooShort;
        return;
      }
      passwordError := "";
    }

    /** Typing in the e-mail field; the e-mail effect re-validates it. */
    method EditEmail(value: string)
      requires Valid()
      modifies this
      ensures Valid()
      ensures email == value && emailError == EmailError(value, isSignUp)
      ensures unchanged(this`showForm, this`isSignUp, this`password, this`confirmPassword, this`nickname)
      ensures unchanged(this`isPending, this`error, this`passwordError, this`nicknameError, this`checkingNickname)
    {
      email := value;
      ValidateEmail(email);
    }

    /**
     * Typing in the nickname field. In sign-up mode the local validator runs;
     * the duplicate-check effect then either schedules a query for the
     * returned lower-cased nickname or stops the "checking" indicator.
     */
    method EditNickname(value: string) returns (query: Option<string>)
      requires Valid()
      modifies this
      ensures Valid()
      ensures nickname == value
      ensures nicknameError == if isSignUp then NicknameErrorAfterLocal(old(nicknameError), value) else old(nicknameError)
      ensures query == DuplicateCheckQuery(isSignUp, value)
      ensures query.None? ==> !checkingNickname
      ensures query.Some? ==> checkingNickname == old(checkingNickname)
      ensures unchanged(this`showForm, this`isSignUp, this`email, this`password, this`confirmPassword)
      ensures unchanged(this`isPending, this`error, this`emailError, this`passwordError)
    {
      nickname := value;
      if isSignUp {
        var _ := ValidateNicknameLocal(nickname);
      }
      query := DuplicateCheckQuery(isSignUp, nickname);
      if query.None? {
        checkingNickname := false;
      }
    }

    /**
     * The debounce timer fires while the nickname that scheduled it is still
     * current: the "checking" indicator turns on and the lower-cased nickname
     * is sent.
     */
    method SendDuplicateQuery() returns (key: string)
      requires DuplicateCheckQuery(isSignUp, nickname).Some?
      modifies this`checkingNickname
      ensures checkingNickname
      ensures Some(key) == DuplicateCheckQuery(isSignUp, nickname)
    {
      checkingNickname := true;
      key := ToLower(nickname);
    }

    /** The duplicate query's answer: `taken` when a profile has that lower-cased nickname. */
    method ReceiveDuplicateAnswer(taken: bool)
      requires Valid()
      modifies this`nicknameError, this`checkingNickname
      ensures Valid()
      ensures nicknameError == NicknameErrorAfterRemote(old(nicknameError), taken)
      ensures !checkingNickname
    {
      if taken {
        nicknameError := NicknameTakenError;
      } else if nicknameError == NicknameTakenError {
        nicknameError := "";
      }
      checkingNickname := false;
    }

    /** Typing in the password field; the effect validates only in sign-up mode or for a non-empty value. */
    method EditPassword(value: string)
      requires Valid()
      modifies this
      ensures Valid()
      ensures password == value
      ensures passwordError == if isSignUp || value != "" then PasswordError(value) else old(passwordError)
      ensures unchanged(this`showForm, this`isSignUp, this`email, this`confirmPassword, this`nickname)
      ensures unchanged(this`isPending, this`error, this`emailError, this`nicknameError, this`checkingNickname)
    {
      password := value;
      if isSignUp || password != "" {
        ValidatePassword(password);
      }
    }

    /** Typing in the confirm field; no effect depends on it. */
    method EditConfirmPassword(value: string)
      modifies this`confirmPassword
      ensures confirmPassword == value
    {
      confirmPassword := value;
    }

    /** The validators `handleSubmit` runs again on the current inputs. */
    method Revalidate()
      requires Valid()
      modifies this`emailError, this`nicknameError, this`passwordError
      ensures Valid()
      ensures emailError == EmailError(email, isSignUp)
      ensures nicknameError == if isSignUp then NicknameErrorAfterLocal(old(nicknameError), nickname) else old(nicknameError)
      ensures passwordError == PasswordError(password)
    {
      ValidateEmail(email);
      if isSignUp {
        var _ := ValidateNicknameLocal(nickname);
      }
      ValidatePassword(password);
    }

    /**
     * `handleSubmit` up to the authentication call. The validators run
     * again, but the gate reads the error fields as they were before the
     * submit (the values set during the same event are not yet visible).
     * `proceed` is true exactly when the page goes on to authenticate.
     */
    method Submit() returns (proceed: bool)
      requires Valid()
      modifies this
      ensures Valid()
      ensures error == ""
      ensures emailError == EmailError(email, isSignUp)
      ensures nicknameError == if isSignUp then NicknameErrorAfterLocal(old(nicknameError), nickname) else old(nicknameError)
      ensures passwordError == if isSignUp && password != confirmPassword then PasswordsDoNotMatch else PasswordError(password)
      ensures proceed <==>
        !(isSignUp && password != confirmPassword) &&
        old(emailError) == "" && !(isSignUp && old(nicknameError) != "") && old(passwordError) == ""
      ensures isPending == (proceed || old(isPending))
      ensures unchanged(this`showForm, this`isSignUp, this`email, this`password, this`confirmPassword)
      ensures unchanged(this`nickname, this`checkingNickname)
    {
      var emailBefore, nicknameBefore, passwordBefore := emailError, nicknameError, passwordError;
      error := "";
      Revalidate();
      if isSignUp && password != confirmPassword {
        passwordError := PasswordsDoNotMatch;
        return false;
      }
      if emailBefore != "" || (isSignUp && nicknameBefore != "") || passwordBefore != "" {
        return false;
      }
      isPending := true;
      return true;
    }

    /**
     * `handleDotClick`: shows or hides the form; hiding it clears the four
     * inputs and the four error strings. The effects that follow see empty
     * inputs and leave the error fields empty; the duplicate-check effect,
     * re-run when the nickname was not already empty, turns the "checking"
     * indicator off.
     */
    method ClickDot()
      requires Valid()
      modifies this`showForm, this`email, this`password, this`confirmPassword, this`nickname
      modifies this`error, this`emailError, this`passwordError, this`nicknameError, this`checkingNickname
      ensures Valid()
      ensures showForm == !old(showForm)
      ensures old(showForm) ==> email == password == confirmPassword == nickname == ""
      ensures old(showForm) ==> error == emailError == passwordError == nicknameError == ""
      ensures old(showForm) && old(nickname) != "" ==> !checkingNickname
      ensures !(old(showForm) && old(nickname) != "") ==> checkingNickname == old(checkingNickname)
      ensures !old(showForm) ==> unchanged(this`email, this`password, this`confirmPassword, this`nickname)
      ensures !old(showForm) ==> unchanged(this`error, this`emailError, this`passwordError, this`nicknameError)
      ensures unchanged(this`isSignUp, this`isPending)
    {
      var wasShown := showForm;
      showForm := !showForm;
      if wasShown {
        if nickname != "" {
          checkingNickname := false;
        }
        email := "";
        password := "";
        confirmPassword := "";
        nickname := "";
        error := "";
        emailError := "";
        passwordError := "";
        nicknameError := "";
      }
    }

    /**
     * The CREATE/RETURN button: flips the mode and clears the errors and the
     * confirmation; the effects that depend on the mode then run on the
     * cleared fields. The e-mail is judged by the new mode's domain rule, and
     * the duplicate query the new state schedules (if any) is returned.
     */
    method ToggleMode() returns (query: Option<string>)
      requires Valid()
      modifies this`isSignUp, this`error, this`confirmPassword, this`checkingNickname
      modifies this`emailError, this`nicknameError, this`passwordError
      ensures Valid()
      ensures isSignUp == !old(isSignUp)
      ensures error == confirmPassword == ""
      ensures emailError == EmailError(email, isSignUp)
      ensures nicknameError == if isSignUp then NicknameErrorAfterLocal("", nickname) else ""
      ensures passwordError == if isSignUp || password != "" then PasswordError(password) else ""
      ensures query == DuplicateCheckQuery(isSignUp, nickname)
      ensures query.None? ==> !checkingNickname
      ensures query.Some? ==> checkingNickname == old(checkingNickname)
      ensures unchanged(this`showForm, this`email, this`password, this`nickname, this`isPending)
    {
      isSignUp := !isSignUp;
      error := "";
      confirmPassword := "";
      emailError, passwordError, nicknameError := "", "", "";
      assert Valid() by {
        assert "" in EmailMessages && "" in NicknameMessages && "" in PasswordMessages;
      }
      query := ModeEffects();
    }

    /**
     * The effects that depend on the mode, run after it changes: the e-mail
     * is re-validated under the new domain rule, and in sign-up mode the
     * nickname and password validators and the duplicate check run.
     */
    method ModeEffects() returns (query: Option<string>)
      requires Valid()
      modifies this`emailError, this`nicknameError, this`passwordError, this`checkingNickname
      ensures Valid()
      ensures emailError == EmailError(email, isSignUp)
      ensures nicknameError == if isSignUp then NicknameErrorAfterLocal(old(nicknameError), nickname) else old(nicknameError)
      ensures passwordError == if isSignUp || password != "" then PasswordError(password) else old(passwordError)
      ensures query == DuplicateCheckQuery(isSignUp, nickname)
      ensures query.None? ==> !checkingNickname
      ensures query.Some? ==> checkingNickname == old(checkingNickname)
    {
      ValidateEmail(email);
      if isSignUp {
        var _ := ValidateNicknameLocal(nickname);
      }
      query := DuplicateCheckQuery(isSignUp, nickname);
      if query.None? {
        checkingNickname := false;
      }
      if isSignUp || password != "" {
        ValidatePassword(password);
      }
    }
  }

  /**
   * A Gmail address typed at login no longer passes once the page is switched
   * to sign-up: the e-mail is re-validated by the toggle, so the submit stops.
   */
  method SignUpNeedsLakeheadAfterToggle() returns (proceed: bool)
    ensures !proceed
  {
    var form := new Form();
    form.EditEmail("x@gmail.com");
    form.EditPassword("abcdef");
    var _ := form.ToggleMode();
    var _ := form.EditNickname("ab");
    form.EditConfirmPassword("abcdef");
    proceed := form.Submit();
  }
}
