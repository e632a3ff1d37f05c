/** The sign-in and sign-up checks of the auth page (pages/auth/index.jsx). */
module Auth {
  import opened Wrappers
  import opened Js

  /** `form.key !== ""`: a missing key (`undefined`) and any non-string value pass. */
  predicate NotBlank(form: Form, key: string) {
    Get(form, key) != Str("")
  }

  /**
   * `checkIfSignInFormIsValid` (38-44): a form whose two fields hold strings is valid exactly when
   * both strings are non-empty; a missing field passes.
   */
  predicate SignInValid(form: Option<Form>)
    ensures form.None? ==> !SignInValid(form)
    ensures form.Some? ==>
      var email, password := Get(form.value, "userEmail"), Get(form.value, "password");
      email.Str? && password.Str? ==> (SignInValid(form) <==> email.s != "" && password.s != "")
    ensures form.Some? && "userEmail" !in form.value && "password" !in form.value ==> SignInValid(form)
  {
    form.Some? && NotBlank(form.value, "userEmail") && NotBlank(form.value, "password")
  }

  /**
   * `checkIfSignUpFormIsValid` (46-53): the same test over the user name as well; a valid sign-up
   * form is a valid sign-in form.
   */
  predicate SignUpValid(form: Option<Form>)
    ensures form.None? ==> !SignUpValid(form)
    ensures form.Some? ==>
      var name, email, password := Get(form.value, "userName"), Get(form.value, "userEmail"), Get(form.value, "password");
      name.Str? && email.Str? && password.Str? ==> (SignUpValid(form) <==> name.s != "" && email.s != "" && password.s != "")
    ensures SignUpValid(form) ==> SignInValid(form)
  {
    form.Some? && NotBlank(form.value, "userName") && NotBlank(form.value, "userEmail") && NotBlank(form.value, "password")
  }

  datatype AuthTab = SignInTab | SignUpTab

  /**
   * `isButtonDisabled` of the form on each tab (162, 189): disabled when there is no form or one
   * of that tab's required fields is exactly "".
   */
  function IsButtonDisabled(tab: AuthTab, signIn: Option<Form>, signUp: Option<Form>): (d: bool)
    ensures tab == SignInTab ==> (d <==>
      signIn.None? || Get(signIn.value, "userEmail") == Str("") || Get(signIn.value, "password") == Str(""))
    ensures tab == SignUpTab ==> (d <==>
      signUp.None? || Get(signUp.value, "userName") == Str("") || Get(signUp.value, "userEmail") == Str("") ||
      Get(signUp.value, "password") == Str(""))
  {
    match tab
    case SignInTab => !SignInValid(signIn)
    case SignUpTab => !SignUpValid(signUp)
  }

  /** Stated on strings: present forms are valid exactly when the named fields are non-empty. */
  lemma ValidOnStrings(name: string, email: string, password: string)
    ensures SignInValid(Some(map["userEmail" := Str(email), "password" := Str(password)])) <==>
      email != "" && password != ""
    ensures SignUpValid(Some(map["userName" := Str(name), "userEmail" := Str(email), "password" := Str(password)])) <==>
      name != "" && email != "" && password != ""
    ensures !SignInValid(None) && !SignUpValid(None)
  {
  }

  /** A form that would sign up would also sign in. */
  lemma SignUpImpliesSignIn(form: Option<Form>)
    ensures SignUpValid(form) ==> SignInValid(form)
  {
  }

  /** Any other field is ignored. */
  lemma OtherFieldsIgnored(form: Form, key: string, v: Value)
    requires key != "userName" && key != "userEmail" && key != "password"
    ensures SignInValid(Some(form[key := v])) == SignInValid(Some(form))
    ensures SignUpValid(Some(form[key := v])) == SignUpValid(Some(form))
  {
  }

  /** There is no format check, and the comparison is with "" only: an object lacking the fields passes. */
  lemma NoFormatCheck()
    ensures SignInValid(Some(map["userEmail" := Str("x"), "password" := Str(" ")]))
    ensures SignInValid(Some(map[])) && SignUpValid(Some(map[]))
  {
  }
}
