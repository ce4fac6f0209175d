/** The sign-up / sign-in dialog (src/components/AuthModal.js): ordered
    registration checks, a mock registration that stores the user and logs
    them in, a mock login that checks only for empty fields, and the tab and
    role switches. */
module AuthModal {
  import opened Common
  import opened Storage

  datatype Tab = RegisterTab | LoginTab

  datatype RegisterForm = RegisterForm(name: string, password: string, confirmPassword: string,
                                       gender: string, userRole: string, studentClass: string)

  datatype LoginForm = LoginForm(name: string, password: string)

  const EmptyRegisterForm: RegisterForm := RegisterForm("", "", "", "", "", "")
  const EmptyLoginForm: LoginForm := LoginForm("", "")

  const MinPasswordLength: nat := 6

  datatype RegError = MissingFields | MissingClass | PasswordTooShort | PasswordMismatch

  function ErrorMessage(e: RegError): string {
    match e
    case MissingFields => "Будь ласка, заповніть усі поля"
    case MissingClass => "Будь ласка, обери свій клас"
    case PasswordTooShort => "Пароль повинен містити мінімум 6 символів"
    case PasswordMismatch => "Паролі не співпадають"
  }

  const RegisterSuccess: string := "Реєстрація успішна! Ласкаво просимо."
  const LoginSuccess: string := "Вхід успішний! Ласкаво просимо."

  predicate AllFilled(f: RegisterForm) {
    f.name != "" && f.password != "" && f.confirmPassword != "" && f.gender != "" && f.userRole != ""
  }

  /** The checks of `handleRegister`, in order; the first that fails gives
      the error. */
  function ValidateRegistration(f: RegisterForm): (r: Option<RegError>)
    ensures r == Some(MissingFields) <==> !AllFilled(f)
    ensures r == Some(MissingClass) <==> AllFilled(f) && f.userRole == "student" && f.studentClass == ""
    ensures r == Some(PasswordTooShort) <==>
              AllFilled(f) && !(f.userRole == "student" && f.studentClass == "") && |f.password| < MinPasswordLength
    ensures r.None? <==>
              AllFilled(f) && (f.userRole == "student" ==> f.studentClass != "")
              && |f.password| >= MinPasswordLength && f.password == f.confirmPassword
  {
    if !AllFilled(f) then Some(MissingFields)
    else if f.userRole == "student" && f.studentClass == "" then Some(MissingClass)
    else if |f.password| < MinPasswordLength then Some(PasswordTooShort)
    else if f.password != f.confirmPassword then Some(PasswordMismatch)
    else None
  }

  /** `Math.floor(Math.random() * 10) + 1` for a draw in [0, 1). */
  function AvatarNumber(draw: real): (n: int)
    requires 0.0 <= draw < 1.0
    ensures 1 <= n <= 10
    ensures (n - 1) as real <= draw * 10.0 < n as real
  {
    (draw * 10.0).Floor + 1
  }

  /** The stored user record; the class is kept only for students. */
  function UserRecord(f: RegisterForm, avatar: int, registeredAt: string): (r: map<string, Field>)
    ensures r.Keys == {"name", "gender", "userRole", "studentClass", "avatarNumber", "registeredAt"}
    ensures r["studentClass"] == (if f.userRole == "student" then Str(f.studentClass) else Null)
    ensures r["name"] == Str(f.name) && r["avatarNumber"] == Num(avatar)
  {
    map["name" := Str(f.name), "gender" := Str(f.gender), "userRole" := Str(f.userRole),
        "studentClass" := (if f.userRole == "student" then Str(f.studentClass) else Null),
        "avatarNumber" := Num(avatar), "registeredAt" := Str(registeredAt)]
  }

  /** A stored value as `if (storedUser)` sees it: the empty string is
      falsy. */
  predicate IsTruthy(v: Value) {
    v.Record? || v.text != ""
  }

  class AuthDialog {
    const storage: LocalStorage
    var activeTab: Tab
    var registerForm: RegisterForm
    var loginForm: LoginForm
    var error: string
    var success: string
    var loading: bool

    /** Nothing is pending between handlers. */
    ghost predicate Valid()
      reads this
    {
      !loading
    }

    constructor (storage: LocalStorage)
      ensures Valid() && this.storage == storage
      ensures activeTab == RegisterTab && registerForm == EmptyRegisterForm && loginForm == EmptyLoginForm
      ensures error == "" && success == ""
    {
      this.storage := storage;
      activeTab := RegisterTab;
      registerForm := EmptyRegisterForm;
      loginForm := EmptyLoginForm;
      error := "";
      success := "";
      loading := false;
    }

    /** `handleRegister`; `draw` is `Math.random()` and `now` the ISO time
        of the call. On failure only the error changes; on success the same
        record is stored as the registered and the current user, the user
        is marked logged in, the form is cleared and the dialog's closing is
        scheduled. */
    method Register(draw: real, now: string) returns (closeScheduled: bool)
      requires Valid() && 0.0 <= draw < 1.0
      modifies this, storage
      ensures Valid()
      ensures activeTab == old(activeTab) && loginForm == old(loginForm)
      ensures closeScheduled <==> ValidateRegistration(old(registerForm)).None?
      ensures !closeScheduled ==>
                && error == ErrorMessage(ValidateRegistration(old(registerForm)).value) && success == ""
                && registerForm == old(registerForm) && storage.items == old(storage.items)
      ensures closeScheduled ==>
                var user := Record(UserRecord(old(registerForm), AvatarNumber(draw), now));
                && storage.items == old(storage.items)["registeredUser" := user]["isLoggedIn" := Text("true")]["currentUser" := user]
                && storage.items["registeredUser"] == storage.items["currentUser"]
                && error == "" && success == RegisterSuccess && registerForm == EmptyRegisterForm
    {
      error := "";
      success := "";
      var check := ValidateRegistration(registerForm);
      if check.Some? {
        error := ErrorMessage(check.value);
        return false;
      }
      loading := true;
      var user := Record(UserRecord(registerForm, AvatarNumber(draw), now));
      storage.SetItem("registeredUser", user);
      storage.SetItem("isLoggedIn", Text("true"));
      storage.SetItem("currentUser", user);
      success := RegisterSuccess;
      registerForm := EmptyRegisterForm;
      loading := false;
      closeScheduled := true;
    }

    /** `handleLogin`: only empty fields are refused; the password is never
        compared. A stored registered user becomes the current user. */
    method Login() returns (closeScheduled: bool)
      requires Valid()
      modifies this, storage
      ensures Valid()
      ensures activeTab == old(activeTab) && registerForm == old(registerForm)
      ensures closeScheduled <==> old(loginForm).name != "" && old(loginForm).password != ""
      ensures !closeScheduled ==>
                && error == ErrorMessage(MissingFields) && success == ""
                && loginForm == old(loginForm) && storage.items == old(storage.items)
      ensures closeScheduled ==>
                && error == "" && success == LoginSuccess && loginForm == EmptyLoginForm
                && (if "registeredUser" in old(storage.items) && IsTruthy(old(storage.items)["registeredUser"])
                    then storage.items == old(storage.items)["isLoggedIn" := Text("true")]
                                                            ["currentUser" := old(storage.items)["registeredUser"]]
                    else storage.items == old(storage.items))
    {
      error := "";
      success := "";
      if loginForm.name == "" || loginForm.password == "" {
        error := ErrorMessage(MissingFields);
        return false;
      }
      loading := true;
      var stored := storage.GetItem("registeredUser");
      if stored.Some? && IsTruthy(stored.value) {
        storage.SetItem("isLoggedIn", Text("true"));
        storage.SetItem("currentUser", stored.value);
      }
      success := LoginSuccess;
      loginForm := EmptyLoginForm;
      loading := false;
      closeScheduled := true;
    }

    /** A role button: the role is chosen and the class choice cleared. */
    method SelectRole(role: string)
      requires Valid()
      modifies this
      ensures Valid()
      ensures registerForm == old(registerForm).(userRole := role, studentClass := "")
      ensures activeTab == old(activeTab) && loginForm == old(loginForm)
      ensures error == old(error) && success == old(success)
    {
      registerForm := registerForm.(userRole := role, studentClass := "");
    }

    /** Either tab button, or either "switch to" link: both messages are
        cleared, the forms are kept. */
    method SwitchTab(tab: Tab)
      requires Valid()
      modifies this
      ensures Valid()
      ensures activeTab == tab && error == "" && success == ""
      ensures registerForm == old(registerForm) && loginForm == old(loginForm)
    {
      activeTab := tab;
      error := "";
      success := "";
    }
  }
}
