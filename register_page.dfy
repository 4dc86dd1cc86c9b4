/** The registration form (src/app/register/page.tsx): seven inputs, a
    password check on submit, and a request carrying six of them. */
module RegisterPage {
  import opened Common
  import Auth
  import ApiRegister

  datatype RegisterForm = RegisterForm(
    nombre: string, apellido: string, email: string, celular: string,
    sector: string, password: string, confirmPassword: string)

  const EmptyForm := RegisterForm("", "", "", "", "", "", "")

  datatype Field = Nombre | Apellido | Email | Celular | Sector | Password | ConfirmPassword

  /** handleChange: `[name]: value` replaces the named input only. */
  function HandleChange(f: RegisterForm, name: Field, value: string): (r: RegisterForm)
    ensures name == Nombre ==> r == f.(nombre := value)
    ensures name == Apellido ==> r == f.(apellido := value)
    ensures name == Email ==> r == f.(email := value)
    ensures name == Celular ==> r == f.(celular := value)
    ensures name == Sector ==> r == f.(sector := value)
    ensures name == Password ==> r == f.(password := value)
    ensures name == ConfirmPassword ==> r == f.(confirmPassword := value)
  {
    match name
    case Nombre => f.(nombre := value)
    case Apellido => f.(apellido := value)
    case Email => f.(email := value)
    case Celular => f.(celular := value)
    case Sector => f.(sector := value)
    case Password => f.(password := value)
    case ConfirmPassword => f.(confirmPassword := value)
  }

  const MismatchMessage := "Las contraseñas no coinciden"
  const TooShortMessage := "La contraseña debe tener al menos 6 caracteres"
  const MinPasswordLength: nat := 6

  /** The JSON the form posts: the six fields, nothing else. */
  function RequestBody(f: RegisterForm): (b: ApiRegister.RegisterBody)
    ensures b.rol.None? && b.aprobado.None?
    ensures b.nombre == Some(f.nombre) && b.apellido == Some(f.apellido)
    ensures b.email == Some(f.email) && b.celular == Some(f.celular)
    ensures b.sector == Some(f.sector) && b.password == Some(f.password)
  {
    ApiRegister.RegisterBody(Some(f.nombre), Some(f.apellido), Some(f.email), Some(f.celular),
                             Some(f.sector), Some(f.password), None, None)
  }

  datatype Submit = Refused(error: string) | Sent(body: ApiRegister.RegisterBody)

  /** handleSubmit: the passwords must agree first, then be six characters
      long; only then is the request built. */
  function HandleSubmit(f: RegisterForm): (r: Submit)
    ensures r.Sent? <==> f.password == f.confirmPassword && |f.password| >= MinPasswordLength
    ensures f.password != f.confirmPassword ==> r == Refused(MismatchMessage)
    ensures r == Refused(TooShortMessage) ==> f.password == f.confirmPassword
    ensures r.Sent? ==> r.body == RequestBody(f)
  {
    if f.password != f.confirmPassword then Refused(MismatchMessage)
    else if |f.password| < MinPasswordLength then Refused(TooShortMessage)
    else Sent(RequestBody(f))
  }

  /** The endpoint forwards exactly the form's six fields when all are
      filled in, and answers 400 otherwise; the confirmation never leaves
      the browser, and no role or approval is ever sent. */
  lemma RequestReachesRegister(f: RegisterForm)
    requires HandleSubmit(f).Sent?
    ensures var b := HandleSubmit(f).body;
            && b.rol.None? && b.aprobado.None?
            && (ApiRegister.Whitelist(b).Some? <==>
                  f.nombre != "" && f.apellido != "" && f.email != "" && f.celular != "" && f.sector != "")
            && (ApiRegister.Whitelist(b).Some? ==>
                  ApiRegister.Whitelist(b).value == Auth.RegisterData(f.nombre, f.apellido, f.email, f.celular, f.sector, f.password))
  {
  }

  const ConnectionErrorMessage := "Error de conexión. Intenta nuevamente."
  const LoginPath := "/login"

  /** The banner after the answer: the server's message as success (and a
      later move to the login page) or as error; a failed fetch shows the
      connection notice. */
  datatype Banner = Banner(success: string, error: string, redirect: Option<string>)

  function React(answer: Option<Auth.Outcome>): (r: Banner)
    ensures answer.Some? && answer.value.success ==> r == Banner(answer.value.message, "", Some(LoginPath))
    ensures answer.Some? && !answer.value.success ==> r == Banner("", answer.value.message, None)
    ensures answer.None? ==> r == Banner("", ConnectionErrorMessage, None)
  {
    match answer
    case None => Banner("", ConnectionErrorMessage, None)
    case Some(o) => if o.success then Banner(o.message, "", Some(LoginPath)) else Banner("", o.message, None)
  }
}
