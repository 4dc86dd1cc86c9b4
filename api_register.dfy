/** The registration endpoint (src/app/api/auth/register/route.ts): checks
    the six fields, forwards only those to `register` and returns its
    answer as is. */
module ApiRegister {
  import opened Common
  import opened Store
  import opened Auth

  /** The JSON body. Besides the six fields a client may send other keys,
      such as a role or an approval flag; the handler never reads them. */
  datatype RegisterBody = RegisterBody(
    nombre: Option<string>, apellido: Option<string>, email: Option<string>,
    celular: Option<string>, sector: Option<string>, password: Option<string>,
    rol: Option<string>, aprobado: Option<bool>)

  const MissingFieldsMessage := "Todos los campos son requeridos"

  predicate Truthy(s: Option<string>) {
    s.Some? && s.value != ""
  }

  predicate Complete(b: RegisterBody) {
    Truthy(b.nombre) && Truthy(b.apellido) && Truthy(b.email) &&
    Truthy(b.celular) && Truthy(b.sector) && Truthy(b.password)
  }

  /** The six named fields of a complete body; None as soon as one is
      missing or empty. */
  function Whitelist(b: RegisterBody): (r: Option<RegisterData>)
    ensures r.Some? <==> Complete(b)
    ensures r.Some? ==> Some(r.value.nombre) == b.nombre && Some(r.value.apellido) == b.apellido
    ensures r.Some? ==> Some(r.value.email) == b.email && Some(r.value.celular) == b.celular
    ensures r.Some? ==> Some(r.value.sector) == b.sector && Some(r.value.password) == b.password
    ensures r.Some? ==> r.value.nombre != "" && r.value.sector != ""
  {
    if Complete(b) then
      Some(RegisterData(b.nombre.value, b.apellido.value, b.email.value, b.celular.value, b.sector.value, b.password.value))
    else None
  }

  /** Whatever role or approval a client sends, the same data is forwarded. */
  lemma ExtraKeysIgnored(b: RegisterBody, rol: Option<string>, aprobado: Option<bool>)
    ensures Whitelist(b.(rol := rol, aprobado := aprobado)) == Whitelist(b)
  {
  }

  /** So a self-registered account is always an unapproved colaborador. */
  lemma SelfRegistrationNeverAdmin(b: RegisterBody, hash: string -> string)
    requires Whitelist(b).Some?
    ensures RegistrationDraft(Whitelist(b).value, hash).rol == Colaborador
    ensures !RegistrationDraft(Whitelist(b).value, hash).aprobado
  {
  }

  datatype RegisterReply = RegisterReply(status: int, body: Outcome)

  /** POST: an unreadable body gets 500, an incomplete one 400 without
      calling `register` (nothing is written); otherwise `register`'s answer
      is returned with status 200, a taken email included. */
  method Post(db: Database, body: Option<RegisterBody>, hash: string -> string, st: Stamp) returns (r: RegisterReply)
    modifies db
    ensures body.None? ==> r == RegisterReply(500, Outcome(false, InternalError)) && unchanged(db)
    ensures body.Some? && Whitelist(body.value).None? ==>
              r == RegisterReply(400, Outcome(false, MissingFieldsMessage)) && unchanged(db)
    ensures body.Some? && Whitelist(body.value).Some? ==>
              var d := Whitelist(body.value).value;
              && r.status == 200
              && (r.body.success <==> !EmailTaken(old(db.Users()), d.email))
              && (r.body.success ==> db.Snapshot() == old(db.Snapshot()).(users := old(db.Users()) + [NewUser(RegistrationDraft(d, hash), st)]))
              && (!r.body.success ==> r.body.message == EmailTakenMessage && db.Snapshot() == old(db.Snapshot()))
  {
    if body.None? {
      return RegisterReply(500, Outcome(false, InternalError));
    }
    var data := Whitelist(body.value);
    if data.None? {
      return RegisterReply(400, Outcome(false, MissingFieldsMessage));
    }
    var result := Register(db, data.value, hash, st);
    r := RegisterReply(200, result);
  }
}
