/** The handlers taken together: requests served one after another against
    one store, and the properties that relate several handlers or hold of
    every one of them. */
module Lifecycle {
  import opened Http
  import opened UserStore
  import opened UserController

  /** A request to one of the six handlers, with the outside answers it will
      meet. Doctor creation comes twice: served by the corrected handler
      (`NewDoctor`) and by the handler as the code is written
      (`NewDoctorAsWritten`). */
  datatype Request =
    | Register(form: Form)
    | SignIn(login: LoginRequest)
    | NewAdmin(form: Form)
    | NewDoctor(doctor: DoctorRequest, upload: UploadOutcome)
    | NewDoctorAsWritten(doctor: DoctorRequest, upload: UploadOutcome)
    | ListDoctors
    | RemoveDoctor(id: Id, destroy: DestroyOutcome)

  /** `matches` is the password comparison every login uses. */
  function Dispatch(store: Users, req: Request, matches: (string, string) -> bool): Reply {
    match req
    case Register(form) => PatientRegister(store, form)
    case SignIn(login) => Login(store, login, matches)
    case NewAdmin(form) => AddNewAdmin(store, form)
    case NewDoctor(doctor, upload) => AddNewDoctor(store, doctor, upload)
    case NewDoctorAsWritten(doctor, upload) => AddNewDoctorAsWritten(store, doctor, upload)
    case ListDoctors => GetAllDoctors(store)
    case RemoveDoctor(id, destroy) => DeleteDoctor(store, id, destroy)
  }

  /** The store after serving `reqs` in order. */
  function Run(store: Users, reqs: seq<Request>, matches: (string, string) -> bool): Users
    decreases |reqs|
  {
    if reqs == [] then store
    else Run(Dispatch(store, reqs[0], matches).store, reqs[1..], matches)
  }

  // ------------------------------------------------------ email uniqueness

  lemma AddingUnusedEmailKeepsDistinct(before: Users, after: Users, id: Id)
    requires EmailsDistinct(before)
    requires AddedOne(before, after, id)
    requires !EmailTaken(before, after[id].email)
    ensures EmailsDistinct(after)
  {
    forall i, j | i in after && j in after && after[i].email == after[j].email
      ensures i == j
    {
      if i != id && j != id {
        assert before[i].email == before[j].email;
      }
    }
  }

  lemma RemovingKeepsDistinct(before: Users, after: Users, id: Id)
    requires EmailsDistinct(before)
    requires RemovedOne(before, after, id)
    ensures EmailsDistinct(after)
  {
    forall i, j | i in after && j in after && after[i].email == after[j].email
      ensures i == j
    {
      assert before[i].email == before[j].email;
    }
  }

  /** No handler can make two records share an email. */
  lemma DispatchPreservesEmailsDistinct(store: Users, req: Request, matches: (string, string) -> bool)
    requires EmailsDistinct(store)
    ensures EmailsDistinct(Dispatch(store, req, matches).store)
  {
    var r := Dispatch(store, req, matches);
    match req
    case Register(form) =>
      if r.outcome.Ok? {
        AddingUnusedEmailKeepsDistinct(store, r.store, r.outcome.payload.user);
      }
    case NewAdmin(form) =>
      if r.outcome.Ok? {
        AddingUnusedEmailKeepsDistinct(store, r.store, r.outcome.payload.id);
      }
    case NewDoctor(doctor, upload) =>
      if r.outcome.Ok? {
        AddingUnusedEmailKeepsDistinct(store, r.store, r.outcome.payload.id);
      }
    case NewDoctorAsWritten(doctor, upload) =>
      // A success of the written handler is a success of the corrected one.
      if r.outcome.Ok? {
        AddingUnusedEmailKeepsDistinct(store, r.store, r.outcome.payload.id);
      }
    case RemoveDoctor(id, destroy) =>
      if r.outcome.Ok? {
        RemovingKeepsDistinct(store, r.store, id);
      }
    case SignIn(_) =>
    case ListDoctors =>
  }

  /** Served one after another, the handlers keep emails distinct. */
  lemma {:induction false} RunPreservesEmailsDistinct(store: Users, reqs: seq<Request>, matches: (string, string) -> bool)
    requires EmailsDistinct(store)
    ensures EmailsDistinct(Run(store, reqs, matches))
    decreases |reqs|
  {
    if reqs != [] {
      DispatchPreservesEmailsDistinct(store, reqs[0], matches);
      RunPreservesEmailsDistinct(Dispatch(store, reqs[0], matches).store, reqs[1..], matches);
    }
  }

  /** A request that creates a record. */
  predicate IsCreate(req: Request) {
    req.Register? || req.NewAdmin? || req.NewDoctor? || req.NewDoctorAsWritten?
  }

  /** The personal fields of a creating request. */
  function CreateForm(req: Request): Form
    requires IsCreate(req)
  {
    match req
    case Register(form) => form
    case NewAdmin(form) => form
    case NewDoctor(doctor, _) => doctor.form
    case NewDoctorAsWritten(doctor, _) => doctor.form
  }

  /** Once any create has succeeded, a second create with the same email,
      through any of the create handlers, fails and changes nothing. */
  lemma SecondCreateWithSameEmailFails(store: Users, first: Request, second: Request, matches: (string, string) -> bool)
    requires IsCreate(first) && IsCreate(second)
    requires CreateForm(first).email == CreateForm(second).email
    requires Dispatch(store, first, matches).outcome.Ok?
    ensures var s := Dispatch(store, first, matches).store;
            && !Dispatch(s, second, matches).outcome.Ok?
            && Dispatch(s, second, matches).store == s
  {
    var r := Dispatch(store, first, matches);
    var id := if first.Register? then r.outcome.payload.user else r.outcome.payload.id;
    assert id in r.store && r.store[id].email == CreateForm(first).email.value;
    assert EmailTaken(r.store, CreateForm(second).email.value);
  }

  // ------------------------------------------------------- record stability

  /** A record is never rewritten: a handler adds a record, removes one, or
      neither, and every record present before and after is unchanged. */
  lemma DispatchNeverRewrites(store: Users, req: Request, matches: (string, string) -> bool)
    ensures var after := Dispatch(store, req, matches).store;
            forall id :: id in store && id in after ==> after[id] == store[id]
  {
  }

  // ------------------------------------------------------------------ login

  /** The confirmation check is decided before the store is consulted: its
      answer is the same whatever the store and whatever the passwords stored. */
  lemma LoginMismatchDecidedBeforeLookup(
    s1: Users, s2: Users, req: LoginRequest, m1: (string, string) -> bool, m2: (string, string) -> bool)
    requires LoginFilled(req) && req.password.value != req.confirmPassword.value
    ensures Login(s1, req, m1).outcome == Login(s2, req, m2).outcome == Fail(PasswordMismatch, Bad)
  {
  }

  /** With distinct emails the checks after the confirmation check come in a
      fixed order: unknown email, then wrong password (both with the same
      message), then the role. */
  lemma LoginErrorOrder(store: Users, req: LoginRequest, matches: (string, string) -> bool, id: Id)
    requires EmailsDistinct(store)
    requires LoginFilled(req) && req.password.value == req.confirmPassword.value
    requires id in store && store[id].email == req.email.value
    ensures !matches(store[id].password, req.password.value) ==>
              Login(store, req, matches).outcome == Fail(InvalidCredentials, Bad)
    ensures matches(store[id].password, req.password.value) && RoleName(store[id].role) != req.role.value ==>
              Login(store, req, matches).outcome == Fail(RoleNotFound, Bad)
    ensures matches(store[id].password, req.password.value) && RoleName(store[id].role) == req.role.value ==>
              Login(store, req, matches).outcome == Ok(Session(id, LoggedIn))
  {
  }

  /** An unknown email and a wrong password cannot be told apart by the reply. */
  lemma LoginHidesWhichCredentialFailed(
    unknown: Users, known: Users, req: LoginRequest, matches: (string, string) -> bool, id: Id)
    requires LoginFilled(req) && req.password.value == req.confirmPassword.value
    requires !EmailTaken(unknown, req.email.value)
    requires EmailsDistinct(known)
    requires id in known && known[id].email == req.email.value
    requires !matches(known[id].password, req.password.value)
    ensures Login(unknown, req, matches).outcome == Login(known, req, matches).outcome
  {
  }

  /** A registered patient can log in as a patient with the password they
      registered, and is refused the Admin role with the role error. */
  lemma RegisterThenLogin(store: Users, form: Form, matches: (string, string) -> bool)
    requires EmailsDistinct(store)
    requires PatientRegister(store, form).outcome.Ok?
    requires matches(form.password.value, form.password.value)
    ensures var r := PatientRegister(store, form);
            var req := LoginRequest(form.email, form.password, form.password, Some("Patient"));
            Login(r.store, req, matches).outcome == Ok(Session(r.outcome.payload.user, LoggedIn))
    ensures var r := PatientRegister(store, form);
            var req := LoginRequest(form.email, form.password, form.password, Some("Admin"));
            Login(r.store, req, matches).outcome == Fail(RoleNotFound, Bad)
  {
    var r := PatientRegister(store, form);
    AddingUnusedEmailKeepsDistinct(store, r.store, r.outcome.payload.user);
    LoginErrorOrder(r.store, LoginRequest(form.email, form.password, form.password, Some("Patient")),
                    matches, r.outcome.payload.user);
    LoginErrorOrder(r.store, LoginRequest(form.email, form.password, form.password, Some("Admin")),
                    matches, r.outcome.payload.user);
  }

  // ----------------------------------------------------------------- doctors

  /** Whether the picture's release succeeds or throws makes no difference to
      the reply, the store or the calls made. The handler catches and logs the
      release error and goes on, and logging is not modelled, so `DeleteDoctor`
      never reads its `destroy` argument; this lemma records that fact. */
  lemma DeleteIgnoresDestroyOutcome(store: Users, id: Id)
    ensures DeleteDoctor(store, id, Destroyed) == DeleteDoctor(store, id, DestroyThrows)
  {
  }

  /** After a doctor is deleted, a second deletion finds nothing and the
      listing no longer shows the doctor; every other doctor is still listed. */
  lemma DeleteThenGone(store: Users, id: Id, d1: DestroyOutcome, d2: DestroyOutcome)
    requires DeleteDoctor(store, id, d1).outcome.Ok?
    ensures var s := DeleteDoctor(store, id, d1).store;
            && DeleteDoctor(s, id, d2) == Reject(s, DoctorNotFound, Code(404))
            && id !in GetAllDoctors(s).outcome.payload.doctors
            && forall k :: k in GetAllDoctors(store).outcome.payload.doctors && k != id ==>
                 k in GetAllDoctors(s).outcome.payload.doctors
  {
  }

  /** A created doctor is listed, with the picture the upload returned. */
  lemma CreatedDoctorIsListed(store: Users, req: DoctorRequest, upload: UploadOutcome)
    requires AddNewDoctor(store, req, upload).outcome.Ok?
    ensures var r := AddNewDoctor(store, req, upload);
            var listed := GetAllDoctors(r.store).outcome.payload.doctors;
            && r.outcome.payload.id in listed
            && listed[r.outcome.payload.id].docAvatar == Some(Avatar(upload.publicId, upload.secureUrl))
  {
  }
}
