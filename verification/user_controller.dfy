/** The account and doctor-record handlers of the user controller, each a pure
    function from the store and the request to a reply and the next store.
    The password check, the image upload and the image deletion are outside
    collaborators; their answers are parameters. */
module UserController {
  import opened Http
  import opened UserStore

  // ---------------------------------------------------------------- requests

  /** The eight personal fields of the registration-style forms. */
  datatype Form = Form(
    firstName: Field,
    lastName: Field,
    email: Field,
    phone: Field,
    password: Field,
    gender: Field,
    dob: Field,
    adharNo: Field)

  /** Every one of the eight fields is truthy. */
  predicate FormFilled(form: Form) {
    && Filled(form.firstName)
    && Filled(form.lastName)
    && Filled(form.email)
    && Filled(form.phone)
    && Filled(form.password)
    && Filled(form.gender)
    && Filled(form.dob)
    && Filled(form.adharNo)
  }

  datatype LoginRequest = LoginRequest(email: Field, password: Field, confirmPassword: Field, role: Field)

  predicate LoginFilled(req: LoginRequest) {
    Filled(req.email) && Filled(req.password) && Filled(req.confirmPassword) && Filled(req.role)
  }

  /** One uploaded file, as the upload middleware describes it. */
  datatype UploadedFile = UploadedFile(mimetype: string)

  /** A doctor-creation request: the uploaded files keyed by form field name,
      the personal fields and the department. */
  datatype DoctorRequest = DoctorRequest(files: map<string, UploadedFile>, form: Form, doctorDepartment: Field)

  /** What the image host answers to an upload: a response with the new
      image's id and secure URL, a response carrying an error, or no response. */
  datatype UploadOutcome = Uploaded(publicId: string, secureUrl: string) | UploadError | UploadNull

  /** What the image host does on a deletion; the handler ignores it. */
  datatype DestroyOutcome = Destroyed | DestroyThrows

  /** A call a handler makes into the image host. */
  datatype BlobCall = Upload | Destroy(publicId: string)

  // ----------------------------------------------------------------- replies

  datatype Payload =
    | Session(user: Id, message: string)          // token issued for `user`
    | AdminCreated(message: string, id: Id, admin: User)
    | DoctorCreated(message: string, id: Id, doctor: User)
    | DoctorList(doctors: Users)
    | DoctorDeleted(message: string)

  /** A handler's reply, the store after it, and the calls it made to the
      image host, in order. */
  datatype Reply = Reply(outcome: Outcome<Payload>, store: Users, blob: seq<BlobCall>)

  const Bad: Status := Code(400)

  const RegisterIncomplete := "Please Fill Full Form!"
  const AlreadyRegistered := "User Already Registered!"
  const Registered := "User Registered!"
  const LoginIncomplete := "Please Provide All Details!"
  const PasswordMismatch := "Password and Confirm Password Do Not Match !"
  const InvalidCredentials := "Invalid Password or Email!"
  const RoleNotFound := "User With This Role Not found!"
  const LoggedIn := "User Login Successfully!"
  const AdminIncomplete := "Please fill the full form!"
  const AdminExistsSuffix := " Admin With This Email Already Exists!"
  const AdminRegistered := "New Admin Registered!"
  const DoctorNotFound := "Doctor not found!"
  const DoctorRemoved := "Doctor deleted successfully!"
  const AvatarRequired := "Doctor Avatar Required!"
  const FormatNotSupported := "File Format Not Supported!"
  const DoctorIncomplete := "Please Provide Full Details!"
  const DoctorExistsSuffix := " already registered with this email!"
  const UploadFailed := "Failed To Upload Doctor Avatar To Cloudinary"
  const DoctorRegistered := "New Doctor Registered!"

  /** The MIME types accepted for a doctor's picture. */
  const AllowedFormats: seq<string> := ["image/png", "image/jpeg", "image/webp"]

  /** The form field that carries the doctor's picture. */
  const AvatarField := "docAvatar"

  // ----------------------------------------------------------------- helpers

  /** A rejection: the error goes out and nothing else happens. */
  function Reject(store: Users, message: string, status: Status): Reply {
    Reply(Fail(message, status), store, [])
  }

  /** `u` holds exactly the eight values of `form`. */
  ghost predicate HoldsForm(u: User, form: Form)
    requires FormFilled(form)
  {
    && u.firstName == form.firstName.value
    && u.lastName == form.lastName.value
    && u.email == form.email.value
    && u.phone == form.phone.value
    && u.password == form.password.value
    && u.gender == form.gender.value
    && u.dob == form.dob.value
    && u.adharNo == form.adharNo.value
  }

  function NewUser(form: Form, role: Role, department: Option<string>, avatar: Option<Avatar>): User
    requires FormFilled(form)
  {
    User(form.firstName.value, form.lastName.value, form.email.value, form.phone.value,
         form.password.value, form.gender.value, form.dob.value, form.adharNo.value,
         role, department, avatar)
  }

  /** The message of a duplicate-email error: the role of the record already
      holding the email, followed by `suffix`. */
  ghost predicate NamesHolderRole(store: Users, email: string, message: string, suffix: string) {
    exists id :: id in store && store[id].email == email && message == RoleName(store[id].role) + suffix
  }

  // ---------------------------------------------------------------- handlers

  /** Self-service patient registration. */
  function PatientRegister(store: Users, form: Form): (r: Reply)
    ensures r.blob == []
    ensures !FormFilled(form) ==> r == Reject(store, RegisterIncomplete, Bad)
    ensures FormFilled(form) && EmailTaken(store, form.email.value) ==>
              r == Reject(store, AlreadyRegistered, Bad)
    ensures r.outcome.Ok? <==> FormFilled(form) && !EmailTaken(store, form.email.value)
    ensures !r.outcome.Ok? ==> r.store == store
    ensures r.outcome.Ok? ==>
              && r.outcome.payload.Session?
              && r.outcome.payload.message == Registered
              && var id := r.outcome.payload.user;
              && AddedOne(store, r.store, id)
              && HoldsForm(r.store[id], form)
              && r.store[id].role == Patient
              && r.store[id].doctorDepartment.None?
              && r.store[id].docAvatar.None?
  {
    if !FormFilled(form) then
      Reject(store, RegisterIncomplete, Bad)
    else if FindByEmail(store, form.email.value).Some? then
      Reject(store, AlreadyRegistered, Bad)
    else
      var id := FreshId(store);
      Reply(Ok(Session(id, Registered)), store[id := NewUser(form, Patient, None, None)], [])
  }

  /** Every check `Login` makes passes, stated without the lookup: some record
      has the email, its stored password matches, and its role is the
      requested one. */
  ghost predicate LoginAccepted(store: Users, req: LoginRequest, matches: (string, string) -> bool) {
    && LoginFilled(req)
    && req.password.value == req.confirmPassword.value
    && exists id :: id in store && store[id].email == req.email.value
                    && matches(store[id].password, req.password.value)
                    && RoleName(store[id].role) == req.role.value
  }

  /** Login. `matches(stored, supplied)` is the schema's password comparison. */
  function Login(store: Users, req: LoginRequest, matches: (string, string) -> bool): (r: Reply)
    ensures r.store == store && r.blob == []
    ensures !LoginFilled(req) ==> r == Reject(store, LoginIncomplete, Bad)
    ensures LoginFilled(req) && req.password.value != req.confirmPassword.value ==>
              r == Reject(store, PasswordMismatch, Bad)
    ensures LoginFilled(req) && req.password.value == req.confirmPassword.value
            && !EmailTaken(store, req.email.value) ==>
              r == Reject(store, InvalidCredentials, Bad)
    ensures r.outcome.Ok? ==>
              && r.outcome.payload.Session?
              && r.outcome.payload.message == LoggedIn
              && var id := r.outcome.payload.user;
              && id in store
              && store[id].email == req.email.value
              && matches(store[id].password, req.password.value)
              && RoleName(store[id].role) == req.role.value
    ensures r.outcome.Ok? ==> LoginAccepted(store, req, matches)
    ensures EmailsDistinct(store) ==> (r.outcome.Ok? <==> LoginAccepted(store, req, matches))
    ensures r.outcome.Ok? || (r.outcome.Fail? && r.outcome.status == Bad)
  {
    if !LoginFilled(req) then
      Reject(store, LoginIncomplete, Bad)
    else if req.password.value != req.confirmPassword.value then
      Reject(store, PasswordMismatch, Bad)
    else
      match FindByEmail(store, req.email.value)
      case None => Reject(store, InvalidCredentials, Bad)
      case Some(id) =>
        if !matches(store[id].password, req.password.value) then
          Reject(store, InvalidCredentials, Bad)
        else if req.role.value != RoleName(store[id].role) then
          Reject(store, RoleNotFound, Bad)
        else
          Reply(Ok(Session(id, LoggedIn)), store, [])
  }

  /** Creation of an admin by an admin. */
  function AddNewAdmin(store: Users, form: Form): (r: Reply)
    ensures r.blob == []
    ensures !FormFilled(form) ==> r == Reject(store, AdminIncomplete, Bad)
    ensures FormFilled(form) && EmailTaken(store, form.email.value) ==>
              && r.store == store
              && r.outcome.Fail?
              && r.outcome.status == Unset
              && NamesHolderRole(store, form.email.value, r.outcome.message, AdminExistsSuffix)
    ensures r.outcome.Ok? <==> FormFilled(form) && !EmailTaken(store, form.email.value)
    ensures !r.outcome.Ok? ==> r.store == store
    ensures r.outcome.Ok? ==>
              && r.outcome.payload.AdminCreated?
              && r.outcome.payload.message == AdminRegistered
              && var id := r.outcome.payload.id;
              && AddedOne(store, r.store, id)
              && r.outcome.payload.admin == r.store[id]
              && HoldsForm(r.store[id], form)
              && r.store[id].role == Admin
              && r.store[id].doctorDepartment.None?
              && r.store[id].docAvatar.None?
  {
    if !FormFilled(form) then
      Reject(store, AdminIncomplete, Bad)
    else
      match FindByEmail(store, form.email.value)
      case Some(holder) =>
        Reject(store, RoleName(store[holder].role) + AdminExistsSuffix, Unset)
      case None =>
        var id := FreshId(store);
        var admin := NewUser(form, Admin, None, None);
        Reply(Ok(AdminCreated(AdminRegistered, id, admin)), store[id := admin], [])
  }

  /** The doctor listing: every doctor record and nothing else. */
  function GetAllDoctors(store: Users): (r: Reply)
    ensures r.store == store && r.blob == []
    ensures r.outcome.Ok? && r.outcome.payload.DoctorList?
    ensures var listed := r.outcome.payload.doctors;
            && (forall id :: id in listed <==> id in store && store[id].role == Doctor)
            && (forall id :: id in listed ==> listed[id] == store[id])
  {
    Reply(Ok(DoctorList(DoctorsOf(store))), store, [])
  }

  /** Deletion of a doctor by id. The picture is released first when the
      record names one; a failure of that release does not stop the deletion. */
  function DeleteDoctor(store: Users, id: Id, destroy: DestroyOutcome): (r: Reply)
    ensures !(id in store && store[id].role == Doctor) ==>
              r == Reject(store, DoctorNotFound, Code(404))
    ensures id in store && store[id].role == Doctor ==>
              && r.outcome == Ok(DoctorDeleted(DoctorRemoved))
              && RemovedOne(store, r.store, id)
    ensures r.outcome.Ok? <==> id in store && store[id].role == Doctor
    ensures r.blob != [] ==>
              && id in store
              && store[id].docAvatar.Some?
              && store[id].docAvatar.value.publicId != ""
              && r.blob == [Destroy(store[id].docAvatar.value.publicId)]
    ensures r.outcome.Ok? && store[id].docAvatar.Some? && store[id].docAvatar.value.publicId != "" ==>
              r.blob != []
  {
    if id in store && store[id].role == Doctor then
      var doctor := store[id];
      var calls := if doctor.docAvatar.Some? && doctor.docAvatar.value.publicId != ""
                   then [Destroy(doctor.docAvatar.value.publicId)]
                   else [];
      // The destroy outcome is caught and logged; either way the record goes.
      Reply(Ok(DoctorDeleted(DoctorRemoved)), store - {id}, calls)
    else
      Reject(store, DoctorNotFound, Code(404))
  }

  /** The picture's MIME type is one of the accepted ones. */
  predicate FormatAllowed(mimetype: string) {
    mimetype in AllowedFormats
  }

  /** All nine doctor fields are truthy. */
  predicate DoctorFormFilled(req: DoctorRequest) {
    FormFilled(req.form) && Filled(req.doctorDepartment)
  }

  /** Every check before the upload passes: a picture of an accepted type,
      the nine fields, and an unused email. */
  ghost predicate DoctorChecksPass(store: Users, req: DoctorRequest) {
    && AvatarField in req.files
    && FormatAllowed(req.files[AvatarField].mimetype)
    && DoctorFormFilled(req)
    && !EmailTaken(store, req.form.email.value)
  }

  /** Creation of a doctor with a picture, with the two crash paths of the
      handler corrected: a request whose files lack the picture field is
      rejected as having no picture, and an absent upload response is an
      upload failure. */
  function AddNewDoctor(store: Users, req: DoctorRequest, upload: UploadOutcome): (r: Reply)
    ensures !r.outcome.Crash?
    ensures AvatarField !in req.files ==> r == Reject(store, AvatarRequired, Bad)
    ensures AvatarField in req.files && !FormatAllowed(req.files[AvatarField].mimetype) ==>
              r == Reject(store, FormatNotSupported, Bad)
    ensures AvatarField in req.files && FormatAllowed(req.files[AvatarField].mimetype)
            && !DoctorFormFilled(req) ==>
              r == Reject(store, DoctorIncomplete, Bad)
    ensures AvatarField in req.files && FormatAllowed(req.files[AvatarField].mimetype)
            && DoctorFormFilled(req) && EmailTaken(store, req.form.email.value) ==>
              && r.store == store && r.blob == []
              && r.outcome.Fail? && r.outcome.status == Bad
              && NamesHolderRole(store, req.form.email.value, r.outcome.message, DoctorExistsSuffix)
    ensures r.blob == [Upload] <==> DoctorChecksPass(store, req)
    ensures r.blob != [Upload] ==> r.blob == []
    ensures DoctorChecksPass(store, req) && !upload.Uploaded? ==>
              r == Reply(Fail(UploadFailed, Code(500)), store, [Upload])
    ensures r.outcome.Ok? <==> DoctorChecksPass(store, req) && upload.Uploaded?
    ensures !r.outcome.Ok? ==> r.store == store
    ensures r.outcome.Ok? ==>
              && r.outcome.payload.DoctorCreated?
              && r.outcome.payload.message == DoctorRegistered
              && var id := r.outcome.payload.id;
              && AddedOne(store, r.store, id)
              && r.outcome.payload.doctor == r.store[id]
              && HoldsForm(r.store[id], req.form)
              && r.store[id].role == Doctor
              && r.store[id].doctorDepartment == Some(req.doctorDepartment.value)
              && r.store[id].docAvatar == Some(Avatar(upload.publicId, upload.secureUrl))
  {
    if AvatarField !in req.files then
      Reject(store, AvatarRequired, Bad)
    else
      DoctorAfterPicture(store, req, upload)
  }

  /** `addNewDoctor` as the handler is written: it only checks that some file
      was sent before reading the picture's type, and it reads the error of
      the upload response even when there is no response; both faults throw. */
  function AddNewDoctorAsWritten(store: Users, req: DoctorRequest, upload: UploadOutcome): (r: Reply)
    ensures r.outcome.Crash? <==>
              || (req.files != map[] && AvatarField !in req.files)
              || (DoctorChecksPass(store, req) && upload.UploadNull?)
    ensures req.files == map[] ==> r == Reject(store, AvatarRequired, Bad)
    ensures !r.outcome.Ok? ==> r.store == store
    ensures !r.outcome.Crash? ==> r == AddNewDoctor(store, req, upload)
    ensures r.store == AddNewDoctor(store, req, upload).store
    ensures r.blob == AddNewDoctor(store, req, upload).blob
  {
    if req.files == map[] then
      Reject(store, AvatarRequired, Bad)
    else if AvatarField !in req.files then
      // reading `mimetype` of the missing picture throws
      Reply(Crash, store, [])
    else
      var r := DoctorAfterPicture(store, req, upload);
      if r.blob == [Upload] && upload.UploadNull? then
        // logging `.error` of the absent response throws
        Reply(Crash, store, [Upload])
      else
        r
  }

  /** The part of `addNewDoctor` after the picture has been found. */
  function DoctorAfterPicture(store: Users, req: DoctorRequest, upload: UploadOutcome): (r: Reply)
    requires AvatarField in req.files
  {
    if !FormatAllowed(req.files[AvatarField].mimetype) then
      Reject(store, FormatNotSupported, Bad)
    else if !DoctorFormFilled(req) then
      Reject(store, DoctorIncomplete, Bad)
    else
      match FindByEmail(store, req.form.email.value)
      case Some(holder) =>
        Reject(store, RoleName(store[holder].role) + DoctorExistsSuffix, Bad)
      case None =>
        match upload
        case Uploaded(publicId, secureUrl) =>
          var id := FreshId(store);
          var doctor := NewUser(req.form, Doctor, Some(req.doctorDepartment.value), Some(Avatar(publicId, secureUrl)));
          Reply(Ok(DoctorCreated(DoctorRegistered, id, doctor)), store[id := doctor], [Upload])
        case _ =>
          Reply(Fail(UploadFailed, Code(500)), store, [Upload])
  }
}
