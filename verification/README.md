# User accounts and doctor records of the healthcare-management backend

This project models the account and doctor-record lifecycle of the backend's
user controller in Dafny. The user collection is a finite map from document id
to user record. Each handler is a pure function from the store and the request
to a reply and the next store:

- patient registration
- login
- admin creation
- doctor creation, with a picture upload
- doctor listing
- doctor deletion, with best-effort release of the picture

Three outside collaborators become parameters:

- the schema's password comparison is a `matches(stored, supplied)` function;
- the image host's upload answer is an `UploadOutcome`;
- the image host's deletion answer is a `DestroyOutcome`.

Modules:

- `Http` (`http.dfy`): request fields with JavaScript truthiness, statuses, and the three ways a handler ends: `Ok`, `Fail` (an error handed to `next`) and `Crash` (an uncaught exception).
- `UserStore` (`user_store.dfy`): users, roles, the store, lookup by email, new-id allocation and the doctor query.
- `UserController` (`user_controller.dfy`): the six handlers, their requests, the image host's answers and the calls made to it. It also holds `addNewDoctor` exactly as written, next to the corrected version. Requests can be served by either one.
- `Lifecycle` (`lifecycle.dfy`): requests served in sequence against one store, and the properties that span handlers: the email-uniqueness invariant, the login check order, and the doctor lifecycle.
- `Findings` (`findings.dfy`): concrete inputs for the two faults listed under Findings.

Details of the code that the model keeps:

- The admin handler's duplicate-email error is built without a status code (userController.js:110-114). It is modelled as `Unset`.
- The admin handler's missing-field message is "Please fill the full form!" (userController.js:105). Registration's is "Please Fill Full Form!" (userController.js:34).
- An absent upload response makes the doctor handler throw while logging it (userController.js:282-286). See Findings.

## Model

| member | source | states |
|---|---|---|
| `UserController.PatientRegister` | backend/controller/userController.js:12-55 | An empty or missing field among the eight gives 400 "Please Fill Full Form!", whether or not the email is in use. Otherwise an email already held by any record gives 400 "User Already Registered!". Registration succeeds exactly when neither applies. A rejection leaves the store as it was. A success adds exactly one record under a new id: it holds the supplied fields, has role Patient, and has no department or picture. A session is issued for that record and no other record changes. |
| `UserController.Login` | backend/controller/userController.js:59-87 | Login never changes the store. A missing field gives "Please Provide All Details!". Password differing from confirmation gives the mismatch error. An unknown email gives "Invalid Password or Email!". Every error is 400. A success issues a session for a record that has the email, a matching password and the requested role. When emails are distinct, login succeeds exactly when such a record exists and the confirmation equals the password. |
| `UserController.AddNewAdmin` | backend/controller/userController.js:91-134 | An incomplete form gives 400 "Please fill the full form!". Otherwise a used email gives an error without a status code, whose message names the role of the record holding the email. Creation succeeds exactly when the form is complete and the email unused. A success adds exactly one Admin record with the supplied fields and returns that record. The store is unchanged on any rejection. |
| `UserController.GetAllDoctors` | backend/controller/userController.js:138-145 | The listing contains exactly the records whose role is Doctor, each as stored, and the store is unchanged. |
| `UserController.DeleteDoctor` | backend/controller/userController.js:151-176 | An id that is absent, or that belongs to a non-Doctor record, gives 404 "Doctor not found!" and leaves the store unchanged. A doctor's id removes exactly that record and keeps every other one. The picture's release is requested exactly when the record has a picture with a non-empty public id, and for that id only. |
| `UserController.AddNewDoctor` | backend/controller/userController.js:227-314 | The checks run in this order: no `docAvatar` file, then a MIME type outside png/jpeg/webp, then any of the nine fields missing, then an email in use, then a failed upload (500). Each fails with its own message. The upload is attempted exactly when all earlier checks pass. No record is created on any failure. A success adds exactly one Doctor record that carries the department and the upload's public id and secure URL. The handler never crashes. |
| `UserController.AddNewDoctorAsWritten` | backend/controller/userController.js:227-314 | The handler as written throws in exactly two cases. One: files were sent but none under `docAvatar`. Two: all checks pass and the upload yields no response. An empty file set gives "Doctor Avatar Required!". Whenever it does not throw, it answers exactly as the corrected handler does. Its store afterwards is always the corrected handler's store, so it never creates a record the corrected handler would not, and it makes the same image-host calls: none before the stray-file crash, the one upload before the null-response crash. |
| `UserStore.FindByEmail` | backend/controller/userController.js:37-40 | The lookup finds a record exactly when some record holds the email. The one it finds holds that email and is the oldest that does. When emails are distinct it is the only one. |
| `UserStore.FreshId` | backend/controller/userController.js:42-52 | A created record gets an id not in use, above every id in use. |
| `UserStore.DoctorsOf` | backend/controller/userController.js:139 | The role query returns exactly the Doctor records, unchanged. |
| `Lifecycle.DispatchPreservesEmailsDistinct` | backend/controller/userController.js:37-307 | If emails are pairwise distinct before any one handler call, they stay distinct after it. This covers every handler, including doctor creation both as written and corrected. |
| `Lifecycle.RunPreservesEmailsDistinct` | backend/controller/userController.js:37-307 | Over any sequence of requests served one after another, emails stay pairwise distinct. The requests may mix every handler, including doctor creation as written. |
| `Lifecycle.SecondCreateWithSameEmailFails` | backend/controller/userController.js:37-275 | Say a create succeeded through any of the create handlers (doctor creation as written included). Then a second create with the same email fails and leaves the store unchanged. This holds whatever roles the two handlers create. |
| `Lifecycle.DispatchNeverRewrites` | backend/controller/userController.js:42-307 | No handler rewrites a record. Every id present both before and after a call holds the same record. |
| `Lifecycle.LoginMismatchDecidedBeforeLookup` | backend/controller/userController.js:66-72 | A password/confirmation mismatch gives the same error whatever the store holds and whatever the password comparison would say. |
| `Lifecycle.LoginErrorOrder` | backend/controller/userController.js:72-86 | Assume emails are distinct and the email belongs to a record. A wrong password gives "Invalid Password or Email!". With a right password, a wrong role gives "User With This Role Not found!". Otherwise login issues a session for that record. |
| `Lifecycle.LoginHidesWhichCredentialFailed` | backend/controller/userController.js:73-80 | An unknown email and a known email with a wrong password give the same reply. |
| `Lifecycle.RegisterThenLogin` | backend/controller/userController.js:42-86 | A newly registered patient logs in with their password and role Patient, and gets a session for their new record. The same credentials with role Admin give the role error. |
| `Lifecycle.DeleteIgnoresDestroyOutcome` | backend/controller/userController.js:160-170 | Deletion replies the same, leaves the same store and makes the same calls, whether releasing the picture succeeds or throws. Because the logged error is not modelled, this holds since the handler never reads the outcome. |
| `Lifecycle.DeleteThenGone` | backend/controller/userController.js:155-170 | After a doctor is deleted, deleting the same id again gives 404. The listing no longer shows that doctor and still shows every other doctor. |
| `Lifecycle.CreatedDoctorIsListed` | backend/controller/userController.js:292-307 | A newly created doctor appears in the listing with the picture reference the upload returned. |
| `Findings.StrayFileCrashes` | backend/controller/userController.js:228-237 | Picture sent under another field name: the handler as written throws, and the corrected handler answers 400 "Doctor Avatar Required!". |
| `Findings.NullUploadCrashes` | backend/controller/userController.js:282-289 | Upload that yields no response: the handler as written throws, and the corrected handler answers 500 with the upload-failure message. |

## Left out

- Token issuance (generateToken, userController.js:54 and 86) is reduced to a `Session(id, message)` payload. The signing, expiry, cookie names and cookie flags live in a utility that is not part of this model.
- logoutAdmin and logoutPatient (userController.js:199-223) only overwrite a response cookie, so they have no store behaviour to model.
- getUserDetails (userController.js:188-195) echoes the user that the authentication middleware attached to the request. That middleware is not part of this model.
- The route guards that restrict admin creation, doctor creation and deletion to authenticated admins are not part of this model.
- Password hashing on save and `comparePassword` live in the user schema, which is not part of this model. The store keeps the supplied password, and the comparison is the `matches` parameter.
- Schema-level validation and database-level unique indexes are not part of this model. In the model, `create` always succeeds once the handler's own checks pass.
- Body fields are strings or absent. A JSON number or boolean in a field, and JavaScript truthiness beyond "absent or empty string", are not modelled.
- deleteDoctor takes a well-formed id. A malformed id string, which the database rejects with a cast error, is not modelled.
- A `docAvatar` sent as several files (an array) is not modelled.
- An upload whose promise is rejected is folded into `UploadError`: no record is created and the reply is the 500 upload-failure error. The model does not distinguish the exception path through the async wrapper.
- Console logging is not modelled: the destroy error at userController.js:165 and the upload error at userController.js:283-286. Only the throw the second one can cause is kept, as `Crash`.
- UserController.GetAllDoctors: the listing is modelled as a map from id to record, so the order of the array the query returns (userController.js:139-143) is not modelled.
- UserController.GetAllDoctors: the listing returns whole records, passwords included. The query at userController.js:139 uses the schema's default projection. Login's `.select("+password")` at userController.js:72 suggests that projection leaves the password out, but the schema is not part of this model.
- The error middleware is not part of this model. It maps an `Unset` status and a `Crash` to an actual HTTP response.
- UserStore.FindByEmail: when several records share an email, the database's natural order is modelled as "smallest id first". With distinct emails, which every handler preserves, the choice does not matter.
- UserStore.FreshId: new ids are one past the largest id in use. Such an id is fresh against the current store only, so after the newest record is deleted its id can be handed out again, which real document ids never are. For that reason no property about records across a whole run of requests is stated.
- Concurrent requests are not modelled. The check-then-create race between two simultaneous creates with the same email is outside a sequential model.
- The dashboard and public front-end components, the server bootstrap and the database connection are configuration, I/O and presentation. They are not modelled.

## Findings

| source | as written | input that shows it | evidently intended | confidence | as-written member | corrected member |
|---|---|---|---|---|---|---|
| backend/controller/userController.js:228-237 | The handler only checks that some file was sent, then reads `mimetype` of `req.files.docAvatar` | a request whose only file is under the field `photo` | 400 "Doctor Avatar Required!" when no `docAvatar` file is present | medium, not executed | `UserController.AddNewDoctorAsWritten`, shown by `Findings.StrayFileCrashes` | `UserController.AddNewDoctor` |
| backend/controller/userController.js:282-289 | On an absent upload response the failure branch logs `cloudinaryResponse.error`, which throws on null | all checks pass and the upload yields no response | 500 "Failed To Upload Doctor Avatar To Cloudinary" | low, not executed (depends on whether the image host can resolve to no response) | `UserController.AddNewDoctorAsWritten`, shown by `Findings.NullUploadCrashes` | `UserController.AddNewDoctor` |
