/** Two inputs on which `addNewDoctor`, as written, throws instead of returning
    the error its own messages announce, and the corrected handler's answer
    on the same inputs. */
module Findings {
  import opened Http
  import opened UserStore
  import opened UserController

  /** A complete doctor form. */
  function SampleForm(): Form {
    Form(Some("Asha"), Some("Rao"), Some("asha@example.com"), Some("9876543210"),
         Some("secret12"), Some("Female"), Some("1990-01-01"), Some("123412341234"))
  }

  /** A picture sent under a field other than `docAvatar`: the handler only
      checks that some file came, then reads the type of the missing picture
      and throws. The corrected handler rejects it as a missing picture. */
  lemma StrayFileCrashes()
    ensures var req := DoctorRequest(map["photo" := UploadedFile("image/png")], SampleForm(), Some("Cardiology"));
            && AddNewDoctorAsWritten(map[], req, Uploaded("id", "https://img")).outcome == Crash
            && AddNewDoctor(map[], req, Uploaded("id", "https://img")) == Reject(map[], AvatarRequired, Bad)
  {
    var files := map["photo" := UploadedFile("image/png")];
    assert "photo" in files;
    assert |AvatarField| != |"photo"|;
  }

  /** An upload that yields no response: the handler's failure branch logs
      the `error` field of the absent response and throws. The corrected
      handler answers with the upload-failure error. */
  lemma NullUploadCrashes()
    ensures var req := DoctorRequest(map[AvatarField := UploadedFile("image/png")], SampleForm(), Some("Cardiology"));
            && AddNewDoctorAsWritten(map[], req, UploadNull).outcome == Crash
            && AddNewDoctor(map[], req, UploadNull) == Reply(Fail(UploadFailed, Code(500)), map[], [Upload])
  {
  }
}
