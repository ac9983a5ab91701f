/**
 * The photo-verification page (src/app/dashboard/recycling-chatbot/page.tsx): the
 * component's state (captured photo, submitting flag, shown result) and its submit
 * handler, which calls the verification flow and credits only valid results.
 *
 * The page reads `pointsAwarded`, `materialType` and `reason` from a result whose
 * schema names them `points`, `material` and `comment`; the model credits the
 * result's `points` and records its `material`.
 */
module PhotoLog {
  import opened Common
  import opened Ledger
  import opened Verification

  /** How the call to `verifyRecycling` ended: it threw, or it returned the prompt's raw output (possibly none). */
  datatype VerifyCall = Threw | Returned(output: Option<Output>)

  /** What the page displays after a submission. */
  datatype Shown = Verified(result: Output) | SystemError(reason: string, materialType: string)

  const ErrorReason := "Ocorreu um erro no sistema. Tente novamente mais tarde."

  /** `formSchema`: the description needs at least 10 UTF-16 code units. */
  predicate ValidDescription(d: string)
    ensures |d| >= 10 ==> ValidDescription(d)
    ensures ValidDescription(d) ==> |d| >= 5
  {
    Utf16Length(d) >= 10
  }

  /** What `verifyRecycling` hands back to the page: the clamped output, or nothing usable. */
  function Verify(call: VerifyCall): (v: Option<Output>)
    ensures call.Threw? ==> v.None?
    ensures call.Returned? && call.output.None? ==> v.None?
    ensures call.Returned? && call.output.Some? ==> v == Some(Clamp(call.output.value))
  {
    match call
    case Threw => None
    case Returned(out) => Flow(out)
  }

  /** The record written for a verified photo: quantity -1 and unit "N/A", the result's points. */
  function PhotoRecord(uid: UserId, id: DocId, res: Output, photo: string, description: string, now: int)
    : (rec: ActivityRecord)
    ensures rec.userId == uid && rec.id == id
    ensures rec.quantity == -1.0 && rec.unit == "N/A"
    ensures rec.materialType == res.material && rec.pointsEarned == res.points
    ensures rec.origin == PhotoEntry(photo, description) && rec.status.None?
  {
    ActivityRecord(id, uid, res.material, -1.0, "N/A", ServerStamp(now), res.points,
                   PhotoEntry(photo, description), None, None)
  }

  /** Whatever the prompt answered, a credited photo is worth 5, 10, 15, 20 or 75 points. */
  lemma CreditedPhotoPoints(call: VerifyCall, uid: UserId, id: DocId, photo: string, d: string, now: int)
    requires Verify(call).Some? && Verify(call).value.isValid
    ensures PhotoRecord(uid, id, Verify(call).value, photo, d, now).pointsEarned in {5, 10, 15, 20, 75}
  {
  }

  class ChatbotPage {
    const store: Store
    var photoDataUri: Option<string>
    var isSubmitting: bool
    var verificationResult: Option<Shown>

    constructor (store: Store)
      ensures this.store == store
      ensures photoDataUri.None? && !isSubmitting && verificationResult.None?
    {
      this.store := store;
      photoDataUri, isSubmitting, verificationResult := None, false, None;
    }

    /** `takePicture`: the captured frame becomes the photo to submit. */
    method TakePicture(dataUri: string)
      modifies this
      ensures photoDataUri == Some(dataUri)
      ensures isSubmitting == old(isSubmitting) && verificationResult == old(verificationResult)
    {
      photoDataUri := Some(dataUri);
    }

    /** `resetForm`. */
    method ResetForm()
      modifies this
      ensures photoDataUri.None? && verificationResult.None? && !isSubmitting
    {
      photoDataUri, verificationResult, isSubmitting := None, None, false;
    }

    /**
     * `onSubmit`: refuse without a photo or a user; otherwise verify, show the
     * result, and credit the ledger only for a valid one. A failed verification
     * shows a system error and writes nothing. Returns the points credited.
     */
    method OnSubmit(description: string, user: Option<UserId>, call: VerifyCall, recordId: DocId, now: int)
      returns (r: Result<int>)
      modifies this, store
      ensures photoDataUri == old(photoDataUri)
      ensures !ValidDescription(description) ==>
        && r == Err(InvalidForm) && store.View() == old(store.View())
        && verificationResult == old(verificationResult) && isSubmitting == old(isSubmitting)
      ensures ValidDescription(description) && old(photoDataUri).None? ==>
        && r == Err(MissingPhoto) && store.View() == old(store.View())
        && verificationResult == old(verificationResult) && isSubmitting == old(isSubmitting)
      ensures ValidDescription(description) && old(photoDataUri).Some? && user.None? ==>
        && r == Err(NotLoggedIn) && store.View() == old(store.View())
        && verificationResult == old(verificationResult) && isSubmitting == old(isSubmitting)
      ensures ValidDescription(description) && old(photoDataUri).Some? && user.Some? ==> !isSubmitting
      ensures ValidDescription(description) && old(photoDataUri).Some? && user.Some? && Verify(call).None? ==>
        && r == Err(VerificationFailed) && store.View() == old(store.View())
        && verificationResult == Some(SystemError(ErrorReason, "Desconhecido"))
      ensures ValidDescription(description) && old(photoDataUri).Some? && user.Some? && Verify(call).Some? ==>
        && verificationResult == Some(Verified(Verify(call).value))
        && (!Verify(call).value.isValid ==> r == Err(NotRecyclable) && store.View() == old(store.View()))
        && (Verify(call).value.isValid ==>
              var rec := PhotoRecord(user.value, recordId, Verify(call).value, old(photoDataUri).value, description, now);
              Atomic(ApplyCredit(old(store.View()), rec), old(store.View()), store.View(),
                     if r.Ok? then Ok(()) else Err(r.error))
              && (r.Ok? ==> r.value == rec.pointsEarned))
    {
      if !ValidDescription(description) {
        return Err(InvalidForm);
      }
      if photoDataUri.None? {
        return Err(MissingPhoto);
      }
      if user.None? {
        return Err(NotLoggedIn);
      }
      isSubmitting := true;
      verificationResult := None;
      var result := Verify(call);
      if result.None? {
        verificationResult := Some(SystemError(ErrorReason, "Desconhecido"));
        r := Err(VerificationFailed);
      } else {
        var res := result.value;
        verificationResult := Some(Verified(res));
        if res.isValid {
          var rec := PhotoRecord(user.value, recordId, res, photoDataUri.value, description, now);
          var outcome := store.Credit(rec);
          match outcome {
            case Ok(_) => r := Ok(rec.pointsEarned);
            case Err(e) => r := Err(e);
          }
        } else {
          r := Err(NotRecyclable);
        }
      }
      isSubmitting := false;
    }
  }
}
