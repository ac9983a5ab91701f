/** Shared wrappers and the error kinds the ledger pages report. */
module Common {

  datatype Option<T> = None | Some(value: T)

  /** The ways a page handler or a ledger transaction can stop without writing. */
  datatype Failure =
    | NotLoggedIn            // `!user || !firestore` guard at the top of a handler
    | InvalidForm            // the form schema refused the input, the handler never ran
    | MissingPhoto           // chatbot submitted without a captured photo
    | VerificationFailed     // the verification call threw or returned no output
    | NotRecyclable          // verification answered "not valid": nothing is credited
    | AccountNotFound        // the user document is absent inside the transaction
    | RecordNotFound         // `update` of a record document that does not exist
    | InsufficientPoints     // client-side pre-check of a redemption
    | InsufficientOrMissing  // in-transaction redemption check (one branch in the source)
    | Busy                   // another validation is in flight
    | DisplayNameNotUpdated  // the identity provider refused the display-name update

  datatype Result<T> = Ok(value: T) | Err(error: Failure)

  /**
   * JavaScript's `length` of a string, which form schemas compare against their
   * minimums: UTF-16 code units, so a character outside the Basic Multilingual Plane
   * counts twice.
   */
  function Utf16Length(s: string): (n: nat)
    ensures |s| <= n <= 2 * |s|
    ensures n == 0 <==> s == []
    decreases |s|
  {
    if s == [] then 0
    else Utf16Length(s[..|s| - 1]) + (if s[|s| - 1] as int >= 0x10000 then 2 else 1)
  }

  /** For text made of Basic Multilingual Plane characters only (all Latin text), the length is the character count. */
  lemma {:induction false} Utf16LengthOfBmp(s: string)
    requires forall i :: 0 <= i < |s| ==> s[i] as int < 0x10000
    ensures Utf16Length(s) == |s|
    decreases |s|
  {
    if s != [] {
      Utf16LengthOfBmp(s[..|s| - 1]);
    }
  }

  /** A character outside the Basic Multilingual Plane adds two to the length. */
  lemma {:induction false} Utf16LengthAppendAstral(s: string, c: char)
    requires c as int >= 0x10000
    ensures Utf16Length(s + [c]) == Utf16Length(s) + 2
  {
    assert (s + [c])[..|s|] == s;
  }

  /** JavaScript's `x || 0` on an optional number field. */
  function OrZero(x: Option<int>): int
  {
    match x
    case None => 0
    case Some(v) => v
  }
}
