/**
 * The profile page (src/app/dashboard/profile/page.tsx): its two form schemas, the
 * profile update with the birthday cut to its date part, the password-change error
 * message, and the points reset.
 */
module Profile {
  import opened Common
  import opened Ledger

  /** `profileSchema`: a username of at least 3 UTF-16 code units (the birthday is optional). */
  predicate ValidUsername(username: string)
    ensures |username| >= 3 ==> ValidUsername(username)
    ensures ValidUsername(username) ==> |username| >= 2
  {
    Utf16Length(username) >= 3
  }

  /** Two emoji are four code units, so the schema accepts them as a username. */
  lemma TwoEmojiUsernameAccepted()
    ensures ValidUsername("\U{1F600}\U{1F600}")
  {
    var e: char := '\U{1F600}';
    Utf16LengthAppendAstral([], e);
    Utf16LengthAppendAstral([e], e);
    assert [] + [e] == [e] && [e] + [e] == "\U{1F600}\U{1F600}";
  }

  datatype PasswordField = CurrentPassword | NewPassword | ConfirmPassword

  /**
   * The fields `passwordSchema` flags: an empty current password, a new password
   * shorter than 6 UTF-16 code units, and (on `confirmPassword`) a confirmation that differs.
   */
  function PasswordIssues(current: string, newPassword: string, confirm: string): (issues: set<PasswordField>)
    ensures CurrentPassword in issues <==> Utf16Length(current) < 1
    ensures NewPassword in issues <==> Utf16Length(newPassword) < 6
    ensures ConfirmPassword in issues <==> newPassword != confirm
  {
    (if Utf16Length(current) < 1 then {CurrentPassword} else {})
    + (if Utf16Length(newPassword) < 6 then {NewPassword} else {})
    + (if newPassword != confirm then {ConfirmPassword} else {})
  }

  /** The password form is accepted exactly when the two new passwords agree, the new one is long enough and the current one is given. */
  lemma PasswordFormAccepted(current: string, newPassword: string, confirm: string)
    ensures PasswordIssues(current, newPassword, confirm) == {}
        <==> newPassword == confirm && Utf16Length(newPassword) >= 6 && current != []
  {
    var issues := PasswordIssues(current, newPassword, confirm);
    if issues == {} {
      assert CurrentPassword !in issues && NewPassword !in issues && ConfirmPassword !in issues;
    }
  }

  /** The message shown when re-authentication or the password update fails. */
  function PasswordErrorMessage(code: string): (m: string)
    ensures code in {"auth/wrong-password", "auth/invalid-credential"} ==> m == "A senha atual está incorreta."
    ensures code !in {"auth/wrong-password", "auth/invalid-credential"} ==>
      m == "Não foi possível alterar sua senha. Tente novamente."
  {
    if code == "auth/wrong-password" || code == "auth/invalid-credential" then "A senha atual está incorreta."
    else "Não foi possível alterar sua senha. Tente novamente."
  }

  /** `toISOString().split('T')[0]`: the part of the string before its first 'T'. */
  function DatePart(iso: string): (d: string)
    ensures d <= iso
    ensures 'T' !in d
    ensures |d| < |iso| ==> iso[|d|] == 'T'
    decreases |iso|
  {
    if iso == [] || iso[0] == 'T' then [] else [iso[0]] + DatePart(iso[1..])
  }

  /** For an ISO timestamp `YYYY-MM-DDTHH:mm:ss.sssZ`, the stored birthday is `YYYY-MM-DD`. */
  lemma DatePartOfTimestamp(date: string, time: string)
    requires 'T' !in date
    ensures DatePart(date + "T" + time) == date
  {
    var iso := date + "T" + time;
    var d := DatePart(iso);
    assert !(|d| < |date|);
    assert iso[|date|] == 'T';
    assert forall k :: 0 <= k < |d| ==> d[k] == iso[k] && d[k] in d;
    assert !(|d| > |date|);
    assert d == iso[..|date|] == date;
  }

  /**
   * `onProfileSubmit`: the form schema, the log-in guard, then the identity provider's
   * display-name update (`authOk` says whether it succeeded; when it throws, the page
   * reports the failure and writes nothing). After it, `updateDoc` of the username and,
   * if given, the birthday's date part is started without being awaited, and the page
   * reports success whatever that write does.
   */
  method OnProfileSubmit(store: Store, user: Option<UserId>, username: string, birthdayIso: Option<string>,
                         authOk: bool)
    returns (r: Result<()>)
    modifies store
    ensures !ValidUsername(username) ==> r == Err(InvalidForm) && store.View() == old(store.View())
    ensures ValidUsername(username) && user.None? ==> r == Err(NotLoggedIn) && store.View() == old(store.View())
    ensures ValidUsername(username) && user.Some? && !authOk ==>
      r == Err(DisplayNameNotUpdated) && store.View() == old(store.View())
    ensures ValidUsername(username) && user.Some? && authOk ==>
      && r == Ok(())
      && var birthday := if birthdayIso.Some? then Some(DatePart(birthdayIso.value)) else None;
      && var t := ApplyProfileUpdate(old(store.View()), user.value, username, birthday);
      && store.View() == (if t.Ok? then t.value else old(store.View()))
  {
    if !ValidUsername(username) {
      return Err(InvalidForm);
    }
    if user.None? {
      return Err(NotLoggedIn);
    }
    if !authOk {
      return Err(DisplayNameNotUpdated);
    }
    var birthday: Option<string> := None;
    if birthdayIso.Some? {
      birthday := Some(DatePart(birthdayIso.value));
    }
    // The write's own outcome only reaches the error channel; the page shows success.
    var _ := store.UpdateProfile(user.value, username, birthday);
    r := Ok(());
  }

  /** `handleResetPoints`: the log-in guard, then `totalPoints := 0` and nothing else. */
  method HandleResetPoints(store: Store, user: Option<UserId>) returns (r: Result<()>)
    modifies store
    ensures user.None? ==> r == Err(NotLoggedIn) && store.View() == old(store.View())
    ensures user.Some? ==> Atomic(ApplyReset(old(store.View()), user.value), old(store.View()), store.View(), r)
  {
    if user.None? {
      return Err(NotLoggedIn);
    }
    r := store.ResetPoints(user.value);
  }

  /** After a reset the balance is 0, the lifetime figure is unchanged and every record remains. */
  lemma ResetKeepsRecords(l: Ledger, uid: UserId)
    requires uid in l.accounts
    ensures ApplyReset(l, uid).Ok?
    ensures var l' := ApplyReset(l, uid).value;
      && Balance(l'.accounts[uid]) == 0
      && Lifetime(l'.accounts[uid]) == Lifetime(l.accounts[uid])
      && l'.records == l.records && l'.redemptions == l.redemptions
  {
  }
}
