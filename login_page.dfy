/**
 * The login page (src/app/login/page.tsx): the form schema, the account document
 * created on first sign-in, and the message shown for a failed sign-in.
 */
module Login {
  import opened Common
  import opened Ledger

  const GoogleDefaultName := "Usuário Google"
  const InvalidCredentials := "Email ou senha inválidos."
  const GenericLoginError := "Ocorreu um erro ao fazer login. Tente novamente."

  /** `user.displayName || 'Usuário Google'`: an absent or empty display name falls back to the default. */
  function SignInUsername(displayName: Option<string>): (n: string)
    ensures displayName.Some? && displayName.value != [] ==> n == displayName.value
    ensures displayName.None? || displayName.value == [] ==> n == GoogleDefaultName
    ensures n != []
  {
    if displayName.Some? && displayName.value != [] then displayName.value else GoogleDefaultName
  }

  /** `checkAndCreateUserProfile`: read the account document and write a fresh one only if it is absent. */
  method CheckAndCreateUserProfile(store: Store, uid: UserId, displayName: Option<string>, email: Option<string>, now: int)
    modifies store
    ensures store.View() == ApplyFirstSignIn(old(store.View()), uid, SignInUsername(displayName), email, now)
  {
    store.CreateIfAbsent(uid, SignInUsername(displayName), email, now);
  }

  /** A first sign-in opens the account with both balances at 0; a later one changes nothing. */
  lemma FirstSignInOpensEmptyAccount(l: Ledger, uid: UserId, displayName: Option<string>, email: Option<string>, now: int)
    ensures var l' := ApplyFirstSignIn(l, uid, SignInUsername(displayName), email, now);
      && uid in l'.accounts
      && (uid !in l.accounts ==> Balance(l'.accounts[uid]) == 0 && Lifetime(l'.accounts[uid]) == 0
                                 && l'.accounts[uid].username == SignInUsername(displayName))
      && (uid in l.accounts ==> l' == l)
  {
  }

  /** The message shown when `signInWithEmailAndPassword` fails with the given error code. */
  function LoginErrorMessage(code: string): (m: string)
    ensures m == InvalidCredentials <==> code in {"auth/user-not-found", "auth/wrong-password", "auth/invalid-credential"}
    ensures m != InvalidCredentials ==> m == GenericLoginError
  {
    if code == "auth/user-not-found" || code == "auth/wrong-password" || code == "auth/invalid-credential" then
      InvalidCredentials
    else
      GenericLoginError
  }

  /** The text before the first `@` of `s` (all of `s` when there is none). */
  function LocalPart(s: string): (p: string)
    ensures p <= s && '@' !in p
    ensures |p| < |s| ==> s[|p|] == '@'
    decreases |s|
  {
    if s == [] || s[0] == '@' then [] else [s[0]] + LocalPart(s[1..])
  }

  /**
   * An approximation of the schema's email check: one `@` after a non-empty local
   * part, and a domain with a `.` that is neither its first nor its last character.
   */
  predicate LooksLikeEmail(s: string)
    ensures LooksLikeEmail(s) ==> |s| >= 5 && s[0] != '@' && multiset(s)['@'] == 1
  {
    var local := LocalPart(s);
    if local != [] && |local| < |s| && '@' !in s[|local| + 1..] then
      var domain := s[|local| + 1..];
      assert s == local + "@" + domain;
      SingleAt(local, domain);
      exists i :: 0 < i < |domain| - 1 && domain[i] == '.'
    else
      false
  }

  /** Text split around one `@`, with none on either side, holds exactly one `@`. */
  lemma SingleAt(local: string, domain: string)
    requires '@' !in local && '@' !in domain
    ensures multiset(local + "@" + domain)['@'] == 1
  {
    assert multiset(local + "@" + domain) == multiset(local) + multiset{'@'} + multiset(domain);
  }

  datatype LoginField = Email | Password

  /** The fields `loginSchema` flags: a malformed email and an empty password. */
  function LoginIssues(email: string, password: string): (issues: set<LoginField>)
    ensures Email in issues <==> !LooksLikeEmail(email)
    ensures Password in issues <==> password == []
  {
    (if LooksLikeEmail(email) then {} else {Email}) + (if password == [] then {Password} else {})
  }
}
