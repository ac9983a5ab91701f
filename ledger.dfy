/**
 * The points ledger: one account document per user and, under it, the
 * `recycling_records` and `redemptions` sub-collections.
 *
 * Each transaction body of the pages is given twice: as a pure transition `Apply…`
 * on a `Ledger` value, whose contract says what the transaction means, and as a
 * method of the `Store` class, which performs the read, the guard and the writes in
 * place and whose contract ties the new state to the transition. A transition that
 * returns `Err` writes nothing: the whole transaction is atomic.
 */
module Ledger {
  import opened Common

  type UserId = string
  type DocId = string
  /** The path `users/{uid}/<collection>/{id}` of a sub-collection document. */
  type Key = (UserId, DocId)

  /** The shapes a stored date takes: missing, an ISO string, or a server timestamp (milliseconds). */
  datatype DateValue = NoDate | IsoString(ms: int) | ServerStamp(ms: int)

  /** `users/{uid}`. A field the writer never set is `None`. */
  datatype Account = Account(
    id: UserId,
    username: string,
    email: Option<string>,
    registeredAt: DateValue,
    totalPoints: Option<int>,
    lifetimePoints: Option<int>,
    birthday: Option<string>)

  datatype Status = Pending | Approved | Rejected

  /** How a record was logged: from the manual form (`type: 'log'`) or from a verified photo. */
  datatype Origin = ManualEntry | PhotoEntry(imageUrl: string, description: string)

  /** `users/{uid}/recycling_records/{id}`. `status` is absent on directly credited records. */
  datatype ActivityRecord = ActivityRecord(
    id: DocId,
    userId: UserId,
    materialType: string,
    quantity: real,
    unit: string,
    recyclingDate: DateValue,
    pointsEarned: int,
    origin: Origin,
    status: Option<Status>,
    validatedAt: Option<int>)

  /** `users/{uid}/redemptions/{id}`. */
  datatype Redemption = Redemption(
    id: DocId,
    userId: UserId,
    rewardId: string,
    rewardName: string,
    redemptionDate: DateValue,
    pointsDeducted: int)

  datatype Ledger = Ledger(
    accounts: map<UserId, Account>,
    records: map<Key, ActivityRecord>,
    redemptions: map<Key, Redemption>)

  /** `totalPoints || 0` */
  function Balance(a: Account): int { OrZero(a.totalPoints) }

  /** `lifetimePoints || 0` */
  function Lifetime(a: Account): int { OrZero(a.lifetimePoints) }

  /** `userProfile?.totalPoints || 0`, the figure the dashboard and the rankings page show. */
  function PointsShown(profile: Option<Account>): (p: int)
    ensures profile.Some? && profile.value.totalPoints.Some? ==> p == profile.value.totalPoints.value
    ensures profile.None? || profile.value.totalPoints.None? ==> p == 0
  {
    match profile
    case None => 0
    case Some(a) => Balance(a)
  }

  /** `m'` is `m` with at most the entry at `k` replaced, and `k` present in both. */
  predicate ChangedAtMost<K, V(==)>(m: map<K, V>, m': map<K, V>, k: K)
  {
    && m'.Keys == m.Keys
    && k in m
    && forall u :: u in m && u != k ==> m'[u] == m[u]
  }

  /** No account holds a negative spendable balance. */
  predicate NonNegativeBalances(l: Ledger)
  {
    forall u :: u in l.accounts ==> Balance(l.accounts[u]) >= 0
  }

  /** No account's lifetime figure went down between `l` and `l'`, and none disappeared. */
  predicate LifetimeKept(l: Ledger, l': Ledger)
  {
    && l.accounts.Keys <= l'.accounts.Keys
    && forall u :: u in l.accounts ==> Lifetime(l'.accounts[u]) >= Lifetime(l.accounts[u])
  }

  /**
   * While no balance is negative, the figure shown for any user is not negative
   * either, whether the account exists and whether it has a `totalPoints` field.
   */
  lemma ShownPointsNonNegative(l: Ledger, uid: UserId)
    requires NonNegativeBalances(l)
    ensures PointsShown(if uid in l.accounts then Some(l.accounts[uid]) else None) >= 0
  {
    if uid in l.accounts {
      assert Balance(l.accounts[uid]) >= 0;
    }
  }

  // ---------------------------------------------------------------------------
  // Transitions
  // ---------------------------------------------------------------------------

  /**
   * Direct credit (manual log and verified photo): read the owner's account, abort if
   * it is absent, add the record's points to `totalPoints` and store the record.
   */
  function ApplyCredit(l: Ledger, rec: ActivityRecord): (r: Result<Ledger>)
    ensures r.Ok? <==> rec.userId in l.accounts
    ensures r.Err? ==> r.error == AccountNotFound
    ensures r.Ok? ==>
      && ChangedAtMost(l.accounts, r.value.accounts, rec.userId)
      && var before, after := l.accounts[rec.userId], r.value.accounts[rec.userId];
      && Balance(after) == Balance(before) + rec.pointsEarned
      && after.(totalPoints := before.totalPoints) == before
    ensures r.Ok? ==> r.value.records == l.records[(rec.userId, rec.id) := rec]
    ensures r.Ok? ==> r.value.redemptions == l.redemptions
    ensures r.Ok? && rec.pointsEarned >= 0 && NonNegativeBalances(l) ==> NonNegativeBalances(r.value)
    ensures r.Ok? ==> LifetimeKept(l, r.value)
  {
    if rec.userId !in l.accounts then Err(AccountNotFound)
    else
      var a := l.accounts[rec.userId];
      Ok(l.(accounts := l.accounts[rec.userId := a.(totalPoints := Some(Balance(a) + rec.pointsEarned))],
            records := l.records[(rec.userId, rec.id) := rec]))
  }

  /**
   * Redemption debit: abort if the account is absent or its balance is below the
   * points to deduct; otherwise subtract them from `totalPoints` and store the record.
   */
  function ApplyRedemption(l: Ledger, red: Redemption): (r: Result<Ledger>)
    ensures r.Ok? <==> red.userId in l.accounts && Balance(l.accounts[red.userId]) >= red.pointsDeducted
    ensures r.Err? ==> r.error == InsufficientOrMissing
    ensures r.Ok? ==>
      && ChangedAtMost(l.accounts, r.value.accounts, red.userId)
      && var before, after := l.accounts[red.userId], r.value.accounts[red.userId];
      && Balance(after) == Balance(before) - red.pointsDeducted
      && Balance(after) >= 0
      && after.(totalPoints := before.totalPoints) == before
    ensures r.Ok? ==> r.value.redemptions == l.redemptions[(red.userId, red.id) := red]
    ensures r.Ok? ==> r.value.records == l.records
    ensures r.Ok? && NonNegativeBalances(l) ==> NonNegativeBalances(r.value)
    ensures r.Ok? ==> LifetimeKept(l, r.value)
  {
    if red.userId !in l.accounts || Balance(l.accounts[red.userId]) < red.pointsDeducted then
      Err(InsufficientOrMissing)
    else
      var a := l.accounts[red.userId];
      Ok(l.(accounts := l.accounts[red.userId := a.(totalPoints := Some(Balance(a) - red.pointsDeducted))],
            redemptions := l.redemptions[(red.userId, red.id) := red]))
  }

  /** The two answers an administrator can give to a pending record. */
  datatype Verdict = Approve | Reject

  function StatusOf(v: Verdict): Status
  {
    match v
    case Approve => Approved
    case Reject => Rejected
  }

  /**
   * Approval or rejection of a record, driven by the administrator's snapshot `rec`
   * of it: abort if the owner's account is absent, or (since `update` needs an
   * existing document) if the record is. Otherwise set the stored record's status and
   * validation time; on approval also add the snapshot's points to both balances.
   * The stored status is not re-checked.
   */
  function ApplyValidation(l: Ledger, rec: ActivityRecord, v: Verdict, now: int): (r: Result<Ledger>)
    ensures r.Ok? <==> rec.userId in l.accounts && (rec.userId, rec.id) in l.records
    ensures rec.userId !in l.accounts ==> r == Err(AccountNotFound)
    ensures rec.userId in l.accounts && (rec.userId, rec.id) !in l.records ==> r == Err(RecordNotFound)
    ensures r.Err? ==> r.error in {AccountNotFound, RecordNotFound}
    ensures r.Ok? ==>
      && ChangedAtMost(l.records, r.value.records, (rec.userId, rec.id))
      && var before, after := l.records[(rec.userId, rec.id)], r.value.records[(rec.userId, rec.id)];
      && after.status == Some(StatusOf(v))
      && after.validatedAt == Some(now)
      && after.(status := before.status, validatedAt := before.validatedAt) == before
    ensures r.Ok? && v == Reject ==> r.value.accounts == l.accounts
    ensures r.Ok? && v == Approve ==>
      && ChangedAtMost(l.accounts, r.value.accounts, rec.userId)
      && var before, after := l.accounts[rec.userId], r.value.accounts[rec.userId];
      && Balance(after) == Balance(before) + rec.pointsEarned
      && Lifetime(after) == Lifetime(before) + rec.pointsEarned
      && after.(totalPoints := before.totalPoints, lifetimePoints := before.lifetimePoints) == before
    ensures r.Ok? ==> r.value.redemptions == l.redemptions
    ensures r.Ok? && rec.pointsEarned >= 0 && NonNegativeBalances(l) ==> NonNegativeBalances(r.value)
    ensures r.Ok? && rec.pointsEarned >= 0 ==> LifetimeKept(l, r.value)
  {
    if rec.userId !in l.accounts then Err(AccountNotFound)
    else if (rec.userId, rec.id) !in l.records then Err(RecordNotFound)
    else
      var key := (rec.userId, rec.id);
      var records' := l.records[key := l.records[key].(status := Some(StatusOf(v)), validatedAt := Some(now))];
      match v
      case Reject => Ok(l.(records := records'))
      case Approve =>
        var a := l.accounts[rec.userId];
        var a' := a.(totalPoints := Some(Balance(a) + rec.pointsEarned),
                     lifetimePoints := Some(Lifetime(a) + rec.pointsEarned));
        Ok(l.(accounts := l.accounts[rec.userId := a'], records := records'))
  }

  /** Reset: `updateDoc(users/{uid}, {totalPoints: 0})`, which fails on a missing document. */
  function ApplyReset(l: Ledger, uid: UserId): (r: Result<Ledger>)
    ensures r.Ok? <==> uid in l.accounts
    ensures r.Err? ==> r.error == AccountNotFound
    ensures r.Ok? ==>
      && ChangedAtMost(l.accounts, r.value.accounts, uid)
      && var before, after := l.accounts[uid], r.value.accounts[uid];
      && after.totalPoints == Some(0)
      && after.(totalPoints := before.totalPoints) == before
    ensures r.Ok? ==> r.value.records == l.records && r.value.redemptions == l.redemptions
    ensures r.Ok? && NonNegativeBalances(l) ==> NonNegativeBalances(r.value)
    ensures r.Ok? ==> LifetimeKept(l, r.value)
  {
    if uid !in l.accounts then Err(AccountNotFound)
    else Ok(l.(accounts := l.accounts[uid := l.accounts[uid].(totalPoints := Some(0))]))
  }

  /**
   * Profile edit: `updateDoc` of the username and, only when one is given, the
   * birthday (already cut to its date part); fails on a missing document.
   */
  function ApplyProfileUpdate(l: Ledger, uid: UserId, username: string, birthday: Option<string>): (r: Result<Ledger>)
    ensures r.Ok? <==> uid in l.accounts
    ensures r.Err? ==> r.error == AccountNotFound
    ensures r.Ok? ==>
      && ChangedAtMost(l.accounts, r.value.accounts, uid)
      && var before, after := l.accounts[uid], r.value.accounts[uid];
      && after.username == username
      && (birthday.Some? ==> after.birthday == birthday)
      && (birthday.None? ==> after.birthday == before.birthday)
      && after.(username := before.username, birthday := before.birthday) == before
    ensures r.Ok? ==> r.value.records == l.records && r.value.redemptions == l.redemptions
  {
    if uid !in l.accounts then Err(AccountNotFound)
    else
      var a := l.accounts[uid];
      var a' := if birthday.Some? then a.(username := username, birthday := birthday) else a.(username := username);
      Ok(l.(accounts := l.accounts[uid := a']))
  }

  /** The document first sign-in writes: both balances start at 0. */
  function NewAccount(uid: UserId, username: string, email: Option<string>, now: int): (a: Account)
    ensures a.id == uid && a.username == username && a.email == email
    ensures a.totalPoints == Some(0) && a.lifetimePoints == Some(0)
    ensures Balance(a) == 0 && Lifetime(a) == 0
  {
    Account(uid, username, email, ServerStamp(now), Some(0), Some(0), None)
  }

  /** First sign-in: create the account document only when none exists. */
  function ApplyFirstSignIn(l: Ledger, uid: UserId, username: string, email: Option<string>, now: int): (r: Ledger)
    ensures uid in l.accounts ==> r == l
    ensures uid !in l.accounts ==>
      && r.accounts == l.accounts[uid := NewAccount(uid, username, email, now)]
      && r.records == l.records && r.redemptions == l.redemptions
    ensures uid in r.accounts
    ensures NonNegativeBalances(l) ==> NonNegativeBalances(r)
    ensures LifetimeKept(l, r)
  {
    if uid in l.accounts then l
    else l.(accounts := l.accounts[uid := NewAccount(uid, username, email, now)])
  }

  // ---------------------------------------------------------------------------
  // Properties relating several transitions
  // ---------------------------------------------------------------------------

  /** Signing in a second time changes nothing, whatever the second sign-in carries. */
  lemma FirstSignInIdempotent(l: Ledger, uid: UserId, n1: string, e1: Option<string>, t1: int,
                              n2: string, e2: Option<string>, t2: int)
    ensures ApplyFirstSignIn(ApplyFirstSignIn(l, uid, n1, e1, t1), uid, n2, e2, t2)
         == ApplyFirstSignIn(l, uid, n1, e1, t1)
  {
  }

  /** Credits applied one after another, in order; the first abort stops the run. */
  function ApplyCredits(l: Ledger, recs: seq<ActivityRecord>): Result<Ledger>
    decreases |recs|
  {
    if recs == [] then Ok(l)
    else match ApplyCredit(l, recs[0])
      case Err(e) => Err(e)
      case Ok(l') => ApplyCredits(l', recs[1..])
  }

  function SumPoints(recs: seq<ActivityRecord>): int
    decreases |recs|
  {
    if recs == [] then 0 else recs[0].pointsEarned + SumPoints(recs[1..])
  }

  /**
   * No lost update: serialised credits to one existing account all commit, and the
   * balance ends at the initial one plus the sum of their points; the lifetime figure
   * and every other account are untouched.
   */
  lemma {:induction false} CreditsAddUp(l: Ledger, uid: UserId, recs: seq<ActivityRecord>)
    requires uid in l.accounts
    requires forall i :: 0 <= i < |recs| ==> recs[i].userId == uid
    ensures ApplyCredits(l, recs).Ok?
    ensures var l' := ApplyCredits(l, recs).value;
      && ChangedAtMost(l.accounts, l'.accounts, uid)
      && Balance(l'.accounts[uid]) == Balance(l.accounts[uid]) + SumPoints(recs)
      && Lifetime(l'.accounts[uid]) == Lifetime(l.accounts[uid])
    decreases |recs|
  {
    if recs != [] {
      var l1 := ApplyCredit(l, recs[0]).value;
      CreditsAddUp(l1, uid, recs[1..]);
    }
  }

  /**
   * Approval does not re-check the stored status: a second approval from the same
   * (stale) pending snapshot credits the record's points a second time.
   */
  lemma StaleApprovalCreditsAgain(l: Ledger, rec: ActivityRecord, t1: int, t2: int)
    requires rec.userId in l.accounts && (rec.userId, rec.id) in l.records
    ensures ApplyValidation(l, rec, Approve, t1).Ok?
    ensures var l1 := ApplyValidation(l, rec, Approve, t1).value;
      && ApplyValidation(l1, rec, Approve, t2).Ok?
      && var l2 := ApplyValidation(l1, rec, Approve, t2).value;
      && Balance(l2.accounts[rec.userId]) == Balance(l.accounts[rec.userId]) + 2 * rec.pointsEarned
  {
  }

  /**
   * Redeeming a reward that costs exactly the whole balance leaves 0, and redeeming
   * it again is refused without any write.
   */
  lemma SecondRedemptionRefused(l: Ledger, first: Redemption, second: Redemption)
    requires first.userId in l.accounts && Balance(l.accounts[first.userId]) == first.pointsDeducted
    requires second.userId == first.userId && second.pointsDeducted == first.pointsDeducted > 0
    ensures ApplyRedemption(l, first).Ok?
    ensures Balance(ApplyRedemption(l, first).value.accounts[first.userId]) == 0
    ensures ApplyRedemption(ApplyRedemption(l, first).value, second) == Err(InsufficientOrMissing)
  {
  }

  // ---------------------------------------------------------------------------
  // The store the pages write to
  // ---------------------------------------------------------------------------

  /** `after` is the state `t` commits, or `before` unchanged when `t` aborts; `r` reports which. */
  predicate Atomic(t: Result<Ledger>, before: Ledger, after: Ledger, r: Result<()>)
  {
    match t
    case Ok(l) => after == l && r == Ok(())
    case Err(e) => after == before && r == Err(e)
  }

  /** The document database, as the pages see it: three collections updated in place. */
  class Store {
    var accounts: map<UserId, Account>
    var records: map<Key, ActivityRecord>
    var redemptions: map<Key, Redemption>

    function View(): Ledger
      reads this
    {
      Ledger(accounts, records, redemptions)
    }

    constructor (initial: Ledger)
      ensures View() == initial
    {
      accounts, records, redemptions := initial.accounts, initial.records, initial.redemptions;
    }

    /** The credit transaction of the log and chatbot pages. */
    method Credit(rec: ActivityRecord) returns (r: Result<()>)
      modifies this
      ensures Atomic(ApplyCredit(old(View()), rec), old(View()), View(), r)
    {
      if rec.userId !in accounts {
        return Err(AccountNotFound);
      }
      var a := accounts[rec.userId];
      var newTotal := OrZero(a.totalPoints) + rec.pointsEarned;
      accounts := accounts[rec.userId := a.(totalPoints := Some(newTotal))];
      records := records[(rec.userId, rec.id) := rec];
      r := Ok(());
    }

    /** The debit transaction of the rewards page. */
    method Redeem(red: Redemption) returns (r: Result<()>)
      modifies this
      ensures Atomic(ApplyRedemption(old(View()), red), old(View()), View(), r)
    {
      if red.userId !in accounts || OrZero(accounts[red.userId].totalPoints) < red.pointsDeducted {
        return Err(InsufficientOrMissing);
      }
      var a := accounts[red.userId];
      var newTotal := OrZero(a.totalPoints) - red.pointsDeducted;
      accounts := accounts[red.userId := a.(totalPoints := Some(newTotal))];
      redemptions := redemptions[(red.userId, red.id) := red];
      r := Ok(());
    }

    /** The approve/reject transaction of the admin page. */
    method Validate(rec: ActivityRecord, v: Verdict, now: int) returns (r: Result<()>)
      modifies this
      ensures Atomic(ApplyValidation(old(View()), rec, v, now), old(View()), View(), r)
    {
      if rec.userId !in accounts {
        return Err(AccountNotFound);
      }
      var key := (rec.userId, rec.id);
      if key !in records {
        return Err(RecordNotFound);
      }
      records := records[key := records[key].(status := Some(StatusOf(v)), validatedAt := Some(now))];
      if v == Approve {
        var a := accounts[rec.userId];
        var newTotal := OrZero(a.totalPoints) + rec.pointsEarned;
        var newLifetime := OrZero(a.lifetimePoints) + rec.pointsEarned;
        accounts := accounts[rec.userId := a.(totalPoints := Some(newTotal), lifetimePoints := Some(newLifetime))];
      }
      r := Ok(());
    }

    /** `updateDoc(users/{uid}, {totalPoints: 0})`. */
    method ResetPoints(uid: UserId) returns (r: Result<()>)
      modifies this
      ensures Atomic(ApplyReset(old(View()), uid), old(View()), View(), r)
    {
      if uid !in accounts {
        return Err(AccountNotFound);
      }
      accounts := accounts[uid := accounts[uid].(totalPoints := Some(0))];
      r := Ok(());
    }

    /** `updateDoc(users/{uid}, {username, birthday?})`. */
    method UpdateProfile(uid: UserId, username: string, birthday: Option<string>) returns (r: Result<()>)
      modifies this
      ensures Atomic(ApplyProfileUpdate(old(View()), uid, username, birthday), old(View()), View(), r)
    {
      if uid !in accounts {
        return Err(AccountNotFound);
      }
      var a := accounts[uid].(username := username);
      if birthday.Some? {
        a := a.(birthday := birthday);
      }
      accounts := accounts[uid := a];
      r := Ok(());
    }

    /** `getDoc` then, only if it does not exist, `setDoc` of a fresh account. */
    method CreateIfAbsent(uid: UserId, username: string, email: Option<string>, now: int)
      modifies this
      ensures View() == ApplyFirstSignIn(old(View()), uid, username, email, now)
    {
      var present := uid in accounts;
      if !present {
        accounts := accounts[uid := NewAccount(uid, username, email, now)];
      }
    }
  }
}
