/**
 * The rewards page (src/app/dashboard/rewards/page.tsx): the static catalog and the
 * redemption handler, a client-side pre-check on the shown profile followed by a
 * debit transaction that re-checks the balance it reads.
 */
module Rewards {
  import opened Common
  import opened Ledger

  datatype Reward = Reward(id: string, name: string, requiredPoints: int)

  /** `rewardsData`, in the order the page lists it (descriptions and images left out). */
  const Catalog: seq<Reward> := [
    Reward("reward-1", "Garrafa de Água", 1000),
    Reward("reward-3", "Vaso de Planta", 750),
    Reward("reward-4", "Lancheira Ecológica", 1200),
    Reward("reward-9", "Pente de Cabelo Reciclado", 400),
    Reward("reward-7", "Kit de Talheres de Viagem", 800),
    Reward("reward-8", "Potes de Armazenamento (Kit com 3)", 1500),
    Reward("reward-10", "Organizador de Mesa", 900),
    Reward("reward-2", "Frisbee Reciclado", 600)
  ]

  /** Every reward costs a positive amount, and no two share an id. */
  lemma CatalogWellFormed()
    ensures forall i :: 0 <= i < |Catalog| ==> Catalog[i].requiredPoints > 0
    ensures forall i, j :: 0 <= i < j < |Catalog| ==> Catalog[i].id != Catalog[j].id
  {
  }

  /**
   * The client pre-check `userProfile.totalPoints < reward.requiredPoints`. A missing
   * `totalPoints` is `undefined`, and `undefined < n` is false, so it does not refuse.
   */
  predicate PreCheckRefuses(profile: Account, reward: Reward)
    ensures PreCheckRefuses(profile, reward) ==> Balance(profile) < reward.requiredPoints
    ensures profile.totalPoints.None? ==> !PreCheckRefuses(profile, reward)
    ensures profile.totalPoints.Some? ==>
      (PreCheckRefuses(profile, reward) <==> Balance(profile) < reward.requiredPoints)
  {
    profile.totalPoints.Some? && profile.totalPoints.value < reward.requiredPoints
  }

  /** The redemption record the page writes. */
  function RedemptionFor(uid: UserId, reward: Reward, id: DocId, now: int): (red: Redemption)
    ensures red.userId == uid && red.id == id
    ensures red.rewardId == reward.id && red.rewardName == reward.name
    ensures red.pointsDeducted == reward.requiredPoints
  {
    Redemption(id, uid, reward.id, reward.name, IsoString(now), reward.requiredPoints)
  }

  /**
   * `handleRedemption`: `profile` is the account snapshot the page shows, which may
   * be stale; the transaction reads the store itself.
   */
  method HandleRedemption(store: Store, user: Option<UserId>, profile: Option<Account>, reward: Reward,
                          redemptionId: DocId, now: int)
    returns (r: Result<()>)
    modifies store
    ensures user.None? || profile.None? ==> r == Err(NotLoggedIn) && store.View() == old(store.View())
    ensures user.Some? && profile.Some? && PreCheckRefuses(profile.value, reward) ==>
      r == Err(InsufficientPoints) && store.View() == old(store.View())
    ensures user.Some? && profile.Some? && !PreCheckRefuses(profile.value, reward) ==>
      Atomic(ApplyRedemption(old(store.View()), RedemptionFor(user.value, reward, redemptionId, now)),
             old(store.View()), store.View(), r)
  {
    if user.None? || profile.None? {
      return Err(NotLoggedIn);
    }
    if PreCheckRefuses(profile.value, reward) {
      return Err(InsufficientPoints);
    }
    var red := RedemptionFor(user.value, reward, redemptionId, now);
    r := store.Redeem(red);
  }

  /**
   * However stale the profile snapshot, a redemption that goes through leaves a
   * non-negative balance and the `lifetimePoints` field as it was.
   */
  lemma RedemptionNeverOverdraws(l: Ledger, uid: UserId, reward: Reward, id: DocId, now: int)
    requires ApplyRedemption(l, RedemptionFor(uid, reward, id, now)).Ok?
    ensures var l' := ApplyRedemption(l, RedemptionFor(uid, reward, id, now)).value;
      && Balance(l'.accounts[uid]) >= 0
      && Balance(l'.accounts[uid]) == Balance(l.accounts[uid]) - reward.requiredPoints
      && l'.accounts[uid].lifetimePoints == l.accounts[uid].lifetimePoints
  {
  }
}
