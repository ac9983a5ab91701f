/**
 * The manual logging page (src/app/dashboard/log/page.tsx): one card per material,
 * a positive quantity, `round(quantity × rate)` points, and a credit transaction.
 * Quantities are JavaScript numbers; they are modelled as exact reals, so the rates
 * 0.02, 0.015 and 0.075 are the exact fractions rather than binary approximations.
 */
module ManualLog {
  import opened Common
  import opened Ledger

  /** An entry of `recyclableCategories`: name, measuring unit and points per unit. */
  datatype Category = Category(name: string, unit: string, pointsPerUnit: real)

  const Categories: seq<Category> := [
    Category("Plástico", "gm", 0.02),
    Category("Papel", "gm", 0.015),
    Category("Vidro", "unidades", 10.0),
    Category("Metal", "gm", 0.075)
  ]

  /** `logSchema`: the quantity must be strictly positive. */
  predicate ValidQuantity(q: real)
    ensures ValidQuantity(q) ==> forall c :: c in Categories ==> PointsEarned(c, q) >= 0
  {
    q > 0.0
  }

  /** `Math.round`: the nearest integer, halves rounded up (towards +∞). */
  function Round(x: real): (n: int)
    ensures n as real - 0.5 <= x < n as real + 0.5
  {
    (x + 0.5).Floor
  }

  /** `Math.round(quantity * pointsPerUnit)`. */
  function PointsEarned(c: Category, q: real): (p: int)
    ensures p as real - 0.5 <= q * c.pointsPerUnit < p as real + 0.5
    ensures q >= 0.0 && c.pointsPerUnit >= 0.0 ==> p >= 0
  {
    Round(q * c.pointsPerUnit)
  }

  /** Every category of the table has a non-negative rate, so a valid quantity never earns a negative amount. */
  lemma TableRatesNonNegative(c: Category, q: real)
    requires c in Categories && ValidQuantity(q)
    ensures PointsEarned(c, q) >= 0
  {
  }

  /** More of the same material never earns fewer points. */
  lemma PointsMonotone(c: Category, q1: real, q2: real)
    requires c.pointsPerUnit >= 0.0
    requires q1 <= q2
    ensures PointsEarned(c, q1) <= PointsEarned(c, q2)
  {
    assert q1 * c.pointsPerUnit <= q2 * c.pointsPerUnit;
  }

  /** Glass is counted per unit at 10 points: a whole number q of units earns exactly 10·q. */
  lemma GlassEarnsTenPerUnit(q: int)
    ensures PointsEarned(Categories[2], q as real) == 10 * q
  {
    assert Categories[2].pointsPerUnit == 10.0;
    var x := (q as real) * 10.0;
    assert x == (10 * q) as real;
  }

  /** 1000 g of plastic at 0.02 points per gram earns 20 points. */
  lemma KiloOfPlasticEarnsTwenty()
    ensures PointsEarned(Categories[0], 1000.0) == 20
  {
    assert Categories[0].pointsPerUnit == 0.02;
    assert 1000.0 * 0.02 == 20.0;
  }

  /** The record the page writes under `recycling_records`. */
  function LogRecord(c: Category, uid: UserId, id: DocId, q: real, now: int): (rec: ActivityRecord)
    ensures rec.userId == uid && rec.id == id
    ensures rec.materialType == c.name && rec.unit == c.unit && rec.quantity == q
    ensures rec.pointsEarned == PointsEarned(c, q)
    ensures rec.origin == ManualEntry && rec.status.None?
  {
    ActivityRecord(id, uid, c.name, q, c.unit, IsoString(now), PointsEarned(c, q), ManualEntry, None, None)
  }

  /**
   * Submitting one card: the form schema first, then the log-in guard, then the
   * credit transaction with the computed points. Returns the points credited.
   */
  method SubmitLog(store: Store, user: Option<UserId>, c: Category, quantity: real, recordId: DocId, now: int)
    returns (r: Result<int>)
    requires c in Categories
    modifies store
    ensures !ValidQuantity(quantity) ==> r == Err(InvalidForm) && store.View() == old(store.View())
    ensures ValidQuantity(quantity) && user.None? ==> r == Err(NotLoggedIn) && store.View() == old(store.View())
    ensures ValidQuantity(quantity) && user.Some? ==>
      var t := ApplyCredit(old(store.View()), LogRecord(c, user.value, recordId, quantity, now));
      && (t.Ok? ==> store.View() == t.value && r == Ok(PointsEarned(c, quantity)))
      && (t.Err? ==> store.View() == old(store.View()) && r == Err(t.error))
    ensures r.Ok? ==> r.value >= 0
  {
    if !ValidQuantity(quantity) {
      return Err(InvalidForm);
    }
    if user.None? {
      return Err(NotLoggedIn);
    }
    var points := PointsEarned(c, quantity);
    var rec := LogRecord(c, user.value, recordId, quantity, now);
    var outcome := store.Credit(rec);
    match outcome {
      case Ok(_) => r := Ok(points);
      case Err(e) => r := Err(e);
    }
  }
}
