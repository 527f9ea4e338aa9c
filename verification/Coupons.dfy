/** Coupons: what a discount comes to, and how their usage is counted and limited while bookings
    and admins work on the same rows. */
module Coupons {
  import opened Rows

  datatype DiscountType = PERCENTAGE | FIXED

  /** Amounts are exact; `usageLimit` None is unlimited. */
  datatype Coupon = Coupon(
    discountType: DiscountType,
    discountValue: real,
    minOrderAmount: real,
    maxDiscountAmount: real,
    usageLimit: Option<int>,
    usedCount: int,
    userUsageLimit: int,
    validFrom: int,
    validUntil: int,
    isActive: bool)

  datatype Usage = Usage(coupon: Id, user: Id, discount: real)

  /** Usage rows are keyed by their (unique) booking. */
  datatype CouponDb = CouponDb(coupons: map<Id, Coupon>, usages: map<Id, Usage>)

  datatype Answer<+T> = Ok(value: T) | NotFound | Rejected | Duplicate

  datatype Quote = Quote(discount: real, finalAmount: real)

  // ---- Discount arithmetic ----

  function MinOf(a: real, b: real): real {
    if a <= b then a else b
  }

  function MaxOf(a: real, b: real): real {
    if a >= b then a else b
  }

  function Percent(amount: real, v: real): real {
    amount * v / 100.0
  }

  function Discount(c: Coupon, amount: real): real {
    if c.discountType == PERCENTAGE then
      var d := Percent(amount, c.discountValue);
      if c.maxDiscountAmount > 0.0 then MinOf(d, c.maxDiscountAmount) else d
    else MinOf(c.discountValue, amount)
  }

  function FinalAmount(c: Coupon, amount: real): real {
    MaxOf(amount - Discount(c, amount), 0.0)
  }

  /** The discount is the most that its bounds allow: the percentage of the amount, and the cap if
      there is one; or the fixed value, and the amount. */
  lemma DiscountIsMost(c: Coupon, amount: real, d: real)
    ensures d <= Discount(c, amount) <==>
              match c.discountType
              case PERCENTAGE =>
                d <= amount * c.discountValue / 100.0 && (c.maxDiscountAmount > 0.0 ==> d <= c.maxDiscountAmount)
              case FIXED => d <= c.discountValue && d <= amount
  {
  }

  /** Math.round(x * 100) / 100, and what a two-decimal column keeps of a non-negative amount. */
  function Cents(x: real): int {
    (x * 100.0 + 0.5).Floor
  }

  predicate NonNegative(c: Coupon) {
    c.discountValue >= 0.0 && c.maxDiscountAmount >= 0.0
  }

  lemma ShareOf(a: real, b: real, v: real)
    requires 0.0 <= a <= b && v >= 0.0
    ensures 0.0 <= Percent(a, v) <= Percent(b, v)
    ensures v <= 100.0 ==> Percent(b, v) - Percent(a, v) <= b - a
    ensures v >= 100.0 ==> Percent(a, v) >= a
  {
    var d := b - a;
    assert b * v == a * v + d * v;
    assert a * v >= 0.0 && d * v >= 0.0;
    if v <= 100.0 { assert d * v <= d * 100.0; } else { assert a * v >= a * 100.0; }
  }

  /** The final amount stays between zero and the original. */
  lemma FinalInRange(c: Coupon, amount: real)
    requires NonNegative(c) && amount >= 0.0
    ensures 0.0 <= FinalAmount(c, amount) <= amount
  {
    hide Percent;
    ShareOf(amount, amount, c.discountValue);
  }

  /** Booking for more never costs less, whatever the coupon. */
  lemma FinalMonotone(c: Coupon, a: real, b: real)
    requires NonNegative(c) && 0.0 <= a <= b
    ensures FinalAmount(c, a) <= FinalAmount(c, b)
  {
    hide Percent;
    ShareOf(a, b, c.discountValue);
    ShareOf(b, b, c.discountValue);
  }

  predicate HalfCent(x: real) {
    (x * 100.0 + 0.5).Floor as real == x * 100.0 + 0.5
  }

  /** On whole-cent amounts, stored discount plus stored final amount is the original amount,
      except for exactly one cent too much when the discount falls on a half cent. */
  lemma StoredPartsAddUp(c: Coupon, cents: int)
    requires Discount(c, cents as real / 100.0) <= cents as real / 100.0
    ensures var amount := cents as real / 100.0;
            Cents(Discount(c, amount)) + Cents(FinalAmount(c, amount)) ==
              cents + (if HalfCent(Discount(c, amount)) then 1 else 0)
  {
    var d := Discount(c, cents as real / 100.0);
    var y := d * 100.0 + 0.5;
    var f := y.Floor;
    assert FinalAmount(c, cents as real / 100.0) * 100.0 + 0.5 == cents as real - y + 1.0;
    var g := (cents as real - y + 1.0).Floor;
    assert f as real <= y < f as real + 1.0 && g as real <= cents as real - y + 1.0 < g as real + 1.0;
    if f as real == y {
      assert g == cents - f + 1;
    } else {
      assert ((cents - f) as real) < cents as real - y + 1.0 < ((cents - f) as real) + 1.0;
      assert g == cents - f;
    }
  }

  // ---- Counting ----

  function UsesBy(db: CouponDb, c: Id, users: set<Id>): set<Id> {
    set b | b in db.usages && db.usages[b].coupon == c && db.usages[b].user in users
  }

  function Uses(db: CouponDb, c: Id): set<Id> {
    set b | b in db.usages && db.usages[b].coupon == c
  }

  predicate LimitReached(c: Coupon) {
    c.usageLimit.Some? && c.usageLimit.value != 0 && c.usedCount >= c.usageLimit.value
  }

  predicate Expired(c: Coupon, now: int) {
    now < c.validFrom || now > c.validUntil
  }

  /** validateAndCalculate on the coupon a code was found for. */
  function Validate(db: CouponDb, c: Id, user: Id, amount: real, now: int): Answer<Quote> {
    if c !in db.coupons || !db.coupons[c].isActive then Rejected
    else
      var row := db.coupons[c];
      if Expired(row, now) || LimitReached(row) then Rejected
      else if |UsesBy(db, c, {user})| >= row.userUsageLimit then Rejected
      else if row.minOrderAmount > 0.0 && amount < row.minOrderAmount then Rejected
      else Ok(Quote(Cents(Discount(row, amount)) as real / 100.0, FinalAmount(row, amount)))
  }

  /** Insert the usage row and count it. */
  function Record(db: CouponDb, c: Id, user: Id, booking: Id, discount: real): CouponDb
    requires c in db.coupons
  {
    CouponDb(db.coupons[c := db.coupons[c].(usedCount := db.coupons[c].usedCount + 1)],
             db.usages[booking := Usage(c, user, discount)])
  }

  function Apply(db: CouponDb, c: Id, user: Id, booking: Id, discount: real): (CouponDb, Answer<()>) {
    if c !in db.coupons then (db, NotFound)
    else if !db.coupons[c].isActive || LimitReached(db.coupons[c]) then (db, Rejected)
    else if |UsesBy(db, c, {user})| >= db.coupons[c].userUsageLimit then (db, Rejected)
    else if booking in db.usages then (db, Duplicate)
    else (Record(db, c, user, booking, discount), Ok(()))
  }

  /** `usedCount` is the number of usage rows, and every usage row has its coupon. */
  ghost predicate Conserved(db: CouponDb) {
    (forall c :: c in db.coupons ==> db.coupons[c].usedCount == |Uses(db, c)|) &&
    (forall b :: b in db.usages ==> db.usages[b].coupon in db.coupons)
  }

  function SumByUser(db: CouponDb, c: Id, users: seq<Id>): nat {
    if users == [] then 0
    else SumByUser(db, c, users[..|users| - 1]) + |UsesBy(db, c, {users[|users| - 1]})|
  }

  lemma {:induction false} UsersPartition(db: CouponDb, c: Id, users: seq<Id>)
    requires forall i, j :: 0 <= i < j < |users| ==> users[i] != users[j]
    ensures SumByUser(db, c, users) == |UsesBy(db, c, set u | u in users)|
  {
    if users == [] {
      assert UsesBy(db, c, set u | u in users) == {};
    } else {
      var init, u := users[..|users| - 1], users[|users| - 1];
      UsersPartition(db, c, init);
      assert users == init + [u];
      assert UsesBy(db, c, set x | x in users) == UsesBy(db, c, set x | x in init) + UsesBy(db, c, {u});
      assert UsesBy(db, c, set x | x in init) !! UsesBy(db, c, {u});
    }
  }

  /** The counter is also the sum of the per-user counts. */
  lemma CountIsSumByUser(db: CouponDb, c: Id, users: seq<Id>)
    requires Conserved(db) && c in db.coupons
    requires forall i, j :: 0 <= i < j < |users| ==> users[i] != users[j]
    requires forall b :: b in Uses(db, c) ==> db.usages[b].user in users
    ensures db.coupons[c].usedCount == SumByUser(db, c, users)
  {
    UsersPartition(db, c, users);
    assert UsesBy(db, c, set u | u in users) == Uses(db, c);
  }

  lemma UsesByOne(db: CouponDb, c: Id, user: Id, used: set<Id>)
    requires used == set b | b in db.usages && db.usages[b].coupon == c && db.usages[b].user == user
    ensures used == UsesBy(db, c, {user})
  {
  }

  lemma RecordUses(db: CouponDb, c: Id, user: Id, booking: Id, discount: real)
    requires c in db.coupons && booking !in db.usages
    ensures var db' := Record(db, c, user, booking, discount);
            Uses(db', c) == Uses(db, c) + {booking} && UsesBy(db', c, {user}) == UsesBy(db, c, {user}) + {booking}
    ensures forall x :: x != c ==> Uses(Record(db, c, user, booking, discount), x) == Uses(db, x)
    ensures booking !in Uses(db, c) && booking !in UsesBy(db, c, {user})
  {
  }

  lemma RecordCounts(db: CouponDb, c: Id, user: Id, booking: Id, discount: real)
    requires Conserved(db) && c in db.coupons && booking !in db.usages
    ensures var db' := Record(db, c, user, booking, discount);
            Conserved(db') && |UsesBy(db', c, {user})| == |UsesBy(db, c, {user})| + 1
  {
    hide Uses, UsesBy;
    RecordUses(db, c, user, booking, discount);
  }

  /** The row is within the limits it carries. */
  predicate WithinLimits(db: CouponDb, c: Id, user: Id) {
    c in db.coupons && db.coupons[c].isActive &&
    (db.coupons[c].usageLimit.Some? && db.coupons[c].usageLimit.value != 0 ==>
       db.coupons[c].usedCount <= db.coupons[c].usageLimit.value) &&
    |UsesBy(db, c, {user})| <= db.coupons[c].userUsageLimit
  }

  /** A quote can be redeemed: if nothing touched the coupon since validation, applying it to a
      booking without a usage row succeeds, so the discounted booking gets its row. */
  lemma ValidatedApplies(db: CouponDb, c: Id, user: Id, amount: real, now: int, booking: Id, discount: real)
    requires Conserved(db) && Validate(db, c, user, amount, now).Ok? && booking !in db.usages
    ensures var (db', answer) := Apply(db, c, user, booking, discount);
            answer == Ok(()) && Conserved(db') && WithinLimits(db', c, user) &&
            db'.usages == db.usages[booking := Usage(c, user, discount)]
  {
    RecordCounts(db, c, user, booking, discount);
  }

  // ---- Discounts that were validated before they are applied ----

  /** A user's booking, priced with a quote for the coupon. */
  datatype Priced = Priced(user: Id, booking: Id, discount: real)

  /** The coupon applied to one booking after the other, as its row lock has it. */
  function ApplyEach(db: CouponDb, c: Id, ps: seq<Priced>): CouponDb {
    if ps == [] then db
    else
      var p := ps[|ps| - 1];
      Apply(ApplyEach(db, c, ps[..|ps| - 1]), c, p.user, p.booking, p.discount).0
  }

  predicate HasRow(db: CouponDb, c: Id, p: Priced) {
    p.booking in db.usages && db.usages[p.booking] == Usage(c, p.user, p.discount)
  }

  /** Different bookings, none of which has a usage row yet. */
  predicate NewBookings(db: CouponDb, ps: seq<Priced>) {
    (forall i :: 0 <= i < |ps| ==> ps[i].booking !in db.usages) &&
    (forall i, j :: 0 <= i < j < |ps| ==> ps[i].booking != ps[j].booking)
  }

  function CountOf(ps: seq<Priced>, user: Id): nat {
    if ps == [] then 0 else CountOf(ps[..|ps| - 1], user) + (if ps[|ps| - 1].user == user then 1 else 0)
  }

  /** What the coupon has left; None is no limit. */
  function Left(c: Coupon): Option<int> {
    if c.usageLimit.Some? && c.usageLimit.value != 0 then Some(c.usageLimit.value - c.usedCount) else None
  }

  predicate Enough(c: Coupon, n: int) {
    Left(c).Some? ==> n <= Left(c).value
  }

  /** The coupon has uses left for all of them, and each of their users may use it that often. */
  predicate Fits(db: CouponDb, c: Id, ps: seq<Priced>) {
    c in db.coupons && db.coupons[c].isActive && (ps != [] ==> Enough(db.coupons[c], |ps|)) &&
    forall i :: 0 <= i < |ps| ==>
      |UsesBy(db, c, {ps[i].user})| + CountOf(ps, ps[i].user) <= db.coupons[c].userUsageLimit
  }

  predicate AllHaveRows(db: CouponDb, c: Id, ps: seq<Priced>) {
    forall i :: 0 <= i < |ps| ==> HasRow(db, c, ps[i])
  }

  /** Every one of them has been counted. */
  ghost predicate Served(db: CouponDb, db': CouponDb, c: Id, ps: seq<Priced>) {
    c in db.coupons && c in db'.coupons &&
    db'.coupons[c] == db.coupons[c].(usedCount := db.coupons[c].usedCount + |ps|) &&
    (forall u :: |UsesBy(db', c, {u})| == |UsesBy(db, c, {u})| + CountOf(ps, u)) &&
    AllHaveRows(db', c, ps)
  }

  /** Applying changes no row but that of its own booking. */
  lemma {:induction false} OnlyTheirBookings(db: CouponDb, c: Id, ps: seq<Priced>, b: Id)
    requires forall i :: 0 <= i < |ps| ==> ps[i].booking != b
    ensures b in ApplyEach(db, c, ps).usages <==> b in db.usages
    ensures b in db.usages ==> ApplyEach(db, c, ps).usages[b] == db.usages[b]
  {
    hide UsesBy;
    if ps == [] {
    } else {
      OnlyTheirBookings(db, c, ps[..|ps| - 1], b);
    }
  }

  lemma {:induction false} CountsGrow(ps: seq<Priced>, n: nat, user: Id)
    requires n <= |ps|
    ensures CountOf(ps[..n], user) <= CountOf(ps, user)
  {
    if n == |ps| {
      assert ps[..n] == ps;
    } else {
      CountsGrow(ps[..|ps| - 1], n, user);
      assert ps[..|ps| - 1][..n] == ps[..n];
    }
  }

  lemma FitsBefore(db: CouponDb, c: Id, ps: seq<Priced>)
    requires ps != [] && Fits(db, c, ps)
    ensures Fits(db, c, ps[..|ps| - 1])
  {
    hide UsesBy;
    var init := ps[..|ps| - 1];
    forall i | 0 <= i < |init|
      ensures |UsesBy(db, c, {init[i].user})| + CountOf(init, init[i].user) <= db.coupons[c].userUsageLimit
    {
      assert init[i] == ps[i];
      CountsGrow(ps, |ps| - 1, ps[i].user);
    }
  }

  lemma OthersUse(db: CouponDb, c: Id, p: Priced, u: Id)
    requires c in db.coupons && p.booking !in db.usages && u != p.user
    ensures UsesBy(Record(db, c, p.user, p.booking, p.discount), c, {u}) == UsesBy(db, c, {u})
  {
  }

  lemma OneMoreUse(db: CouponDb, c: Id, p: Priced, u: Id)
    requires c in db.coupons && p.booking !in db.usages
    ensures |UsesBy(Record(db, c, p.user, p.booking, p.discount), c, {u})|
         == |UsesBy(db, c, {u})| + (if u == p.user then 1 else 0)
  {
    hide UsesBy, Uses, Record;
    if u == p.user {
      RecordUses(db, c, u, p.booking, p.discount);
    } else {
      OthersUse(db, c, p, u);
    }
  }

  /** One more apply after all those before have gone through. */
  lemma OneMoreServed(db: CouponDb, mid: CouponDb, c: Id, ps: seq<Priced>)
    requires ps != [] && NewBookings(db, ps) && Served(db, mid, c, ps[..|ps| - 1])
    requires ps[|ps| - 1].booking !in mid.usages && db.coupons[c].isActive
    ensures var p := ps[|ps| - 1]; var db' := Apply(mid, c, p.user, p.booking, p.discount).0;
            var goes := Enough(db.coupons[c], |ps|) &&
                        |UsesBy(db, c, {p.user})| + CountOf(ps, p.user) <= db.coupons[c].userUsageLimit;
            (HasRow(db', c, p) <==> goes) && (goes ==> Served(db, db', c, ps))
  {
    hide UsesBy, Record;
    var init, p := ps[..|ps| - 1], ps[|ps| - 1];
    var db' := Apply(mid, c, p.user, p.booking, p.discount).0;
    assert LimitReached(mid.coupons[c]) <==> !Enough(db.coupons[c], |ps|);
    RecordShows(mid, c, p);
    if Enough(db.coupons[c], |ps|) && |UsesBy(db, c, {p.user})| + CountOf(ps, p.user) <= db.coupons[c].userUsageLimit {
      forall u ensures |UsesBy(db', c, {u})| == |UsesBy(db, c, {u})| + CountOf(ps, u) {
        OneMoreUse(mid, c, p, u);
      }
      forall i | 0 <= i < |ps|
        ensures HasRow(db', c, ps[i])
      {
        if i < |init| { assert ps[i] == init[i] && HasRow(mid, c, init[i]); }
      }
    }
  }

  lemma RecordShows(db: CouponDb, c: Id, p: Priced)
    requires c in db.coupons && p.booking !in db.usages
    ensures var db' := Record(db, c, p.user, p.booking, p.discount);
            HasRow(db', c, p) && c in db'.coupons &&
            db'.coupons[c] == db.coupons[c].(usedCount := db.coupons[c].usedCount + 1) &&
            forall b :: b in db.usages ==> b in db'.usages && db'.usages[b] == db.usages[b]
  {
  }

  lemma FitsLast(db: CouponDb, c: Id, ps: seq<Priced>)
    requires ps != [] && Fits(db, c, ps[..|ps| - 1]) && Enough(db.coupons[c], |ps|)
    requires var u := ps[|ps| - 1].user; |UsesBy(db, c, {u})| + CountOf(ps, u) <= db.coupons[c].userUsageLimit
    ensures Fits(db, c, ps)
  {
    hide UsesBy;
    var init := ps[..|ps| - 1];
    forall i | 0 <= i < |ps|
      ensures |UsesBy(db, c, {ps[i].user})| + CountOf(ps, ps[i].user) <= db.coupons[c].userUsageLimit
    {
      if i < |init| { assert init[i] == ps[i]; }
    }
  }

  lemma NewBefore(db: CouponDb, ps: seq<Priced>)
    requires ps != [] && NewBookings(db, ps)
    ensures NewBookings(db, ps[..|ps| - 1])
    ensures forall i :: 0 <= i < |ps| - 1 ==> ps[i].booking != ps[|ps| - 1].booking
    ensures var init := ps[..|ps| - 1]; forall i :: 0 <= i < |init| ==> init[i].booking != ps[|ps| - 1].booking
  {
    assert forall i :: 0 <= i < |ps| - 1 ==> ps[..|ps| - 1][i] == ps[i];
  }

  /** The rows of the earlier ones are not the last one's doing. */
  lemma RowsBefore(mid: CouponDb, c: Id, ps: seq<Priced>)
    requires ps != [] && forall i :: 0 <= i < |ps| - 1 ==> ps[i].booking != ps[|ps| - 1].booking
    requires var p := ps[|ps| - 1]; AllHaveRows(Apply(mid, c, p.user, p.booking, p.discount).0, c, ps)
    ensures AllHaveRows(mid, c, ps[..|ps| - 1])
  {
    hide UsesBy;
    var p, init := ps[|ps| - 1], ps[..|ps| - 1];
    forall i | 0 <= i < |init|
      ensures HasRow(mid, c, init[i])
    {
      assert init[i] == ps[i];
      assert HasRow(Apply(mid, c, p.user, p.booking, p.discount).0, c, ps[i]);
    }
  }

  lemma {:induction false} ServedIff(db: CouponDb, c: Id, ps: seq<Priced>)
    requires NewBookings(db, ps) && c in db.coupons && db.coupons[c].isActive
    ensures AllHaveRows(ApplyEach(db, c, ps), c, ps) <==> Fits(db, c, ps)
    ensures Fits(db, c, ps) ==> Served(db, ApplyEach(db, c, ps), c, ps)
  {
    hide UsesBy, Apply, Fits, Served, AllHaveRows, NewBookings;
    if ps == [] {
      NothingServed(db, c);
    } else {
      var init, p := ps[..|ps| - 1], ps[|ps| - 1];
      NewBefore(db, ps);
      ServedIff(db, c, init);
      var mid := ApplyEach(db, c, init);
      OnlyTheirBookings(db, c, init, p.booking);
      assert p.booking !in mid.usages by { LastIsNew(db, ps); }
      if AllHaveRows(ApplyEach(db, c, ps), c, ps) {
        LastHasRow(ApplyEach(db, c, ps), c, ps);
        RowsBefore(mid, c, ps) by { NewBefore(db, ps); }
        OneMoreServed(db, mid, c, ps);
        FitsLast(db, c, ps);
      }
      if Fits(db, c, ps) {
        FitsBefore(db, c, ps);
        FitsSays(db, c, ps);
        OneMoreServed(db, mid, c, ps);
        ServedHaveRows(db, ApplyEach(db, c, ps), c, ps);
      }
    }
  }

  lemma NothingServed(db: CouponDb, c: Id)
    requires c in db.coupons && db.coupons[c].isActive
    ensures Fits(db, c, []) && Served(db, db, c, []) && AllHaveRows(db, c, [])
  {
  }

  lemma LastIsNew(db: CouponDb, ps: seq<Priced>)
    requires ps != [] && NewBookings(db, ps)
    ensures ps[|ps| - 1].booking !in db.usages
  {
  }

  lemma LastHasRow(db: CouponDb, c: Id, ps: seq<Priced>)
    requires ps != [] && AllHaveRows(db, c, ps)
    ensures HasRow(db, c, ps[|ps| - 1])
  {
  }

  lemma FitsSays(db: CouponDb, c: Id, ps: seq<Priced>)
    requires ps != [] && Fits(db, c, ps)
    ensures Enough(db.coupons[c], |ps|)
    ensures var u := ps[|ps| - 1].user; |UsesBy(db, c, {u})| + CountOf(ps, u) <= db.coupons[c].userUsageLimit
  {
  }

  lemma ServedHaveRows(db: CouponDb, db': CouponDb, c: Id, ps: seq<Priced>)
    requires Served(db, db', c, ps)
    ensures AllHaveRows(db', c, ps)
  {
  }

  lemma {:induction false} NoneApplies(db: CouponDb, c: Id, ps: seq<Priced>)
    requires c !in db.coupons || !db.coupons[c].isActive
    ensures ApplyEach(db, c, ps) == db
  {
    if ps == [] {
    } else {
      NoneApplies(db, c, ps[..|ps| - 1]);
    }
  }

  /** Bookings are priced and stored before their coupon is applied. Of several such bookings, of the
      same or of different users, every one gets its usage row, whatever the order of the applies, if
      and only if the coupon is active, has uses left for all, and each user may use it as often as
      that user's bookings ask; otherwise some booking keeps its discount without a row. */
  lemma EveryDiscountHasItsRowIff(db: CouponDb, c: Id, ps: seq<Priced>)
    requires ps != [] && NewBookings(db, ps)
    ensures AllHaveRows(ApplyEach(db, c, ps), c, ps) <==> Fits(db, c, ps)
  {
    hide UsesBy, Apply;
    if c in db.coupons && db.coupons[c].isActive {
      ServedIff(db, c, ps);
    } else {
      NoneApplies(db, c, ps);
      assert !HasRow(db, c, ps[0]);
    }
  }

  /** A quote allows for one more use, by its user and in all. */
  lemma QuoteSays(db: CouponDb, c: Id, user: Id, amount: real, now: int)
    requires Validate(db, c, user, amount, now).Ok?
    ensures c in db.coupons && db.coupons[c].isActive && Enough(db.coupons[c], 1)
    ensures |UsesBy(db, c, {user})| < db.coupons[c].userUsageLimit
  {
    hide UsesBy, Discount, FinalAmount, Cents;
  }

  lemma {:induction false} OneEach(ps: seq<Priced>, user: Id)
    requires forall i, j :: 0 <= i < j < |ps| ==> ps[i].user != ps[j].user
    ensures CountOf(ps, user) <= 1
    ensures (forall i :: 0 <= i < |ps| ==> ps[i].user != user) ==> CountOf(ps, user) == 0
  {
    if ps == [] {
    } else {
      OneEach(ps[..|ps| - 1], user);
    }
  }

  /** Quotes given to different users fall short of nothing but the coupon's uses. */
  lemma DifferentUsersIff(db: CouponDb, c: Id, ps: seq<Priced>, amount: real, now: int)
    requires ps != [] && NewBookings(db, ps)
    requires forall i :: 0 <= i < |ps| ==> Validate(db, c, ps[i].user, amount, now).Ok?
    requires forall i, j :: 0 <= i < j < |ps| ==> ps[i].user != ps[j].user
    ensures c in db.coupons
    ensures AllHaveRows(ApplyEach(db, c, ps), c, ps) <==> Enough(db.coupons[c], |ps|)
  {
    hide UsesBy, Validate, ApplyEach, AllHaveRows;
    EveryDiscountHasItsRowIff(db, c, ps);
    QuoteSays(db, c, ps[0].user, amount, now);
    forall i | 0 <= i < |ps|
      ensures |UsesBy(db, c, {ps[i].user})| + CountOf(ps, ps[i].user) <= db.coupons[c].userUsageLimit
    {
      QuoteSays(db, c, ps[i].user, amount, now);
      OneEach(ps, ps[i].user);
    }
  }

  lemma TwoRows(db: CouponDb, c: Id, p: Priced, q: Priced)
    ensures AllHaveRows(db, c, [p, q]) <==> HasRow(db, c, p) && HasRow(db, c, q)
  {
    assert [p, q][0] == p && [p, q][1] == q;
  }

  lemma FirstKeepsRow(db: CouponDb, c: Id, p: Priced, q: Priced)
    requires p.booking != q.booking
    ensures HasRow(ApplyEach(db, c, [p]), c, p) ==> HasRow(ApplyEach(db, c, [p, q]), c, p)
  {
    hide UsesBy;
    assert [p, q][..1] == [p];
  }

  /** One user who books two slots at the same time with a coupon that may be used once per user: both
      bookings are priced with a valid quote, however many uses the coupon has left, and only the first
      gets its row. */
  lemma SameUserLosesRow(db: CouponDb, c: Id, p: Priced, q: Priced, amount: real, now: int)
    requires Validate(db, c, p.user, amount, now).Ok? && db.coupons[c].userUsageLimit == 1
    requires q.user == p.user && NewBookings(db, [p, q])
    ensures Validate(db, c, q.user, amount, now).Ok?
    ensures HasRow(ApplyEach(db, c, [p, q]), c, p) && !HasRow(ApplyEach(db, c, [p, q]), c, q)
  {
    hide UsesBy, Validate, Apply, ApplyEach;
    QuoteSays(db, c, p.user, amount, now);
    assert [p, q][..1] == [p] && [p][..0] == [];
    assert CountOf([p], p.user) == 1 && CountOf([p, q], p.user) == 2;
    assert NewBookings(db, [p]);
    EveryDiscountHasItsRowIff(db, c, [p]);
    EveryDiscountHasItsRowIff(db, c, [p, q]);
    assert Fits(db, c, [p]) && !Fits(db, c, [p, q]);
    assert [p][0] == p && HasRow(ApplyEach(db, c, [p]), c, [p][0]);
    FirstKeepsRow(db, c, p, q);
    TwoRows(ApplyEach(db, c, [p, q]), c, p, q);
  }

  // ---- The service ----

  /** Unlimited (none or 0), or not used up. */
  predicate Remains(c: Coupon) {
    match c.usageLimit case None => true case Some(limit) => limit == 0 || c.usedCount < limit
  }

  function UsedBy(usages: map<Id, Usage>, c: Id, user: Id): set<Id> {
    set b | b in usages && usages[b].coupon == c && usages[b].user == user
  }

  class CouponService {
    var coupons: map<Id, Coupon>
    var usages: map<Id, Usage>

    function Snapshot(): CouponDb
      reads this
    {
      CouponDb(coupons, usages)
    }

    ghost predicate Valid()
      reads this
    {
      Conserved(Snapshot())
    }

    constructor ()
      ensures Valid() && coupons == map[] && usages == map[]
    {
      coupons, usages := map[], map[];
    }

    method ValidateAndCalculate(c: Id, user: Id, bookingAmount: real, now: int) returns (answer: Answer<Quote>)
      requires c in coupons ==> NonNegative(coupons[c])
      requires bookingAmount >= 0.0
      ensures answer == Validate(Snapshot(), c, user, bookingAmount, now)
      ensures answer.Ok? <==>
              c in coupons && coupons[c].isActive && coupons[c].validFrom <= now <= coupons[c].validUntil &&
              Remains(coupons[c]) && |UsedBy(usages, c, user)| < coupons[c].userUsageLimit &&
              (coupons[c].minOrderAmount > 0.0 ==> bookingAmount >= coupons[c].minOrderAmount)
      ensures !answer.Ok? ==> answer == Rejected
      ensures answer.Ok? ==>
                var d := Discount(coupons[c], bookingAmount);
                answer.value.finalAmount == (if d <= bookingAmount then bookingAmount - d else 0.0) &&
                d - 0.005 < answer.value.discount <= d + 0.005
      ensures answer.Ok? ==> 0.0 <= answer.value.finalAmount <= bookingAmount
    {
      hide Percent, UsesBy;
      if c !in coupons || !coupons[c].isActive { return Rejected; }
      var coupon := coupons[c];
      if now < coupon.validFrom || now > coupon.validUntil { return Rejected; }
      if LimitReached(coupon) { return Rejected; }
      var used := set b | b in usages && usages[b].coupon == c && usages[b].user == user;
      UsesByOne(Snapshot(), c, user, used);
      assert used == UsedBy(usages, c, user);
      if |used| >= coupon.userUsageLimit { return Rejected; }
      if coupon.minOrderAmount > 0.0 && bookingAmount < coupon.minOrderAmount { return Rejected; }
      var discount := 0.0;
      if coupon.discountType == PERCENTAGE {
        discount := Percent(bookingAmount, coupon.discountValue);
        if coupon.maxDiscountAmount > 0.0 {
          discount := MinOf(discount, coupon.maxDiscountAmount);
        }
      } else {
        discount := MinOf(coupon.discountValue, bookingAmount);
      }
      var finalAmount := bookingAmount - discount;
      FinalInRange(coupon, bookingAmount);
      return Ok(Quote(Cents(discount) as real / 100.0, MaxOf(finalAmount, 0.0)));
    }

    method ApplyCoupon(c: Id, user: Id, booking: Id, discount: real) returns (answer: Answer<()>)
      requires Valid()
      modifies this
      ensures Valid()
      ensures (Snapshot(), answer) == Apply(old(Snapshot()), c, user, booking, discount)
      ensures answer == NotFound <==> c !in old(coupons)
      ensures answer.Ok? <==>
              c in old(coupons) && old(coupons)[c].isActive && Remains(old(coupons)[c]) &&
              |UsedBy(old(usages), c, user)| < old(coupons)[c].userUsageLimit && booking !in old(usages)
      ensures answer.Ok? ==> WithinLimits(Snapshot(), c, user)
      ensures answer.Ok? ==> usages == old(usages)[booking := Usage(c, user, discount)]
      ensures answer.Ok? ==> coupons == old(coupons)[c := old(coupons)[c].(usedCount := old(coupons)[c].usedCount + 1)]
      ensures !answer.Ok? ==> Snapshot() == old(Snapshot())
    {
      if c !in coupons { return NotFound; }
      if !coupons[c].isActive { return Rejected; }
      if LimitReached(coupons[c]) { return Rejected; }
      var used := set b | b in usages && usages[b].coupon == c && usages[b].user == user;
      assert used == UsesBy(Snapshot(), c, {user}) == UsedBy(usages, c, user);
      if |used| >= coupons[c].userUsageLimit { return Rejected; }
      if booking in usages { return Duplicate; }
      RecordCounts(Snapshot(), c, user, booking, discount);
      usages := usages[booking := Usage(c, user, discount)];
      coupons := coupons[c := coupons[c].(usedCount := coupons[c].usedCount + 1)];
      return Ok(());
    }

    method ToggleActive(c: Id) returns (answer: Answer<()>)
      requires Valid()
      modifies this`coupons
      ensures Valid()
      ensures answer == if c in old(coupons) then Ok(()) else NotFound
      ensures answer.Ok? ==> coupons == old(coupons)[c := old(coupons)[c].(isActive := !old(coupons)[c].isActive)]
      ensures !answer.Ok? ==> coupons == old(coupons)
    {
      if c !in coupons { return NotFound; }
      ghost var before := Snapshot();
      coupons := coupons[c := coupons[c].(isActive := !coupons[c].isActive)];
      SameUsages(before, Snapshot());
      return Ok(());
    }

    /** Deletes a coupon that was never used; the foreign key would refuse any other. */
    method Delete(c: Id) returns (answer: Answer<()>)
      requires Valid()
      modifies this`coupons
      ensures Valid()
      ensures answer.Ok? <==> c in old(coupons) && old(coupons)[c].usedCount == 0
      ensures coupons == if answer.Ok? then old(coupons) - {c} else old(coupons)
    {
      if c !in coupons { return NotFound; }
      var used := set b | b in usages && usages[b].coupon == c;
      assert used == Uses(Snapshot(), c);
      if used != {} { return Rejected; }
      ghost var before := Snapshot();
      coupons := coupons - {c};
      SameUsages(before, Snapshot());
      assert forall b :: b in usages && usages[b].coupon == c ==> b in used;
      return Ok(());
    }
  }

  lemma SameUsages(db: CouponDb, db': CouponDb)
    requires db.usages == db'.usages
    ensures forall c :: Uses(db', c) == Uses(db, c)
  {
  }

  // ---- Interleavings ----

  /** An apply transaction: before, and after it has locked the coupon row and passed its checks. */
  datatype ApplyTxn =
    | Start(c: Id, user: Id, booking: Id, discount: real)
    | Locked(c: Id, user: Id, booking: Id, discount: real)
    | Counted(c: Id, user: Id, booking: Id, discount: real)

  datatype CouponSys = CouponSys(db: CouponDb, txns: map<Id, ApplyTxn>)

  datatype Act =
    | Begin(tid: Id, txn: ApplyTxn)
    | Advance(tid: Id)
    | Abort(tid: Id)
    | AdminAdd(c: Id, row: Coupon)
    | AdminWrite(c: Id, row: Coupon)
    | AdminDelete(c: Id)

  predicate HoldsLock(t: ApplyTxn, c: Id) {
    !t.Start? && t.c == c
  }

  predicate RowFree(s: CouponSys, c: Id, except: set<Id>) {
    forall u :: u in s.txns && u !in except ==> !HoldsLock(s.txns[u], c)
  }

  /** Row locks, the foreign key and the usage counter's own rule: admins never write it. */
  ghost predicate CanAct(s: CouponSys, a: Act) {
    match a
    case Begin(tid, t) => tid !in s.txns && t.Start?
    case Advance(tid) => tid in s.txns && RowFree(s, s.txns[tid].c, {tid})
    case Abort(tid) => tid in s.txns
    case AdminAdd(c, row) => c !in s.db.coupons && row.usedCount == 0
    case AdminWrite(c, row) => c in s.db.coupons && RowFree(s, c, {}) && row.usedCount == s.db.coupons[c].usedCount
    case AdminDelete(c) => c in s.db.coupons && RowFree(s, c, {}) && Uses(s.db, c) == {}
  }

  function Step1(s: CouponSys, tid: Id): CouponSys
    requires tid in s.txns
  {
    match s.txns[tid]
    case Start(c, u, b, d) =>
      if c !in s.db.coupons || !s.db.coupons[c].isActive || LimitReached(s.db.coupons[c])
      then s.(txns := s.txns - {tid}) else s.(txns := s.txns[tid := Locked(c, u, b, d)])
    case Locked(c, u, b, d) =>
      if c !in s.db.coupons || |UsesBy(s.db, c, {u})| >= s.db.coupons[c].userUsageLimit
      then s.(txns := s.txns - {tid}) else s.(txns := s.txns[tid := Counted(c, u, b, d)])
    case Counted(c, u, b, d) =>
      if c !in s.db.coupons || b in s.db.usages then s.(txns := s.txns - {tid})
      else CouponSys(Record(s.db, c, u, b, d), s.txns - {tid})
  }

  function DoAct(s: CouponSys, a: Act): CouponSys {
    match a
    case Begin(tid, t) => s.(txns := s.txns[tid := t])
    case Advance(tid) => if tid in s.txns then Step1(s, tid) else s
    case Abort(tid) => s.(txns := s.txns - {tid})
    case AdminAdd(c, row) => s.(db := s.db.(coupons := s.db.coupons[c := row]))
    case AdminWrite(c, row) => s.(db := s.db.(coupons := s.db.coupons[c := row]))
    case AdminDelete(c) => s.(db := s.db.(coupons := s.db.coupons - {c}))
  }

  /** An apply that nothing overlaps does in its steps what the one step does. */
  lemma AloneIsAtomic(s: CouponSys, tid: Id, c: Id, user: Id, booking: Id, discount: real)
    requires tid !in s.txns
    ensures var s1 := DoAct(s, Begin(tid, Start(c, user, booking, discount)));
            var s4 := DoAct(DoAct(DoAct(s1, Advance(tid)), Advance(tid)), Advance(tid));
            s4 == CouponSys(Apply(s.db, c, user, booking, discount).0, s.txns)
  {
    hide UsesBy;
  }

  ghost predicate CanActAll(s: CouponSys, acts: seq<Act>) {
    acts == [] || (CanActAll(s, acts[..|acts| - 1]) && CanAct(DoActs(s, acts[..|acts| - 1]), acts[|acts| - 1]))
  }

  function DoActs(s: CouponSys, acts: seq<Act>): CouponSys {
    if acts == [] then s else DoAct(DoActs(s, acts[..|acts| - 1]), acts[|acts| - 1])
  }

  ghost predicate Sees(db: CouponDb, t: ApplyTxn) {
    t.Start? ||
    (t.c in db.coupons && db.coupons[t.c].isActive && !LimitReached(db.coupons[t.c]) &&
     (t.Counted? ==> |UsesBy(db, t.c, {t.user})| < db.coupons[t.c].userUsageLimit))
  }

  ghost predicate CouponInv(s: CouponSys) {
    Conserved(s.db) &&
    (forall t :: t in s.txns ==> Sees(s.db, s.txns[t])) &&
    (forall t, u :: t in s.txns && u in s.txns && t != u && !s.txns[t].Start? ==> !HoldsLock(s.txns[u], s.txns[t].c))
  }

  /** A commit counts only towards its own coupon. */
  lemma OthersSee(db: CouponDb, c: Id, user: Id, booking: Id, discount: real, t: ApplyTxn)
    requires c in db.coupons && booking !in db.usages && Sees(db, t) && !HoldsLock(t, c)
    ensures Sees(Record(db, c, user, booking, discount), t)
  {
    if !t.Start? {
      assert UsesBy(Record(db, c, user, booking, discount), t.c, {t.user}) == UsesBy(db, t.c, {t.user});
    }
  }

  predicate Commits(s: CouponSys, tid: Id) {
    tid in s.txns && s.txns[tid].Counted? && s.txns[tid].c in s.db.coupons && s.txns[tid].booking !in s.db.usages
  }

  lemma AdminKeepsCount(db: CouponDb, a: Act)
    requires a.AdminAdd? || a.AdminWrite? || a.AdminDelete?
    requires Conserved(db)
    requires a.AdminAdd? ==> a.c !in db.coupons && a.row.usedCount == 0
    requires a.AdminWrite? ==> a.c in db.coupons && a.row.usedCount == db.coupons[a.c].usedCount
    requires a.AdminDelete? ==> Uses(db, a.c) == {}
    ensures Conserved(DoAct(CouponSys(db, map[]), a).db)
  {
    var db' := DoAct(CouponSys(db, map[]), a).db;
    SameUsages(db, db');
    if a.AdminAdd? {
      assert Uses(db, a.c) == {};
    }
    if a.AdminDelete? {
      assert forall b :: b in db.usages && db.usages[b].coupon == a.c ==> b in Uses(db, a.c);
    }
  }

  lemma ActKeepsInv(s: CouponSys, a: Act)
    requires CouponInv(s) && CanAct(s, a)
    ensures CouponInv(DoAct(s, a))
  {
    if a.Advance? && Commits(s, a.tid) {
      var t := s.txns[a.tid];
      RecordCounts(s.db, t.c, t.user, t.booking, t.discount);
      forall u | u in s.txns && u != a.tid
        ensures Sees(Record(s.db, t.c, t.user, t.booking, t.discount), s.txns[u])
      {
        OthersSee(s.db, t.c, t.user, t.booking, t.discount, s.txns[u]);
      }
    } else if a.AdminAdd? || a.AdminWrite? || a.AdminDelete? {
      AdminKeepsCount(s.db, a);
      forall u | u in s.txns
        ensures Sees(DoAct(s, a).db, s.txns[u])
      {
        if !s.txns[u].Start? {
          assert HoldsLock(s.txns[u], s.txns[u].c);
          assert UsesBy(DoAct(s, a).db, s.txns[u].c, {s.txns[u].user}) == UsesBy(s.db, s.txns[u].c, {s.txns[u].user});
        }
      }
    }
  }

  /** In every interleaving the counter of every coupon is the number of its usage rows. */
  lemma {:induction false} AlwaysConserved(s: CouponSys, acts: seq<Act>)
    requires CouponInv(s) && CanActAll(s, acts)
    ensures CouponInv(DoActs(s, acts))
  {
    if acts == [] {
    } else {
      AlwaysConserved(s, acts[..|acts| - 1]);
      ActKeepsInv(DoActs(s, acts[..|acts| - 1]), acts[|acts| - 1]);
    }
  }

  /** And every commit ends within the limits the coupon carries at that moment: overlapping
      applies and admin changes cannot push it over. */
  lemma CommitsWithinLimits(s: CouponSys, acts: seq<Act>, tid: Id)
    requires CouponInv(s) && CanActAll(s, acts)
    requires var mid := DoActs(s, acts); CanAct(mid, Advance(tid)) && Commits(mid, tid)
    ensures var mid := DoActs(s, acts); var s' := DoAct(mid, Advance(tid));
            WithinLimits(s'.db, mid.txns[tid].c, mid.txns[tid].user) &&
            s'.db.coupons[mid.txns[tid].c].usedCount == mid.db.coupons[mid.txns[tid].c].usedCount + 1
  {
    AlwaysConserved(s, acts);
    var mid := DoActs(s, acts);
    var t := mid.txns[tid];
    RecordCounts(mid.db, t.c, t.user, t.booking, t.discount);
  }
}
