/**
 Coupons, the automatic promotion, and which of the two a checkout applies.

 Amounts are whole paise; a percentage is in hundredths of a percent. Checkout
 and its preview choose between the two discounts in separate code.
 */
module Discounts {
  import opened Wrappers
  import opened Rounding

  const AUTO_PROMO_MIN_ITEMS := 2
  const AUTO_PROMO_RATE := 0.1
  const AUTO_PROMO_MAX := 5000

  datatype Offer = Percent(rate: int, cap: Option<int>) | Flat(amount: int)

  datatype Coupon = Coupon(
    active: bool, from: Option<int>, until: Option<int>, minimum: int,
    usageLimit: Option<nat>, perUserLimit: nat, offer: Offer)

  datatype Refusal = Inactive | TooEarly | Expired | BelowMinimum | UsedUp | AlreadyUsed

  datatype Redemption = Redemption(user: nat, amount: int)

  function Least(a: real, b: real): real {
    if b < a then b else a
  }

  // ----- what each discount is worth -----

  function AutoPromo(items: nat, subtotal: nat): int {
    if items < AUTO_PROMO_MIN_ITEMS then 0
    else RoundHalfEven(Least(subtotal as real * AUTO_PROMO_RATE, AUTO_PROMO_MAX as real))
  }

  function Share(rate: int, subtotal: nat): real {
    subtotal as real * (rate as real / 10000.0)
  }

  function Unrounded(offer: Offer, subtotal: nat): real {
    match offer
    case Percent(rate, cap) =>
      var discount := Share(rate, subtotal);
      if cap.Some? then Least(discount, cap.value as real) else discount
    case Flat(amount) => amount as real
  }

  function CalculateDiscount(offer: Offer, subtotal: nat): int {
    RoundHalfEven(Least(Unrounded(offer, subtotal), subtotal as real))
  }

  /** What checkout stores: the discount, and whether it is the coupon's. */
  function Stored(offer: Option<Offer>, items: nat, subtotal: nat): (int, bool) {
    var auto := AutoPromo(items, subtotal);
    var coupon := if offer.Some? then CalculateDiscount(offer.value, subtotal) else 0;
    var useCoupon := offer.Some? && coupon >= auto && coupon > 0;
    var usePromo := !useCoupon && auto > 0;
    if useCoupon then (coupon, true) else if usePromo then (auto, false) else (0, false)
  }

  /** What the checkout page shows before the order is placed. */
  function Preview(offer: Option<Offer>, items: nat, subtotal: nat): int {
    var auto := AutoPromo(items, subtotal);
    var coupon := if offer.Some? then CalculateDiscount(offer.value, subtotal) else 0;
    if offer.Some? && coupon >= auto && coupon > 0 then coupon
    else if auto > 0 then auto
    else 0
  }

  function Payable(offer: Option<Offer>, items: nat, subtotal: nat): int {
    subtotal - Stored(offer, items, subtotal).0
  }

  /** Two items on: a tenth of the subtotal to the nearest paisa up to Rs 500, then Rs 50. */
  lemma AutoPromoIsFair(items: nat, subtotal: nat)
    ensures 0 <= AutoPromo(items, subtotal) <= subtotal
    ensures items < 2 ==> AutoPromo(items, subtotal) == 0
    ensures items >= 2 && subtotal >= 50000 ==> AutoPromo(items, subtotal) == 5000
    ensures items >= 2 && subtotal < 50000 ==>
              var miss := 10 * AutoPromo(items, subtotal) - subtotal;
              -5 <= miss <= 5 && (miss == 5 || miss == -5 ==> AutoPromo(items, subtotal) % 2 == 0)
  {
  }

  /**
   The better of the two and never both: the stored discount is the larger one, the preview showed
   exactly it, and the payable total stays between nothing and the subtotal, whatever cap or value
   the coupon row holds.
   */
  lemma BestOfTwo(offer: Option<Offer>, items: nat, subtotal: nat)
    ensures var auto := AutoPromo(items, subtotal);
            var coupon := if offer.Some? then CalculateDiscount(offer.value, subtotal) else 0;
            var (stored, redeemed) := Stored(offer, items, subtotal);
            && stored == Max(auto, coupon) == Preview(offer, items, subtotal)
            && 0 <= Payable(offer, items, subtotal) <= subtotal
            && (redeemed <==> coupon >= auto && coupon > 0)
  {
  }

  lemma SmallShare(rate: int, subtotal: nat)
    requires rate < 10000
    ensures Share(rate, subtotal + 1) - Share(rate, subtotal) < 1.0
    ensures Share(rate, subtotal + 1) < (subtotal + 1) as real
  {
  }

  lemma WholeShare(rate: int, subtotal: nat)
    requires rate >= 10000
    ensures Share(rate, subtotal) >= subtotal as real
  {
  }

  /** A percentage of a hundred or more is worth the cap, or everything. */
  lemma WholeCoupon(rate: int, cap: Option<int>, subtotal: nat)
    requires rate >= 10000
    ensures CalculateDiscount(Percent(rate, cap), subtotal)
            == if cap.Some? && cap.value < subtotal then cap.value else subtotal
  {
    WholeShare(rate, subtotal);
    WholeStays(subtotal);
    if cap.Some? {
      WholeStays(cap.value);
    }
  }

  /**
   What a coupon is worth: its flat amount, or its hundredths of a percent of the subtotal to the
   nearest paisa, the even one of two; never more than its cap, if it has one, nor than the subtotal.
   */
  lemma CouponIsWorth(rate: int, cap: int, subtotal: nat)
    ensures CalculateDiscount(Flat(cap), subtotal) == if cap < subtotal then cap else subtotal
    ensures rate <= 10000 ==>
              var discount := CalculateDiscount(Percent(rate, None), subtotal);
              var miss := 10000 * discount - subtotal * rate;
              -5000 <= miss <= 5000 && (miss == 5000 || miss == -5000 ==> discount % 2 == 0)
    ensures rate > 10000 ==> CalculateDiscount(Percent(rate, None), subtotal) == subtotal
    ensures CalculateDiscount(Percent(rate, Some(cap)), subtotal)
            == var uncapped := CalculateDiscount(Percent(rate, None), subtotal);
               if cap < uncapped then cap else uncapped
  {
    WholeStays(cap);
    WholeStays(subtotal);
    if rate > 10000 {
      WholeCoupon(rate, None, subtotal);
      WholeCoupon(rate, Some(cap), subtotal);
    } else {
      PercentIsWorth(rate, subtotal);
      LeastRounds(Least(Share(rate, subtotal), subtotal as real), cap);
      assert Least(Least(Share(rate, subtotal), cap as real), subtotal as real)
             == Least(Least(Share(rate, subtotal), subtotal as real), cap as real);
    }
  }

  lemma LeastRounds(x: real, cap: int)
    ensures RoundHalfEven(Least(x, cap as real)) == if cap < RoundHalfEven(x) then cap else RoundHalfEven(x)
  {
    WholeStays(cap);
    RoundingIsMonotone(Least(x, cap as real), x);
    if cap as real < x {
      RoundingIsMonotone(cap as real, x);
    }
  }

  lemma PercentIsWorth(rate: int, subtotal: nat)
    requires rate <= 10000
    ensures var discount := CalculateDiscount(Percent(rate, None), subtotal);
            var miss := 10000 * discount - subtotal * rate;
            -5000 <= miss <= 5000 && (miss == 5000 || miss == -5000 ==> discount % 2 == 0)
  {
    var exact := Share(rate, subtotal);
    PercentOf(rate, subtotal);
    RoundsToNearest(exact, CalculateDiscount(Percent(rate, None), subtotal));
  }

  lemma PercentOf(rate: int, subtotal: nat)
    ensures 10000.0 * Share(rate, subtotal) == (subtotal * rate) as real
    ensures rate <= 10000 ==> Share(rate, subtotal) <= subtotal as real
  {
    if rate <= 10000 {
      ProductSign(subtotal as real, (10000 - rate) as real);
    }
  }

  /** One more paisa of subtotal raises a discount by at most one paisa. */
  lemma CouponGrowsSlowly(offer: Offer, subtotal: nat)
    ensures CalculateDiscount(offer, subtotal + 1) <= CalculateDiscount(offer, subtotal) + 1
  {
    match offer
    case Flat(amount) =>
      WholeStays(amount);
      WholeStays(subtotal);
      WholeStays(subtotal + 1);
    case Percent(rate, cap) =>
      if rate < 10000 {
        SmallShare(rate, subtotal);
        CloseStaysClose(Least(Unrounded(offer, subtotal), subtotal as real),
                        Least(Unrounded(offer, subtotal + 1), (subtotal + 1) as real));
      } else {
        WholeCoupon(rate, cap, subtotal);
        WholeCoupon(rate, cap, subtotal + 1);
      }
  }

  lemma PromoGrowsSlowly(items: nat, subtotal: nat)
    ensures AutoPromo(items, subtotal + 1) <= AutoPromo(items, subtotal) + 1
  {
  }

  lemma OnePaisaMore(offer: Option<Offer>, items: nat, subtotal: nat)
    ensures Payable(offer, items, subtotal) <= Payable(offer, items, subtotal + 1)
  {
    BestOfTwo(offer, items, subtotal);
    BestOfTwo(offer, items, subtotal + 1);
    PromoGrowsSlowly(items, subtotal);
    if offer.Some? {
      CouponGrowsSlowly(offer.value, subtotal);
    }
  }

  /** A dearer cart never costs less, rounding included, for one coupon and one promotion standing. */
  lemma {:induction false} DearerCartsCostMore(offer: Option<Offer>, items: nat, low: nat, high: nat)
    requires low <= high
    ensures Payable(offer, items, low) <= Payable(offer, items, high)
    decreases high
  {
    if low < high {
      DearerCartsCostMore(offer, items, low, high - 1);
      OnePaisaMore(offer, items, high - 1);
    }
  }

  // ----- whether a coupon applies, and how often -----

  function UsedBy(redemptions: seq<Redemption>, user: nat): nat {
    if redemptions == [] then 0
    else UsedBy(redemptions[..|redemptions| - 1], user) + if redemptions[|redemptions| - 1].user == user then 1 else 0
  }

  /** The places of one buyer's redemptions. */
  ghost function Uses(redemptions: seq<Redemption>, user: nat): set<nat> {
    set k: nat | k < |redemptions| && redemptions[k].user == user
  }

  lemma {:induction false} UsedByCounts(redemptions: seq<Redemption>, user: nat)
    ensures UsedBy(redemptions, user) == |Uses(redemptions, user)|
  {
    if redemptions != [] {
      var n := |redemptions| - 1;
      UsedByCounts(redemptions[..n], user);
      if redemptions[n].user == user {
        assert Uses(redemptions, user) == Uses(redemptions[..n], user) + {n};
      } else {
        assert Uses(redemptions, user) == Uses(redemptions[..n], user);
      }
    }
  }

  function ValidateFor(c: Coupon, redemptions: seq<Redemption>, now: int, user: nat, subtotal: nat): Option<Refusal> {
    if !c.active then Some(Inactive)
    else if c.from.Some? && now < c.from.value then Some(TooEarly)
    else if c.until.Some? && now > c.until.value then Some(Expired)
    else if subtotal < c.minimum then Some(BelowMinimum)
    else if c.usageLimit.Some? && |redemptions| >= c.usageLimit.value then Some(UsedUp)
    else if c.perUserLimit != 0 && UsedBy(redemptions, user) >= c.perUserLimit then Some(AlreadyUsed)
    else None
  }

  datatype Visit = Visit(now: int, user: nat, items: nat, subtotal: nat)

  /** One checkout with the coupon's code: refused, or placed, with a redemption only if the coupon won. */
  function Redeem(c: Coupon, redemptions: seq<Redemption>, v: Visit): seq<Redemption> {
    if ValidateFor(c, redemptions, v.now, v.user, v.subtotal).Some? then redemptions
    else
      var (discount, redeemed) := Stored(Some(c.offer), v.items, v.subtotal);
      if redeemed then redemptions + [Redemption(v.user, discount)] else redemptions
  }

  function RedeemAll(c: Coupon, visits: seq<Visit>): seq<Redemption> {
    if visits == [] then [] else Redeem(c, RedeemAll(c, visits[..|visits| - 1]), visits[|visits| - 1])
  }

  /** A checkout uses the coupon up exactly when it applies in every respect and beats the promotion. */
  lemma RedeemedWhenItWins(c: Coupon, redemptions: seq<Redemption>, v: Visit)
    ensures var discount := CalculateDiscount(c.offer, v.subtotal);
            var after := Redeem(c, redemptions, v);
            if && c.active && (c.from.Some? ==> c.from.value <= v.now) && (c.until.Some? ==> v.now <= c.until.value)
               && c.minimum <= v.subtotal && (c.usageLimit.Some? ==> |redemptions| < c.usageLimit.value)
               && (c.perUserLimit > 0 ==> |Uses(redemptions, v.user)| < c.perUserLimit)
               && discount > 0 && discount >= AutoPromo(v.items, v.subtotal)
            then after == redemptions + [Redemption(v.user, discount)]
            else after == redemptions
  {
    UsedByCounts(redemptions, v.user);
  }

  /** The reason given is the first that holds, in the order active, from, until, minimum, all uses, own uses. */
  lemma WhyRefused(c: Coupon, redemptions: seq<Redemption>, now: int, user: nat, subtotal: nat)
    ensures var refusal := ValidateFor(c, redemptions, now, user, subtotal);
            var early, late := c.from.Some? && now < c.from.value, c.until.Some? && c.until.value < now;
            var small := subtotal < c.minimum;
            var gone := c.usageLimit.Some? && c.usageLimit.value <= |redemptions|;
            && (refusal == Some(Inactive) <==> !c.active)
            && (refusal == Some(TooEarly) <==> c.active && early)
            && (refusal == Some(Expired) <==> c.active && !early && late)
            && (refusal == Some(BelowMinimum) <==> c.active && !early && !late && small)
            && (refusal == Some(UsedUp) <==> c.active && !early && !late && !small && gone)
            && (refusal == Some(AlreadyUsed) <==>
                  && c.active && !early && !late && !small && !gone
                  && 0 < c.perUserLimit <= |Uses(redemptions, user)|)
  {
    UsedByCounts(redemptions, user);
  }

  lemma {:induction false} EveryRunWithin(c: Coupon, visits: seq<Visit>, user: nat)
    ensures var r := RedeemAll(c, visits);
            && (c.usageLimit.Some? ==> |r| <= c.usageLimit.value)
            && (c.perUserLimit != 0 ==> UsedBy(r, user) <= c.perUserLimit)
            && forall x <- r :: x.amount > 0
  {
    if visits != [] {
      var n := |visits| - 1;
      EveryRunWithin(c, visits[..n], user);
      var before, v := RedeemAll(c, visits[..n]), visits[n];
      var after := Redeem(c, before, v);
      if after != before {
        BestOfTwo(Some(c.offer), v.items, v.subtotal);
        var (discount, redeemed) := Stored(Some(c.offer), v.items, v.subtotal);
        assert redeemed && discount > 0;
        assert after == before + [Redemption(v.user, discount)];
        assert after[..|before|] == before;
      }
    }
  }

  /** However buyers come and go, a coupon is redeemed within both its limits, for a positive amount each time. */
  lemma LimitsHold(c: Coupon, visits: seq<Visit>, user: nat)
    ensures var r := RedeemAll(c, visits);
            && (c.usageLimit.Some? ==> |r| <= c.usageLimit.value)
            && (c.perUserLimit != 0 ==> |Uses(r, user)| <= c.perUserLimit)
            && forall x <- r :: x.amount > 0
  {
    EveryRunWithin(c, visits, user);
    UsedByCounts(RedeemAll(c, visits), user);
  }
}
