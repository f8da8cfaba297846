/** Brokerage fee schedules ("grilles") and the evaluator that turns a trade
    amount into the fee a broker charges for it. Amounts and rates are `real`;
    rates are in percentage points (0.5 means 0.5 %). */
module FeeSchedule {
  import opened Wrappers

  /** How a flat schedule or a tier charges. A tag the evaluator does not
      recognise is kept, because the evaluator treats it as "no fee here". */
  datatype FeeKind = Fixed | Percentage | UnknownKind(tag: string)

  /** Upper end of a tier: an exclusive bound, or none (an infinite `max`). */
  datatype Ceiling = Below(limit: real) | NoCeiling

  /** One tier ("palier") covering the half-open range [min, max). The
      optional `minFee` floor only applies to a percentage tier. */
  datatype Tier = Tier(min: real, max: Ceiling, kind: FeeKind, fee: real, minFee: Option<real>)

  datatype Schedule =
    | Simple(kind: FeeKind, fee: real)
    | Tiered(tiers: seq<Tier>)
    | Mixed(threshold: real, fixed: real, percentage: real)
    | UnknownSchedule(tag: string)

  /** A broker and its named schedules. */
  datatype Broker = Broker(grilles: map<string, Schedule>)

  /** Broker name to broker: the parsed broker file. */
  type Catalogue = map<string, Broker>

  function Percent(amount: real, rate: real): real {
    amount * rate / 100.0
  }

  function Max(a: real, b: real): real {
    if a >= b then a else b
  }

  predicate UnderCeiling(c: Ceiling, x: real) {
    c.NoCeiling? || x < c.limit
  }

  predicate InTier(t: Tier, amount: real) {
    t.min <= amount && UnderCeiling(t.max, amount)
  }

  /** The floor of a percentage tier; an absent `min_fee` counts as 0. */
  function FloorOf(t: Tier): real {
    t.minFee.GetOr(0.0)
  }

  /** A tier ends the scan when it contains the amount and its kind is known;
      a containing tier of unknown kind is skipped. */
  predicate Decides(t: Tier, amount: real) {
    InTier(t, amount) && !t.kind.UnknownKind?
  }

  /** What a deciding tier charges: a fixed tier its fee; a percentage tier
      the raw percentage raised to its floor, so never less than either and
      always one of the two. */
  function TierCharge(t: Tier, amount: real): (r: real)
    requires !t.kind.UnknownKind?
    ensures t.kind.Fixed? ==> r == t.fee
    ensures t.kind.Percentage? ==> r >= FloorOf(t) && r >= Percent(amount, t.fee)
    ensures t.kind.Percentage? ==> r == FloorOf(t) || r == Percent(amount, t.fee)
  {
    if t.kind.Fixed? then t.fee else Max(Percent(amount, t.fee), FloorOf(t))
  }

  /** `i` is the first tier, in sequence order, that decides `amount`. */
  ghost predicate FirstDecider(tiers: seq<Tier>, amount: real, i: int) {
    && 0 <= i < |tiers|
    && Decides(tiers[i], amount)
    && forall j :: 0 <= j < i ==> !Decides(tiers[j], amount)
  }

  /** The scan over the tiers: the index of the tier that decides the fee. */
  function TierLookup(tiers: seq<Tier>, amount: real): (r: Option<nat>)
    ensures r.Some? ==> FirstDecider(tiers, amount, r.value)
    ensures r.None? <==> forall i :: 0 <= i < |tiers| ==> !Decides(tiers[i], amount)
    decreases |tiers|
  {
    if |tiers| == 0 then None
    else if Decides(tiers[0], amount) then Some(0)
    else
      var rest := TierLookup(tiers[1..], amount);
      if rest.None? then None
      else
        assert forall j :: 0 < j <= rest.value ==> tiers[j] == tiers[1..][j - 1];
        Some(rest.value + 1)
  }

  /** The fee a schedule charges on `amount`. A flat schedule charges its
      fee or its percentage; a tiered one what its first deciding tier
      charges; a mixed one its fixed fee up to and including the threshold
      and its percentage above; 0 whenever nothing applies. */
  function ScheduleFee(s: Schedule, amount: real): (r: real)
    ensures s.Simple? && s.kind.Fixed? ==> r == s.fee
    ensures s.Simple? && s.kind.Percentage? ==> r * 100.0 == amount * s.fee
    ensures s.Tiered? ==> forall i :: FirstDecider(s.tiers, amount, i) ==> r == TierCharge(s.tiers[i], amount)
    ensures s.Tiered? && (forall i :: 0 <= i < |s.tiers| ==> !Decides(s.tiers[i], amount)) ==> r == 0.0
    ensures s.Mixed? && amount <= s.threshold ==> r == s.fixed
    ensures s.Mixed? && amount > s.threshold ==> r * 100.0 == amount * s.percentage
    ensures s.UnknownSchedule? || (s.Simple? && s.kind.UnknownKind?) ==> r == 0.0
  {
    match s
    case Simple(kind, fee) =>
      if kind.Fixed? then fee
      else if kind.Percentage? then Percent(amount, fee)
      else 0.0
    case Tiered(tiers) =>
      var found := TierLookup(tiers, amount);
      FirstDeciderIsFound(tiers, amount);
      if found.Some? then TierCharge(tiers[found.value], amount) else 0.0
    case Mixed(threshold, fixed, percentage) =>
      if amount <= threshold then fixed else Percent(amount, percentage)
    case UnknownSchedule(_) => 0.0
  }

  /** The schedule named `grille` of broker `broker`, if the catalogue has it. */
  function Lookup(cat: Catalogue, broker: string, grille: string): (r: Option<Schedule>)
    ensures r.Some? <==> broker in cat && grille in cat[broker].grilles
    ensures r.Some? ==> r.value == cat[broker].grilles[grille]
  {
    if broker in cat && grille in cat[broker].grilles then Some(cat[broker].grilles[grille])
    else None
  }

  /** The fee for a trade of `amount` under a named broker schedule. A missing
      broker or schedule is not an error: the fee is 0. */
  function Fee(amount: real, broker: string, grille: string, cat: Catalogue): (r: real)
    ensures Lookup(cat, broker, grille).None? ==> r == 0.0
    ensures Lookup(cat, broker, grille).Some? ==> r == ScheduleFee(Lookup(cat, broker, grille).value, amount)
  {
    match Lookup(cat, broker, grille)
    case None => 0.0
    case Some(s) => ScheduleFee(s, amount)
  }

  // ---------------------------------------------------------------------
  // Properties of the evaluator
  // ---------------------------------------------------------------------

  /** A flat fixed schedule charges its fee whatever the amount. */
  lemma SimpleFixedIgnoresAmount(fee: real, a: real, b: real)
    ensures ScheduleFee(Simple(Fixed, fee), a) == fee
    ensures ScheduleFee(Simple(Fixed, fee), a) == ScheduleFee(Simple(Fixed, fee), b)
  {
  }

  /** A flat percentage schedule charges exactly `rate` hundredths of the amount. */
  lemma SimplePercentageIsProportional(rate: real, amount: real)
    ensures ScheduleFee(Simple(Percentage, rate), amount) * 100.0 == amount * rate
  {
  }

  /** The scan finds the first deciding tier whenever there is one. */
  lemma FirstDeciderIsFound(tiers: seq<Tier>, amount: real)
    ensures forall i :: FirstDecider(tiers, amount, i) ==> TierLookup(tiers, amount) == Some(i)
  {
    forall i | FirstDecider(tiers, amount, i)
      ensures TierLookup(tiers, amount) == Some(i)
    {
      FirstDeciderUnique(tiers, amount, i, TierLookup(tiers, amount).value);
    }
  }

  /** At most one tier is the first decider. */
  lemma FirstDeciderUnique(tiers: seq<Tier>, amount: real, i: int, k: int)
    requires FirstDecider(tiers, amount, i) && FirstDecider(tiers, amount, k)
    ensures i == k
  {
  }

  /** A tiered schedule in which no tier contains the amount (with a known
      kind) charges nothing. */
  lemma TieredOutOfRangeIsFree(tiers: seq<Tier>, amount: real)
    requires forall i :: 0 <= i < |tiers| ==> !Decides(tiers[i], amount)
    ensures ScheduleFee(Tiered(tiers), amount) == 0.0
  {
  }

  /** A mixed schedule charges the fixed fee up to and including the threshold
      and the plain percentage strictly above it. */
  lemma MixedSplitsAtThreshold(threshold: real, fixed: real, pct: real, amount: real)
    ensures amount <= threshold ==> ScheduleFee(Mixed(threshold, fixed, pct), amount) == fixed
    ensures amount > threshold ==> ScheduleFee(Mixed(threshold, fixed, pct), amount) * 100.0 == amount * pct
  {
  }

  /** A schedule type or a flat fee kind the evaluator does not recognise
      costs nothing, whatever its configured fee. */
  lemma UnknownTagIsFree(tag: string, fee: real, amount: real)
    ensures ScheduleFee(UnknownSchedule(tag), amount) == 0.0
    ensures ScheduleFee(Simple(UnknownKind(tag), fee), amount) == 0.0
  {
  }

  /** Every fee, rate and floor in the schedule is non-negative. */
  ghost predicate WellSigned(s: Schedule) {
    match s
    case Simple(_, fee) => fee >= 0.0
    case Tiered(tiers) =>
      forall i :: 0 <= i < |tiers| ==> tiers[i].fee >= 0.0 && FloorOf(tiers[i]) >= 0.0
    case Mixed(_, fixed, percentage) => fixed >= 0.0 && percentage >= 0.0
    case UnknownSchedule(_) => true
  }

  /** Non-negative rates produce a non-negative percentage of a non-negative amount. */
  lemma PercentNonNegative(amount: real, rate: real)
    requires amount >= 0.0 && rate >= 0.0
    ensures Percent(amount, rate) >= 0.0
  {
    assert amount * rate >= 0.0;
  }

  /** With non-negative configuration values, a non-negative amount is never
      charged a negative fee. */
  lemma ScheduleFeeNonNegative(s: Schedule, amount: real)
    requires WellSigned(s) && amount >= 0.0
    ensures ScheduleFee(s, amount) >= 0.0
  {
    match s
    case Simple(kind, fee) =>
      PercentNonNegative(amount, fee);
    case Tiered(tiers) =>
      var found := TierLookup(tiers, amount);
      if found.Some? {
        PercentNonNegative(amount, tiers[found.value].fee);
      }
    case Mixed(_, _, percentage) =>
      PercentNonNegative(amount, percentage);
    case UnknownSchedule(_) =>
  }

  /** The same, through the broker catalogue: a missing schedule costs 0. */
  lemma FeeNonNegative(amount: real, broker: string, grille: string, cat: Catalogue)
    requires amount >= 0.0
    requires Lookup(cat, broker, grille).Some? ==> WellSigned(Lookup(cat, broker, grille).value)
    ensures Fee(amount, broker, grille, cat) >= 0.0
  {
    if Lookup(cat, broker, grille).Some? {
      ScheduleFeeNonNegative(Lookup(cat, broker, grille).value, amount);
    }
  }

  /** Two tiers share an amount: the larger of their lower ends lies under both ceilings. */
  predicate Overlap(s: Tier, t: Tier) {
    var low := Max(s.min, t.min);
    UnderCeiling(s.max, low) && UnderCeiling(t.max, low)
  }

  /** No amount falls in two tiers: the configuration the broker file is meant to follow. */
  predicate Disjoint(tiers: seq<Tier>) {
    forall i, j :: 0 <= i < j < |tiers| ==> !Overlap(tiers[i], tiers[j])
  }

  lemma CommonAmountOverlaps(s: Tier, t: Tier, amount: real)
    requires InTier(s, amount) && InTier(t, amount)
    ensures Overlap(s, t)
  {
  }

  /** With disjoint tiers the order of the scan is irrelevant: any tier that
      decides the amount is the one whose formula applies. */
  lemma DisjointTierDecides(tiers: seq<Tier>, amount: real, i: int)
    requires Disjoint(tiers)
    requires 0 <= i < |tiers| && Decides(tiers[i], amount)
    ensures ScheduleFee(Tiered(tiers), amount) == TierCharge(tiers[i], amount)
  {
    var found := TierLookup(tiers, amount);
    assert found.Some?;
    var k := found.value;
    if k < i {
      CommonAmountOverlaps(tiers[k], tiers[i], amount);
    }
    assert k == i;
  }

  /** Two amounts that lie in exactly the same tiers are decided by the same
      tier: moving an amount without crossing a tier boundary never changes
      which formula is applied. */
  lemma {:induction false} SameTiersSameDecider(tiers: seq<Tier>, a: real, b: real)
    requires forall i :: 0 <= i < |tiers| ==> (InTier(tiers[i], a) <==> InTier(tiers[i], b))
    ensures TierLookup(tiers, a) == TierLookup(tiers, b)
    decreases |tiers|
  {
    if |tiers| > 0 {
      assert InTier(tiers[0], a) <==> InTier(tiers[0], b);
      if !Decides(tiers[0], a) {
        forall i | 0 <= i < |tiers[1..]|
          ensures InTier(tiers[1..][i], a) <==> InTier(tiers[1..][i], b)
        {
          assert tiers[1..][i] == tiers[i + 1];
        }
        SameTiersSameDecider(tiers[1..], a, b);
      }
    }
  }
}
