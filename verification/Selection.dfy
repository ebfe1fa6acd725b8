/**
  Choosing which value records pay an amount. The table over subtotals only ever splits the last record it
  takes, and still finds a best choice among all ways of paying.
 */
module Selection {
  import opened Prelude
  import opened Sorting
  import opened Values
  import opened Types

  datatype LocalValueRecord = LocalValueRecord(
    id: nat,
    value: ValueRange,
    history: Witness,
    status: Status,
    acquiredAt: nat)

  // ----- The cost of a plan

  /** A count of confirmed units, or no bound at all. */
  datatype Units = Finite(n: nat) | Infinite

  function AddUnits(x: Units, y: Units): Units {
    if x.Finite? && y.Finite? then Finite(x.n + y.n) else Infinite
  }

  function TotalUnits(w: Witness): nat
    decreases w
  {
    |w.chain| + if w.anchor.PriorWitnessLink? then TotalUnits(w.anchor.prior) else 0
  }

  function UnitsToCheckpoint(w: Witness): Units
    decreases w
  {
    match w.anchor
    case CheckpointAnchor(_) => Finite(|w.chain|)
    case PriorWitnessLink(_, prior) => AddUnits(Finite(|w.chain|), UnitsToCheckpoint(prior))
    case GenesisAnchor(_, _, _) => Infinite
  }

  /** What the owner knows when choosing: its spendable records in order, and its checkpoints. */
  datatype Purse = Purse(records: seq<LocalValueRecord>, checkpoints: seq<Checkpoint>, owner: Address) {
    predicate HasCheckpoint(i: nat)
      requires i < |records|
    {
      exists k :: 0 <= k < |checkpoints| && checkpoints[k].Matches(records[i].value, owner)
    }

    function Size(i: nat): positive
      requires i < |records|
    {
      records[i].value.Size()
    }

    /** How far the record is from a checkpoint. */
    function Distance(i: nat): Units
      requires i < |records|
    {
      if HasCheckpoint(i) then Finite(0) else UnitsToCheckpoint(records[i].history)
    }

    /** Every record has, or ends in, a checkpoint. */
    predicate Bounded() {
      forall i :: 0 <= i < |records| ==> Distance(i).Finite?
    }
  }

  /** Taking `take` units from the front of record `index`. */
  datatype Pick = Pick(index: nat, take: nat)

  type Plan = seq<Pick>

  datatype Cost = Cost(
    count: nat, splits: nat, misses: nat, anchor: Units, units: nat, freshness: int, order: seq<(nat, nat)>)

  predicate UnitsLess(x: Units, y: Units) {
    x.Finite? && (y.Infinite? || x.n < y.n)
  }

  predicate PairLe(x: (nat, nat), y: (nat, nat)) {
    x.0 < y.0 || (x.0 == y.0 && x.1 <= y.1)
  }

  predicate OrderLess(x: seq<(nat, nat)>, y: seq<(nat, nat)>) {
    if y == [] then false
    else if x == [] then true
    else if x[0] == y[0] then OrderLess(x[1..], y[1..])
    else PairLe(x[0], y[0])
  }

  /** Tuples compare component by component. */
  predicate CostLess(x: Cost, y: Cost) {
    if x.count != y.count then x.count < y.count
    else if x.splits != y.splits then x.splits < y.splits
    else if x.misses != y.misses then x.misses < y.misses
    else if x.anchor != y.anchor then UnitsLess(x.anchor, y.anchor)
    else if x.units != y.units then x.units < y.units
    else if x.freshness != y.freshness then x.freshness < y.freshness
    else OrderLess(x.order, y.order)
  }

  lemma {:induction false} OrdersCompare(x: seq<(nat, nat)>, y: seq<(nat, nat)>)
    ensures x != y ==> (OrderLess(x, y) <==> !OrderLess(y, x))
    ensures !OrderLess(x, x)
  {
    if x != [] {
      OrdersCompare(x[1..], x[1..]);
      if y != [] && x[0] == y[0] {
        OrdersCompare(x[1..], y[1..]);
        assert x == [x[0]] + x[1..] && y == [y[0]] + y[1..];
      }
    }
  }

  /** Of two different costs exactly one is the smaller, and no cost is smaller than itself. */
  lemma {:induction false} CostsCompare(x: Cost, y: Cost)
    ensures x != y ==> (CostLess(x, y) <==> !CostLess(y, x))
    ensures !CostLess(x, x)
  {
    OrdersCompare(x.order, y.order);
  }

  /** Every pick names a record. */
  predicate InRange(purse: Purse, plan: Plan) {
    plan != [] ==> plan[|plan| - 1].index < |purse.records| && InRange(purse, plan[..|plan| - 1])
  }

  lemma {:induction false} InRangeAt(purse: Purse, plan: Plan, k: nat)
    requires InRange(purse, plan) && k <= |plan|
    ensures InRange(purse, plan[..k]) && (k < |plan| ==> plan[k].index < |purse.records|)
  {
    if k < |plan| {
      assert plan[..|plan| - 1][..k] == plan[..k];
      InRangeAt(purse, plan[..|plan| - 1], k);
    } else {
      assert plan[..k] == plan;
    }
  }

  /** The cost of a plan, its picks still in the order of the plan. */
  function CostOf(purse: Purse, plan: Plan): Cost
    requires InRange(purse, plan)
  {
    if plan == [] then Cost(0, 0, 0, Finite(0), 0, 0, [])
    else
      var before, last := CostOf(purse, plan[..|plan| - 1]), plan[|plan| - 1];
      var record := purse.records[last.index];
      Cost(before.count + 1,
           before.splits + if last.take < record.value.Size() then 1 else 0,
           before.misses + if purse.HasCheckpoint(last.index) then 0 else 1,
           AddUnits(before.anchor, purse.Distance(last.index)),
           before.units + TotalUnits(record.history),
           before.freshness - record.acquiredAt,
           before.order + [(record.value.begin, last.take)])
  }

  function PriceOf(purse: Purse, plan: Plan): Cost
    requires InRange(purse, plan)
  {
    CostOf(purse, plan).(order := Sort(CostOf(purse, plan).order, PairLe))
  }

  method PlanCost(purse: Purse, plan: Plan) returns (cost: Cost)
    requires InRange(purse, plan)
    ensures cost == PriceOf(purse, plan)
  {
    var splits: nat, misses: nat, units: nat, freshness: int := 0, 0, 0, 0;
    var anchor := Finite(0);
    var order: seq<(nat, nat)> := [];
    for k := 0 to |plan|
      invariant InRange(purse, plan[..k]) && Cost(k, splits, misses, anchor, units, freshness, order) == CostOf(purse, plan[..k])
    {
      InRangeAt(purse, plan, k);
      assert plan[..k + 1][..k] == plan[..k];
      var record := purse.records[plan[k].index];
      if plan[k].take < record.value.Size() {
        splits := splits + 1;
      }
      var hasCheckpoint := purse.HasCheckpoint(plan[k].index);
      misses := misses + if hasCheckpoint then 0 else 1;
      anchor := AddUnits(anchor, if hasCheckpoint then Finite(0) else UnitsToCheckpoint(record.history));
      units := units + TotalUnits(record.history);
      freshness := freshness - record.acquiredAt;
      order := order + [(record.value.begin, plan[k].take)];
    }
    assert plan[..|plan|] == plan;
    cost := Cost(|plan|, splits, misses, anchor, units, freshness, Sort(order, PairLe));
  }

  // ----- The leading components

  /** Units to the checkpoints, units in all, and the age of the records, newest first. */
  datatype Later = Later(anchor: nat, units: nat, freshness: int) {
    predicate Le(other: Later) {
      if anchor != other.anchor then anchor < other.anchor
      else if units != other.units then units < other.units
      else freshness <= other.freshness
    }
  }

  /**
    Records used, records split, records used without a checkpoint; and the later components, where every record is
    bounded. Unbounded distances do not cancel, so there the later components stay out of the comparison.
   */
  datatype Lead = Lead(count: nat, splits: nat, misses: nat, later: Later) {
    predicate Le(other: Lead) {
      if count != other.count then count < other.count
      else if splits != other.splits then splits < other.splits
      else if misses != other.misses then misses < other.misses
      else later.Le(other.later)
    }
  }

  const NO_LEAD := Lead(0, 0, 0, Later(0, 0, 0))

  function LeadOfCost(purse: Purse, cost: Cost): Lead {
    Lead(cost.count, cost.splits, cost.misses,
         if purse.Bounded() && cost.anchor.Finite? then Later(cost.anchor.n, cost.units, cost.freshness) else Later(0, 0, 0))
  }

  /** The later components with one more record. */
  function LaterWith(purse: Purse, later: Later, i: nat): Later
    requires i < |purse.records|
  {
    if purse.Bounded() then
      Later(later.anchor + purse.Distance(i).n, later.units + TotalUnits(purse.records[i].history),
            later.freshness - purse.records[i].acquiredAt)
    else later
  }

  /** The leading cost with one more pick. */
  function WithPick(purse: Purse, lead: Lead, i: nat, take: nat): Lead
    requires i < |purse.records|
  {
    Lead(lead.count + 1,
         lead.splits + if take < purse.Size(i) then 1 else 0,
         lead.misses + if purse.HasCheckpoint(i) then 0 else 1,
         LaterWith(purse, lead.later, i))
  }

  function LeadOf(purse: Purse, plan: Plan): Lead
    requires InRange(purse, plan)
  {
    if plan == [] then NO_LEAD
    else
      var last := plan[|plan| - 1];
      WithPick(purse, LeadOf(purse, plan[..|plan| - 1]), last.index, last.take)
  }

  /** The leading cost is the head of the cost. */
  lemma {:induction false} LeadIsOfCost(purse: Purse, plan: Plan)
    requires InRange(purse, plan)
    ensures LeadOf(purse, plan) == LeadOfCost(purse, PriceOf(purse, plan))
    ensures purse.Bounded() ==> CostOf(purse, plan).anchor.Finite?
  {
    if plan != [] {
      LeadIsOfCost(purse, plan[..|plan| - 1]);
    }
  }

  lemma LessIsLe(purse: Purse, x: Cost, y: Cost)
    requires purse.Bounded() ==> x.anchor.Finite? && y.anchor.Finite?
    ensures CostLess(x, y) ==> LeadOfCost(purse, x).Le(LeadOfCost(purse, y))
    ensures !CostLess(x, y) ==> LeadOfCost(purse, y).Le(LeadOfCost(purse, x))
  {
  }

  /** Of two plans the one with the smaller cost is preferred, which never has the larger leading cost. */
  method IsCheaper(purse: Purse, candidate: Plan, existing: Plan) returns (cheaper: bool)
    requires InRange(purse, candidate) && InRange(purse, existing)
    ensures cheaper <==> CostLess(PriceOf(purse, candidate), PriceOf(purse, existing))
    ensures cheaper ==> LeadOf(purse, candidate).Le(LeadOf(purse, existing))
    ensures !cheaper ==> LeadOf(purse, existing).Le(LeadOf(purse, candidate))
  {
    var x := PlanCost(purse, candidate);
    var y := PlanCost(purse, existing);
    cheaper := CostLess(x, y);
    LeadIsOfCost(purse, candidate);
    LeadIsOfCost(purse, existing);
    LessIsLe(purse, x, y);
  }

  /**
    Why unbounded distances stay out: of two records worth the same the one with a checkpoint is preferred, yet beside a
    third record without one the preference turns round, and a table that kept only the preferred one has lost the better.
   */
  lemma {:induction false} UnboundedTurnsRound(
      owner: Address, checkpoint: Checkpoint, genesis: Anchor, tx: OffChainTx, unit: ConfirmedUnit)
    requires genesis.GenesisAnchor?
    ensures var prior := Witness(Range(0, 4), owner, [unit], CheckpointAnchor(checkpoint));
            var purse := Purse([LocalValueRecord(0, Range(0, 4), Witness(Range(0, 4), owner, [], PriorWitnessLink(tx, prior)),
                                                 VerifiedSpendable, 0),
                                LocalValueRecord(1, Range(5, 9), Witness(Range(5, 9), owner, [], genesis), VerifiedSpendable, 0),
                                LocalValueRecord(2, Range(10, 14), Witness(Range(10, 14), owner, [], genesis), VerifiedSpendable, 0)],
                               [], owner);
            && !purse.Bounded()
            && InRange(purse, [Pick(0, 5)]) && InRange(purse, [Pick(1, 5)])
            && InRange(purse, [Pick(0, 5), Pick(2, 5)]) && InRange(purse, [Pick(1, 5), Pick(2, 5)])
            && CostLess(PriceOf(purse, [Pick(0, 5)]), PriceOf(purse, [Pick(1, 5)]))
            && CostLess(PriceOf(purse, [Pick(1, 5), Pick(2, 5)]), PriceOf(purse, [Pick(0, 5), Pick(2, 5)]))
  {
    var prior := Witness(Range(0, 4), owner, [unit], CheckpointAnchor(checkpoint));
    var first := LocalValueRecord(0, Range(0, 4), Witness(Range(0, 4), owner, [], PriorWitnessLink(tx, prior)), VerifiedSpendable, 0);
    var second := LocalValueRecord(1, Range(5, 9), Witness(Range(5, 9), owner, [], genesis), VerifiedSpendable, 0);
    var third := LocalValueRecord(2, Range(10, 14), Witness(Range(10, 14), owner, [], genesis), VerifiedSpendable, 0);
    var purse := Purse([first, second, third], [], owner);
    assert UnitsToCheckpoint(prior) == Finite(1) && TotalUnits(prior) == 1;
    assert !purse.HasCheckpoint(0) && !purse.HasCheckpoint(1) && !purse.HasCheckpoint(2);
    assert purse.Distance(0) == Finite(1) && purse.Distance(1) == Infinite && purse.Distance(2) == Infinite;
    assert TotalUnits(first.history) == 1 && TotalUnits(second.history) == 0 && TotalUnits(third.history) == 0;
    OnePick(purse, Pick(0, 5));
    OnePick(purse, Pick(1, 5));
    TwoPicks(purse, Pick(0, 5), Pick(2, 5));
    TwoPicks(purse, Pick(1, 5), Pick(2, 5));
  }

  lemma {:induction false} OnePick(purse: Purse, a: Pick)
    requires a.index < |purse.records|
    ensures InRange(purse, [a])
    ensures var r, cost := purse.records[a.index], PriceOf(purse, [a]);
            && cost.count == 1 && cost.splits == (if a.take < r.value.Size() then 1 else 0)
            && cost.misses == (if purse.HasCheckpoint(a.index) then 0 else 1)
            && cost.anchor == purse.Distance(a.index) && cost.units == TotalUnits(r.history) && cost.freshness + r.acquiredAt == 0
  {
    var plan := [a];
    assert InRange(purse, []) && CostOf(purse, []) == Cost(0, 0, 0, Finite(0), 0, 0, []);
    assert plan[..|plan| - 1] == [];
    assert CostOf(purse, plan).count == 1;
  }

  lemma {:induction false} TwoPicks(purse: Purse, a: Pick, b: Pick)
    requires a.index < |purse.records| && b.index < |purse.records|
    ensures InRange(purse, [a]) && InRange(purse, [b]) && InRange(purse, [a, b])
    ensures var x, y, cost := PriceOf(purse, [a]), PriceOf(purse, [b]), PriceOf(purse, [a, b]);
            && cost.count == 2 && cost.splits == x.splits + y.splits && cost.misses == x.misses + y.misses
            && cost.anchor == AddUnits(x.anchor, y.anchor) && cost.units == x.units + y.units
            && cost.freshness == x.freshness + y.freshness
  {
    OnePick(purse, a);
    OnePick(purse, b);
    var plan := [a, b];
    assert plan[..|plan| - 1] == [a];
  }

  // ----- Ways of paying

  function TakenBy(takes: seq<nat>): nat {
    if takes == [] then 0 else TakenBy(takes[..|takes| - 1]) + takes[|takes| - 1]
  }

  /** How much is taken from each record: nothing, a part or all of it. */
  ghost predicate IsWay(purse: Purse, amount: nat, takes: seq<nat>) {
    && |takes| == |purse.records|
    && (forall i :: 0 <= i < |takes| ==> takes[i] <= purse.Size(i))
    && TakenBy(takes) == amount
  }

  /** The leading cost of a way of paying, over its first records. */
  function LeadOfWay(purse: Purse, takes: seq<nat>): Lead
    requires |takes| <= |purse.records|
  {
    if takes == [] then NO_LEAD
    else
      var i := |takes| - 1;
      var lead := LeadOfWay(purse, takes[..i]);
      if takes[i] == 0 then lead else WithPick(purse, lead, i, takes[i])
  }

  // ----- Choosing whole records

  function SumOf(purse: Purse, chosen: seq<bool>): nat
    requires |chosen| <= |purse.records|
  {
    if chosen == [] then 0
    else SumOf(purse, chosen[..|chosen| - 1]) + if chosen[|chosen| - 1] then purse.Size(|chosen| - 1) else 0
  }

  function LeadOfChoice(purse: Purse, chosen: seq<bool>): Lead
    requires |chosen| <= |purse.records|
  {
    if chosen == [] then NO_LEAD
    else
      var i := |chosen| - 1;
      var lead := LeadOfChoice(purse, chosen[..i]);
      if chosen[i] then WithPick(purse, lead, i, purse.Size(i)) else lead
  }

  /** Records chosen whole, then one more that tops the sum up to the amount. */
  ghost predicate TopsUp(purse: Purse, amount: nat, chosen: seq<bool>, take: nat) {
    && |chosen| < |purse.records|
    && 0 < take <= purse.Size(|chosen|)
    && SumOf(purse, chosen) + take == amount
  }

  function LeadOfTopUp(purse: Purse, chosen: seq<bool>, take: nat): Lead
    requires |chosen| < |purse.records|
  {
    WithPick(purse, LeadOfChoice(purse, chosen), |chosen|, take)
  }

  function Used(takes: seq<nat>): seq<bool> {
    seq(|takes|, i requires 0 <= i < |takes| => takes[i] > 0)
  }

  /** Using the same records whole: a sum at least as high, the same count and misses, and no split. */
  ghost predicate WholeMatches(taken: nat, lead: Lead, sum: nat, whole: Lead) {
    && sum >= taken
    && (sum > taken ==> lead.splits > 0)
    && whole.splits == 0 && whole.count == lead.count && whole.misses == lead.misses && whole.later == lead.later
  }

  lemma {:induction false} UsedWhole(purse: Purse, takes: seq<nat>)
    requires |takes| <= |purse.records| && forall i :: 0 <= i < |takes| ==> takes[i] <= purse.Size(i)
    ensures WholeMatches(TakenBy(takes), LeadOfWay(purse, takes), SumOf(purse, Used(takes)), LeadOfChoice(purse, Used(takes)))
  {
    if takes != [] {
      var i := |takes| - 1;
      UsedWhole(purse, takes[..i]);
      var used := Used(takes);
      assert used[..i] == Used(takes[..i]);
      assert SumOf(purse, used) == SumOf(purse, used[..i]) + if takes[i] > 0 then purse.Size(i) else 0;
      assert LeadOfChoice(purse, used)
          == if takes[i] > 0 then WithPick(purse, LeadOfChoice(purse, used[..i]), i, purse.Size(i)) else LeadOfChoice(purse, used[..i]);
    }
  }

  /** Choosing more records never lowers the sum or the leading cost. */
  lemma {:induction false} ChoiceGrows(purse: Purse, chosen: seq<bool>, n: nat)
    requires n <= |chosen| <= |purse.records|
    ensures SumOf(purse, chosen[..n]) <= SumOf(purse, chosen)
    ensures LeadOfChoice(purse, chosen[..n]).count <= LeadOfChoice(purse, chosen).count
    ensures LeadOfChoice(purse, chosen[..n]).count == LeadOfChoice(purse, chosen).count ==>
              SumOf(purse, chosen[..n]) == SumOf(purse, chosen) && LeadOfChoice(purse, chosen[..n]) == LeadOfChoice(purse, chosen)
    ensures LeadOfChoice(purse, chosen).splits == 0
    decreases |chosen|
  {
    if n < |chosen| {
      assert chosen[..|chosen| - 1][..n] == chosen[..n];
      ChoiceGrows(purse, chosen[..|chosen| - 1], n);
    } else {
      assert chosen[..n] == chosen;
      if n > 0 {
        ChoiceGrows(purse, chosen[..n - 1], n - 1);
      }
    }
  }

  /** Where the growing sum of a choice first reaches the amount. */
  lemma {:induction false} FirstReach(purse: Purse, amount: nat, chosen: seq<bool>) returns (j: nat)
    requires |chosen| <= |purse.records| && 0 < amount <= SumOf(purse, chosen)
    ensures j < |chosen| && chosen[j]
    ensures SumOf(purse, chosen[..j]) < amount <= SumOf(purse, chosen[..j + 1])
    decreases |chosen|
  {
    var last := |chosen| - 1;
    if SumOf(purse, chosen[..last]) < amount {
      j := last;
      assert chosen[..j + 1] == chosen;
    } else {
      j := FirstReach(purse, amount, chosen[..last]);
      assert chosen[..last][..j] == chosen[..j] && chosen[..last][..j + 1] == chosen[..j + 1];
    }
  }

  /**
    Any way of paying is at least matched by taking its records whole, in order, until the last one needed tops
    the sum up: that one is split only if the way itself splits a record.
   */
  lemma TopUpDominates(purse: Purse, amount: nat, takes: seq<nat>) returns (chosen: seq<bool>, take: nat)
    requires amount > 0 && IsWay(purse, amount, takes)
    ensures TopsUp(purse, amount, chosen, take)
    ensures LeadOfTopUp(purse, chosen, take).Le(LeadOfWay(purse, takes))
  {
    var used := Used(takes);
    UsedWhole(purse, takes);
    var j := FirstReach(purse, amount, used);
    chosen, take := used[..j], amount - SumOf(purse, used[..j]);
    assert used[..j + 1][..j] == used[..j];
    ChoiceGrows(purse, used, j + 1);
  }

  // ----- What the table holds

  /** The plan takes whole records below `n`, in index order, and they sum to the subtotal. */
  ghost predicate WholePlan(purse: Purse, n: nat, plan: Plan, subtotal: nat): (whole: bool)
    requires n <= |purse.records|
    ensures whole ==> InRange(purse, plan)
    decreases |plan|
  {
    if plan == [] then subtotal == 0
    else
      var last := plan[|plan| - 1];
      && last.index < n
      && last.take == purse.Size(last.index) <= subtotal
      && WholePlan(purse, last.index, plan[..|plan| - 1], subtotal - last.take)
  }

  /** The plan takes positive amounts of distinct records below `n`, in index order, and they sum to the amount. */
  ghost predicate PayingPlan(purse: Purse, n: nat, plan: Plan, amount: nat): (paying: bool)
    requires n <= |purse.records|
    ensures paying ==> InRange(purse, plan)
    decreases |plan|
  {
    if plan == [] then amount == 0
    else
      var last := plan[|plan| - 1];
      && last.index < n
      && 0 < last.take <= purse.Size(last.index) && last.take <= amount
      && PayingPlan(purse, last.index, plan[..|plan| - 1], amount - last.take)
  }

  ghost predicate Pays(purse: Purse, plan: Plan, amount: nat): (pays: bool)
    ensures pays ==> InRange(purse, plan)
  {
    PayingPlan(purse, |purse.records|, plan, amount)
  }

  type Table = map<nat, Plan>

  ghost predicate TableSound(purse: Purse, n: nat, amount: nat, table: Table)
    requires n <= |purse.records|
  {
    forall t :: t in table ==> t <= amount && WholePlan(purse, n, table[t], t)
  }

  /** The table has a plan for the subtotal whose leading cost is no worse than the given one. */
  ghost predicate Reaches(purse: Purse, table: Table, t: nat, lead: Lead) {
    t in table && InRange(purse, table[t]) && LeadOf(purse, table[t]).Le(lead)
  }

  ghost predicate PlansInRange(purse: Purse, table: Table) {
    forall t {:trigger table[t]} :: t in table ==> InRange(purse, table[t])
  }

  /** For every choice among the first records within the amount the table has a plan that is no worse. */
  ghost predicate TableComplete(purse: Purse, n: nat, amount: nat, table: Table)
    requires n <= |purse.records|
  {
    forall chosen: seq<bool> {:trigger SumOf(purse, chosen)} :: |chosen| == n && SumOf(purse, chosen) <= amount ==>
      Reaches(purse, table, SumOf(purse, chosen), LeadOfChoice(purse, chosen))
  }

  ghost predicate AtLeastAsGood(purse: Purse, best: Option<Plan>, lead: Lead)
    requires best.Some? ==> InRange(purse, best.value)
  {
    best.Some? && LeadOf(purse, best.value).Le(lead)
  }

  /** The best plan so far is no worse than any top-up that ends below `n`. */
  ghost predicate BestSoFar(purse: Purse, n: nat, amount: nat, best: Option<Plan>) {
    && (best.Some? ==> Pays(purse, best.value, amount))
    && forall chosen: seq<bool>, take: nat {:trigger TopsUp(purse, amount, chosen, take)} ::
        |chosen| < n && TopsUp(purse, amount, chosen, take) ==>
          AtLeastAsGood(purse, best, LeadOfTopUp(purse, chosen, take))
  }

  lemma LeIsTransitive(x: Lead, y: Lead, z: Lead)
    requires x.Le(y) && y.Le(z)
    ensures x.Le(z)
  {
  }

  lemma LeWithSame(purse: Purse, x: Lead, y: Lead, i: nat, take: nat)
    requires x.Le(y) && i < |purse.records|
    ensures WithPick(purse, x, i, take).Le(WithPick(purse, y, i, take))
  {
  }

  lemma {:induction false} WholePays(purse: Purse, n: nat, plan: Plan, amount: nat)
    requires n <= |purse.records| && WholePlan(purse, n, plan, amount)
    ensures PayingPlan(purse, n, plan, amount)
    decreases |plan|
  {
    if plan != [] {
      var last := plan[|plan| - 1];
      WholePays(purse, last.index, plan[..|plan| - 1], amount - last.take);
    }
  }

  lemma ExtendedPlan(purse: Purse, n: nat, plan: Plan, subtotal: nat, take: nat)
    requires n < |purse.records| && WholePlan(purse, n, plan, subtotal) && 0 < take <= purse.Size(n)
    ensures var longer := plan + [Pick(n, take)];
            && Pays(purse, longer, subtotal + take)
            && LeadOf(purse, longer) == WithPick(purse, LeadOf(purse, plan), n, take)
            && (take == purse.Size(n) ==> WholePlan(purse, n + 1, longer, subtotal + take))
  {
    assert (plan + [Pick(n, take)])[..|plan|] == plan;
    WholePays(purse, n, plan, subtotal);
  }

  // ----- The table, record by record

  /** The best plan is no worse than completing any of the given subtotals with a part of record `n`. */
  ghost predicate OfferedParts(purse: Purse, n: nat, amount: nat, prior: Table, offered: set<nat>, best: Option<Plan>)
    requires n < |purse.records| && TableSound(purse, n, amount, prior)
    requires best.Some? ==> InRange(purse, best.value)
  {
    forall t {:trigger t in offered} :: t in offered && t in prior && 0 < amount - t < purse.Size(n) ==>
      AtLeastAsGood(purse, best, WithPick(purse, LeadOf(purse, prior[t]), n, amount - t))
  }

  /** Keeps the candidate when there is nothing yet or it is strictly cheaper. */
  method Cheaper(purse: Purse, amount: nat, best: Option<Plan>, candidate: Plan) returns (better: Option<Plan>)
    requires Pays(purse, candidate, amount) && (best.Some? ==> Pays(purse, best.value, amount))
    ensures better.Some? && Pays(purse, better.value, amount)
    ensures AtLeastAsGood(purse, better, LeadOf(purse, candidate))
    ensures best.Some? ==> AtLeastAsGood(purse, better, LeadOf(purse, best.value))
  {
    better := best;
    if best.None? {
      better := Some(candidate);
    } else {
      var cheaper := IsCheaper(purse, candidate, best.value);
      if cheaper {
        better := Some(candidate);
      }
    }
  }

  /** Offers a part of record `n` on top of one subtotal. */
  method OfferOne(
      purse: Purse, n: nat, amount: nat, plan: Plan, subtotal: nat, best: Option<Plan>) returns (better: Option<Plan>)
    requires n < |purse.records| && subtotal <= amount && WholePlan(purse, n, plan, subtotal)
    requires best.Some? ==> Pays(purse, best.value, amount)
    ensures better.Some? ==> Pays(purse, better.value, amount)
    ensures best.Some? ==> AtLeastAsGood(purse, better, LeadOf(purse, best.value))
    ensures 0 < amount - subtotal < purse.Size(n) ==>
              AtLeastAsGood(purse, better, WithPick(purse, LeadOf(purse, plan), n, amount - subtotal))
  {
    better := best;
    if 0 < amount - subtotal < purse.Size(n) {
      ExtendedPlan(purse, n, plan, subtotal, amount - subtotal);
      better := Cheaper(purse, amount, better, plan + [Pick(n, amount - subtotal)]);
    }
  }

  lemma {:induction false} OneMoreOffered(
      purse: Purse, n: nat, amount: nat, prior: Table, offered: set<nat>, t: nat, best: Option<Plan>, better: Option<Plan>)
    requires n < |purse.records| && TableSound(purse, n, amount, prior) && t in prior
    requires better.Some? ==> InRange(purse, better.value)
    requires best.Some? ==> InRange(purse, best.value) && AtLeastAsGood(purse, better, LeadOf(purse, best.value))
    requires OfferedParts(purse, n, amount, prior, offered, best)
    requires 0 < amount - t < purse.Size(n) ==>
               AtLeastAsGood(purse, better, WithPick(purse, LeadOf(purse, prior[t]), n, amount - t))
    ensures OfferedParts(purse, n, amount, prior, offered + {t}, better)
  {
  }

  /** Offers a part of record `n` on top of every subtotal it can complete. */
  method OfferPartial(
      purse: Purse, n: nat, amount: nat, prior: Table, best: Option<Plan>) returns (better: Option<Plan>)
    requires n < |purse.records| && TableSound(purse, n, amount, prior)
    requires best.Some? ==> Pays(purse, best.value, amount)
    ensures better.Some? ==> Pays(purse, better.value, amount)
    ensures best.Some? ==> AtLeastAsGood(purse, better, LeadOf(purse, best.value))
    ensures OfferedParts(purse, n, amount, prior, prior.Keys, better)
  {
    better := best;
    var todo := prior.Keys;
    ghost var offered: set<nat> := {};
    while todo != {}
      invariant todo + offered == prior.Keys
      invariant better.Some? ==> Pays(purse, better.value, amount)
      invariant best.Some? ==> AtLeastAsGood(purse, better, LeadOf(purse, best.value))
      invariant OfferedParts(purse, n, amount, prior, offered, better)
      decreases todo
    {
      var subtotal :| subtotal in todo;
      ghost var previous := better;
      better := OfferOne(purse, n, amount, prior[subtotal], subtotal, better);
      OneMoreOffered(purse, n, amount, prior, offered, subtotal, previous, better);
      offered, todo := offered + {subtotal}, todo - {subtotal};
    }
  }

  // ----- Taking records whole

  /** Every subtotal of one table has a plan in the other that is no worse. */
  ghost predicate NoWorse(purse: Purse, table: Table, wider: Table)
    requires PlansInRange(purse, table)
  {
    forall t {:trigger t in table} :: t in table ==> Reaches(purse, wider, t, LeadOf(purse, table[t]))
  }

  /** The table has a plan no worse than record `n` on top of each given subtotal within the amount. */
  ghost predicate HasExtended(purse: Purse, n: nat, amount: nat, prior: Table, extended: set<nat>, table: Table)
    requires n < |purse.records| && PlansInRange(purse, prior)
  {
    forall t {:trigger t in extended} :: t in extended && t in prior && t + purse.Size(n) <= amount ==>
      Reaches(purse, table, t + purse.Size(n), WithPick(purse, LeadOf(purse, prior[t]), n, purse.Size(n)))
  }

  lemma StaysReached(purse: Purse, table: Table, wider: Table, t: nat, lead: Lead)
    requires PlansInRange(purse, table) && NoWorse(purse, table, wider) && Reaches(purse, table, t, lead)
    ensures Reaches(purse, wider, t, lead)
  {
    LeIsTransitive(LeadOf(purse, wider[t]), LeadOf(purse, table[t]), lead);
  }

  lemma WiderStays(purse: Purse, n: nat, amount: nat, prior: Table, extended: set<nat>, table: Table, wider: Table)
    requires n < |purse.records| && PlansInRange(purse, prior) && PlansInRange(purse, table) && NoWorse(purse, table, wider)
    ensures NoWorse(purse, prior, table) ==> NoWorse(purse, prior, wider)
    ensures HasExtended(purse, n, amount, prior, extended, table) ==> HasExtended(purse, n, amount, prior, extended, wider)
  {
    forall t, lead | Reaches(purse, table, t, lead) ensures Reaches(purse, wider, t, lead) {
      StaysReached(purse, table, wider, t, lead);
    }
  }

  lemma {:induction false} OneMoreExtended(
      purse: Purse, n: nat, amount: nat, prior: Table, extended: set<nat>, t: nat, table: Table)
    requires n < |purse.records| && PlansInRange(purse, prior) && t in prior
    requires HasExtended(purse, n, amount, prior, extended, table)
    requires t + purse.Size(n) <= amount ==>
               Reaches(purse, table, t + purse.Size(n), WithPick(purse, LeadOf(purse, prior[t]), n, purse.Size(n)))
    ensures HasExtended(purse, n, amount, prior, extended + {t}, table)
  {
  }

  lemma {:induction false} ReplacedIsNoWorse(purse: Purse, table: Table, t: nat, plan: Plan)
    requires PlansInRange(purse, table) && InRange(purse, plan)
    requires t in table ==> LeadOf(purse, plan).Le(LeadOf(purse, table[t]))
    ensures NoWorse(purse, table, table[t := plan])
  {
  }

  /** Puts one candidate into the table unless the plan there is at least as cheap. */
  method ExtendOne(purse: Purse, n: nat, amount: nat, plan: Plan, subtotal: nat, table: Table) returns (wider: Table)
    requires n < |purse.records| && WholePlan(purse, n, plan, subtotal) && TableSound(purse, n + 1, amount, table)
    ensures TableSound(purse, n + 1, amount, wider) && NoWorse(purse, table, wider)
    ensures subtotal + purse.Size(n) <= amount ==>
              Reaches(purse, wider, subtotal + purse.Size(n), WithPick(purse, LeadOf(purse, plan), n, purse.Size(n)))
  {
    hide LaterWith, CostLess, PriceOf;
    wider := table;
    var newTotal := subtotal + purse.Size(n);
    if newTotal > amount {
      return;
    }
    var candidate := plan + [Pick(n, purse.Size(n))];
    ExtendedPlan(purse, n, plan, subtotal, purse.Size(n));
    var replace := true;
    if newTotal in table {
      replace := IsCheaper(purse, candidate, table[newTotal]);
    }
    if replace {
      ReplacedIsNoWorse(purse, table, newTotal, candidate);
      wider := table[newTotal := candidate];
    }
  }

  lemma SoundForMore(purse: Purse, n: nat, amount: nat, table: Table)
    requires n < |purse.records| && TableSound(purse, n, amount, table)
    ensures TableSound(purse, n + 1, amount, table)
  {
  }

  /** Extends every subtotal by the whole of record `n`. */
  method TakeWhole(purse: Purse, n: nat, amount: nat, prior: Table) returns (table: Table)
    requires n < |purse.records| && TableSound(purse, n, amount, prior)
    ensures TableSound(purse, n + 1, amount, table)
    ensures NoWorse(purse, prior, table) && HasExtended(purse, n, amount, prior, prior.Keys, table)
  {
    table := prior;
    SoundForMore(purse, n, amount, prior);
    var todo := prior.Keys;
    ghost var extended: set<nat> := {};
    while todo != {}
      invariant todo + extended == prior.Keys
      invariant TableSound(purse, n + 1, amount, table)
      invariant NoWorse(purse, prior, table)
      invariant HasExtended(purse, n, amount, prior, extended, table)
      decreases todo
    {
      var subtotal :| subtotal in todo;
      ghost var previous := table;
      table := ExtendOne(purse, n, amount, prior[subtotal], subtotal, table);
      WiderStays(purse, n, amount, prior, extended, previous, table);
      OneMoreExtended(purse, n, amount, prior, extended, subtotal, table);
      extended, todo := extended + {subtotal}, todo - {subtotal};
    }
  }

  // ----- One record further

  lemma StaysBelow(purse: Purse, table: Table, t: nat, lead: Lead, higher: Lead)
    requires Reaches(purse, table, t, lead) && lead.Le(higher)
    ensures Reaches(purse, table, t, higher)
  {
  }

  lemma {:induction false} ChoiceInTable(
      purse: Purse, n: nat, amount: nat, prior: Table, table: Table, chosen: seq<bool>)
    requires n < |purse.records| && TableSound(purse, n, amount, prior) && TableSound(purse, n + 1, amount, table)
    requires TableComplete(purse, n, amount, prior)
    requires NoWorse(purse, prior, table) && HasExtended(purse, n, amount, prior, prior.Keys, table)
    requires |chosen| == n + 1 && SumOf(purse, chosen) <= amount
    ensures Reaches(purse, table, SumOf(purse, chosen), LeadOfChoice(purse, chosen))
  {
    hide NoWorse;
    var t, lead := SumOf(purse, chosen[..n]), LeadOfChoice(purse, chosen[..n]);
    assert Reaches(purse, prior, t, lead);
    if chosen[n] {
      assert SumOf(purse, chosen) == t + purse.Size(n);
      ExtendedInTable(purse, n, amount, prior, table, t, lead);
    } else {
      StaysReached(purse, prior, table, t, lead);
    }
  }

  lemma ExtendedInTable(purse: Purse, n: nat, amount: nat, prior: Table, table: Table, t: nat, lead: Lead)
    requires n < |purse.records| && PlansInRange(purse, prior) && t + purse.Size(n) <= amount
    requires Reaches(purse, prior, t, lead) && HasExtended(purse, n, amount, prior, prior.Keys, table)
    ensures Reaches(purse, table, t + purse.Size(n), WithPick(purse, lead, n, purse.Size(n)))
  {
    assert t in prior.Keys;
    LeWithSame(purse, LeadOf(purse, prior[t]), lead, n, purse.Size(n));
    StaysBelow(purse, table, t + purse.Size(n), WithPick(purse, LeadOf(purse, prior[t]), n, purse.Size(n)),
               WithPick(purse, lead, n, purse.Size(n)));
  }

  lemma TableGrows(purse: Purse, n: nat, amount: nat, prior: Table, table: Table)
    requires n < |purse.records| && TableSound(purse, n, amount, prior) && TableSound(purse, n + 1, amount, table)
    requires TableComplete(purse, n, amount, prior)
    requires NoWorse(purse, prior, table) && HasExtended(purse, n, amount, prior, prior.Keys, table)
    ensures TableComplete(purse, n + 1, amount, table)
  {
    forall chosen: seq<bool> {:trigger SumOf(purse, chosen)} | |chosen| == n + 1 && SumOf(purse, chosen) <= amount
      ensures Reaches(purse, table, SumOf(purse, chosen), LeadOfChoice(purse, chosen))
    {
      ChoiceInTable(purse, n, amount, prior, table, chosen);
    }
  }

  lemma {:induction false} PartialTopUp(
      purse: Purse, n: nat, amount: nat, prior: Table, best: Option<Plan>, chosen: seq<bool>, take: nat)
    requires n < |purse.records| && TableSound(purse, n, amount, prior) && TableComplete(purse, n, amount, prior)
    requires best.Some? ==> InRange(purse, best.value)
    requires OfferedParts(purse, n, amount, prior, prior.Keys, best)
    requires |chosen| == n && TopsUp(purse, amount, chosen, take) && take < purse.Size(n)
    ensures AtLeastAsGood(purse, best, LeadOfTopUp(purse, chosen, take))
  {
    var t := SumOf(purse, chosen);
    assert Reaches(purse, prior, t, LeadOfChoice(purse, chosen)) && t in prior.Keys;
    LeWithSame(purse, LeadOf(purse, prior[t]), LeadOfChoice(purse, chosen), n, take);
    LeIsTransitive(LeadOf(purse, best.value), WithPick(purse, LeadOf(purse, prior[t]), n, take), LeadOfTopUp(purse, chosen, take));
  }

  lemma {:induction false} WholeTopUp(purse: Purse, n: nat, amount: nat, table: Table, chosen: seq<bool>, take: nat)
    requires n < |purse.records| && TableSound(purse, n + 1, amount, table) && TableComplete(purse, n + 1, amount, table)
    requires |chosen| == n && TopsUp(purse, amount, chosen, take) && take == purse.Size(n)
    ensures amount in table && LeadOf(purse, table[amount]).Le(LeadOfTopUp(purse, chosen, take))
  {
    var all := chosen + [true];
    assert all[..n] == chosen;
    assert SumOf(purse, all) == amount && LeadOfChoice(purse, all) == LeadOfTopUp(purse, chosen, take);
  }

  /** The best plan after offering parts of record `n` and the exact match with record `n` included. */
  lemma {:induction false} BestGrows(
      purse: Purse, n: nat, amount: nat, prior: Table, table: Table, before: Option<Plan>, offered: Option<Plan>, best: Option<Plan>)
    requires n < |purse.records| && TableSound(purse, n, amount, prior) && TableComplete(purse, n, amount, prior)
    requires TableSound(purse, n + 1, amount, table) && TableComplete(purse, n + 1, amount, table)
    requires BestSoFar(purse, n, amount, before)
    requires offered.Some? ==> Pays(purse, offered.value, amount)
    requires best.Some? ==> Pays(purse, best.value, amount)
    requires OfferedParts(purse, n, amount, prior, prior.Keys, offered)
    requires before.Some? ==> AtLeastAsGood(purse, offered, LeadOf(purse, before.value))
    requires offered.Some? ==> AtLeastAsGood(purse, best, LeadOf(purse, offered.value))
    requires amount in table ==> AtLeastAsGood(purse, best, LeadOf(purse, table[amount]))
    ensures BestSoFar(purse, n + 1, amount, best)
  {
    forall chosen: seq<bool>, take: nat {:trigger TopsUp(purse, amount, chosen, take)} |
      |chosen| < n + 1 && TopsUp(purse, amount, chosen, take)
      ensures AtLeastAsGood(purse, best, LeadOfTopUp(purse, chosen, take))
    {
      if |chosen| < n {
        assert AtLeastAsGood(purse, before, LeadOfTopUp(purse, chosen, take));
      } else if take < purse.Size(n) {
        PartialTopUp(purse, n, amount, prior, offered, chosen, take);
      } else {
        WholeTopUp(purse, n, amount, table, chosen, take);
      }
    }
  }

  lemma {:induction false} PaysBelowAll(purse: Purse, n: nat, plan: Plan, amount: nat)
    requires n <= |purse.records| && PayingPlan(purse, n, plan, amount)
    ensures Pays(purse, plan, amount)
  {
  }

  method OneRecord(
      purse: Purse, n: nat, amount: nat, prior: Table, before: Option<Plan>) returns (table: Table, best: Option<Plan>)
    requires n < |purse.records| && TableSound(purse, n, amount, prior) && TableComplete(purse, n, amount, prior)
    requires BestSoFar(purse, n, amount, before)
    ensures TableSound(purse, n + 1, amount, table) && TableComplete(purse, n + 1, amount, table)
    ensures BestSoFar(purse, n + 1, amount, best)
  {
    var offered := OfferPartial(purse, n, amount, prior, before);
    table := TakeWhole(purse, n, amount, prior);
    TableGrows(purse, n, amount, prior, table);
    best := offered;
    if amount in table {
      WholePays(purse, n + 1, table[amount], amount);
      PaysBelowAll(purse, n + 1, table[amount], amount);
      best := Cheaper(purse, amount, best, table[amount]);
    }
    BestGrows(purse, n, amount, prior, table, before, offered, best);
  }

  // ----- All records

  function Everything(n: nat): seq<bool> {
    seq(n, _ => true)
  }

  function Available(purse: Purse): nat {
    SumOf(purse, Everything(|purse.records|))
  }

  /**
    No way of paying the amount uses fewer records, or as few with fewer splits, or as few of both with fewer misses; nor,
    where every record is bounded, as few of these with fewer units to checkpoints, fewer units, or newer records.
   */
  ghost predicate Optimal(purse: Purse, amount: nat, plan: Plan)
    requires InRange(purse, plan)
  {
    forall takes {:trigger IsWay(purse, amount, takes)} :: IsWay(purse, amount, takes) ==>
      LeadOf(purse, plan).Le(LeadOfWay(purse, takes))
  }

  lemma EnoughTopsUp(purse: Purse, amount: nat) returns (chosen: seq<bool>, take: nat)
    requires 0 < amount <= Available(purse)
    ensures TopsUp(purse, amount, chosen, take)
  {
    var all := Everything(|purse.records|);
    var j := FirstReach(purse, amount, all);
    chosen, take := all[..j], amount - SumOf(purse, all[..j]);
    assert all[..j + 1][..j] == all[..j];
  }

  lemma BestIsOptimal(purse: Purse, amount: nat, best: Option<Plan>)
    requires amount > 0 && BestSoFar(purse, |purse.records|, amount, best)
    ensures best.Some? ==> Optimal(purse, amount, best.value)
    ensures amount <= Available(purse) ==> best.Some?
  {
    if best.Some? {
      forall takes {:trigger IsWay(purse, amount, takes)} | IsWay(purse, amount, takes)
        ensures LeadOf(purse, best.value).Le(LeadOfWay(purse, takes))
      {
        var chosen, take := TopUpDominates(purse, amount, takes);
        assert AtLeastAsGood(purse, best, LeadOfTopUp(purse, chosen, take));
      }
    }
    if amount <= Available(purse) {
      var chosen, take := EnoughTopsUp(purse, amount);
      assert AtLeastAsGood(purse, best, LeadOfTopUp(purse, chosen, take));
    }
  }

  // ----- Plans are ways

  function TakeAt(plan: Plan, i: nat): nat {
    if plan == [] then 0
    else if plan[|plan| - 1].index == i then plan[|plan| - 1].take
    else TakeAt(plan[..|plan| - 1], i)
  }

  /** How much a plan takes from each of the first `n` records. */
  function WayOf(plan: Plan, n: nat): seq<nat> {
    seq(n, i requires 0 <= i < n => TakeAt(plan, i))
  }

  lemma {:induction false} NothingTaken(purse: Purse, n: nat, plan: Plan, amount: nat, i: nat)
    requires n <= i <= |purse.records| && PayingPlan(purse, n, plan, amount)
    ensures TakeAt(plan, i) == 0
    decreases |plan|
  {
    if plan != [] {
      var last := plan[|plan| - 1];
      NothingTaken(purse, last.index, plan[..|plan| - 1], amount - last.take, i);
    }
  }

  lemma WayStep(purse: Purse, plan: Plan, n: nat, amount: nat)
    requires 0 < n <= |purse.records| && PayingPlan(purse, n, plan, amount)
    ensures var last := |plan| - 1;
            if plan != [] && plan[last].index == n - 1 then WayOf(plan, n) == WayOf(plan[..last], n - 1) + [plan[last].take]
            else PayingPlan(purse, n - 1, plan, amount) && WayOf(plan, n) == WayOf(plan, n - 1) + [0]
  {
    if !(plan != [] && plan[|plan| - 1].index == n - 1) {
      NothingTaken(purse, n - 1, plan, amount, n - 1);
    }
  }

  /** The way takes what the plan takes, at the same leading cost. */
  ghost predicate SameWay(purse: Purse, plan: Plan, amount: nat, way: seq<nat>) {
    && |way| <= |purse.records| && InRange(purse, plan)
    && (forall i :: 0 <= i < |way| ==> way[i] <= purse.Size(i))
    && TakenBy(way) == amount && LeadOfWay(purse, way) == LeadOf(purse, plan)
  }

  lemma SkipsRecord(purse: Purse, plan: Plan, amount: nat, way: seq<nat>)
    requires |way| < |purse.records| && SameWay(purse, plan, amount, way)
    ensures SameWay(purse, plan, amount, way + [0])
  {
    assert (way + [0])[..|way|] == way;
  }

  lemma PicksRecord(purse: Purse, plan: Plan, amount: nat, way: seq<nat>, take: nat)
    requires |way| < |purse.records| && SameWay(purse, plan, amount, way) && 0 < take <= purse.Size(|way|)
    ensures SameWay(purse, plan + [Pick(|way|, take)], amount + take, way + [take])
  {
    assert (way + [take])[..|way|] == way;
    assert (plan + [Pick(|way|, take)])[..|plan|] == plan;
  }

  /** A plan is a way of paying with the same leading cost. */
  lemma {:induction false} PlanIsWay(purse: Purse, plan: Plan, n: nat, amount: nat)
    requires n <= |purse.records| && PayingPlan(purse, n, plan, amount)
    ensures SameWay(purse, plan, amount, WayOf(plan, n))
    decreases n
  {
    if n > 0 {
      hide LaterWith, LeadOf, LeadOfWay, TakenBy, SameWay, WayOf;
      WayStep(purse, plan, n, amount);
      if plan != [] && plan[|plan| - 1].index == n - 1 {
        var init, last := plan[..|plan| - 1], plan[|plan| - 1];
        PlanIsWay(purse, init, n - 1, amount - last.take);
        PicksRecord(purse, init, amount - last.take, WayOf(init, n - 1), last.take);
        assert plan == init + [Pick(n - 1, last.take)];
      } else {
        PlanIsWay(purse, plan, n - 1, amount);
        SkipsRecord(purse, plan, amount, WayOf(plan, n - 1));
      }
    }
  }

  lemma {:induction false} WayIsWithinAvailable(purse: Purse, takes: seq<nat>)
    requires |takes| <= |purse.records| && forall i :: 0 <= i < |takes| ==> takes[i] <= purse.Size(i)
    ensures TakenBy(takes) <= SumOf(purse, Everything(|takes|))
  {
    if takes != [] {
      var i := |takes| - 1;
      WayIsWithinAvailable(purse, takes[..i]);
      assert Everything(|takes|)[..i] == Everything(i);
    }
  }

  /** Fails exactly when the records do not hold the amount, and otherwise finds an optimal plan. */
  method ChoosePlan(purse: Purse, amount: nat) returns (best: Option<Plan>)
    requires amount > 0
    ensures best.None? <==> Available(purse) < amount
    ensures best.Some? ==> Pays(purse, best.value, amount) && Optimal(purse, amount, best.value)
  {
    var table: Table := map[0 := []];
    best := None;
    for n := 0 to |purse.records|
      invariant TableSound(purse, n, amount, table) && TableComplete(purse, n, amount, table)
      invariant BestSoFar(purse, n, amount, best)
    {
      table, best := OneRecord(purse, n, amount, table, best);
    }
    BestIsOptimal(purse, amount, best);
    if best.Some? {
      PlanIsWay(purse, best.value, |purse.records|, amount);
      WayIsWithinAvailable(purse, WayOf(best.value, |purse.records|));
    }
  }

  // ----- The wallet's records

  predicate IsSpendable(r: LocalValueRecord) {
    r.status == VerifiedSpendable
  }

  function Spendable(records: seq<LocalValueRecord>): seq<LocalValueRecord> {
    if records == [] then []
    else
      var rest, last := Spendable(records[..|records| - 1]), records[|records| - 1];
      if IsSpendable(last) then rest + [last] else rest
  }

  /** Fewer confirmed units first, then the newest, then the smallest, then the lowest. */
  predicate SpendableLe(x: LocalValueRecord, y: LocalValueRecord) {
    if |x.history.chain| != |y.history.chain| then |x.history.chain| < |y.history.chain|
    else if x.acquiredAt != y.acquiredAt then x.acquiredAt > y.acquiredAt
    else if x.value.Size() != y.value.Size() then x.value.Size() < y.value.Size()
    else x.value.begin <= y.value.begin
  }

  function PurseOf(records: seq<LocalValueRecord>, checkpoints: seq<Checkpoint>, owner: Address): Purse {
    Purse(Sort(Spendable(records), SpendableLe), checkpoints, owner)
  }

  function RecordSize(r: LocalValueRecord): nat {
    r.value.Size()
  }

  function TotalSize(records: seq<LocalValueRecord>): nat {
    Sum(RecordSize, records)
  }

  // ----- Balances

  const STATUSES: seq<Status> := [
    VerifiedSpendable, PendingBundle, PendingConfirmation, ReceiptPending, ReceiptMissing, LockedForVerification, Archived]

  lemma StatusIsListed(status: Status)
    ensures status in STATUSES
  {
    match status
    case VerifiedSpendable => assert STATUSES[0] == status;
    case PendingBundle => assert STATUSES[1] == status;
    case PendingConfirmation => assert STATUSES[2] == status;
    case ReceiptPending => assert STATUSES[3] == status;
    case ReceiptMissing => assert STATUSES[4] == status;
    case LockedForVerification => assert STATUSES[5] == status;
    case Archived => assert STATUSES[6] == status;
  }

  function SizeIn(status: Status): LocalValueRecord -> nat {
    (r: LocalValueRecord) => if r.status == status then r.value.Size() else 0
  }

  function LiveSize(r: LocalValueRecord): nat {
    if r.status == Archived then 0 else r.value.Size()
  }

  /** How much the records hold in each status. */
  method BalanceBreakdown(records: seq<LocalValueRecord>) returns (totals: map<Status, nat>)
    ensures forall status :: status in totals && totals[status] == Sum(SizeIn(status), records)
  {
    totals := map status | status in STATUSES :: 0;
    forall status: Status ensures status in totals {
      StatusIsListed(status);
    }
    for i := 0 to |records|
      invariant forall status :: status in totals && totals[status] == Sum(SizeIn(status), records[..i])
    {
      var r := records[i];
      forall status ensures Sum(SizeIn(status), records[..i + 1]) == Sum(SizeIn(status), records[..i]) + SizeIn(status)(r) {
        SumPrefix(SizeIn(status), records, i);
      }
      totals := totals[r.status := totals[r.status] + r.value.Size()];
    }
    assert records[..|records|] == records;
  }

  /** The balance in one status, or in all but the archived one. */
  method BalanceIn(records: seq<LocalValueRecord>, status: Option<Status>) returns (total: nat)
    ensures status.Some? ==> total == Sum(SizeIn(status.value), records)
    ensures status.None? ==> total == Sum(LiveSize, records)
  {
    var totals := BalanceBreakdown(records);
    if status.Some? {
      return totals[status.value];
    }
    total := 0;
    for i := 0 to |STATUSES|
      invariant total == SumOver(STATUSES[..i], records)
    {
      assert STATUSES[..i + 1][..i] == STATUSES[..i];
      if STATUSES[i] != Archived {
        total := total + totals[STATUSES[i]];
      }
    }
    assert STATUSES[..|STATUSES|] == STATUSES;
    StatusesMakeLive(records);
  }

  /** The balances in several statuses together, archived ones left out. */
  function SumOver(statuses: seq<Status>, records: seq<LocalValueRecord>): nat {
    if statuses == [] then 0
    else
      var last := statuses[|statuses| - 1];
      SumOver(statuses[..|statuses| - 1], records) + if last == Archived then 0 else Sum(SizeIn(last), records)
  }

  lemma {:induction false} SumOverOneMore(statuses: seq<Status>, records: seq<LocalValueRecord>, r: LocalValueRecord)
    ensures SumOver(statuses, records + [r]) == SumOver(statuses, records) + SumOver(statuses, [r])
  {
    if statuses != [] {
      SumOverOneMore(statuses[..|statuses| - 1], records, r);
      SumConcat(SizeIn(statuses[|statuses| - 1]), records, [r]);
    }
  }

  /** A record counts in the one status it has. */
  lemma {:induction false} SumOverOne(statuses: seq<Status>, r: LocalValueRecord)
    requires forall i, j :: 0 <= i < j < |statuses| ==> statuses[i] != statuses[j]
    ensures SumOver(statuses, [r]) == if r.status in statuses then LiveSize(r) else 0
  {
    if statuses != [] {
      var init, last := statuses[..|statuses| - 1], statuses[|statuses| - 1];
      assert statuses == init + [last];
      SumOverOne(init, r);
      SumOne(SizeIn(last), r);
    }
  }

  lemma {:induction false} StatusesMakeLive(records: seq<LocalValueRecord>)
    ensures SumOver(STATUSES, records) == Sum(LiveSize, records)
  {
    if records == [] {
      NothingInAny(STATUSES);
    } else {
      var init, r := records[..|records| - 1], records[|records| - 1];
      assert records == init + [r];
      StatusesMakeLive(init);
      SumOverOneMore(STATUSES, init, r);
      StatusIsListed(r.status);
      SumOverOne(STATUSES, r);
    }
  }

  lemma {:induction false} NothingInAny(statuses: seq<Status>)
    ensures SumOver(statuses, []) == 0
  {
    if statuses != [] {
      NothingInAny(statuses[..|statuses| - 1]);
    }
  }

  /** The available balance is what coin selection can draw on. */
  lemma {:induction false} AvailableBalance(records: seq<LocalValueRecord>)
    ensures Sum(SizeIn(VerifiedSpendable), records) == TotalSize(Spendable(records))
  {
    if records != [] {
      var init, last := records[..|records| - 1], records[|records| - 1];
      AvailableBalance(init);
      if IsSpendable(last) {
        SumConcat(RecordSize, Spendable(init), [last]);
        SumOne(RecordSize, last);
      }
    }
  }

  lemma {:induction false} AvailableIsTotal(purse: Purse, n: nat)
    requires n <= |purse.records|
    ensures SumOf(purse, Everything(n)) == TotalSize(purse.records[..n])
  {
    if n > 0 {
      AvailableIsTotal(purse, n - 1);
      assert Everything(n)[..n - 1] == Everything(n - 1);
      assert purse.records[..n][..n - 1] == purse.records[..n - 1];
    }
  }

  // ----- The ranges to pay with

  /** The front of each picked record. */
  function RangesOf(purse: Purse, plan: Plan): seq<Range>
    requires InRange(purse, plan)
  {
    if plan == [] then []
    else
      var last := plan[|plan| - 1];
      var begin := purse.records[last.index].value.begin;
      RangesOf(purse, plan[..|plan| - 1]) + [Range(begin, if last.take == 0 then begin else begin + last.take - 1)]
  }

  /** Each range lies in its own record. */
  ghost predicate InOwnRecords(purse: Purse, n: nat, ranges: seq<ValueRange>, at: seq<nat>)
    requires n <= |purse.records|
  {
    && |at| == |ranges|
    && (forall k :: 0 <= k < |at| ==> at[k] < n && purse.records[at[k]].value.Contains(ranges[k]))
    && (forall k, l :: 0 <= k < l < |at| ==> at[k] < at[l])
  }

  function RangeSize(r: ValueRange): nat {
    r.Size()
  }

  function SizeOfRanges(ranges: seq<ValueRange>): nat {
    Sum(RangeSize, ranges)
  }

  lemma {:induction false} PlanRanges(
      purse: Purse, n: nat, plan: Plan, amount: nat) returns (ranges: seq<ValueRange>, at: seq<nat>)
    requires n <= |purse.records| && PayingPlan(purse, n, plan, amount)
    ensures RangesOf(purse, plan) == ranges && InOwnRecords(purse, n, ranges, at) && SizeOfRanges(ranges) == amount
    decreases |plan|
  {
    ranges, at := [], [];
    if plan != [] {
      var last := plan[|plan| - 1];
      var init, initAt := PlanRanges(purse, last.index, plan[..|plan| - 1], amount - last.take);
      var begin := purse.records[last.index].value.begin;
      ranges := init + [Range(begin, begin + last.take - 1)];
      at := initAt + [last.index];
      assert ranges[..|init|] == init;
    }
  }

  // ----- Payments

  ghost predicate DisjointRecords(records: seq<LocalValueRecord>) {
    forall i, j :: 0 <= i < j < |records| ==> !records[i].value.Intersects(records[j].value)
  }

  predicate Apart(x: ValueRange, y: ValueRange) {
    !x.Intersects(y)
  }

  lemma OwnRecordsAreDisjoint(purse: Purse, n: nat, ranges: seq<ValueRange>, at: seq<nat>)
    requires n <= |purse.records| && InOwnRecords(purse, n, ranges, at) && DisjointRecords(purse.records)
    ensures Pairwise(ranges, Apart)
  {
    forall k, l | 0 <= k < l < |ranges| ensures Apart(ranges[k], ranges[l]) && Apart(ranges[l], ranges[k]) {
      assert at[k] < at[l] && !purse.records[at[k]].value.Intersects(purse.records[at[l]].value);
    }
  }

  /** Sorting disjoint ranges makes them ascend, and keeps their total size. */
  lemma SortedDisjointAscends(ranges: seq<ValueRange>)
    requires Pairwise(ranges, Apart)
    ensures Ascending(SortRanges(ranges)) && SizeOfRanges(SortRanges(ranges)) == SizeOfRanges(ranges)
  {
    SortPairwise(ranges, RangeLe, Apart);
    SumSort(RangeSize, ranges, RangeLe);
    SortRangesFacts(ranges);
    var sorted := SortRanges(ranges);
    forall i, j | 0 <= i < j < |sorted| ensures sorted[i].end < sorted[j].begin {
      assert RangeLe(sorted[i], sorted[j]) && Apart(sorted[i], sorted[j]);
    }
  }

  lemma {:induction false} SpendableMembers(records: seq<LocalValueRecord>, r: LocalValueRecord)
    ensures r in Spendable(records) <==> r in records && IsSpendable(r)
  {
    if records != [] {
      SpendableMembers(records[..|records| - 1], r);
      assert records == records[..|records| - 1] + [records[|records| - 1]];
    }
  }

  lemma SpendableLeIsTotalPreorder()
    ensures TotalPreorder(SpendableLe)
  {
  }

  /** The planner sees each spendable record once: shortest history first, then the newest, the smallest, the lowest. */
  lemma {:induction false} PurseInOrder(records: seq<LocalValueRecord>, checkpoints: seq<Checkpoint>, owner: Address, i: nat, j: nat)
    requires i < j < |PurseOf(records, checkpoints, owner).records|
    ensures multiset(PurseOf(records, checkpoints, owner).records) == multiset(Spendable(records))
    ensures var x, y := PurseOf(records, checkpoints, owner).records[i], PurseOf(records, checkpoints, owner).records[j];
            || |x.history.chain| < |y.history.chain|
            || (|x.history.chain| == |y.history.chain| &&
                (|| x.acquiredAt > y.acquiredAt
                 || (x.acquiredAt == y.acquiredAt &&
                     (|| x.value.Size() < y.value.Size()
                      || (x.value.Size() == y.value.Size() && x.value.begin <= y.value.begin)))))
  {
    SpendableLeIsTotalPreorder();
    SortSorts(Spendable(records), SpendableLe);
    SortPermutes(Spendable(records), SpendableLe);
    assert SpendableLe(PurseOf(records, checkpoints, owner).records[i], PurseOf(records, checkpoints, owner).records[j]);
  }

  /** The range lies in some spendable record of the wallet. */
  ghost predicate InSpendable(records: seq<LocalValueRecord>, value: ValueRange) {
    exists i :: 0 <= i < |records| && IsSpendable(records[i]) && records[i].value.Contains(value)
  }

  lemma {:induction false} PurseRecordIsSpendable(
      records: seq<LocalValueRecord>, purse: Purse, i: nat, value: ValueRange)
    requires purse.records == Sort(Spendable(records), SpendableLe) && i < |purse.records|
    requires purse.records[i].value.Contains(value)
    ensures InSpendable(records, value)
  {
    SortMembers(Spendable(records), SpendableLe);
    SpendableMembers(records, purse.records[i]);
  }

  datatype SelectionError = AmountNotPositive | InsufficientBalance

  /**
    Fails exactly when the amount is not positive or exceeds the available balance; otherwise pays it with the
    fronts of the records of an optimal plan.
   */
  method SelectPaymentRanges(records: seq<LocalValueRecord>, checkpoints: seq<Checkpoint>, owner: Address, amount: int)
      returns (r: Result<seq<ValueRange>, SelectionError>, ghost plan: Plan)
    ensures r.Err? <==> amount <= 0 || TotalSize(Spendable(records)) < amount
    ensures r.Err? ==> r.error == if amount <= 0 then AmountNotPositive else InsufficientBalance
    ensures r.Ok? ==>
              var purse := PurseOf(records, checkpoints, owner);
              && Pays(purse, plan, amount) && Optimal(purse, amount, plan)
              && multiset(r.value) == multiset(RangesOf(purse, plan)) && SortedBy(r.value, RangeLe)
    ensures r.Ok? ==> forall v :: v in r.value ==> InSpendable(records, v)
    ensures r.Ok? && DisjointRecords(PurseOf(records, checkpoints, owner).records) ==>
              Ascending(r.value) && SizeOfRanges(r.value) == amount
  {
    plan := [];
    if amount <= 0 {
      r := Err(AmountNotPositive);
      return;
    }
    var purse := PurseOf(records, checkpoints, owner);
    AvailableIsTotal(purse, |purse.records|);
    assert purse.records[..|purse.records|] == purse.records;
    SumSort(RecordSize, Spendable(records), SpendableLe);
    var best := ChoosePlan(purse, amount);
    if best.None? {
      r := Err(InsufficientBalance);
      return;
    }
    plan := best.value;
    ghost var ranges, at := PlanRanges(purse, |purse.records|, best.value, amount);
    var chosen: seq<ValueRange> := RangesOf(purse, best.value);
    r := Ok(SortRanges(chosen));
    SortRangesFacts(chosen);
    forall v | v in r.value ensures InSpendable(records, v) {
      var k :| 0 <= k < |chosen| && chosen[k] == v;
      PurseRecordIsSpendable(records, purse, at[k], v);
    }
    if DisjointRecords(purse.records) {
      OwnRecordsAreDisjoint(purse, |purse.records|, chosen, at);
      SortedDisjointAscends(chosen);
    }
  }
}
