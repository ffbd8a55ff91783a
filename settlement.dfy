/**
 * The live settlement view (components/SettlementView.tsx): the
 * `memberSummaries` fold, which checks each stored expense before using it
 * and splits the amount among the participants who are family members, the
 * add-expense form and the trip total.
 */
module Settlement {
  import opened Wrappers
  import opened Js
  import opened Types
  import opened Ledger

  /** The participants the live split counts: those who are family members. */
  function ValidParticipants(ps: seq<JsString>): seq<JsString> {
    Filter(ps, IsMember)
  }

  /**
   * The records the live fold uses: not null, a number-typed amount, an
   * array of participants, and at least one participant who is a member.
   */
  predicate PassesGuard(s: Slot) {
    && s.Record?
    && s.expense.amount.IsNumber()
    && s.expense.participantIds.Ids?
    && |ValidParticipants(s.expense.participantIds.items)| > 0
  }

  /**
   * No record that the fold uses carries NaN. Stored state is restored with
   * `JSON.parse`, which has no NaN, and the live form refuses a NaN amount.
   */
  predicate NoNaNCounted(xs: seq<Slot>) {
    forall s :: s in xs && PassesGuard(s) ==> s.expense.amount.Num?
  }

  lemma NoNaNPrefix(xs: seq<Slot>, n: nat)
    requires NoNaNCounted(xs) && n <= |xs|
    ensures NoNaNCounted(xs[..n])
  {
    assert forall s :: s in xs[..n] ==> s in xs;
  }

  function ValidOf(e: Expense): seq<JsString> {
    ValidParticipants(e.participantIds.OrEmpty())
  }

  /** What member `m` gains from one stored entry. */
  function Effect(m: JsString, s: Slot): Totals
    requires PassesGuard(s) ==> s.expense.amount.Num?
  {
    if !PassesGuard(s) then Zero
    else ExpenseEffect(m, s.expense.payerId, s.expense.amount.value, ValidOf(s.expense), ShareOf(s.expense), SettledOf(s.expense))
  }

  /** Member `m`'s accumulators after the fold has gone through `xs` in order. */
  function LiveTotals(m: JsString, xs: seq<Slot>): Totals
    requires NoNaNCounted(xs)
  {
    if |xs| == 0 then Zero
    else
      NoNaNPrefix(xs, |xs| - 1);
      Add(LiveTotals(m, xs[..|xs| - 1]), Effect(m, xs[|xs| - 1]))
  }

  /**
   * `memberSummaries`: one entry per family member, starting at zero; each
   * expense that passes the guard adds its amount to the payer's `spent`
   * and routes each valid participant's share.
   */
  method MemberSummaries(expenses: Option<seq<Slot>>) returns (summary: map<JsString, Totals>)
    requires NoNaNCounted(AsArray(expenses))
    ensures forall m :: m in summary <==> IsMember(m)
    ensures forall m :: m in summary ==> summary[m] == LiveTotals(m, AsArray(expenses))
  {
    summary := ZeroSummary();
    var xs := AsArray(expenses);
    for j := 0 to |xs|
      invariant forall m :: m in summary <==> IsMember(m)
      invariant forall m :: m in summary ==> summary[m] == LiveTotals(m, xs[..j])
    {
      NoNaNPrefix(xs, j + 1);
      summary := ApplyEntry(summary, xs[j]);
      forall m | m in summary ensures summary[m] == LiveTotals(m, xs[..j + 1]) {
        LiveTotalsStep(m, xs, j);
      }
    }
    assert xs[..|xs|] == xs;
  }

  /** The body of the outer `forEach`: one stored entry, skipped unless it passes the guard. */
  method ApplyEntry(summary: map<JsString, Totals>, exp: Slot) returns (next: map<JsString, Totals>)
    requires forall m :: m in summary <==> IsMember(m)
    requires PassesGuard(exp) ==> exp.expense.amount.Num?
    ensures forall m :: m in next <==> m in summary
    ensures forall m :: m in next ==> next[m] == Add(summary[m], Effect(m, exp))
  {
    next := summary;
    if exp.NullEntry? || !exp.expense.amount.IsNumber() || !exp.expense.participantIds.Ids? {
      return;
    }
    var valid := ValidParticipants(exp.expense.participantIds.items);
    if |valid| == 0 {
      return;
    }
    var amount := exp.expense.amount.value;
    var share := amount / |valid| as real;
    var payer := exp.expense.payerId;
    next := AddSpent(next, payer, amount);
    next := RouteShares(next, payer, valid, share, SettledOf(exp.expense));
    forall m | m in next
      ensures next[m] == Add(summary[m], Effect(m, exp))
    {
      AddAssoc(summary[m], SpentEffect(m, payer, amount), SharesEffect(m, payer, valid, share, SettledOf(exp.expense)));
    }
  }

  lemma LiveTotalsStep(m: JsString, xs: seq<Slot>, j: nat)
    requires NoNaNCounted(xs) && j < |xs|
    ensures NoNaNCounted(xs[..j]) && NoNaNCounted(xs[..j + 1])
    ensures LiveTotals(m, xs[..j + 1]) == Add(LiveTotals(m, xs[..j]), Effect(m, xs[j]))
  {
    NoNaNPrefix(xs, j);
    NoNaNPrefix(xs, j + 1);
    assert xs[..j + 1][..j] == xs[..j];
  }

  // ---- What the fold computes ----

  /** The fold over a concatenation is the sum of the folds. */
  lemma {:induction false} LiveTotalsAppend(m: JsString, xs: seq<Slot>, ys: seq<Slot>)
    requires NoNaNCounted(xs + ys)
    ensures NoNaNCounted(xs) && NoNaNCounted(ys)
    ensures LiveTotals(m, xs + ys) == Add(LiveTotals(m, xs), LiveTotals(m, ys))
  {
    assert forall s :: s in xs ==> s in xs + ys;
    assert forall s :: s in ys ==> s in xs + ys;
    if |ys| == 0 {
      assert xs + ys == xs;
    } else {
      var front, last := ys[..|ys| - 1], ys[|ys| - 1];
      assert (xs + ys)[..|xs + ys| - 1] == xs + front;
      assert forall s :: s in xs + front ==> s in xs + ys;
      LiveTotalsAppend(m, xs, front);
      AddAssoc(LiveTotals(m, xs), LiveTotals(m, front), Effect(m, last));
    }
  }

  /**
   * Only the entries that pass the guard matter: a null entry, an amount
   * that is not a number, a participant list that is not an array, or a
   * list without any family member leaves every member's totals as they
   * were, wherever it stands in the list.
   */
  lemma {:induction false} OnlyGuardedCount(m: JsString, xs: seq<Slot>)
    requires NoNaNCounted(xs)
    ensures NoNaNCounted(Filter(xs, PassesGuard))
    ensures LiveTotals(m, xs) == LiveTotals(m, Filter(xs, PassesGuard))
  {
    if |xs| > 0 {
      var front, last := xs[..|xs| - 1], xs[|xs| - 1];
      assert xs == front + [last];
      FilterAppend(front, [last], PassesGuard);
      NoNaNPrefix(xs, |xs| - 1);
      OnlyGuardedCount(m, front);
      var kept := Filter(front, PassesGuard);
      if PassesGuard(last) {
        assert Filter(xs, PassesGuard) == kept + [last];
        assert (kept + [last])[..|kept|] == kept;
      } else {
        assert Filter(xs, PassesGuard) == kept;
      }
    }
  }

  /** An entry that fails the guard can be dropped from anywhere in the list. */
  lemma SkipsUnguarded(m: JsString, xs: seq<Slot>, bad: Slot, ys: seq<Slot>)
    requires NoNaNCounted(xs + ys) && !PassesGuard(bad)
    ensures NoNaNCounted(xs + [bad] + ys)
    ensures LiveTotals(m, xs + [bad] + ys) == LiveTotals(m, xs + ys)
  {
    assert forall s :: s in xs + [bad] + ys ==> s in xs + ys || s == bad;
    LiveTotalsAppend(m, xs + [bad], ys);
    LiveTotalsAppend(m, xs, ys);
    assert (xs + [bad])[..|xs|] == xs;
  }

  /** The share of one expense that passes the guard: the amount over the number of valid participants. */
  function ShareOf(e: Expense): real
    requires e.amount.Num? && |ValidOf(e)| > 0
  {
    e.amount.value / |ValidOf(e)| as real
  }

  /** The valid participants' shares add up to the amount exactly. */
  lemma SharesSumToAmount(e: Expense)
    requires e.amount.Num? && |ValidOf(e)| > 0
    ensures Times(ShareOf(e), |ValidOf(e)|) == e.amount.value
  {
    TimesIsProduct(ShareOf(e), |ValidOf(e)|);
  }

  /** One expense's effect, summed over the family. */
  function EffectColumn(s: Slot): Totals
    requires PassesGuard(s) ==> s.expense.amount.Num?
  {
    MemberSum(FamilyMembers, m => Effect(m, s))
  }

  /**
   * `c` is what the family column gains from expense `e`: the payer's
   * `spent` takes the whole amount when the payer is a member; `paid +
   * toPay` takes one share per valid participant other than the payer; the
   * payer side (`received`, `toReceive`) mirrors the participant side
   * (`paid`, `toPay`) when the payer is a member and is zero otherwise.
   */
  predicate CreditsExpense(c: Totals, e: Expense)
    requires e.amount.Num? && |ValidOf(e)| > 0
  {
    && c.spent == (if IsMember(e.payerId) then e.amount.value else 0.0)
    && c.paid + c.toPay == Times(ShareOf(e), |Debtors(e.payerId, ValidOf(e))|)
    && (IsMember(e.payerId) ==> Balanced(c))
    && (!IsMember(e.payerId) ==> c.received == 0.0 && c.toReceive == 0.0)
  }

  /**
   * One expense that passes the guard, summed over the family. The payer's
   * `spent` takes the whole amount when the payer is a member, whether or
   * not the payer is a participant; one share is credited per valid
   * participant other than the payer; and when the payer is a member the
   * payer side (`received`, `toReceive`) mirrors the participant side
   * (`paid`, `toPay`).
   */
  lemma ExpenseColumn(s: Slot)
    requires PassesGuard(s) && s.expense.amount.Num?
    ensures CreditsExpense(EffectColumn(s), s.expense)
  {
    var e := s.expense;
    var amount, valid := e.amount.value, ValidOf(e);
    var share := ShareOf(e);
    var t := Totals(amount, 0.0, 0.0, 0.0, 0.0);
    var f := m => Effect(m, s);
    var f1 := m => Only(m, e.payerId, t);
    var f2 := m => SharesEffect(m, e.payerId, valid, share, SettledOf(e));
    assert forall m :: f(m) == Add(f1(m), f2(m));
    MemberSumAdd(FamilyMembers, f1, f2, f);
    FamilyMembersDistinct();
    MemberSumOnly(FamilyMembers, e.payerId, t);
    FamilySharesColumn(e.payerId, valid, share, SettledOf(e));
    var c1, c2 := MemberSum(FamilyMembers, f1), MemberSum(FamilyMembers, f2);
    assert c1 == if IsMember(e.payerId) then t else Zero;
    assert ColumnHolds(c2, e.payerId, |Debtors(e.payerId, valid)|, share);
    assert EffectColumn(s) == Add(c1, c2);
  }

  /**
   * When the payer is not among the participants and nobody is listed
   * twice, the credited shares add up to the whole amount.
   */
  lemma NoShareLost(s: Slot)
    requires PassesGuard(s) && s.expense.amount.Num?
    requires Distinct(s.expense.participantIds.items) && s.expense.payerId !in s.expense.participantIds.items
    ensures EffectColumn(s).paid + EffectColumn(s).toPay == s.expense.amount.value
  {
    var e := s.expense;
    var valid := ValidOf(e);
    ExpenseColumn(s);
    FilterKeepsAll(valid, x => IsMember(x) && x != e.payerId);
    assert |Debtors(e.payerId, valid)| == |valid|;
    SharesSumToAmount(e);
  }

  /** The fold's result summed over the family. */
  function FamilyColumn(xs: seq<Slot>): Totals
    requires NoNaNCounted(xs)
  {
    MemberSum(FamilyMembers, m => LiveTotals(m, xs))
  }

  /** `paid` matches `received` and `toPay` matches `toReceive`. */
  predicate Balanced(c: Totals) {
    c.paid == c.received && c.toPay == c.toReceive
  }

  /** Every entry the fold uses was paid by a family member. */
  predicate MemberPayers(xs: seq<Slot>) {
    forall s :: s in xs && PassesGuard(s) ==> IsMember(s.expense.payerId)
  }

  /**
   * Conservation: when every counted expense was paid by a member, what
   * members still owe equals what members are still owed, and what they
   * have paid back equals what has been received; the family's `spent` is
   * the sum of the counted amounts.
   */
  lemma {:induction false} Conservation(xs: seq<Slot>)
    requires NoNaNCounted(xs) && MemberPayers(xs)
    ensures Balanced(FamilyColumn(xs)) && FamilyColumn(xs).spent == CountedTotal(xs)
  {
    if |xs| == 0 {
      var f := m => LiveTotals(m, xs);
      assert forall m :: f(m) == Zero;
      MemberSumZero(FamilyMembers, f);
    } else {
      var front, last := xs[..|xs| - 1], xs[|xs| - 1];
      NoNaNPrefix(xs, |xs| - 1);
      Conservation(front);
      FamilyColumnStep(xs);
      EntryColumnBalanced(last);
      assert CountedTotal(xs) == CountedTotal(front) + CountedAmount(last);
      BalancedAdd(FamilyColumn(front), EffectColumn(last));
    }
  }

  /** One entry's column is balanced, and its `spent` is the amount it contributes to the counted total. */
  lemma EntryColumnBalanced(s: Slot)
    requires PassesGuard(s) ==> s.expense.amount.Num? && IsMember(s.expense.payerId)
    ensures Balanced(EffectColumn(s)) && EffectColumn(s).spent == CountedAmount(s)
  {
    if PassesGuard(s) {
      ExpenseColumn(s);
    } else {
      UnguardedColumn(s);
    }
  }

  lemma BalancedAdd(a: Totals, b: Totals)
    requires Balanced(a) && Balanced(b)
    ensures Balanced(Add(a, b))
  {
  }

  /** The family column grows by the last entry's column. */
  lemma FamilyColumnStep(xs: seq<Slot>)
    requires NoNaNCounted(xs) && |xs| > 0
    ensures NoNaNCounted(xs[..|xs| - 1])
    ensures FamilyColumn(xs) == Add(FamilyColumn(xs[..|xs| - 1]), EffectColumn(xs[|xs| - 1]))
  {
    var front, last := xs[..|xs| - 1], xs[|xs| - 1];
    NoNaNPrefix(xs, |xs| - 1);
    var f := m => LiveTotals(m, xs);
    var f1 := m => LiveTotals(m, front);
    var f2 := m => Effect(m, last);
    assert forall m :: f(m) == Add(f1(m), f2(m));
    MemberSumAdd(FamilyMembers, f1, f2, f);
  }

  /** An entry that fails the guard adds nothing to the family column. */
  lemma UnguardedColumn(s: Slot)
    requires !PassesGuard(s)
    ensures EffectColumn(s) == Zero
  {
    var f := m => Effect(m, s);
    assert forall m :: f(m) == Zero;
    MemberSumZero(FamilyMembers, f);
  }

  /** The amounts of the counted entries, added in list order. */
  function CountedTotal(xs: seq<Slot>): real
    requires NoNaNCounted(xs)
  {
    if |xs| == 0 then 0.0
    else
      NoNaNPrefix(xs, |xs| - 1);
      CountedTotal(xs[..|xs| - 1]) + CountedAmount(xs[|xs| - 1])
  }

  /** The amount an entry contributes when the fold counts it, 0 otherwise. */
  function CountedAmount(s: Slot): real
    requires PassesGuard(s) ==> s.expense.amount.Num?
  {
    if PassesGuard(s) then s.expense.amount.value else 0.0
  }

  // ---- Trip total ----

  /**
   * `Number(curr?.amount) || 0`: a number counts as itself, NaN, a missing
   * amount, null and a null entry as 0, a string as the number it spells
   * (0 when it spells none).
   */
  function CostOf(s: Slot): real {
    match s
    case NullEntry => 0.0
    case Record(e) =>
      match e.amount
      case Num(v) => v
      case Text(_, n) => n.GetOr(0.0)
      case _ => 0.0
  }

  /** `totalTripCost`: the costs added from the left, starting at 0; a state that is not an array costs 0. */
  function TotalTripCost(expenses: Option<seq<Slot>>): real {
    SumCosts(AsArray(expenses))
  }

  function SumCosts(xs: seq<Slot>): real {
    if |xs| == 0 then 0.0 else SumCosts(xs[..|xs| - 1]) + CostOf(xs[|xs| - 1])
  }

  /**
   * When every entry passes the guard, the trip total is the total of the
   * counted amounts; when moreover every payer is a member, it is the
   * family's `spent`: every amount appears once, in its payer's row. A
   * payer outside the family is in the trip total and in nobody's `spent`.
   */
  lemma TripCostIsSpent(xs: seq<Slot>)
    requires NoNaNCounted(xs) && forall s :: s in xs ==> PassesGuard(s)
    ensures SumCosts(xs) == CountedTotal(xs)
    ensures MemberPayers(xs) ==> SumCosts(xs) == FamilyColumn(xs).spent
  {
    CostIsCounted(xs);
    if MemberPayers(xs) {
      Conservation(xs);
    }
  }

  lemma {:induction false} CostIsCounted(xs: seq<Slot>)
    requires NoNaNCounted(xs) && forall s :: s in xs ==> PassesGuard(s)
    ensures SumCosts(xs) == CountedTotal(xs)
  {
    if |xs| > 0 {
      NoNaNPrefix(xs, |xs| - 1);
      CostIsCounted(xs[..|xs| - 1]);
    }
  }

  // ---- Settling ----

  /** `a` and `b` differ at most by money moved between settled and outstanding buckets. */
  predicate SameButSettled(a: Totals, b: Totals) {
    && a.spent == b.spent
    && a.paid + a.toPay == b.paid + b.toPay
    && a.received + a.toReceive == b.received + b.toReceive
  }

  /** Two entries that differ at most in their settled lists count the same, up to settling. */
  lemma EffectSettledOnly(m: JsString, a: Slot, b: Slot)
    requires a.Record? && b.Record?
    requires b.expense == a.expense.(settledMemberIds := b.expense.settledMemberIds)
    requires PassesGuard(a) ==> a.expense.amount.Num?
    ensures PassesGuard(b) == PassesGuard(a)
    ensures SameButSettled(Effect(m, b), Effect(m, a))
  {
    if PassesGuard(a) {
      var e, valid := a.expense, ValidOf(a.expense);
      SharesSettledIndependent(m, e.payerId, valid, ShareOf(e), SettledOf(e), SettledOf(b.expense));
    }
  }

  /**
   * `toggleSettlement` only moves money between the settled and the
   * outstanding buckets: every member keeps their `spent`, their
   * `paid + toPay` and their `received + toReceive`.
   */
  lemma SettlingMovesOnly(m: JsString, xs: seq<Slot>, expenseId: JsString, memberId: JsString)
    requires NoNaNCounted(xs) && NullEntry !in xs
    ensures ToggleSettlement(Some(xs), expenseId, memberId).Returns?
    ensures var ys := ToggleSettlement(Some(xs), expenseId, memberId).value;
      NoNaNCounted(ys) && SameButSettled(LiveTotals(m, ys), LiveTotals(m, xs))
  {
    var ys := ToggleSettlement(Some(xs), expenseId, memberId).value;
    forall s | s in ys && PassesGuard(s) ensures s.expense.amount.Num? {
      var i :| 0 <= i < |ys| && ys[i] == s;
      assert SettlementToggled(xs[i], ys[i], expenseId, memberId);
      EffectSettledOnly(m, xs[i], ys[i]);
    }
    SettledOnlyFold(m, xs, ys, expenseId, memberId);
  }

  lemma {:induction false} SettledOnlyFold(m: JsString, xs: seq<Slot>, ys: seq<Slot>, expenseId: JsString, memberId: JsString)
    requires NoNaNCounted(xs) && NoNaNCounted(ys) && |xs| == |ys|
    requires forall i :: 0 <= i < |xs| ==> xs[i].Record? && SettlementToggled(xs[i], ys[i], expenseId, memberId)
    ensures SameButSettled(LiveTotals(m, ys), LiveTotals(m, xs))
  {
    if |xs| > 0 {
      var n := |xs| - 1;
      NoNaNPrefix(xs, n);
      NoNaNPrefix(ys, n);
      SettledOnlyFold(m, xs[..n], ys[..n], expenseId, memberId);
      EffectSettledOnly(m, xs[n], ys[n]);
      SameButSettledAdd(LiveTotals(m, ys[..n]), Effect(m, ys[n]), LiveTotals(m, xs[..n]), Effect(m, xs[n]));
    }
  }

  lemma SameButSettledAdd(a1: Totals, a2: Totals, b1: Totals, b2: Totals)
    requires SameButSettled(a1, b1) && SameButSettled(a2, b2)
    ensures SameButSettled(Add(a1, a2), Add(b1, b2))
  {
  }

  /** What the summary card shows as 정산 완료: nothing to receive and nothing to pay. */
  predicate ShowsSettledUp(t: Totals) {
    t.toReceive <= 0.0 && t.toPay <= 0.0
  }

  /** Every valid participant other than the payer is in the settled list. */
  predicate FullySettled(s: Slot) {
    s.Record? ==> forall p :: p in ValidOf(s.expense) && p != s.expense.payerId ==> p in SettledOf(s.expense)
  }

  /** Once every counted expense is fully settled, every member's card shows 정산 완료. */
  lemma {:induction false} AllSettledShowsDone(m: JsString, xs: seq<Slot>)
    requires NoNaNCounted(xs) && forall s :: s in xs ==> FullySettled(s)
    ensures LiveTotals(m, xs).toPay == 0.0 && LiveTotals(m, xs).toReceive == 0.0
    ensures ShowsSettledUp(LiveTotals(m, xs))
  {
    if |xs| > 0 {
      var front, last := xs[..|xs| - 1], xs[|xs| - 1];
      NoNaNPrefix(xs, |xs| - 1);
      AllSettledShowsDone(m, front);
      SettledEntryOwesNothing(m, last);
      assert LiveTotals(m, xs) == Add(LiveTotals(m, front), Effect(m, last));
    }
  }

  lemma SettledEntryOwesNothing(m: JsString, s: Slot)
    requires PassesGuard(s) ==> s.expense.amount.Num?
    requires FullySettled(s)
    ensures Effect(m, s).toPay == 0.0 && Effect(m, s).toReceive == 0.0
  {
    if PassesGuard(s) {
      var e := s.expense;
      var valid := ValidOf(e);
      forall p | p in valid && IsMember(p) && p != e.payerId ensures p in SettledOf(e) {
      }
      SharesAllSettled(m, e.payerId, valid, ShareOf(e), SettledOf(e));
      var spent := SpentEffect(m, e.payerId, e.amount.value);
      assert spent.toPay == 0.0 && spent.toReceive == 0.0;
      assert Effect(m, s) == Add(spent, SharesEffect(m, e.payerId, valid, ShareOf(e), SettledOf(e)));
    }
  }

  // ---- Adding an expense ----

  /**
   * The add-expense form as `addExpense` reads it: the title and amount
   * text, what `parseFloat` makes of the amount (`None` for NaN), the
   * payer, the chosen participants, and the form date's timestamp (`None`
   * for NaN).
   */
  datatype ExpenseForm = ExpenseForm(
    title: JsString,
    amountText: JsString,
    parsedAmount: Option<real>,
    payer: JsString,
    participants: seq<JsString>,
    parsedDate: Option<int>)

  /** The form is refused: blank title, empty amount text, nobody chosen, or an amount that is not a number. */
  predicate RefusesForm(form: ExpenseForm) {
    IsBlank(form.title) || form.amountText == [] || form.participants == [] || form.parsedAmount.None?
  }

  /**
   * `addExpense` with `Date.now()` given as `id` and `now`: a refused form
   * leaves the list as it is; otherwise the new expense goes in front of
   * the previous list (empty when that was not an array).
   */
  function AddExpense(expenses: Option<seq<Slot>>, form: ExpenseForm, id: JsString, now: int): (r: Option<seq<Slot>>)
    ensures RefusesForm(form) ==> r == expenses
    ensures !RefusesForm(form) ==> r.Some? && |r.value| == |AsArray(expenses)| + 1 && r.value[1..] == AsArray(expenses)
    ensures !RefusesForm(form) ==> r.value[0].Record? && NewlyAdded(r.value[0].expense, form, id, now)
  {
    if Trim(form.title) == [] || form.amountText == [] || |form.participants| == 0 then expenses
    else match form.parsedAmount
      case None => expenses
      case Some(amount) =>
        var date := match form.parsedDate { case Some(d) => if d != 0 then d else now case None => now };
        var e := Expense(id, Trim(form.title), Num(amount), form.payer, Ids(form.participants), Some([]), Some(date));
        Some([Record(e)] + AsArray(expenses))
  }

  /**
   * The stored expense: the given id, the trimmed title (never empty), the
   * parsed amount as a number, the chosen payer and participants, nobody
   * settled, and the form date unless that is NaN or 0, when it is `now`.
   */
  predicate NewlyAdded(e: Expense, form: ExpenseForm, id: JsString, now: int) {
    && e.id == id && e.title == Trim(form.title) && e.title != []
    && form.parsedAmount.Some? && e.amount == Num(form.parsedAmount.value)
    && e.payerId == form.payer && e.participantIds == Ids(form.participants)
    && e.settledMemberIds == Some([])
    && e.date == Some(if form.parsedDate.Some? && form.parsedDate.value != 0 then form.parsedDate.value else now)
  }

  /**
   * A successful add stores no NaN, and the new expense passes the guard
   * exactly when one of the chosen participants is a family member.
   */
  lemma AddExpenseGuard(expenses: Option<seq<Slot>>, form: ExpenseForm, id: JsString, now: int)
    requires NoNaNCounted(AsArray(expenses)) && !RefusesForm(form)
    ensures NoNaNCounted(AddExpense(expenses, form, id, now).value)
    ensures PassesGuard(AddExpense(expenses, form, id, now).value[0]) <==> exists p :: p in form.participants && IsMember(p)
  {
    var r := AddExpense(expenses, form, id, now).value;
    assert forall s :: s in r ==> s == r[0] || s in AsArray(expenses);
    var valid := ValidOf(r[0].expense);
    assert r[0].expense.participantIds == Ids(form.participants);
    if exists p :: p in form.participants && IsMember(p) {
      var p :| p in form.participants && IsMember(p);
      assert p in valid;
    }
    if |valid| > 0 {
      assert valid[0] in valid;
      assert valid[0] in form.participants && IsMember(valid[0]);
    }
  }

  /** A successful add counts the new expense on top of the old totals, for every member. */
  lemma AddExpenseEffect(m: JsString, expenses: Option<seq<Slot>>, form: ExpenseForm, id: JsString, now: int)
    requires NoNaNCounted(AsArray(expenses)) && !RefusesForm(form)
    ensures NoNaNCounted(AddExpense(expenses, form, id, now).value)
    ensures var r := AddExpense(expenses, form, id, now).value;
      LiveTotals(m, r) == Add(Effect(m, r[0]), LiveTotals(m, AsArray(expenses)))
  {
    AddExpenseGuard(expenses, form, id, now);
    var r := AddExpense(expenses, form, id, now).value;
    PrependTotals(m, r[0], AsArray(expenses));
    assert r == [r[0]] + AsArray(expenses);
  }

  /** The fold over a list with one more entry in front. */
  lemma PrependTotals(m: JsString, s: Slot, xs: seq<Slot>)
    requires NoNaNCounted([s] + xs)
    ensures NoNaNCounted(xs)
    ensures LiveTotals(m, [s] + xs) == Add(Effect(m, s), LiveTotals(m, xs))
  {
    LiveTotalsAppend(m, [s], xs);
    assert [s][..0] == [];
    assert LiveTotals(m, [s]) == Add(Zero, Effect(m, s));
  }

  /** A successful add raises the trip total by the parsed amount. */
  lemma AddExpenseCost(expenses: Option<seq<Slot>>, form: ExpenseForm, id: JsString, now: int)
    requires !RefusesForm(form)
    ensures TotalTripCost(AddExpense(expenses, form, id, now)) == form.parsedAmount.value + TotalTripCost(expenses)
  {
    var r := AddExpense(expenses, form, id, now).value;
    var xs := AsArray(expenses);
    assert r == [r[0]] + xs;
    SumCostsAppend([r[0]], xs);
    assert [r[0]][..0] == [];
    assert SumCosts([r[0]]) == 0.0 + CostOf(r[0]);
  }

  lemma {:induction false} SumCostsAppend(xs: seq<Slot>, ys: seq<Slot>)
    ensures SumCosts(xs + ys) == SumCosts(xs) + SumCosts(ys)
  {
    if |ys| == 0 {
      assert xs + ys == xs;
    } else {
      assert (xs + ys)[..|xs + ys| - 1] == xs + ys[..|ys| - 1];
      SumCostsAppend(xs, ys[..|ys| - 1]);
    }
  }
}
