/**
 * The older settlement view (SettlementView.tsx at the repository root).
 * Its fold skips only a null entry or a falsy participant list, throws on
 * a participant list that is truthy but not an array, divides by the
 * length of the whole participant list (1 when it is empty), and lets
 * non-member participants dilute everyone's share. Its form does not trim
 * the title or check the parsed amount.
 */
module SettlementLegacy {
  import opened Wrappers
  import opened Js
  import opened Types
  import opened Ledger
  import Settlement

  /** The entries the legacy fold uses: not null, with a participant array. */
  predicate Used(s: Slot) {
    s.Record? && s.expense.participantIds.Ids?
  }

  /**
   * The entries the legacy fold throws on: the participant list is truthy,
   * so the early return is not taken, but it is not an array, so it has no
   * `forEach`.
   */
  predicate Breaks(s: Slot) {
    s.Record? && s.expense.participantIds.NotArray?
  }

  /**
   * Every entry the fold uses has a number or null amount. (A missing or
   * NaN amount would make the accumulators NaN and a string would turn
   * them into strings; neither is modelled.)
   */
  predicate NumericAmounts(xs: seq<Slot>) {
    forall s :: s in xs && Used(s) ==> s.expense.amount.Num? || s.expense.amount.Null?
  }

  /** The amount as the arithmetic reads it: null counts as 0. */
  function AmountValue(a: RawAmount): real
    requires a.Num? || a.Null?
  {
    if a.Num? then a.value else 0.0
  }

  /** `amount / (participantIds.length || 1)`. */
  function LegacyShare(e: Expense): real
    requires e.participantIds.Ids? && (e.amount.Num? || e.amount.Null?)
  {
    var n := |e.participantIds.items|;
    AmountValue(e.amount) / (if n == 0 then 1 else n) as real
  }

  /** What member `m` gains from one stored entry in the legacy fold. */
  function LegacyEffect(m: JsString, s: Slot): Totals
    requires Used(s) ==> s.expense.amount.Num? || s.expense.amount.Null?
  {
    if !Used(s) then Zero
    else ExpenseEffect(m, s.expense.payerId, AmountValue(s.expense.amount), s.expense.participantIds.items,
                       LegacyShare(s.expense), SettledOf(s.expense))
  }

  lemma NumericPrefix(xs: seq<Slot>, n: nat)
    requires NumericAmounts(xs) && n <= |xs|
    ensures NumericAmounts(xs[..n])
  {
    assert forall s :: s in xs[..n] ==> s in xs;
  }

  /** Member `m`'s accumulators after the legacy fold has gone through `xs` in order. */
  function LegacyTotals(m: JsString, xs: seq<Slot>): Totals
    requires NumericAmounts(xs)
  {
    if |xs| == 0 then Zero
    else
      NumericPrefix(xs, |xs| - 1);
      Add(LegacyTotals(m, xs[..|xs| - 1]), LegacyEffect(m, xs[|xs| - 1]))
  }

  lemma LegacyTotalsStep(m: JsString, xs: seq<Slot>, j: nat)
    requires NumericAmounts(xs) && j < |xs|
    ensures NumericAmounts(xs[..j]) && NumericAmounts(xs[..j + 1])
    ensures LegacyTotals(m, xs[..j + 1]) == Add(LegacyTotals(m, xs[..j]), LegacyEffect(m, xs[j]))
  {
    NumericPrefix(xs, j);
    NumericPrefix(xs, j + 1);
    assert xs[..j + 1][..j] == xs[..j];
  }

  /**
   * The legacy `memberSummaries`: throws when some entry has a truthy
   * participant list that is not an array (the view has no `try`);
   * otherwise every member holds the legacy fold of the list.
   */
  method LegacySummaries(expenses: Option<seq<Slot>>) returns (r: Outcome<map<JsString, Totals>>)
    requires NumericAmounts(AsArray(expenses))
    ensures r.Throws? <==> exists s :: s in AsArray(expenses) && Breaks(s)
    ensures r.Returns? ==> forall m :: m in r.value <==> IsMember(m)
    ensures r.Returns? ==> forall m :: m in r.value ==> r.value[m] == LegacyTotals(m, AsArray(expenses))
  {
    var summary := ZeroSummary();
    var xs := AsArray(expenses);
    for j := 0 to |xs|
      invariant forall m :: m in summary <==> IsMember(m)
      invariant forall m :: m in summary ==> summary[m] == LegacyTotals(m, xs[..j])
      invariant forall k :: 0 <= k < j ==> !Breaks(xs[k])
    {
      NumericPrefix(xs, j + 1);
      var step := LegacyApplyEntry(summary, xs[j]);
      if step.Throws? {
        assert xs[j] in xs;
        return Throws;
      }
      summary := step.value;
      forall m | m in summary ensures summary[m] == LegacyTotals(m, xs[..j + 1]) {
        LegacyTotalsStep(m, xs, j);
      }
    }
    assert xs[..|xs|] == xs;
    assert forall s :: s in xs ==> !Breaks(s) by {
      forall s | s in xs ensures !Breaks(s) {
        var k :| 0 <= k < |xs| && xs[k] == s;
      }
    }
    r := Returns(summary);
  }

  /**
   * The body of the legacy outer `forEach`: a null entry or a falsy
   * participant list adds nothing; a truthy participant list that is not
   * an array throws at its `forEach` (the `spent` added just before is
   * lost with the whole summary); an array adds the entry's effect.
   */
  method LegacyApplyEntry(summary: map<JsString, Totals>, exp: Slot) returns (r: Outcome<map<JsString, Totals>>)
    requires forall m :: m in summary <==> IsMember(m)
    requires Used(exp) ==> exp.expense.amount.Num? || exp.expense.amount.Null?
    ensures r.Throws? <==> Breaks(exp)
    ensures r.Returns? ==> forall m :: m in r.value <==> m in summary
    ensures r.Returns? ==> forall m :: m in r.value ==> r.value[m] == Add(summary[m], LegacyEffect(m, exp))
  {
    if exp.NullEntry? || exp.expense.participantIds.Falsy? {
      return Returns(summary);
    }
    if exp.expense.participantIds.NotArray? {
      return Throws;
    }
    var next := summary;
    var ps := exp.expense.participantIds.items;
    var amount := AmountValue(exp.expense.amount);
    var share := amount / (if |ps| == 0 then 1 else |ps|) as real;
    var payer := exp.expense.payerId;
    next := AddSpent(next, payer, amount);
    next := RouteShares(next, payer, ps, share, SettledOf(exp.expense));
    forall m | m in next
      ensures next[m] == Add(summary[m], LegacyEffect(m, exp))
    {
      AddAssoc(summary[m], SpentEffect(m, payer, amount), SharesEffect(m, payer, ps, share, SettledOf(exp.expense)));
    }
    r := Returns(next);
  }

  // ---- How the two revisions differ ----

  /** An entry both revisions read alike: a number amount and a non-empty list of members only. */
  predicate Clean(s: Slot) {
    && s.Record? && s.expense.amount.Num? && s.expense.participantIds.Ids?
    && |s.expense.participantIds.items| > 0
    && forall p :: p in s.expense.participantIds.items ==> IsMember(p)
  }

  /** On a clean entry the two revisions count exactly the same. */
  lemma RevisionsAgreeOnEntry(m: JsString, s: Slot)
    requires Clean(s)
    ensures Settlement.PassesGuard(s) && Used(s)
    ensures LegacyEffect(m, s) == Settlement.Effect(m, s)
  {
    var ps := s.expense.participantIds.items;
    FilterKeepsAll(ps, IsMember);
    assert Settlement.ValidOf(s.expense) == ps;
  }

  /** On a list of clean entries both folds give every member the same totals. */
  lemma {:induction false} RevisionsAgree(m: JsString, xs: seq<Slot>)
    requires forall s :: s in xs ==> Clean(s)
    ensures NumericAmounts(xs) && Settlement.NoNaNCounted(xs)
    ensures LegacyTotals(m, xs) == Settlement.LiveTotals(m, xs)
  {
    if |xs| > 0 {
      var front, last := xs[..|xs| - 1], xs[|xs| - 1];
      assert forall s :: s in front ==> s in xs;
      RevisionsAgree(m, front);
      RevisionsAgreeOnEntry(m, last);
    }
  }

  /** The legacy family column of one used entry: one diluted share per member participant other than the payer. */
  lemma LegacyColumn(s: Slot)
    requires Used(s) && (s.expense.amount.Num? || s.expense.amount.Null?)
    ensures ColumnHolds(MemberSum(FamilyMembers, m => SharesEffect(m, s.expense.payerId, s.expense.participantIds.items, LegacyShare(s.expense), SettledOf(s.expense))),
                        s.expense.payerId, |Debtors(s.expense.payerId, s.expense.participantIds.items)|, LegacyShare(s.expense))
  {
    FamilySharesColumn(s.expense.payerId, s.expense.participantIds.items, LegacyShare(s.expense), SettledOf(s.expense));
  }

  /**
   * A participant who is not a member still counts in the divisor but
   * receives no share. So for a positive amount even one share for every
   * member participant, the payer's own included, falls short of the
   * amount, and the credited shares add up to less than it.
   */
  lemma NonMemberDilutes(s: Slot, stranger: JsString)
    requires Used(s) && s.expense.amount.Num? && s.expense.amount.value > 0.0
    requires stranger in s.expense.participantIds.items && !IsMember(stranger)
    ensures Times(LegacyShare(s.expense), |Settlement.ValidOf(s.expense)|) < s.expense.amount.value
    ensures var c := MemberSum(FamilyMembers, m => SharesEffect(m, s.expense.payerId, s.expense.participantIds.items, LegacyShare(s.expense), SettledOf(s.expense)));
      c.paid + c.toPay < s.expense.amount.value
  {
    var e := s.expense;
    var ps := e.participantIds.items;
    var share := LegacyShare(e);
    var c := MemberSum(FamilyMembers, m => SharesEffect(m, e.payerId, ps, share, SettledOf(e)));
    var k := |Debtors(e.payerId, ps)|;
    LegacyColumn(s);
    assert c.paid + c.toPay == Times(share, k);
    FilterDropsRejected(ps, x => IsMember(x) && x != e.payerId, stranger);
    assert k < |ps|;
    assert share == e.amount.value / |ps| as real;
    FewerShares(e.amount.value, |ps|, k);
    FilterDropsRejected(ps, IsMember, stranger);
    assert e.participantIds.OrEmpty() == ps;
    FewerShares(e.amount.value, |ps|, |Settlement.ValidOf(e)|);
  }

  /** Fewer than `n` shares of an `n`-th of a positive amount fall short of it. */
  lemma FewerShares(amount: real, n: nat, k: nat)
    requires amount > 0.0 && k < n
    ensures Times(amount / n as real, k) < amount
  {
    var share := amount / n as real;
    TimesIsProduct(share, k);
    assert share * n as real == amount;
    assert share > 0.0;
    assert share * k as real < share * n as real;
  }

  /**
   * The dilution in one case: `payer` pays `amount` for themself, member
   * `p` and a non-member, and nobody has settled. The live revision splits
   * between the two members, so `p` owes half; the legacy revision divides
   * by all three, so `p` owes a third.
   */
  lemma DilutionExample(payer: JsString, p: JsString, stranger: JsString, amount: real, id: JsString)
    requires IsMember(payer) && IsMember(p) && p != payer && !IsMember(stranger)
    ensures var s := Record(Expense(id, [], Num(amount), payer, Ids([payer, p, stranger]), Some([]), None));
      && Settlement.NoNaNCounted([s]) && NumericAmounts([s])
      && Settlement.LiveTotals(p, [s]).toPay == amount / 2.0
      && LegacyTotals(p, [s]).toPay == amount / 3.0
  {
    var ps := [payer, p, stranger];
    var s := Record(Expense(id, [], Num(amount), payer, Ids(ps), Some([]), None));
    var valid := [payer, p];
    assert s.expense.participantIds.OrEmpty() == ps;
    assert Settlement.ValidOf(s.expense) == valid by {
      assert [stranger][1..] == [];
      assert Filter([stranger], IsMember) == [];
      assert [p, stranger][1..] == [stranger];
      assert Filter([p, stranger], IsMember) == [p];
      assert ps[1..] == [p, stranger];
    }
    assert [s][..0] == [];
    OneDebtorToPay(p, payer, valid, amount / 2.0);
    assert Settlement.Effect(p, s).toPay == amount / 2.0;
    assert LegacyShare(s.expense) == amount / 3.0;
    OneDebtorToPay(p, payer, ps, amount / 3.0);
    assert LegacyEffect(p, s).toPay == amount / 3.0;
  }

  /** In `[payer, p]` or `[payer, p, stranger]`, nobody settled, `p` owes exactly one share. */
  lemma OneDebtorToPay(p: JsString, payer: JsString, ps: seq<JsString>, share: real)
    requires IsMember(p) && p != payer && 2 <= |ps| <= 3 && ps[0] == payer && ps[1] == p
    requires |ps| == 3 ==> !IsMember(ps[2])
    ensures SharesEffect(p, payer, ps, share, []).toPay == share
  {
    SharesSnoc(p, payer, [], payer, share, []);
    assert [] + [payer] == [payer];
    SharesSnoc(p, payer, [payer], p, share, []);
    assert [payer] + [p] == [payer, p];
    var t := SharesEffect(p, payer, [payer, p], share, []);
    assert t.toPay == share;
    if |ps| == 3 {
      SharesSnoc(p, payer, [payer, p], ps[2], share, []);
      assert [payer, p] + [ps[2]] == ps;
    } else {
      assert [payer, p] == ps;
    }
  }

  /** An empty participant list is not skipped: the payer's `spent` takes the whole amount and nothing else moves. */
  lemma EmptyParticipantsOnlySpend(m: JsString, s: Slot)
    requires s.Record? && s.expense.participantIds == Ids([]) && (s.expense.amount.Num? || s.expense.amount.Null?)
    ensures LegacyEffect(m, s) == SpentEffect(m, s.expense.payerId, AmountValue(s.expense.amount))
    ensures Settlement.Effect(m, s) == Zero
  {
    assert Filter([], IsMember) == [];
  }

  /** A missing settled list counts as nobody settled: nothing lands in `paid` or `received`. */
  lemma MissingSettledIsUnsettled(m: JsString, s: Slot)
    requires Used(s) && (s.expense.amount.Num? || s.expense.amount.Null?) && s.expense.settledMemberIds.None?
    ensures LegacyEffect(m, s).paid == 0.0 && LegacyEffect(m, s).received == 0.0
  {
    SharesNoneSettled(m, s.expense.payerId, s.expense.participantIds.items, LegacyShare(s.expense));
  }

  // ---- Adding an expense ----

  /** The legacy form check: only an empty title, an empty amount text or nobody chosen is refused. */
  predicate LegacyRefuses(form: Settlement.ExpenseForm) {
    form.title == [] || form.amountText == [] || form.participants == []
  }

  /**
   * The legacy `addExpense`, with `Date.now()` given as `id`: the title as
   * typed, the `parseFloat` result stored even when it is NaN, and the
   * form date's timestamp stored even when it is NaN.
   */
  function LegacyAddExpense(expenses: Option<seq<Slot>>, form: Settlement.ExpenseForm, id: JsString): (r: Option<seq<Slot>>)
    ensures LegacyRefuses(form) ==> r == expenses
    ensures !LegacyRefuses(form) ==> r.Some? && |r.value| == |AsArray(expenses)| + 1 && r.value[1..] == AsArray(expenses)
    ensures !LegacyRefuses(form) ==> r.value[0].Record? && LegacyNewlyAdded(r.value[0].expense, form, id)
  {
    if |form.title| == 0 || |form.amountText| == 0 || |form.participants| == 0 then expenses
    else
      var amount := match form.parsedAmount { case Some(v) => Num(v) case None => NaN };
      var e := Expense(id, form.title, amount, form.payer, Ids(form.participants), Some([]), form.parsedDate);
      Some([Record(e)] + AsArray(expenses))
  }

  /**
   * The stored expense: the given id, the title untrimmed, the parsed
   * amount or NaN, the chosen payer and participants, nobody settled, and
   * the form date's timestamp (NaN included).
   */
  predicate LegacyNewlyAdded(e: Expense, form: Settlement.ExpenseForm, id: JsString) {
    && e.id == id && e.title == form.title
    && (if form.parsedAmount.Some? then e.amount == Num(form.parsedAmount.value) else e.amount.NaN?)
    && e.payerId == form.payer && e.participantIds == Ids(form.participants)
    && e.settledMemberIds == Some([]) && e.date == form.parsedDate
  }

  /** Every form the live revision accepts the legacy one accepts too; a title of white space only is accepted by the legacy form alone. */
  lemma LegacyAcceptsMore(form: Settlement.ExpenseForm)
    ensures !Settlement.RefusesForm(form) ==> !LegacyRefuses(form)
    ensures form.title != [] && IsBlank(form.title) ==> Settlement.RefusesForm(form) && (LegacyRefuses(form) <==> form.amountText == [] || form.participants == [])
  {
  }

  /**
   * An amount text that does not parse is stored as NaN. The older form's
   * amount field is a `type="number"` input, whose value is either empty
   * (which the form check refuses) or a number, so the form itself never
   * sends such text: the entry can only come from another writer of the
   * stored list. The live fold
   * would count that entry whenever a member takes part, and the legacy
   * fold's arithmetic would turn NaN, so neither fold's precondition holds
   * any more.
   */
  lemma LegacyStoresNaN(expenses: Option<seq<Slot>>, form: Settlement.ExpenseForm, id: JsString, p: JsString)
    requires !LegacyRefuses(form) && form.parsedAmount.None?
    requires p in form.participants && IsMember(p)
    ensures !Settlement.NoNaNCounted(LegacyAddExpense(expenses, form, id).value)
    ensures !NumericAmounts(LegacyAddExpense(expenses, form, id).value)
  {
    var r := LegacyAddExpense(expenses, form, id).value;
    assert r[0] in r;
    assert p in Settlement.ValidOf(r[0].expense);
  }

  /**
   * With a trimmed, non-empty title, an amount that parses and a form date
   * that is a timestamp other than 0, both revisions store the same list.
   */
  lemma LegacyAddAgrees(expenses: Option<seq<Slot>>, form: Settlement.ExpenseForm, id: JsString, now: int)
    requires form.title != [] && Trim(form.title) == form.title
    requires form.parsedAmount.Some? && form.parsedDate.Some? && form.parsedDate.value != 0
    ensures LegacyAddExpense(expenses, form, id) == Settlement.AddExpense(expenses, form, id, now)
  {
  }

  // ---- Trip total ----

  /** No entry holds a string amount (which `acc + amount` would concatenate). */
  predicate NoTextAmounts(xs: seq<Slot>) {
    forall s :: s in xs && s.Record? ==> !s.expense.amount.Text?
  }

  /** `curr?.amount || 0`: a number counts as itself, NaN, a missing amount, null and a null entry as 0. */
  function LegacyCost(s: Slot): real
    requires s.Record? ==> !s.expense.amount.Text?
  {
    if s.Record? && s.expense.amount.Num? then s.expense.amount.value else 0.0
  }

  /** The legacy `totalTripCost`: the costs added from the left, starting at 0. */
  function LegacyTripCost(expenses: Option<seq<Slot>>): real
    requires NoTextAmounts(AsArray(expenses))
  {
    LegacySumCosts(AsArray(expenses))
  }

  function LegacySumCosts(xs: seq<Slot>): real
    requires NoTextAmounts(xs)
  {
    if |xs| == 0 then 0.0
    else
      assert forall s :: s in xs[..|xs| - 1] ==> s in xs;
      LegacySumCosts(xs[..|xs| - 1]) + LegacyCost(xs[|xs| - 1])
  }

  /** Without string amounts the two revisions' trip totals agree. */
  lemma {:induction false} TripCostsAgree(xs: seq<Slot>)
    requires NoTextAmounts(xs)
    ensures LegacySumCosts(xs) == Settlement.SumCosts(xs)
  {
    if |xs| > 0 {
      assert forall s :: s in xs[..|xs| - 1] ==> s in xs;
      TripCostsAgree(xs[..|xs| - 1]);
      assert xs[|xs| - 1] in xs;
    }
  }

  /** A legacy add raises the trip total by the parsed amount, or by nothing when the amount is NaN. */
  lemma LegacyAddCost(expenses: Option<seq<Slot>>, form: Settlement.ExpenseForm, id: JsString)
    requires NoTextAmounts(AsArray(expenses)) && !LegacyRefuses(form)
    ensures NoTextAmounts(AsArray(LegacyAddExpense(expenses, form, id)))
    ensures LegacyTripCost(LegacyAddExpense(expenses, form, id)) == form.parsedAmount.GetOr(0.0) + LegacyTripCost(expenses)
  {
    var r := LegacyAddExpense(expenses, form, id).value;
    var xs := AsArray(expenses);
    assert r == [r[0]] + xs;
    assert forall s :: s in r ==> s == r[0] || s in xs;
    TripCostsAgree(r);
    TripCostsAgree(xs);
    Settlement.SumCostsAppend([r[0]], xs);
    assert [r[0]][..0] == [];
    assert Settlement.SumCosts([r[0]]) == 0.0 + Settlement.CostOf(r[0]);
  }
}
