/**
 * The part of the shared-expense ledger that both revisions of the
 * settlement view have in common: the five per-member accumulators, the
 * rule that routes one participant's share into them, sums over the
 * family, and the list updaters (participant toggle, delete, settlement
 * toggle) whose code is the same in both revisions.
 */
module Ledger {
  import opened Wrappers
  import opened Js
  import opened Types

  /**
   * A member's accumulators: `spent` (what they paid up front), `received`
   * and `toReceive` (other people's shares of their payments, settled and
   * outstanding), `paid` and `toPay` (their own shares of other people's
   * payments, settled and outstanding).
   */
  datatype Totals = Totals(spent: real, received: real, paid: real, toPay: real, toReceive: real)

  const Zero := Totals(0.0, 0.0, 0.0, 0.0, 0.0)

  function Add(a: Totals, b: Totals): Totals {
    Totals(a.spent + b.spent, a.received + b.received, a.paid + b.paid,
           a.toPay + b.toPay, a.toReceive + b.toReceive)
  }

  /** `t` for member `who`, nothing for anyone else. */
  function Only(m: JsString, who: JsString, t: Totals): Totals {
    if m == who then t else Zero
  }

  /** What member `m` gains from `summary[payer].spent += amount`. */
  function SpentEffect(m: JsString, payer: JsString, amount: real): Totals {
    Only(m, payer, Totals(amount, 0.0, 0.0, 0.0, 0.0))
  }

  /**
   * What member `m` gains from participant `p`'s share: nothing when `p` is
   * not a member or is the payer; otherwise a settled share goes to `p`'s
   * `paid` and the payer's `received`, an unsettled one to `p`'s `toPay` and
   * the payer's `toReceive`.
   */
  function ShareEffect(m: JsString, payer: JsString, p: JsString, share: real, settled: seq<JsString>): Totals {
    if !IsMember(p) || p == payer then Zero
    else if p in settled then
      Add(Only(m, p, Totals(0.0, 0.0, share, 0.0, 0.0)), Only(m, payer, Totals(0.0, share, 0.0, 0.0, 0.0)))
    else
      Add(Only(m, p, Totals(0.0, 0.0, 0.0, share, 0.0)), Only(m, payer, Totals(0.0, 0.0, 0.0, 0.0, share)))
  }

  /** What member `m` gains from the shares of all of `ps`, taken in order. */
  function SharesEffect(m: JsString, payer: JsString, ps: seq<JsString>, share: real, settled: seq<JsString>): (r: Totals)
    ensures r.spent == 0.0
  {
    if |ps| == 0 then Zero
    else Add(SharesEffect(m, payer, ps[..|ps| - 1], share, settled), ShareEffect(m, payer, ps[|ps| - 1], share, settled))
  }

  /** What member `m` gains from one expense: the payer's `spent`, then every share. */
  function ExpenseEffect(m: JsString, payer: JsString, amount: real, ps: seq<JsString>, share: real, settled: seq<JsString>): Totals {
    Add(SpentEffect(m, payer, amount), SharesEffect(m, payer, ps, share, settled))
  }

  /** The shares of `ps` followed by `q`: those of `ps`, then `q`'s. */
  lemma SharesSnoc(m: JsString, payer: JsString, ps: seq<JsString>, q: JsString, share: real, settled: seq<JsString>)
    ensures SharesEffect(m, payer, ps + [q], share, settled) == Add(SharesEffect(m, payer, ps, share, settled), ShareEffect(m, payer, q, share, settled))
  {
    assert (ps + [q])[..|ps|] == ps;
  }

  /** The participants other than the payer whose shares the routing credits. */
  function Debtors(payer: JsString, ps: seq<JsString>): seq<JsString> {
    Filter(ps, x => IsMember(x) && x != payer)
  }

  /** `f` summed over the members `ms`, field by field. */
  function MemberSum(ms: seq<JsString>, f: JsString -> Totals): Totals {
    if |ms| == 0 then Zero else Add(f(ms[0]), MemberSum(ms[1..], f))
  }

  /** Summing is linear. */
  lemma {:induction false} MemberSumAdd(ms: seq<JsString>, f: JsString -> Totals, g: JsString -> Totals, h: JsString -> Totals)
    requires forall m :: m in ms ==> h(m) == Add(f(m), g(m))
    ensures MemberSum(ms, h) == Add(MemberSum(ms, f), MemberSum(ms, g))
  {
    if |ms| > 0 {
      assert forall m :: m in ms[1..] ==> m in ms;
      MemberSumAdd(ms[1..], f, g, h);
      var m0, rest := ms[0], ms[1..];
      assert h(m0) == Add(f(m0), g(m0));
      AddInterchange(f(m0), g(m0), MemberSum(rest, f), MemberSum(rest, g));
    }
  }

  lemma AddAssoc(a: Totals, b: Totals, c: Totals)
    ensures Add(Add(a, b), c) == Add(a, Add(b, c))
  {
  }

  lemma AddInterchange(a: Totals, b: Totals, c: Totals, d: Totals)
    ensures Add(Add(a, b), Add(c, d)) == Add(Add(a, c), Add(b, d))
  {
  }

  lemma {:induction false} MemberSumZero(ms: seq<JsString>, f: JsString -> Totals)
    requires forall m :: m in ms ==> f(m) == Zero
    ensures MemberSum(ms, f) == Zero
  {
    if |ms| > 0 {
      MemberSumZero(ms[1..], f);
    }
  }

  /** Over a list without repeats, an amount credited to one member is counted once, if that member is listed. */
  lemma {:induction false} MemberSumOnly(ms: seq<JsString>, who: JsString, t: Totals)
    requires Distinct(ms)
    ensures MemberSum(ms, m => Only(m, who, t)) == if who in ms then t else Zero
  {
    if |ms| > 0 {
      assert Distinct(ms[1..]) by {
        forall i, j | 0 <= i < j < |ms[1..]| ensures ms[1..][i] != ms[1..][j] {
          assert ms[1..][i] == ms[i + 1] && ms[1..][j] == ms[j + 1];
        }
      }
      MemberSumOnly(ms[1..], who, t);
      if ms[0] == who {
        assert who !in ms[1..] by {
          forall j | 0 <= j < |ms[1..]| ensures ms[1..][j] != who {
            assert ms[1..][j] == ms[j + 1];
          }
        }
      }
      assert who in ms <==> ms[0] == who || who in ms[1..];
    }
  }

  /**
   * One share, summed over the family: it is credited once to the
   * participant (`paid` or `toPay`) and, when the payer is a member, once to
   * the payer (`received` or `toReceive`) in the matching column.
   */
  lemma FamilyShareColumn(payer: JsString, p: JsString, share: real, settled: seq<JsString>)
    ensures var c := MemberSum(FamilyMembers, m => ShareEffect(m, payer, p, share, settled));
      && c.spent == 0.0
      && c.paid + c.toPay == (if IsMember(p) && p != payer then share else 0.0)
      && (IsMember(payer) ==> c.paid == c.received && c.toPay == c.toReceive)
      && (!IsMember(payer) ==> c.received == 0.0 && c.toReceive == 0.0)
  {
    var f := m => ShareEffect(m, payer, p, share, settled);
    FamilyMembersDistinct();
    if !IsMember(p) || p == payer {
      MemberSumZero(FamilyMembers, f);
    } else {
      var tp := if p in settled then Totals(0.0, 0.0, share, 0.0, 0.0) else Totals(0.0, 0.0, 0.0, share, 0.0);
      var tq := if p in settled then Totals(0.0, share, 0.0, 0.0, 0.0) else Totals(0.0, 0.0, 0.0, 0.0, share);
      MemberSumAdd(FamilyMembers, m => Only(m, p, tp), m => Only(m, payer, tq), f);
      MemberSumOnly(FamilyMembers, p, tp);
      MemberSumOnly(FamilyMembers, payer, tq);
    }
  }

  /**
   * A family column `c` holding `n` shares of `share`: nothing spent,
   * `paid + toPay` is the `n` shares, and the payer's side mirrors the
   * participants' side exactly when the payer is a member.
   */
  predicate ColumnHolds(c: Totals, payer: JsString, n: nat, share: real) {
    && c.spent == 0.0
    && c.paid + c.toPay == Times(share, n)
    && (IsMember(payer) ==> c.paid == c.received && c.toPay == c.toReceive)
    && (!IsMember(payer) ==> c.received == 0.0 && c.toReceive == 0.0)
  }

  lemma ColumnAdd(c1: Totals, c2: Totals, payer: JsString, n: nat, k: nat, share: real)
    requires ColumnHolds(c1, payer, n, share) && ColumnHolds(c2, payer, k, share)
    ensures ColumnHolds(Add(c1, c2), payer, n + k, share)
  {
    TimesAdd(share, n, k);
  }

  /** `n` shares of `x`, added one at a time from 0. */
  function Times(x: real, n: nat): real {
    if n == 0 then 0.0 else Times(x, n - 1) + x
  }

  lemma {:induction false} TimesAdd(x: real, n: nat, k: nat)
    ensures Times(x, n + k) == Times(x, n) + Times(x, k)
  {
    if k > 0 {
      TimesAdd(x, n, k - 1);
    }
  }

  /** Adding `n` shares of `x` gives `x * n`. */
  lemma {:induction false} TimesIsProduct(x: real, n: nat)
    ensures Times(x, n) == x * n as real
  {
    if n > 0 {
      TimesIsProduct(x, n - 1);
    }
  }

  /**
   * All shares of one expense, summed over the family: `paid + toPay` is one
   * share per member participant other than the payer, and, when the payer
   * is a member, `received` and `toReceive` mirror `paid` and `toPay`.
   */
  lemma {:induction false} FamilySharesColumn(payer: JsString, ps: seq<JsString>, share: real, settled: seq<JsString>)
    ensures ColumnHolds(MemberSum(FamilyMembers, m => SharesEffect(m, payer, ps, share, settled)), payer, |Debtors(payer, ps)|, share)
  {
    var f := m => SharesEffect(m, payer, ps, share, settled);
    if |ps| == 0 {
      assert forall m :: f(m) == Zero;
      MemberSumZero(FamilyMembers, f);
      assert Debtors(payer, ps) == [];
    } else {
      var front, p := ps[..|ps| - 1], ps[|ps| - 1];
      var f1 := m => SharesEffect(m, payer, front, share, settled);
      var f2 := m => ShareEffect(m, payer, p, share, settled);
      FamilySharesColumn(payer, front, share, settled);
      var k: nat := if IsMember(p) && p != payer then 1 else 0;
      FamilyShareColumn(payer, p, share, settled);
      assert ColumnHolds(MemberSum(FamilyMembers, f2), payer, k, share);
      SharesColumnStep(payer, ps, share, settled);
      DebtorsStep(payer, ps);
      ColumnAdd(MemberSum(FamilyMembers, f1), MemberSum(FamilyMembers, f2), payer, |Debtors(payer, front)|, k, share);
    }
  }

  lemma SharesColumnStep(payer: JsString, ps: seq<JsString>, share: real, settled: seq<JsString>)
    requires |ps| > 0
    ensures MemberSum(FamilyMembers, m => SharesEffect(m, payer, ps, share, settled))
         == Add(MemberSum(FamilyMembers, m => SharesEffect(m, payer, ps[..|ps| - 1], share, settled)),
                MemberSum(FamilyMembers, m => ShareEffect(m, payer, ps[|ps| - 1], share, settled)))
  {
    var f := m => SharesEffect(m, payer, ps, share, settled);
    var f1 := m => SharesEffect(m, payer, ps[..|ps| - 1], share, settled);
    var f2 := m => ShareEffect(m, payer, ps[|ps| - 1], share, settled);
    assert forall m :: f(m) == Add(f1(m), f2(m));
    MemberSumAdd(FamilyMembers, f1, f2, f);
  }

  lemma DebtorsStep(payer: JsString, ps: seq<JsString>)
    requires |ps| > 0
    ensures |Debtors(payer, ps)| == |Debtors(payer, ps[..|ps| - 1])| + if IsMember(ps[|ps| - 1]) && ps[|ps| - 1] != payer then 1 else 0
  {
    assert ps == ps[..|ps| - 1] + [ps[|ps| - 1]];
    FilterAppend(ps[..|ps| - 1], [ps[|ps| - 1]], x => IsMember(x) && x != payer);
  }

  /**
   * Whether a share is marked settled moves it between `paid`/`received`
   * and `toPay`/`toReceive` and nowhere else.
   */
  lemma {:induction false} SharesSettledIndependent(m: JsString, payer: JsString, ps: seq<JsString>, share: real, s1: seq<JsString>, s2: seq<JsString>)
    ensures var a, b := SharesEffect(m, payer, ps, share, s1), SharesEffect(m, payer, ps, share, s2);
      && a.spent == b.spent
      && a.paid + a.toPay == b.paid + b.toPay
      && a.received + a.toReceive == b.received + b.toReceive
  {
    if |ps| > 0 {
      var front, p := ps[..|ps| - 1], ps[|ps| - 1];
      SharesSettledIndependent(m, payer, front, share, s1, s2);
      ShareSettledIndependent(m, payer, p, share, s1, s2);
    }
  }

  lemma ShareSettledIndependent(m: JsString, payer: JsString, p: JsString, share: real, s1: seq<JsString>, s2: seq<JsString>)
    ensures var a, b := ShareEffect(m, payer, p, share, s1), ShareEffect(m, payer, p, share, s2);
      && a.spent == b.spent == 0.0
      && a.paid + a.toPay == b.paid + b.toPay
      && a.received + a.toReceive == b.received + b.toReceive
  {
    if IsMember(p) && p != payer {
      var tp := if m == p then share else 0.0;
      var tq := if m == payer then share else 0.0;
      var a := ShareEffect(m, payer, p, share, s1);
      assert a.paid + a.toPay == tp && a.received + a.toReceive == tq;
      var b := ShareEffect(m, payer, p, share, s2);
      assert b.paid + b.toPay == tp && b.received + b.toReceive == tq;
    }
  }

  /** With nobody settled, nothing is in `paid` or `received`: every credited share is outstanding. */
  lemma {:induction false} SharesNoneSettled(m: JsString, payer: JsString, ps: seq<JsString>, share: real)
    ensures SharesEffect(m, payer, ps, share, []).paid == 0.0
    ensures SharesEffect(m, payer, ps, share, []).received == 0.0
  {
    if |ps| > 0 {
      SharesNoneSettled(m, payer, ps[..|ps| - 1], share);
    }
  }

  /** Once every member participant other than the payer is settled, nothing is outstanding. */
  lemma {:induction false} SharesAllSettled(m: JsString, payer: JsString, ps: seq<JsString>, share: real, settled: seq<JsString>)
    requires forall p :: p in ps && IsMember(p) && p != payer ==> p in settled
    ensures SharesEffect(m, payer, ps, share, settled).toPay == 0.0
    ensures SharesEffect(m, payer, ps, share, settled).toReceive == 0.0
  {
    if |ps| > 0 {
      assert forall p :: p in ps[..|ps| - 1] ==> p in ps;
      SharesAllSettled(m, payer, ps[..|ps| - 1], share, settled);
    }
  }

  // ---- Steps of the `memberSummaries` loops, the same in both revisions ----

  /** A zero entry for every family member. */
  method ZeroSummary() returns (summary: map<JsString, Totals>)
    ensures forall m :: m in summary <==> IsMember(m)
    ensures forall m :: m in summary ==> summary[m] == Zero
  {
    summary := map[];
    for i := 0 to |FamilyMembers|
      invariant forall m :: m in summary <==> m in FamilyMembers[..i]
      invariant forall m :: m in summary ==> summary[m] == Zero
    {
      summary := summary[FamilyMembers[i] := Zero];
    }
    assert FamilyMembers[..|FamilyMembers|] == FamilyMembers;
  }

  /** `if (summary[payer]) summary[payer].spent += amount`. */
  method AddSpent(summary: map<JsString, Totals>, payer: JsString, amount: real) returns (next: map<JsString, Totals>)
    ensures forall m :: m in next <==> m in summary
    ensures forall m :: m in next ==> next[m] == Add(summary[m], SpentEffect(m, payer, amount))
  {
    next := Credit(summary, payer, Totals(amount, 0.0, 0.0, 0.0, 0.0));
  }

  /**
   * `if (summary[who]) summary[who].<field> += x`, where `t` holds `x` in
   * that field and zero elsewhere: only an existing entry for `who` grows.
   */
  method Credit(summary: map<JsString, Totals>, who: JsString, t: Totals) returns (next: map<JsString, Totals>)
    ensures forall m :: m in next <==> m in summary
    ensures forall m :: m in next ==> next[m] == Add(summary[m], Only(m, who, t))
  {
    next := summary;
    if who in summary {
      next := summary[who := Add(summary[who], t)];
    }
  }

  /** The inner `forEach`: every participant's share in turn. */
  method RouteShares(summary: map<JsString, Totals>, payer: JsString, ps: seq<JsString>, share: real, settled: seq<JsString>)
    returns (next: map<JsString, Totals>)
    requires forall m :: m in summary <==> IsMember(m)
    ensures forall m :: m in next <==> m in summary
    ensures forall m :: m in next ==> next[m] == Add(summary[m], SharesEffect(m, payer, ps, share, settled))
  {
    next := summary;
    for k := 0 to |ps|
      invariant forall m :: m in next <==> m in summary
      invariant forall m :: m in next ==> next[m] == Add(summary[m], SharesEffect(m, payer, ps[..k], share, settled))
    {
      assert ps[..k + 1][..k] == ps[..k];
      next := RouteShare(next, payer, ps[k], share, settled);
      forall m | m in next
        ensures next[m] == Add(summary[m], SharesEffect(m, payer, ps[..k + 1], share, settled))
      {
        AddAssoc(summary[m], SharesEffect(m, payer, ps[..k], share, settled), ShareEffect(m, payer, ps[k], share, settled));
      }
    }
    assert ps[..|ps|] == ps;
  }

  /** One pass of the inner loop: the share of participant `p`, routed by payer and settled list. */
  method RouteShare(summary: map<JsString, Totals>, payer: JsString, p: JsString, share: real, settled: seq<JsString>)
    returns (next: map<JsString, Totals>)
    requires forall m :: m in summary <==> IsMember(m)
    ensures forall m :: m in next <==> m in summary
    ensures forall m :: m in next ==> next[m] == Add(summary[m], ShareEffect(m, payer, p, share, settled))
  {
    next := summary;
    if p !in summary || p == payer {
      return;
    }
    var tp, tq;
    if p in settled {
      tp, tq := Totals(0.0, 0.0, share, 0.0, 0.0), Totals(0.0, share, 0.0, 0.0, 0.0);
    } else {
      tp, tq := Totals(0.0, 0.0, 0.0, share, 0.0), Totals(0.0, 0.0, 0.0, 0.0, share);
    }
    var mid := Credit(summary, p, tp);
    next := Credit(mid, payer, tq);
    forall m | m in next
      ensures next[m] == Add(summary[m], ShareEffect(m, payer, p, share, settled))
    {
      AddAssoc(summary[m], Only(m, p, tp), Only(m, payer, tq));
    }
  }

  // ---- List updaters shared by both revisions ----

  /**
   * `toggleParticipant` on the add-expense form: adds an absent member at
   * the end; removes a present one, but only while more than one entry is
   * left.
   */
  function ToggleParticipant(prev: seq<JsString>, m: JsString): (r: seq<JsString>)
    ensures m !in prev ==> r == prev + [m]
    ensures m in prev ==> (m in r <==> |prev| <= 1)
    ensures forall p :: p != m ==> (p in r <==> p in prev)
    ensures m in prev && |prev| > 1 ==> r == Filter(prev, p => p != m)
  {
    if m in prev then
      (if |prev| > 1 then Filter(prev, p => p != m) else prev)
    else
      prev + [m]
  }

  /**
   * On a list without repeats (which is all the form can produce, starting
   * from the roster) the toggle keeps the list without repeats and never
   * empties a non-empty list.
   */
  lemma ToggleParticipantKeepsSomeone(prev: seq<JsString>, m: JsString)
    requires Distinct(prev)
    ensures Distinct(ToggleParticipant(prev, m))
    ensures prev != [] ==> ToggleParticipant(prev, m) != []
  {
    if m in prev {
      if |prev| > 1 {
        FilterDistinct(prev, p => p != m);
        FilterRemovesOne(prev, m);
      }
    } else {
      var r := prev + [m];
      forall i, j | 0 <= i < j < |r| ensures r[i] != r[j] {
        if j == |prev| {
          assert r[i] == prev[i];
        }
      }
    }
  }

  /** Without the no-repeats invariant the toggle can empty the list. */
  lemma ToggleParticipantEmptiesRepeats()
    ensures ToggleParticipant([Youngsoo, Youngsoo], Youngsoo) == []
  {
    var prev := [Youngsoo, Youngsoo];
    assert Filter(prev[1..], p => p != Youngsoo) == [];
  }

  /** Toggling an absent member twice restores a non-empty list. */
  lemma ToggleParticipantTwice(prev: seq<JsString>, m: JsString)
    requires m !in prev && prev != []
    ensures ToggleParticipant(ToggleParticipant(prev, m), m) == prev
  {
    var r := prev + [m];
    FilterAppend(prev, [m], p => p != m);
    FilterKeepsAll(prev, p => p != m);
  }

  /** The id of a slot, as `e.id` reads it; `None` for a null entry. */
  function SlotId(s: Slot): Option<JsString> {
    match s
    case Record(e) => Some(e.id)
    case NullEntry => None
  }

  /**
   * `deleteExpense`: keeps the entries whose id differs, in order; a state
   * that is not an array becomes empty; a null entry makes the callback
   * throw.
   */
  function DeleteExpense(prev: Option<seq<Slot>>, id: JsString): (r: Outcome<seq<Slot>>)
    ensures r.Returns? <==> NullEntry !in AsArray(prev)
    ensures r.Returns? ==> forall s :: s in r.value <==> s in AsArray(prev) && SlotId(s) != Some(id)
    ensures prev.None? ==> r == Returns([])
  {
    var xs := AsArray(prev);
    if NullEntry in xs then Throws else Returns(Filter(xs, s => SlotId(s) != Some(id)))
  }

  /** Deleting keeps the survivors in their original order: it distributes over concatenation. */
  lemma DeleteExpenseKeepsOrder(xs: seq<Slot>, ys: seq<Slot>, id: JsString)
    requires NullEntry !in xs + ys
    ensures DeleteExpense(Some(xs + ys), id).value
         == DeleteExpense(Some(xs), id).value + DeleteExpense(Some(ys), id).value
  {
    FilterAppend(xs, ys, s => SlotId(s) != Some(id));
  }

  /** Deleting by an id that no entry has changes nothing. */
  lemma DeleteAbsentId(xs: seq<Slot>, id: JsString)
    requires NullEntry !in xs
    requires forall s :: s in xs ==> SlotId(s) != Some(id)
    ensures DeleteExpense(Some(xs), id) == Returns(xs)
  {
    FilterKeepsAll(xs, s => SlotId(s) != Some(id));
  }

  /** The settled list as the code reads it: a non-array counts as empty. */
  function SettledOf(e: Expense): seq<JsString> {
    AsArray(e.settledMemberIds)
  }

  /** Flips one member in an expense's settled list. */
  function ToggleSettled(e: Expense, memberId: JsString): (r: Expense)
    ensures r == e.(settledMemberIds := r.settledMemberIds)
    ensures memberId in SettledOf(r) <==> memberId !in SettledOf(e)
    ensures forall p :: p != memberId ==> (p in SettledOf(r) <==> p in SettledOf(e))
  {
    var settled := SettledOf(e);
    var next := if memberId in settled then Filter(settled, id => id != memberId) else settled + [memberId];
    e.(settledMemberIds := Some(next))
  }

  /**
   * `after` is `before` with, when its id matches, `memberId` flipped in the
   * settled list and nothing else changed; otherwise `after` is `before`.
   */
  ghost predicate SettlementToggled(before: Slot, after: Slot, expenseId: JsString, memberId: JsString) {
    match before
    case NullEntry => after == NullEntry
    case Record(b) =>
      && after.Record?
      && after.expense == b.(settledMemberIds := after.expense.settledMemberIds)
      && (b.id != expenseId ==> after.expense == b)
      && (b.id == expenseId ==> (memberId in SettledOf(after.expense) <==> memberId !in SettledOf(b)))
      && (b.id == expenseId ==> forall x :: x != memberId ==> (x in SettledOf(after.expense) <==> x in SettledOf(b)))
  }

  function ToggleSlot(s: Slot, expenseId: JsString, memberId: JsString): Slot {
    match s
    case Record(e) => if e.id != expenseId then s else Record(ToggleSettled(e, memberId))
    case NullEntry => s
  }

  /**
   * `toggleSettlement`: flips `memberId` in the settled list of every
   * expense whose id matches; a state that is not an array becomes empty;
   * a null entry makes the callback throw.
   */
  function ToggleSettlement(prev: Option<seq<Slot>>, expenseId: JsString, memberId: JsString): (r: Outcome<seq<Slot>>)
    ensures r.Returns? <==> NullEntry !in AsArray(prev)
    ensures r.Returns? ==> |r.value| == |AsArray(prev)|
    ensures r.Returns? ==> forall i :: 0 <= i < |r.value| ==>
      SettlementToggled(AsArray(prev)[i], r.value[i], expenseId, memberId)
  {
    var xs := AsArray(prev);
    if NullEntry in xs then Throws
    else Returns(seq(|xs|, i requires 0 <= i < |xs| => ToggleSlot(xs[i], expenseId, memberId)))
  }

  /**
   * Toggling the same member on the same expense twice gives back the
   * settled list the code sees; when the stored list was an array without
   * that member, the whole expense list comes back unchanged.
   */
  lemma ToggleSettledTwice(e: Expense, memberId: JsString)
    ensures SettledOf(ToggleSettled(ToggleSettled(e, memberId), memberId)) == SettledOf(e)
            || memberId in SettledOf(e)
    ensures e.settledMemberIds.Some? && memberId !in SettledOf(e) ==>
            ToggleSettled(ToggleSettled(e, memberId), memberId) == e
  {
    var s := SettledOf(e);
    if memberId !in s {
      FilterAppend(s, [memberId], id => id != memberId);
      FilterKeepsAll(s, id => id != memberId);
    }
  }

  lemma ToggleSettlementTwice(xs: seq<Slot>, expenseId: JsString, memberId: JsString)
    requires NullEntry !in xs
    requires forall i :: 0 <= i < |xs| && xs[i].expense.id == expenseId ==>
      xs[i].expense.settledMemberIds.Some? && memberId !in SettledOf(xs[i].expense)
    ensures ToggleSettlement(Some(xs), expenseId, memberId).Returns?
    ensures var once := ToggleSettlement(Some(xs), expenseId, memberId).value;
            ToggleSettlement(Some(once), expenseId, memberId) == Returns(xs)
  {
    var once := ToggleSettlement(Some(xs), expenseId, memberId).value;
    assert NullEntry !in once by {
      forall i | 0 <= i < |once| ensures once[i] != NullEntry {
        assert once[i] == ToggleSlot(xs[i], expenseId, memberId);
      }
    }
    var twice := ToggleSettlement(Some(once), expenseId, memberId).value;
    assert |twice| == |xs|;
    forall i | 0 <= i < |xs| ensures twice[i] == xs[i] {
      assert once[i] == ToggleSlot(xs[i], expenseId, memberId);
      assert twice[i] == ToggleSlot(once[i], expenseId, memberId);
      if xs[i].expense.id == expenseId {
        ToggleSettledTwice(xs[i].expense, memberId);
      }
    }
    assert twice == xs;
  }
}
