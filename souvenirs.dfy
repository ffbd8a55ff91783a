/**
 * The souvenir wish list: adding an item from the form, ticking an item
 * as bought, removing an item, and the number of bought items. The
 * current view (components/SouvenirView.tsx) works on the previous state
 * and treats a non-array as empty; the older view (SouvenirView.tsx) works
 * on the list it was rendered with, has no link field and no confirmation.
 */
module Souvenirs {
  import opened Wrappers
  import opened Js
  import opened Types

  /** The add form's text fields as typed. */
  datatype SouvenirForm = SouvenirForm(
    title: JsString,
    jpName: JsString,
    note: JsString,
    imageUrl: JsString,
    linkUrl: JsString)

  /**
   * The item a successful add stores: the given id, every text field
   * trimmed (the link only when the form has one), not yet bought.
   */
  predicate MadeFrom(s: Souvenir, form: SouvenirForm, id: JsString, withLink: bool) {
    && s.id == id && s.title == Trim(form.title) && s.title != []
    && s.jpName == Some(Trim(form.jpName)) && s.note == Some(Trim(form.note))
    && s.imageUrl == Some(Trim(form.imageUrl))
    && s.linkUrl == (if withLink then Some(Trim(form.linkUrl)) else None)
    && !s.isPurchased
  }

  /**
   * `addSouvenir` of the current view, with `Date.now()` given as `id`: a
   * title of white space only changes nothing; otherwise the new item goes
   * in front of the previous list (empty when that was not an array).
   */
  function AddSouvenir(prev: Option<seq<Souvenir>>, form: SouvenirForm, id: JsString): (r: Option<seq<Souvenir>>)
    ensures IsBlank(form.title) ==> r == prev
    ensures !IsBlank(form.title) ==> r.Some? && |r.value| == |AsArray(prev)| + 1 && r.value[1..] == AsArray(prev)
    ensures !IsBlank(form.title) ==> MadeFrom(r.value[0], form, id, true)
  {
    if Trim(form.title) == [] then prev
    else
      var item := Souvenir(id, Trim(form.title), Some(Trim(form.jpName)), Some(Trim(form.note)),
                           Some(Trim(form.imageUrl)), Some(Trim(form.linkUrl)), false);
      Some([item] + AsArray(prev))
  }

  /** The older `addSouvenir`: the same check and trimming, no link, prepended to the rendered list. */
  function LegacyAddSouvenir(souvenirs: seq<Souvenir>, form: SouvenirForm, id: JsString): (r: seq<Souvenir>)
    ensures IsBlank(form.title) ==> r == souvenirs
    ensures !IsBlank(form.title) ==> |r| == |souvenirs| + 1 && r[1..] == souvenirs && MadeFrom(r[0], form, id, false)
  {
    if Trim(form.title) == [] then souvenirs
    else
      var item := Souvenir(id, Trim(form.title), Some(Trim(form.jpName)), Some(Trim(form.note)),
                           Some(Trim(form.imageUrl)), None, false);
      [item] + souvenirs
  }

  /** Both revisions store the same item, up to the link the older form does not have. */
  lemma AddRevisionsAgree(souvenirs: seq<Souvenir>, form: SouvenirForm, id: JsString)
    requires !IsBlank(form.title)
    ensures var live := AddSouvenir(Some(souvenirs), form, id).value;
      var older := LegacyAddSouvenir(souvenirs, form, id);
      |live| == |older| && live[1..] == older[1..] && live[0] == older[0].(linkUrl := Some(Trim(form.linkUrl)))
  {
  }

  /**
   * White space around the title makes no difference to what is stored,
   * and an added item is never bought, so the bought count is unchanged.
   */
  lemma AddSouvenirIgnoresPadding(prev: Option<seq<Souvenir>>, form: SouvenirForm, id: JsString, w: JsString)
    requires IsBlank(w)
    ensures AddSouvenir(prev, form.(title := w + form.title), id) == AddSouvenir(prev, form, id)
    ensures PurchasedCount(AsArray(AddSouvenir(prev, form, id))) == PurchasedCount(AsArray(prev))
  {
    TrimIgnoresBlankPrefix(w, form.title);
    var r := AddSouvenir(prev, form, id);
    if !IsBlank(form.title) {
      assert r.value == [r.value[0]] + AsArray(prev);
      FilterAppend([r.value[0]], AsArray(prev), IsPurchased);
    }
  }

  /** `s.id === id ? { ...s, isPurchased: !s.isPurchased } : s`, over the whole list, in order. */
  function FlipPurchased(xs: seq<Souvenir>, id: JsString): (r: seq<Souvenir>)
    ensures |r| == |xs|
    ensures forall i :: 0 <= i < |xs| ==>
      && r[i].(isPurchased := xs[i].isPurchased) == xs[i]
      && (r[i].isPurchased <==> (xs[i].isPurchased != (xs[i].id == id)))
  {
    if xs == [] then []
    else
      var s := xs[0];
      [if s.id == id then s.(isPurchased := !s.isPurchased) else s] + FlipPurchased(xs[1..], id)
  }

  /** `toggleStatus` of the current view: a previous state that is not an array becomes empty. */
  function ToggleStatus(prev: Option<seq<Souvenir>>, id: JsString): (r: seq<Souvenir>)
    ensures |r| == |AsArray(prev)|
    ensures prev.None? ==> r == []
  {
    FlipPurchased(AsArray(prev), id)
  }

  /** Toggling the same id twice restores the list. */
  lemma {:induction false} FlipPurchasedTwice(xs: seq<Souvenir>, id: JsString)
    ensures FlipPurchased(FlipPurchased(xs, id), id) == xs
  {
    if xs != [] {
      FlipPurchasedTwice(xs[1..], id);
      assert FlipPurchased(xs, id)[1..] == FlipPurchased(xs[1..], id);
    }
  }

  /** The current view's toggle, applied twice, restores any array state. */
  lemma ToggleStatusTwice(xs: seq<Souvenir>, id: JsString)
    ensures ToggleStatus(Some(ToggleStatus(Some(xs), id)), id) == xs
  {
    FlipPurchasedTwice(xs, id);
  }

  /** Toggling an id that no item has changes nothing. */
  lemma {:induction false} FlipAbsentId(xs: seq<Souvenir>, id: JsString)
    requires forall s :: s in xs ==> s.id != id
    ensures FlipPurchased(xs, id) == xs
  {
    if xs != [] {
      FlipAbsentId(xs[1..], id);
    }
  }

  /** Toggling works item by item: it distributes over concatenation. */
  lemma {:induction false} FlipPurchasedAppend(xs: seq<Souvenir>, ys: seq<Souvenir>, id: JsString)
    ensures FlipPurchased(xs + ys, id) == FlipPurchased(xs, id) + FlipPurchased(ys, id)
  {
    if xs == [] {
      assert xs + ys == ys;
    } else {
      assert (xs + ys)[1..] == xs[1..] + ys;
      FlipPurchasedAppend(xs[1..], ys, id);
    }
  }

  /** `removeSouvenir`'s filter: the items whose id differs, in their original order. */
  function WithoutId(xs: seq<Souvenir>, id: JsString): (r: seq<Souvenir>)
    ensures forall s :: s in r <==> s in xs && s.id != id
    ensures |r| <= |xs|
  {
    Filter(xs, (s: Souvenir) => s.id != id)
  }

  /** Removal keeps the survivors in order: it distributes over concatenation. */
  lemma WithoutIdAppend(xs: seq<Souvenir>, ys: seq<Souvenir>, id: JsString)
    ensures WithoutId(xs + ys, id) == WithoutId(xs, id) + WithoutId(ys, id)
  {
    FilterAppend(xs, ys, (s: Souvenir) => s.id != id);
  }

  /** Removing an id that no item has changes nothing; removing one that some item has shortens the list. */
  lemma WithoutIdLength(xs: seq<Souvenir>, id: JsString)
    ensures (forall s :: s in xs ==> s.id != id) ==> WithoutId(xs, id) == xs
    ensures (exists s :: s in xs && s.id == id) ==> |WithoutId(xs, id)| < |xs|
  {
    if forall s :: s in xs ==> s.id != id {
      FilterKeepsAll(xs, (s: Souvenir) => s.id != id);
    } else {
      var x :| x in xs && x.id == id;
      FilterDropsRejected(xs, (s: Souvenir) => s.id != id, x);
    }
  }

  /**
   * `removeSouvenir` of the current view, with the answer to the
   * confirmation dialog given as `confirmed`: declining changes nothing;
   * otherwise the items with that id go and a non-array becomes empty.
   */
  function RemoveSouvenir(prev: Option<seq<Souvenir>>, id: JsString, confirmed: bool): (r: Option<seq<Souvenir>>)
    ensures !confirmed ==> r == prev
    ensures confirmed ==> r.Some? && forall s :: s in r.value <==> s in AsArray(prev) && s.id != id
    ensures confirmed && prev.None? ==> r == Some([])
  {
    if !confirmed then prev else Some(WithoutId(AsArray(prev), id))
  }

  predicate IsPurchased(s: Souvenir) {
    s.isPurchased
  }

  /** `purchasedCount`: how many items are bought. */
  function PurchasedCount(xs: seq<Souvenir>): (r: nat)
    ensures r <= |xs|
    ensures r == |xs| <==> forall s :: s in xs ==> s.isPurchased
    ensures r == 0 <==> forall s :: s in xs ==> !s.isPurchased
  {
    var bought := Filter(xs, IsPurchased);
    CountAllWhenEqual(xs);
    assert bought != [] ==> bought[0] in bought;
    |bought|
  }

  /** The filter keeps everything exactly when its length is the list's. */
  lemma {:induction false} CountAllWhenEqual(xs: seq<Souvenir>)
    ensures |Filter(xs, IsPurchased)| == |xs| <==> forall s :: s in xs ==> s.isPurchased
  {
    if forall s :: s in xs ==> s.isPurchased {
      FilterKeepsAll(xs, IsPurchased);
    } else {
      var s :| s in xs && !s.isPurchased;
      FilterDropsRejected(xs, IsPurchased, s);
    }
  }

  /** No two items share an id. */
  predicate UniqueIds(xs: seq<Souvenir>) {
    forall i, j :: 0 <= i < j < |xs| ==> xs[i].id != xs[j].id
  }

  /** Toggling the one item with a given id moves the bought count by exactly one, up or down. */
  lemma {:induction false} ToggleMovesCountByOne(xs: seq<Souvenir>, id: JsString, k: nat)
    requires UniqueIds(xs) && k < |xs| && xs[k].id == id
    ensures PurchasedCount(FlipPurchased(xs, id)) == PurchasedCount(xs) + (if xs[k].isPurchased then -1 else 1)
  {
    var r := FlipPurchased(xs, id);
    assert xs == [xs[0]] + xs[1..] && r == [r[0]] + r[1..];
    assert r[1..] == FlipPurchased(xs[1..], id);
    FilterAppend([xs[0]], xs[1..], IsPurchased);
    FilterAppend([r[0]], r[1..], IsPurchased);
    if k == 0 {
      assert forall s :: s in xs[1..] ==> s.id != id by {
        forall j | 0 <= j < |xs[1..]| ensures xs[1..][j].id != id {
          assert xs[1..][j] == xs[j + 1];
        }
      }
      FlipAbsentId(xs[1..], id);
    } else {
      assert xs[0].id != id;
      assert xs[1..][k - 1] == xs[k];
      ToggleMovesCountByOne(xs[1..], id, k - 1);
    }
  }
}
