/**
 * The family roster and the shapes of the three user-edited records
 * (expenses, souvenirs, packing items) as they sit in the app's state.
 *
 * State is restored with `JSON.parse` from device storage, so a record's
 * fields are not guaranteed to have their declared types; the datatypes
 * below keep exactly the irregularities the list code reacts to.
 */
module Types {
  import opened Wrappers
  import opened Js

  // The seven MemberId values, as UTF-16 code units.
  const Youngsoo: JsString := [0xC601, 0xC218]  // 영수
  const Yeonsil: JsString := [0xC5F0, 0xC2E4]   // 연실
  const Hanna: JsString := [0xD55C, 0xB098]     // 한나
  const Yuna: JsString := [0xC720, 0xB098]      // 유나
  const Ara: JsString := [0xC544, 0xB77C]       // 아라
  const Hyuna: JsString := [0xD604, 0xC544]     // 현아
  const Geon: JsString := [0xAC74]              // 건

  /** The Assignee value that is not a member: shared by everyone. */
  const Common: JsString := [0xACF5, 0xD1B5]    // 공통

  /** FAMILY_MEMBERS, in the order the views list them. */
  const FamilyMembers: seq<JsString> := [Youngsoo, Yeonsil, Hanna, Yuna, Ara, Hyuna, Geon]

  /** ASSIGNEE_OPTIONS: the shared bucket first, then every member. */
  const AssigneeOptions: seq<JsString> := [Common] + FamilyMembers

  predicate IsMember(s: JsString) {
    s in FamilyMembers
  }

  type MemberId = s: JsString | IsMember(s) witness Youngsoo

  /** The roster names seven different people. */
  lemma FamilyMembersDistinct()
    ensures |FamilyMembers| == 7 && Distinct(FamilyMembers)
    ensures forall m :: IsMember(m) <==> m in {Youngsoo, Yeonsil, Hanna, Yuna, Ara, Hyuna, Geon}
  {
  }

  /** Eight distinct options: '공통' followed by the roster in roster order. */
  lemma AssigneeOptionsShape()
    ensures |AssigneeOptions| == 8 && Distinct(AssigneeOptions)
    ensures AssigneeOptions[0] == Common && !IsMember(Common)
    ensures AssigneeOptions[1..] == FamilyMembers
  {
  }

  /**
   * An expense's `amount` as found in state. A JavaScript number is `Num`,
   * or `NaN` when it is the not-a-number value; `Missing` is an absent key;
   * `Null` is JSON null; `Text` is a string, with what `Number(text)` makes
   * of it (`None` for NaN). Other JSON values are not modelled.
   */
  datatype RawAmount =
    | Num(value: real)
    | NaN
    | Missing
    | Null
    | Text(text: JsString, asNumber: Option<real>)
  {
    /** `typeof amount === 'number'`. */
    predicate IsNumber() {
      Num? || NaN?
    }
  }

  /**
   * A stored participant list as the code can meet it after `JSON.parse`:
   * a falsy value (absent, null, '', 0, false), a truthy value that is not
   * an array (a non-empty string, a non-zero number, an object), or an array.
   */
  datatype StoredIds = Falsy | NotArray | Ids(items: seq<JsString>)
  {
    /** `Array.isArray(x) ? x : []`. */
    function OrEmpty(): seq<JsString> {
      if Ids? then items else []
    }
  }

  /**
   * Expense. The settled list is `None` when the stored value is not an
   * array (or is missing). `settledMemberIds` records who has
   * already sent their share to the payer. `date` is `None` for NaN.
   */
  datatype Expense = Expense(
    id: JsString,
    title: JsString,
    amount: RawAmount,
    payerId: JsString,
    participantIds: StoredIds,
    settledMemberIds: Option<seq<JsString>>,
    date: Option<int>)

  /** An entry of the stored expense list: JSON null, or a record. */
  datatype Slot = NullEntry | Record(expense: Expense)

  /** Souvenir. The optional text fields are `None` when absent. */
  datatype Souvenir = Souvenir(
    id: JsString,
    title: JsString,
    jpName: Option<JsString>,
    note: Option<JsString>,
    imageUrl: Option<JsString>,
    linkUrl: Option<JsString>,
    isPurchased: bool)

  /**
   * PackItem, with the single Assignee value that the packing list stores
   * and compares (the declared type is a list, the code never treats it as one).
   */
  datatype PackItem = PackItem(
    id: JsString,
    title: JsString,
    assignedTo: JsString,
    isDone: bool)
}
