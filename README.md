# Family trip app: settlement, lists and schedule helpers, in Dafny

This project models the logic of a family-trip web app in Dafny. It covers:

- the shared-expense settlement summary;
- the list editors for expenses, souvenirs and packing items;
- the display helpers of the day-by-day schedule.

Two revisions of the settlement and souvenir views exist side by side. The current one lives under `components/`. The older one is at the repository root. Both are modelled, and lemmas relate them.

What the model covers:

- **Roster** (`Types`). There are seven family members and eight assignee options ('공통' first). The stored records are `Expense`, `Souvenir` and `PackItem`. State comes back from `JSON.parse`, so stored values are modelled loosely:
  - an expense list is a sequence of `Slot`s (JSON null or a record);
  - an amount is a `RawAmount` (number, NaN, missing, null or string);
  - a participant list is a `StoredIds`: falsy, truthy but not an array, or an array;
  - any other list field that may not be an array is an `Option`.
- **Strings** (`Js`) are sequences of UTF-16 code units, as in JavaScript. This module holds:
  - `trim` and the `\s` class;
  - `includes` and `Array.prototype.filter`;
  - the `Array.isArray(x) ? x : []` guard;
  - `Outcome`, for an updater callback that throws on a null entry.
- **Summary accumulators** (`Ledger`). Each member has five accumulators: `spent`, `received`, `paid`, `toPay` and `toReceive`.
  - The effect of one expense on them is a function.
  - The steps of the `memberSummaries` loops are methods over a `map` from member to accumulators. Each method is proved to add exactly that effect.
  - The list updaters shared by both revisions are here: `toggleParticipant`, `deleteExpense` and `toggleSettlement`.
- **Current settlement view** (`Settlement`):
  - the `memberSummaries` loop, as a method proved equal to a fold (`LiveTotals`);
  - its guard;
  - conservation: what members owe equals what payers are owed;
  - what settling does;
  - `addExpense` and `totalTripCost`.
- **Older settlement view** (`SettlementLegacy`):
  - its fold, divisor, form check and total;
  - proofs of where it agrees with the current view and where it does not.
- **Souvenir wish list** (`Souvenirs`), in both revisions: add, toggle bought, remove, and the bought count.
- **Packing list** (`Pack`): the tab filter, add, toggle packed and remove.
- **Schedule helpers** (`Schedule`):
  - the transport icon and the movement and image tests;
  - `displayTitle`, as written and corrected;
  - the rendering of note lines;
  - the day a tab index selects.

## Model

| member | source | states |
|---|---|---|
| Types.FamilyMembersDistinct | types.ts:2-5 | The roster has seven distinct entries, exactly the seven `MemberId` values. |
| Types.AssigneeOptionsShape | types.ts:3-6 | The assignee options are eight distinct entries: '공통', which is no member, then the roster in order. |
| Js.Trim | components/SettlementView.tsx:80 | `trim` gives the empty string exactly when the input is all white space. A non-empty result neither starts nor ends with white space. |
| Js.TrimIsInfix | components/SettlementView.tsx:80 | `trim` returns the input with its leading and trailing white space cut off: the result is the infix of the input that starts right after its leading white space, and what lies before and after it is all white space. |
| Js.TrimIgnoresBlankPrefix | components/SettlementView.tsx:80 | Leading white space never changes a trimmed value. |
| Ledger.SharesSnoc | components/SettlementView.tsx:48-60 | The shares of a participant list are those of all but the last participant, plus the last one's. |
| Ledger.FamilyShareColumn | components/SettlementView.tsx:48-60 | Summed over the family, one participant's share lands once in `paid` or `toPay`, but only if they are a member and not the payer. A member payer receives it back in `received` or `toReceive`; a non-member payer receives nothing. |
| Ledger.FamilySharesColumn | components/SettlementView.tsx:48-60 | Summed over the family, a participant list credits one share per member participant other than the payer. A member payer gets matching `received`/`toReceive`. |
| Ledger.SharesSettledIndependent | components/SettlementView.tsx:51-59 | The settled list only moves money between `paid` and `toPay`, and between `received` and `toReceive`. The sums stay the same. |
| Ledger.SharesNoneSettled | components/SettlementView.tsx:51-59 | With nobody settled, nothing reaches `paid` or `received`. |
| Ledger.SharesAllSettled | components/SettlementView.tsx:51-59 | When every member participant other than the payer has settled, nothing reaches `toPay` or `toReceive`. |
| Ledger.ZeroSummary | components/SettlementView.tsx:31-33 | The summary has exactly the family members as keys, each at zero. |
| Ledger.AddSpent | components/SettlementView.tsx:44-46 | Only a member payer's `spent` grows, by the amount. The keys are kept. |
| Ledger.Credit | components/SettlementView.tsx:54-58 | Only the named member's entry grows, and only if that member is a key. |
| Ledger.RouteShares | components/SettlementView.tsx:48-61 | The inner loop adds exactly the shares' effect to every member's entry. |
| Ledger.RouteShare | components/SettlementView.tsx:49-60 | One participant's step adds exactly that share's effect: settled goes to `paid`/`received`, unsettled to `toPay`/`toReceive`. |
| Ledger.ToggleParticipant | components/SettlementView.tsx:70-77 | An absent member is appended. A present member is removed only while more than one participant remains, and then the others keep their order. Nobody else changes. The older view at SettlementView.tsx:57-65 behaves the same. |
| Ledger.ToggleParticipantKeepsSomeone | components/SettlementView.tsx:72-75 | On a repeat-free list, toggling keeps the list repeat-free and never empties a non-empty list. |
| Ledger.ToggleParticipantEmptiesRepeats | components/SettlementView.tsx:73 | A list that repeats a member can be emptied, because `filter` removes every copy. |
| Ledger.ToggleParticipantTwice | components/SettlementView.tsx:70-77 | Adding an absent member and then toggling it again restores the list. |
| Ledger.DeleteExpense | components/SettlementView.tsx:101-103 | Keeps exactly the entries with a different id. A non-array becomes empty. A null entry throws. The older view at SettlementView.tsx:87-89 behaves the same. |
| Ledger.DeleteExpenseKeepsOrder | components/SettlementView.tsx:101-103 | Deleting distributes over concatenation, so the survivors keep their order. |
| Ledger.DeleteAbsentId | components/SettlementView.tsx:101-103 | Deleting an id that no entry has changes nothing. |
| Ledger.ToggleSettled | components/SettlementView.tsx:107-112 | Only the settled list changes. The member's presence flips. Every other member's presence is kept. |
| Ledger.ToggleSettlement | components/SettlementView.tsx:105-114 | Returns unless there is a null entry, keeps the length, and changes each entry only in its settled list, flipping the member only on matching ids and keeping every other member of that settled list. The older view at SettlementView.tsx:91-101 behaves the same, except for a truthy settled list that is not an array (see "## Left out"). |
| Ledger.ToggleSettledTwice | components/SettlementView.tsx:108-111 | Toggling twice restores the settled list when the member was absent. |
| Ledger.ToggleSettlementTwice | components/SettlementView.tsx:105-114 | Toggling twice restores the whole list when the member was absent from every matching expense. |
| Settlement.MemberSummaries | components/SettlementView.tsx:22-68 | The loop gives exactly the family members as keys, each holding the fold `LiveTotals` of the expense list (empty when it is not an array). |
| Settlement.ApplyEntry | components/SettlementView.tsx:36-61 | One outer iteration adds exactly the entry's effect: nothing if it fails the guard, otherwise `spent` for the payer plus the shares over the member participants. |
| Settlement.LiveTotalsAppend | components/SettlementView.tsx:36-62 | The fold over two lists joined is the sum of the folds. |
| Settlement.OnlyGuardedCount | components/SettlementView.tsx:37-40 | Only entries passing the guard count: the fold equals the fold over just those entries. |
| Settlement.SkipsUnguarded | components/SettlementView.tsx:37-40 | Inserting anywhere an entry that fails the guard (null, amount not a number, no participant array, no member participant) changes nobody's totals. |
| Settlement.SharesSumToAmount | components/SettlementView.tsx:39-42 | The shares over the member participants add up to the amount. |
| Settlement.ExpenseColumn | components/SettlementView.tsx:42-60 | Summed over the family, one counted expense adds its amount to `spent`. It adds one share per member debtor to `paid` plus `toPay`. With a member payer, `received` equals `paid` and `toReceive` equals `toPay`. |
| Settlement.NoShareLost | components/SettlementView.tsx:39-60 | With distinct participants and a payer who is not one of them, `paid` plus `toPay` over the family is the whole amount. |
| Settlement.Conservation | components/SettlementView.tsx:44-60 | When every counted expense has a member payer, the family's `paid` equals its `received` and its `toPay` equals its `toReceive`. Its `spent` is the total of counted amounts. |
| Settlement.TripCostIsSpent | components/SettlementView.tsx:116-118 | When every entry is counted, the trip total equals the total of counted amounts. When moreover every payer is a member, it equals the family's `spent`. |
| Settlement.SumCostsAppend | components/SettlementView.tsx:116-118 | The trip total of two lists joined is the sum of their totals. |
| Settlement.EffectSettledOnly | components/SettlementView.tsx:51-59 | Changing only an expense's settled list keeps its guard and moves money only between settled and outstanding buckets. |
| Settlement.SettlingMovesOnly | components/SettlementView.tsx:105-114 | After `toggleSettlement`, every member's `spent`, `paid + toPay` and `received + toReceive` are unchanged. |
| Settlement.SettledOnlyFold | components/SettlementView.tsx:36-61 | Lists that differ entry by entry only in settled lists give totals that differ only between settled and outstanding buckets. |
| Settlement.AllSettledShowsDone | components/SettlementView.tsx:148 | When every member debtor of every expense has settled, nobody has `toPay` or `toReceive`, so each member shows "정산 완료". |
| Settlement.SettledEntryOwesNothing | components/SettlementView.tsx:51-56 | A fully settled entry adds nothing to `toPay` or `toReceive`. |
| Settlement.AddExpense | components/SettlementView.tsx:79-94 | The list is unchanged for a blank title, an empty amount text, no participants or a NaN amount. Otherwise exactly one expense is put in front: trimmed title, parsed amount, empty settled list, and a date that falls back to now when it is NaN or 0. |
| Settlement.AddExpenseGuard | components/SettlementView.tsx:79-94 | A successful add stores no NaN. The new expense is counted exactly when a chosen participant is a member. |
| Settlement.AddExpenseEffect | components/SettlementView.tsx:94 | After a successful add, every member's totals are the old totals plus the new expense's effect. |
| Settlement.AddExpenseCost | components/SettlementView.tsx:116-118 | A successful add raises the trip total by exactly the parsed amount. |
| SettlementLegacy.LegacySummaries | SettlementView.tsx:19-55 | The older loop throws exactly when some entry has a participant list that is truthy but not an array (there is no `try`). Otherwise it gives exactly the family members as keys, each holding the older fold `LegacyTotals`. |
| SettlementLegacy.LegacyApplyEntry | SettlementView.tsx:34-52 | One older iteration skips only a null entry or a falsy participant list. It throws on a truthy participant list that is not an array, which has no `forEach`. On an array it adds `spent` and the shares over all participants, with the divisor being the list length (1 when empty). |
| SettlementLegacy.RevisionsAgreeOnEntry | SettlementView.tsx:35-51 | On an entry with a number amount and a non-empty list of members only, both revisions count the same. |
| SettlementLegacy.RevisionsAgree | SettlementView.tsx:34-52 | On lists of such entries, both folds give every member the same totals. |
| SettlementLegacy.LegacyColumn | SettlementView.tsx:36-51 | Summed over the family, an older entry credits one diluted share per member debtor. |
| SettlementLegacy.NonMemberDilutes | SettlementView.tsx:36-40 | A non-member participant still counts in the divisor, so for a positive amount one share per member participant, the payer's own included, falls short of the amount, and so do the credited shares. |
| SettlementLegacy.DilutionExample | SettlementView.tsx:36-48 | Take a payer, one other member and one non-member. The other member owes half in the current view and a third in the older one. |
| SettlementLegacy.EmptyParticipantsOnlySpend | SettlementView.tsx:35-39 | In the older view, an empty participant list only adds the amount to the payer's `spent`. The current view skips such an entry. |
| SettlementLegacy.MissingSettledIsUnsettled | SettlementView.tsx:42-49 | A missing settled list counts as nobody settled: nothing reaches `paid` or `received`. |
| SettlementLegacy.LegacyAddExpense | SettlementView.tsx:67-78 | Only an empty title, an empty amount text or no participants is refused. Otherwise one expense goes in front, with the untrimmed title, the parsed amount or NaN, the date as parsed and an empty settled list. |
| SettlementLegacy.LegacyAcceptsMore | SettlementView.tsx:68 | Every form the current view accepts, the older one accepts. A title of white space only is accepted by the older one alone. |
| SettlementLegacy.LegacyStoresNaN | SettlementView.tsx:72 | An amount that does not parse is stored as NaN. The form's `type="number"` field (SettlementView.tsx:269) never sends such text, so this only covers entries written elsewhere. With a member taking part, it is then counted by the current fold and is not numeric for the older fold. |
| SettlementLegacy.LegacyAddAgrees | SettlementView.tsx:67-78 | With a trimmed non-empty title, an amount that parses and a non-zero date, both revisions store the same list. |
| SettlementLegacy.TripCostsAgree | SettlementView.tsx:103-105 | Without string amounts, the older total (`amount || 0`) equals the current one (`Number(amount) \|\| 0`). |
| SettlementLegacy.LegacyAddCost | SettlementView.tsx:103-105 | An older add raises the total by the parsed amount, or by nothing when it is NaN. |
| Souvenirs.AddSouvenir | components/SouvenirView.tsx:29-42 | A white-space-only title changes nothing. Otherwise exactly one item goes in front: trimmed fields, not bought, the earlier items after it in order. A non-array counts as empty. |
| Souvenirs.LegacyAddSouvenir | SouvenirView.tsx:34-47 | The same check and trimming, with no link field, put in front of the rendered list. |
| Souvenirs.AddRevisionsAgree | SouvenirView.tsx:38-47 | Both revisions add the same item, apart from the link. |
| Souvenirs.AddSouvenirIgnoresPadding | components/SouvenirView.tsx:31-42 | Leading white space in the title changes nothing stored. An add leaves the bought count unchanged. |
| Souvenirs.FlipPurchased | SouvenirView.tsx:53 | Same length. Each item keeps every field except `isPurchased`, which flips exactly on items with the id. |
| Souvenirs.ToggleStatus | components/SouvenirView.tsx:47-49 | The current toggle keeps the length, and a non-array becomes empty. |
| Souvenirs.FlipPurchasedTwice | components/SouvenirView.tsx:48 | Toggling the same id twice restores the list. |
| Souvenirs.ToggleStatusTwice | components/SouvenirView.tsx:47-49 | The current toggle, applied twice, restores any array state. |
| Souvenirs.FlipAbsentId | SouvenirView.tsx:53 | Toggling an id no item has changes nothing. |
| Souvenirs.FlipPurchasedAppend | SouvenirView.tsx:53 | Toggling distributes over concatenation, so order is kept. |
| Souvenirs.WithoutId | SouvenirView.tsx:57 | Keeps exactly the items with a different id. |
| Souvenirs.WithoutIdAppend | SouvenirView.tsx:57 | Removal distributes over concatenation, so the survivors keep their order. |
| Souvenirs.WithoutIdLength | SouvenirView.tsx:57 | Removing an absent id changes nothing. Removing a present one shortens the list. |
| Souvenirs.RemoveSouvenir | components/SouvenirView.tsx:51-54 | Declining the confirmation changes nothing. Otherwise exactly the items with a different id remain, and a non-array becomes empty. |
| Souvenirs.PurchasedCount | SouvenirView.tsx:64 | The count is at most the length. It equals the length exactly when all items are bought, and is 0 exactly when none is. |
| Souvenirs.ToggleMovesCountByOne | SouvenirView.tsx:53-64 | With unique ids, toggling an item moves the count by exactly one: down if it was bought, up otherwise. |
| Pack.AllTabIsNoAssignee | components/PackView.tsx:20 | '전체' is none of the assignee options. |
| Pack.FilteredItems | components/PackView.tsx:19-22 | '전체' shows the whole list unchanged. Any other tab shows exactly the items assigned to it. |
| Pack.FilteredItemsIdempotent | components/PackView.tsx:19-22 | Filtering the shown list again under the same tab changes nothing. |
| Pack.FilteredItemsAppend | components/PackView.tsx:21 | The view distributes over concatenation, so list order is kept. |
| Pack.AssigneeTabsPartition | components/PackView.tsx:21 | When every item has an assignee option, the eight assignee tabs together show each item exactly once. |
| Pack.AddItem | components/PackView.tsx:24-35 | A white-space-only title changes nothing. Otherwise one unpacked item with the trimmed title and the chosen assignee goes in front. A non-array counts as empty. |
| Pack.AddItemShows | components/PackView.tsx:19-32 | A new item appears first under '전체' and under its own tab. Every other tab's view is unchanged. |
| Pack.FlipDone | components/PackView.tsx:38 | Same length. Each item keeps every field except `isDone`, which flips exactly on items with the id. |
| Pack.ToggleDone | components/PackView.tsx:37-39 | Throws on a non-array. Otherwise the length is kept. |
| Pack.FlipDoneTwice | components/PackView.tsx:38 | Toggling the same id twice restores the list. |
| Pack.ToggleDoneTwice | components/PackView.tsx:37-39 | `toggleDone` twice restores any array state. |
| Pack.FlipDoneCommutesWithTab | components/PackView.tsx:19-38 | Toggling then filtering equals filtering then toggling. |
| Pack.RemoveItem | components/PackView.tsx:41-43 | Throws on a non-array. Otherwise exactly the items with a different id remain. |
| Pack.RemoveItemKeepsOrder | components/PackView.tsx:42 | Removal distributes over concatenation, so the survivors keep their order. |
| Pack.RemoveAbsentItem | components/PackView.tsx:42 | Removing an id no item has changes nothing. |
| Schedule.IconOfInjective | ScheduleView.tsx:16-21 | The six transport values map to six different icons. |
| Schedule.TransportIcon | ScheduleView.tsx:14-32 | An explicit transport always decides the icon. There is no icon exactly when there is no transport and no keyword matches. |
| Schedule.KeywordPriority | ScheduleView.tsx:26-29 | Without an explicit transport, keywords decide in the order taxi, bus, plane, train: each rung wins exactly when no earlier rung matches. A title with both 역 and KIX, and no taxi or bus keyword, gets the plane. |
| Schedule.MovementHasIcon | ScheduleView.tsx:28-60 | Every movement gets an icon. One without a transport or a taxi or bus keyword gets the plane. |
| Schedule.LeadingArrowIsMovement | ScheduleView.tsx:60 | A title that begins with → or -> makes the item a movement. |
| Schedule.NoImageArea | ScheduleView.tsx:61 | `noImage` always hides the image area, as does having no image and no (or an empty) image list. |
| Schedule.StripMarker | ScheduleView.tsx:63 | The pattern as written removes nothing, one code unit or two (`->`). |
| Schedule.DisplayTitleIsTrimmedRemainder | ScheduleView.tsx:63 | The displayed title is the trimmed remainder after the marker. |
| Schedule.PlainTitleIsTrimmed | ScheduleView.tsx:63 | A title without a leading marker is only trimmed. |
| Schedule.ArrowsAreStripped | ScheduleView.tsx:63 | After a leading → or ->, the displayed title is the trimmed rest. |
| Schedule.TaxiTitleKeepsLowSurrogate | ScheduleView.tsx:63 | As written, a well-formed title starting with 🚕 displays starting with the lone low surrogate 0xDE95, which is ill-formed. |
| Schedule.HighSurrogateAloneStripped | ScheduleView.tsx:63 | As written, any title starting with an emoji whose high surrogate is 0xD83D (😀, 🚗, 🚕, 🚎, …) displays starting with that emoji's lone low surrogate. |
| Schedule.MarkerLength | ScheduleView.tsx:63 | The corrected marker never ends inside a surrogate pair. |
| Schedule.IntendedStripsMarker | ScheduleView.tsx:63 | The corrected title drops any one whole leading marker (🚕, →, 🚎, ->) and trims the rest. |
| Schedule.IntendedKeepsWellFormed | ScheduleView.tsx:63 | The corrected title of a well-formed title is well-formed. |
| Schedule.SplitLines | ScheduleView.tsx:170 | `split('\n')` gives at least one piece, and no piece holds a line feed. |
| Schedule.JoinSplitLines | ScheduleView.tsx:170 | Joining the pieces with line feeds gives back the note. |
| Schedule.SplitJoinLines | ScheduleView.tsx:170 | Splitting a join of lines without line feeds gives back the lines. |
| Schedule.CleanLine | ScheduleView.tsx:172 | A line without a bullet is kept. A bulleted line loses the bullet and at most one white space after it. |
| Schedule.RenderLine | ScheduleView.tsx:171-173 | A line is a spacer exactly when it is not the first and is blank after cleaning. Otherwise it is bulleted exactly when it starts with •, - or *. |
| Schedule.RenderLines | ScheduleView.tsx:170-183 | One row per line, in order, numbered from the first. |
| Schedule.RenderNote | ScheduleView.tsx:167-170 | An absent or empty note shows nothing. Otherwise there is one row per line, and the first is never a spacer. |
| Schedule.BulletLine | ScheduleView.tsx:171-173 | A bulleted line with text shows bulleted, with the text after the bullet and one white space. |
| Schedule.DayAt | ScheduleView.tsx:11 | An index in range selects that day. Any other index gives 'Unknown' with no items. |
| Schedule.UnknownDayIsNotInfo | ScheduleView.tsx:11-12 | An out-of-range index is never the info tab ('정보') and shows no items. |

## Left out

- Browser storage and `JSON.parse` in App.tsx are not part of this model. State is taken as given, with its irregular shapes made explicit.
- Numbers are exact reals. IEEE-754 rounding, `Math.round` and `toLocaleString` in the summary display are not modelled. Neither is NaN arithmetic inside the folds.
- Settlement.MemberSummaries requires that no counted entry has a NaN amount. NaN passes the `typeof` guard and would make the accumulators NaN.
- SettlementLegacy.LegacyApplyEntry: does not model participant ids that are inherited object keys. The older loop checks `summary[pId]` without first filtering to members, so an id such as "constructor" passes that check. A member payer is then credited `received`/`toReceive` for it, while the model credits nothing. The current view filters to members first and is not affected.
- SettlementLegacy.LegacySummaries requires a number or null amount in every entry it uses. A missing or NaN amount would make the sums NaN, and a string would turn them into strings.
- SettlementLegacy.LegacyTripCost requires no string amounts, which `acc + amount` would concatenate.
- The `try`/`catch` around the current fold is left out. The modelled fold never throws, given the requirements above.
- `Date.now()` ids, `new Date(...).getTime()` and `parseFloat` are inputs. The form carries their results, with `None` for NaN.
- `window.confirm` is the `confirmed` input of Souvenirs.RemoveSouvenir.
- The older views' non-array cases are left out, and those views take their lists as plain sequences:
  - a non-array `souvenirs` prop in the older souvenir view;
  - a settled list that is neither an array nor missing in the older settlement view.
- Null entries in the souvenir and packing lists are left out. Their `map`/`filter` callbacks would throw on them, as the expense list's do (which is modelled).
- In `Schedule`, an item's image list is its length, and the fields the helpers do not read are dropped. JSX, the timeline styling and `dangerouslySetInnerHTML` are not modelled.
- The schedule data is left out: constants.tsx is not part of this model.
- PackItem.assignedTo is a single value, as components/PackView.tsx stores and compares it. types.ts:49 declares a list, which the code never treats as one.
- components/AIChatView.tsx, RulesView.tsx, assets.ts and index.tsx are not part of this model. They are a network call, static data and bootstrap code.

## Findings

| source | as written | input that shows it | evidently intended | confidence | as-written member | corrected member |
|---|---|---|---|---|---|---|
| ScheduleView.tsx:63 | `/^([🚕→🚎]\|\-\>)\s*/` has no `u` flag, so the class matches single UTF-16 code units. Before 🚕 or 🚎, and before any other emoji whose high surrogate is 0xD83D (😀, 🚗, …), it removes only the high surrogate. | the title "🚕 택시" displays as 0xDE95, " 택시": a lone low surrogate; "😀 x" likewise keeps 0xDE00 | remove the whole emoji, then trim | not executed | Schedule.TaxiTitleKeepsLowSurrogate | Schedule.IntendedKeepsWellFormed |
