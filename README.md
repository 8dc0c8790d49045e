# Auction front end: a verified model of its component logic

This project models the logic inside the React components of an online-auction front end.

- **Auction listing.** The countdown on each card:
  - `getTimeLeft` splits a millisecond span into days, hours, minutes and seconds;
  - `formatTime` renders `[Nd ]HH:MM:SS`;
  - the countdown picks "Starts in", "Ends in" or "Ended".

  Each card also derives a current price, a status chip and an image URL. After a successful delete, the list is filtered.
- **Auction-creation form.**
  - The field-by-field validator builds an error map.
  - The submit handler includes the reset after a successful create.
  - The Starting Price sanitiser consists of two regular-expression rewrites.
- **API helper.**
  - `getAuctions` builds a query string from a parameter object, including the special expansion of `status`.
  - `updateAuction` builds its payload by merging the partial record with the path id.
  - `placeBid` chooses its error message.
- **Demo home page and its items.** The bid guard on an item, and the page's update that only raises an item's current bid.
- **Three small state machines.**
  - The admin category table: create, delete, and a single-row edit mode.
  - The audit-log table: pagination, the fetch effect and the render precedence.
  - The notification snackbar.

Modelling approach:

- **Numbers.**
  - Time is integer milliseconds. The clock reading (`Date.now()`) is always a parameter.
  - Prices on the listing and the form are `real`. The form's `Number(startingPrice)` is a parameter `Option<real>`, with `None` standing for NaN.
- **Components.** A component whose `useState` cells are updated by handlers becomes a class:
  - the class fields are the cells;
  - each handler is a method proved against a function that states its effect.
- **Outside effects.** Every network or authentication outcome is a parameter, e.g. whether the token was obtained, whether the server answered ok, and the body it returned.

Files, one module each:

| file | module | what |
|---|---|---|
| wrappers.dfy | Wrappers | `Option` |
| text.dfy | Text | `trim`, integer `toString`, `padStart(2, "0")`, decimal read-back |
| lists.dfy | Lists | `filter`, the shared remove-by-id filter, and flat-map over sequences, with their algebra |
| auction_types.dfy | AuctionTypes | the auction record |
| notifications_provider.dfy | NotificationsProvider | the snackbar state |
| auction_list.dfy | AuctionList | countdown, card derivations, delete |
| auction_form.dfy | AuctionForm | validator, submit, price sanitiser |
| api_helper.dfy | ApiHelper | query builder, update payload, bid error |
| home.dfy | Home | the bid list update |
| auction_item.dfy | AuctionItem | the bid field and its guard |
| category_list.dfy | CategoryList | the category table |
| audit_log_table.dfy | AuditLogTable | the audit-log table |

## Model

| member | source | states |
|---|---|---|
| Text.BlankIffAllSpace | src/components/AuctionForm.tsx:64 | `!s.trim()` holds exactly when every character is whitespace (so "" is blank) |
| Text.TwoDigits | src/components/AuctionList.tsx:64-68 | a field 0..99 printed with `toString().padStart(2, "0")` is exactly two digits that read back as the number |
| Text.DecimalRoundTrip | src/components/AuctionList.tsx:64 | the decimal numeral of a natural number reads back as that number |
| NotificationsProvider.Notifications.constructor | src/components/NotificationsProvider.tsx:11-13 | starts closed, with message "" and severity info, showing nothing |
| NotificationsProvider.Notifications.Notify | src/components/NotificationsProvider.tsx:15-19 | sets message and severity (info when omitted) and opens; the snackbar shows exactly the latest notice |
| NotificationsProvider.Notifications.NotifyEach | src/components/NotificationsProvider.tsx:15-19 | notices issued one after another leave the snackbar showing the last of them; none leaves it unchanged |
| NotificationsProvider.Notifications.Close | src/components/NotificationsProvider.tsx:24-25 | hides the snackbar and keeps message and severity |
| AuctionList.FloorRemNonNegative | src/components/AuctionList.tsx:51-53 | on a non-negative span, `Math.floor((t / u) % m)` with JavaScript's truncating `%` is the ordinary remainder of the quotient |
| AuctionList.TimeLeftInRange | src/components/AuctionList.tsx:49-55 | for end ≥ now: total is end − now, days ≥ 0, hours in [0,24), minutes and seconds in [0,60) |
| AuctionList.TimeLeftDecomposes | src/components/AuctionList.tsx:49-55 | days·86400000 + hours·3600000 + minutes·60000 + seconds·1000 + (total mod 1000) = total |
| AuctionList.FormatTimeReadsBack | src/components/AuctionList.tsx:58-69 | on in-range fields the text ends in HH:MM:SS whose two-digit fields read back as hours, minutes, seconds; the "Nd " prefix is present iff days > 0 and reads back as days |
| AuctionList.ClockReadsBack | src/components/AuctionList.tsx:64-68 | the HH:MM:SS part is 8 characters with ':' at 2 and 5 and each field two digits holding its value |
| AuctionList.DaysPrefixReadsBack | src/components/AuctionList.tsx:64 | the prefix is empty iff days = 0; otherwise it is the day numeral followed by "d " |
| AuctionList.CountdownPhase | src/components/AuctionList.tsx:36-46 | "Starts in" iff now < start, "Ends in" iff start ≤ now < end, "Ended" otherwise; getTimeLeft is asked only about a strictly positive span, start − now or end − now |
| AuctionList.Countdown.constructor | src/components/AuctionList.tsx:31-37 | the countdown holds the given start, end and clock reading |
| AuctionList.Countdown.Tick | src/components/AuctionList.tsx:33 | a tick sets `now` to the new clock reading |
| AuctionList.CountdownShows | src/components/AuctionList.tsx:38-46 | before the start the countdown shows "Starts in " and the formatted time left to the start, during the window "Ends in " and the time left to the end, both with in-range clock fields that read back, and "Ended" afterwards |
| AuctionList.StatusChip | src/components/AuctionList.tsx:162-166 | Ended iff now ≥ end; Soon iff now < start and not ended; Live iff start ≤ now < end |
| AuctionList.ChipAgreesWithCountdown | src/components/AuctionList.tsx:38-44 | for the same clock reading on a window with start ≤ end, the chip and the countdown agree phase by phase, though they check the cases in different orders |
| AuctionList.ChipDisagreesOnInvertedWindow | src/components/AuctionList.tsx:38-44 | on a window with end < start they disagree exactly while end ≤ now < start, where the chip says Ended and the countdown still counts down to the start; before the end both say not started, from the start on both say Ended |
| AuctionList.ChipOnSeparateClock | src/components/AuctionList.tsx:31-33 | the countdown's own clock cell and the chip's reading can each be the later one; on a window with start ≤ end they disagree exactly when start or end separates the two readings, e.g. Soon beside "Ends in" when the chip lags, Live beside "Starts in" when the chip is ahead |
| AuctionList.MaxOf | src/components/AuctionList.tsx:142 | `Math.max` over a non-empty list is an element of it and bounds every element |
| AuctionList.CurrentPrice | src/components/AuctionList.tsx:140-144 | the largest bid when there are bids, else the starting price |
| AuctionList.CurrentPriceIgnoresStartingPrice | src/components/AuctionList.tsx:140-144 | a bid below the starting price is shown as the price: the starting price is no floor |
| AuctionList.CardImage | src/components/AuctionList.tsx:146-160 | the placeholder when there is no first image URL; an "http" URL verbatim; otherwise base/container/path followed by the SAS token after "&" if the string has a "?", else after "?" |
| Lists.RemoveById | src/components/AuctionList.tsx:124 | `filter((a) => a.id !== id)` keeps exactly the records with another id; the category table's delete (src/components/admin/CategoryList.tsx:62) is the same filter |
| Lists.RemoveByIdKeepsOrder | src/components/admin/CategoryList.tsx:62 | removal commutes with concatenation, so the remaining records keep their order, and is the identity on a list without that id |
| AuctionList.AuctionListView.constructor | src/components/AuctionList.tsx:84-85 | starts with no auctions and loading |
| AuctionList.AuctionListView.HandleDelete | src/components/AuctionList.tsx:112-129 | the list loses that id only when signed in and the delete succeeded, and is unchanged otherwise; the notice names which of the three outcomes happened |
| AuctionForm.ValidationErrorsPerField | src/components/AuctionForm.tsx:62-82 | a field has an error exactly when its rule fires, and the recorded message is that rule's message |
| AuctionForm.NoErrorsIffAcceptable | src/components/AuctionForm.tsx:83-84 | no error is recorded exactly when title and description are non-blank and within 100/500 characters, the price is non-empty, numeric and > 0, a category is chosen, and both times are set with start < end |
| AuctionForm.OrderingErrorNeedsBothTimes | src/components/AuctionForm.tsx:78-81 | a missing start gives the start error; a missing start with a set end gives no end error; with both set the end errors iff end ≤ start |
| AuctionForm.Validate | src/components/AuctionForm.tsx:62-85 | fills the error map field by field to exactly the rule set's errors, and returns true iff no key was recorded, i.e. iff the form is acceptable |
| AuctionForm.SubmitPostsOnlyValidForms | src/components/AuctionForm.tsx:89-121 | the create request is sent iff validation passes, the user is signed in, the token is obtained and the user has an id; it carries the form's values with a positive price and start < end |
| AuctionForm.SubmitReports | src/components/AuctionForm.tsx:87-152 | onCreated fires iff the create call succeeded, with the success notice last; the upload is tried iff an image is chosen and an id came back, and its failure notice is issued but is always followed by the success notice, which replaces it on the snackbar; a rejected form reports nothing; every other failed submit shows exactly one message |
| AuctionForm.ShowSubmitNotices | src/components/AuctionForm.tsx:126-150 | the submit's notices, issued in order on the snackbar, leave it on "Auction created successfully!" whenever onCreated fired, even when the image upload failed and its notice was issued; on a failed create it ends on "Failed to create auction"; a rejected form leaves it as it was |
| AuctionForm.AuctionFormView.constructor | src/components/AuctionForm.tsx:27-39 | all fields empty, no image, no errors, not loading or uploading |
| AuctionForm.AuctionFormView.Fill | src/components/AuctionForm.tsx:173 | the inputs' change handlers set the form's values |
| AuctionForm.AuctionFormView.ChooseImage | src/components/AuctionForm.tsx:269-274 | a chosen file replaces the image; no file keeps the current one |
| AuctionForm.AuctionFormView.HandleSubmit | src/components/AuctionForm.tsx:87-152 | the effects are those of the submit function on the values before the call; after a create the form is cleared (fields ""/null, no image, no errors), otherwise values and image are kept and errors are the validator's; both busy flags are down afterwards |
| AuctionForm.AuctionFormView.Create | src/components/AuctionForm.tsx:94-151 | the `try` block: token failure or failed create reports "Failed to create auction", a missing user id alerts, success uploads when it can, resets eight cells and notifies; loading is off in every case |
| AuctionForm.TwoDotsIffEarlierDot | src/components/AuctionForm.tsx:201 | the second rewrite matches (a "." precedes the last ".") exactly when there are two or more dots |
| AuctionForm.DropLastDotDeletesOnly | src/components/AuctionForm.tsx:201 | every character the second rewrite leaves was in its input |
| AuctionForm.DropLastDotKeepsDigits | src/components/AuctionForm.tsx:201 | the second rewrite keeps the digits in order |
| AuctionForm.DropLastDotCount | src/components/AuctionForm.tsx:201 | the second rewrite removes one dot when there are two or more and none otherwise |
| AuctionForm.StripKeepsDots | src/components/AuctionForm.tsx:200 | the first rewrite keeps every dot |
| AuctionForm.StripKeepsPriceChars | src/components/AuctionForm.tsx:200 | the first rewrite leaves a string of digits and dots unchanged |
| AuctionForm.SanitisePriceEffect | src/components/AuctionForm.tsx:199-201 | the output holds only digits and "."; it has the input's digits in order; d ≥ 2 dots become d − 1 |
| AuctionForm.DropLastDotExample | src/components/AuctionForm.tsx:201 | the second rewrite turns "1.2.3.4" into "1.2.34" |
| AuctionForm.SanitiseExample | src/components/AuctionForm.tsx:199-201 | "1.2.3.4" is sanitised to "1.2.34" |
| AuctionForm.OneKeystrokeKeepsOneDot | src/components/AuctionForm.tsx:197-202 | a value with at most one dot still has at most one after any single typed character and the rewrite |
| ApiHelper.BuildQuery | src/api/ApiHelper.tsx:74-85 | the `forEach` loop appends exactly the pairs of each entry, in entry order |
| ApiHelper.UnsetEntrySkipped | src/api/ApiHelper.tsx:77 | an undefined or "" value adds no parameter |
| ApiHelper.StatusExpansion | src/api/ApiHelper.tsx:78-81 | a `status` object adds "active=true" iff active is truthy and "ended=true" iff ended is truthy, never a `status` pair, and nothing when both are falsy |
| ApiHelper.ScalarEntryOnePair | src/api/ApiHelper.tsx:83 | any other set entry adds exactly one pair under its own key, whose value is the value's string form when it is not null; null sends "", and 0 and false are still sent |
| ApiHelper.QueryOfAppend | src/api/ApiHelper.tsx:76 | the query of two runs of entries is the concatenation of their queries |
| ApiHelper.QueryPairsFromEntries | src/api/ApiHelper.tsx:76-84 | a pair is in the query exactly when some entry contributes it |
| ApiHelper.UpdatePayloadFields | src/api/ApiHelper.tsx:46-49 | the payload's keys are the partial's plus "id"; "id" is the path id whatever the partial held; other fields keep their values; a partial without id keeps its order with id last |
| ApiHelper.PlaceBidOutcome | src/api/ApiHelper.tsx:150-153 | success iff the response is ok; otherwise the error is the response text when it is non-empty, else "Failed to place bid" |
| Home.ApplyBid | src/pages/Home.tsx:19-27 | same length and order; other ids untouched; only currentBid changes, to max(old, amount), and an item changes iff its id matches and amount > currentBid |
| Home.ApplyBidIdempotent | src/pages/Home.tsx:20-26 | reporting the same (id, amount) twice equals reporting it once |
| Home.HighestFor | src/pages/Home.tsx:22-24 | a reference value: the highest of a start and the amounts reported for an id |
| Home.ApplyBidsShowsHighest | src/pages/Home.tsx:20-26 | after any run of bids every item shows the highest of its starting bid and its reported amounts; nothing else changes |
| AuctionItem.OnBidCall | src/components/AuctionItem.tsx:14-18 | `onBid` is called iff bid > currentBid, and then with the item's own id and the bid |
| AuctionItem.AuctionItemView.constructor | src/components/AuctionItem.tsx:12 | the bid field starts at currentBid + 1 |
| AuctionItem.AuctionItemView.Edit | src/components/AuctionItem.tsx:29 | the field's change handler sets the bid |
| AuctionItem.AuctionItemView.Rerender | src/components/AuctionItem.tsx:11-12 | new props change currentBid but not the bid cell |
| AuctionItem.AuctionItemView.HandleBid | src/components/AuctionItem.tsx:14-18 | the call made is the guard's: only an amount above currentBid, with the item's id |
| AuctionItem.UneditedClickFires | src/components/AuctionItem.tsx:12-16 | an unedited click reports currentBid + 1 |
| AuctionItem.GuardedBidRaisesPrice | src/components/AuctionItem.tsx:15-17 | a bid the guard lets through raises that item to exactly the bid and lowers no item; an unedited second click is then a no-op |
| CategoryList.RemoveKeepsUnique | src/components/admin/CategoryList.tsx:62 | deleting keeps ids unique |
| CategoryList.ReplaceCategory | src/components/admin/CategoryList.tsx:91 | same length; rows with that id become the server value, the others are unchanged |
| CategoryList.ReplaceCategoryKeepsIds | src/components/admin/CategoryList.tsx:91 | a server value keeping its id leaves every id, and so uniqueness, as it was |
| CategoryList.AppendKeepsUnique | src/components/admin/CategoryList.tsx:49 | appending a created category with a new id keeps ids unique |
| CategoryList.AtMostOneRowEditing | src/components/admin/CategoryList.tsx:123 | with unique ids at most one row is drawn in edit mode, and none when editId is null |
| CategoryList.CategoryListView.constructor | src/components/admin/CategoryList.tsx:20-24 | no categories, loading, empty new name, no row in edit mode |
| CategoryList.CategoryListView.Loaded | src/components/admin/CategoryList.tsx:30-33 | the fetched list replaces the categories and loading ends |
| CategoryList.CategoryListView.TypeNewCategory | src/components/admin/CategoryList.tsx:105 | the create box's change handler sets the new name |
| CategoryList.CategoryListView.TypeEditName | src/components/admin/CategoryList.tsx:126 | the edit field's change handler sets the edit name |
| CategoryList.CategoryListView.HandleCreate | src/components/admin/CategoryList.tsx:36-52 | the name is posted exactly when it is not blank and the token was obtained; a posted name with an ok answer appends the created category and clears the box, and every other case changes nothing |
| CategoryList.CategoryListView.HandleDelete | src/components/admin/CategoryList.tsx:54-63 | once the request has answered, every row with that id is removed whatever the status |
| CategoryList.CategoryListView.HandleEdit | src/components/admin/CategoryList.tsx:65-68 | edit mode for that id with that name |
| CategoryList.CategoryListView.HandleCancelEdit | src/components/admin/CategoryList.tsx:70-73 | back to editId null and an empty edit name |
| CategoryList.CategoryListView.HandleSaveEdit | src/components/admin/CategoryList.tsx:75-95 | `{id, name}` is sent exactly when the edit name is not blank and the token was obtained; a sent edit with an ok answer replaces the rows with that id and leaves edit mode, and every other case (including a blank name, which stays in edit mode) changes nothing |
| AuditLogTable.LogsOf | src/components/admin/AuditLogTable.tsx:38 | `data.items` when it is present, else the whole answer |
| AuditLogTable.TotalOf | src/components/admin/AuditLogTable.tsx:39 | `data.total` when it is present, else 0 |
| AuditLogTable.PageRequest | src/components/admin/AuditLogTable.tsx:37 | the requested page is the UI page + 1, with the page size unchanged |
| AuditLogTable.AuditLogTableView.constructor | src/components/admin/AuditLogTable.tsx:18-23 | page 0 of 20 rows, loading, no logs, no error, total 0 |
| AuditLogTable.AuditLogTableView.Render | src/components/admin/AuditLogTable.tsx:49-98 | spinner iff loading; otherwise the error iff it is non-empty; otherwise the table iff `logs` is a list (its rows, count = total, the page and rows per page = pageSize), and `logs.map` throws iff `logs` holds the whole answer object |
| AuditLogTable.AuditLogTableView.FetchData | src/components/admin/AuditLogTable.tsx:27-45 | an empty token gives "Not authenticated" with no request; a throw stores its message; an answer sets logs and total; the request is for page + 1; loading is off afterwards |
| AuditLogTable.AuditLogTableView.ChangePage | src/components/admin/AuditLogTable.tsx:100 | sets the page |
| AuditLogTable.AuditLogTableView.ChangeRowsPerPage | src/components/admin/AuditLogTable.tsx:102-105 | sets the new page size and goes back to page 0 |

## Left out

- The call at src/components/AuctionList.tsx:102 passes `(token, filters)` to the one-parameter `getAuctions` (src/api/ApiHelper.tsx:74), so the token string becomes the parameter object. The query builder is modelled on its declared parameter; that call is not modelled.
- The listing's fetch effect (src/components/AuctionList.tsx:89-110) and the form's `fetchCategories` (src/components/AuctionForm.tsx:42-59) are fetch-then-set-state plumbing. They are not modelled.
- HTTP requests, response parsing, Auth0 tokens and user profiles are out. Their outcomes are parameters.
- Environment variables are out. The blob base URL, container and SAS token are parameters of `AuctionList.CardImage`.
- The image `onError` fallback to the placeholder is a browser event and is not modelled.
- Timers are out: the one-second `setInterval` in `Countdown` and the snackbar's auto-hide. A tick is a call with a new clock reading.
- `new Date(...)`, ISO strings and `toLocaleString` are out. Times are integer milliseconds, and a cleared date picker is `None`.
- Floating point is out. Spans are integer milliseconds, so the `Math.floor` of a fractional quotient is exact integer division. Prices are reals with no NaN or rounding.
- Bids and ids on the demo page are integers. The bid field's `Number(e.target.value)` (src/components/AuctionItem.tsx:29) can also give fractional amounts or NaN, which are not modelled.
- The chip and the countdown read separate clocks: the chip reads `Date.now()` once per list render (src/components/AuctionList.tsx:162), while the countdown's own cell ticks every second. Each is a function of the reading it is given, and `AuctionList.ChipOnSeparateClock` states when the two readings disagree with the chip. How far apart the two readings drift is not modelled.
- `Number(...)` parsing and `isNaN` are out. The parsed starting price is a parameter of the validator.
- String lengths count code points, while JavaScript counts UTF-16 code units. This matters for the 100/500-character limits only on characters outside the Basic Multilingual Plane.
- The Starting Price field is `type="number"`. What the browser then exposes as `input.value` is not modelled; the sanitiser works on the string it is given.
- `Object.entries` lists integer-like keys first in ascending order. The model takes the entries in the order given. Array values in the parameter object are not modelled.
- The query's `toString()` percent-encoding, and the `fetch` URL built from it, are out. The query is the list of name/value pairs.
- `alert`, `console.log` and the rendered markup other than the audit-log render precedence are out. Alerts are the `alerts` list of a submit's effects.
- Concurrency is out: overlapping async handlers and stale closures over state cells. Each handler runs to completion against the state it starts from, and React's batched state updates are applied in order.
- AuctionForm.AuctionFormView.HandleSubmit: requires that neither `loading` nor `imageUploading` is set. The Create button is disabled while either flag is up (src/components/AuctionForm.tsx:280), so a second submit during one in flight is not modelled.
- AuctionList.CardImage: the first image's `url` is a string, with "" standing for a missing one. Other falsy values are not distinguished.
