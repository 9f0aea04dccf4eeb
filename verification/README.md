# Spend and conversion change notifier: the decision core in Dafny

The notifier takes a table of ad campaign rows (campaign, sub-ids, clicks,
leads, sales, cost) and compares it with the state saved by the previous run.
It then groups alerts per campaign and saves the merged state.

This project models that logic as pure functions over immutable data and
proves what it promises. The parts are:

- **the state key** (`Rows`): `campaign|sub_id_5|sub_id_4` built from the raw
  fields, with a missing field read as `""`;
- **the spend rule** (`Spend`): a direction gate ("up", "down" or "both") and
  an absolute-or-percentage threshold, either of which suffices;
- **the diff** (`Diff`, `DiffFacts`): each row is compared with the stored
  `{cost, leads, sales}` for its key. Spend, reg and dep lines are grouped by
  the stripped campaign name, in the order in which each campaign first got a
  line. The new state is the old one with every row's record written over
  its key;
- **the grouping** (`Grouping`): at most one message per campaign. Its
  sections come in the order spend, regs, deps, separated by blank entries.
  Sending appends the message to an output sequence, and the count of sent
  messages is returned;
- **one run** (`Run`, `RunFacts`): with no stored state, the run saves a
  silent baseline. Otherwise it diffs, sends, adds `accs on vacation...` when
  nothing was sent, and saves the merged state.

Modelling choices:

- Money is integer cents, because the scraper rounds cost to two decimals.
  The percentage threshold is in hundredths of a percent.
- The configuration (thresholds, direction) is an explicit `Config` value.
- The scrape, the state load and the state save become inputs and outputs of
  `Run.RunOnce`. A load that fails is the empty state.
- Message lines are structured records (sub-ids, old and new values, delta,
  percentage), not formatted text.
- `Text.Strip` is Python's `str.strip()` with Python's exact whitespace set.
- The percentage is Python's `round`, which rounds half to even.

What the code does, and so what the model does, in cases a reader might
expect otherwise:

- Decreases in leads and sales are reported and saved as they are; nothing
  clamps a count to its previous maximum.
- When one capture holds a key twice, the last row's record is saved.
- Nothing records what was already sent and nothing resets at a day
  boundary: a re-run on an unchanged capture reports nothing only because
  the saved state already holds those values.
- Keys are built from the raw, unnormalised fields, while grouping uses the
  stripped campaign name.
- Both thresholds are met at equality (`>=`).
- "both" fires on a zero delta too, as long as a threshold is met.
- On a base of zero or less the percentage is 100 when there is spend now and
  0 otherwise. It is still compared with the threshold, even on a zero base.
- An empty capture with a stored state is diffed like any other: nothing
  changes, so the vacation message is sent.

## Model

| member | source | states |
|---|---|---|
| `Rows.KeyRoundTrip` | notifier_playwright.py:191-193 | when no key field holds `\|`, splitting the key on `\|` gives back campaign, sub_id_5 and sub_id_4, with a missing field as "" |
| `Rows.KeyIdentity` | notifier_playwright.py:191-193 | two rows share a state key if and only if their three key fields agree (fields free of `\|`) |
| `Rows.KeyIgnoresOtherFields` | notifier_playwright.py:191-193 | a missing key field gives the same key as an empty one; sub_id_6, clicks and the metrics never change the key |
| `Rows.KeyCollision` | notifier_playwright.py:193 | the key is not injective once a field holds `\|`: two different rows produce the same key |
| `Rows.Overwrite` | notifier_playwright.py:255-256 | writing the rows' records over a state leaves exactly the old keys plus every key some row produces |
| `Rows.OverwriteValues` | notifier_playwright.py:305-312 | last write wins: a key no row produces keeps its old record, and any other key holds the record of the last row producing it |
| `Text.StripTrimmed` | notifier_playwright.py:212-214 | the stripped text neither starts nor ends with whitespace |
| `Text.StripPadding` | notifier_playwright.py:212-214 | the original text is the stripped text with only whitespace removed from each side |
| `Text.StripOfPadded` | notifier_playwright.py:212-214 | stripping whitespace padding around a trimmed text gives that text back |
| `Text.StripIdempotent` | notifier_playwright.py:212-214 | stripping twice is stripping once |
| `Spend.RoundHalfEvenNearest` | notifier_playwright.py:233 | the rounded percentage is within half a unit of the exact ratio, and even on an exact tie |
| `Spend.RoundHalfEvenUnique` | notifier_playwright.py:233 | any integer nearest to the ratio (ties even) is the rounded value, so rounding is fully determined |
| `Spend.PctIff` | notifier_playwright.py:233 | a percentage meets the rounding description (nearest integer to \|delta\|*100/old, ties even, on a positive base; 100 or 0 otherwise) if and only if it is the computed one |
| `Spend.PctSpec` | notifier_playwright.py:233 | on a positive base the percentage is \|delta\|*100/old rounded half to even; on a base of zero or less it is 100 with spend now and 0 without |
| `Spend.DirectionGate` | notifier_playwright.py:234-236 | "up" fires only on increases, "down" only on decreases, "both" whenever a threshold is met, and any other direction never |
| `Spend.UnchangedCostIsQuiet` | notifier_playwright.py:232-236 | with positive thresholds an unchanged cost never fires |
| `Spend.ThresholdsAreOred` | notifier_playwright.py:236 | under the default config a $21 rise on $1000 fires on the absolute threshold alone (2 %), while $15 fires on neither |
| `Spend.SpendFromZero` | notifier_playwright.py:233-236 | spend from a zero base counts as 100 % and fires under "up" whenever the percentage threshold is at most 100 % |
| `Diff.AddLines` | notifier_playwright.py:238-253 | appending a row's lines keeps campaigns distinct and non-empty, keeps earlier campaigns in place, leaves the groups unchanged when the row has no line, and otherwise lists the row's campaign |
| `Diff.AddLinesSections` | notifier_playwright.py:238-253 | the row's campaign gets its old lines followed by the new ones; every other campaign is unchanged |
| `Diff.AddLinesCampaigns` | notifier_playwright.py:209 | a campaign is entered, at the end, exactly when it was absent and gets a line; the other campaigns stay as they were |
| `Diff.DetectChanges` | notifier_playwright.py:195-258 | the grouped changes have distinct campaigns, each with at least one line, and the new state's keys are the old keys plus every row's key |
| `DiffFacts.ChangesMatchCollect` | notifier_playwright.py:211-253 | every campaign's sections equal a per-campaign reference: the lines of the rows grouped under it, in row order |
| `DiffFacts.SpendLineForIff` | notifier_playwright.py:227-241 | a row yields a spend line if and only if its key was stored, the direction text admits the sign of the delta, and the absolute change or the percentage (the nearest integer to the relative change, ties even) meets its threshold; the line carries the stripped sub-ids, stored and current cost, and their difference |
| `DiffFacts.SpendLineReported` | notifier_playwright.py:227-241 | a spend line a row yields has a stored key, the stripped sub-ids, the stored and current cost and their difference, the nearest-integer percentage, a sign the direction admits and a met threshold |
| `DiffFacts.ReportedSpendLine` | notifier_playwright.py:227-241 | a row with a stored key whose cost change passes the direction text and a threshold yields the line with those fields |
| `DiffFacts.SpendSection` | notifier_playwright.py:231-241 | a spend line is listed under campaign c if and only if some row grouped under c with a stored key yields it |
| `DiffFacts.SpendListed` | notifier_playwright.py:231-241 | a row with a stored key that passes the spend rule has its spend line listed under its stripped campaign |
| `DiffFacts.SpendSource` | notifier_playwright.py:231-241 | every spend line listed under c comes from a row grouped under c with a stored key that passes the spend rule |
| `DiffFacts.RegSection` | notifier_playwright.py:243-247 | a reg line is listed under c if and only if some row grouped under c with a stored key has different leads, either way |
| `DiffFacts.RegListed` | notifier_playwright.py:243-247 | a row with a stored key and different leads has its reg line (old and new count) listed under its campaign |
| `DiffFacts.RegSource` | notifier_playwright.py:243-247 | every reg line listed under c comes from a row grouped under c with a stored key and different leads |
| `DiffFacts.DepSection` | notifier_playwright.py:249-253 | a dep line is listed under c if and only if some row grouped under c with a stored key has different sales, either way |
| `DiffFacts.DepListed` | notifier_playwright.py:249-253 | a row with a stored key and different sales has its dep line (old and new count) listed under its campaign |
| `DiffFacts.DepSource` | notifier_playwright.py:249-253 | every dep line listed under c comes from a row grouped under c with a stored key and different sales |
| `DiffFacts.DirectionGating` | notifier_playwright.py:234-238 | every listed spend line shows the cost delta and passed the direction gate (so a positive delta under "up", a negative one under "down", and no line under any other direction) |
| `DiffFacts.CountLinesChanged` | notifier_playwright.py:244-253 | every listed reg or dep line shows a changed count, up or down |
| `DiffFacts.UnknownRowIsSilent` | notifier_playwright.py:221-225 | a row whose key was not stored yields no line |
| `DiffFacts.FirstSightingSilent` | notifier_playwright.py:221-225 | dropping the rows whose key was not stored leaves the grouped changes exactly as they were |
| `DiffFacts.AllNewIsSilent` | notifier_playwright.py:221-225 | when no row's key was stored, nothing is listed |
| `DiffFacts.NoChangesIff` | notifier_playwright.py:209-253 | nothing is listed if and only if no row yields a line |
| `DiffFacts.ListedIffContributes` | notifier_playwright.py:209-253 | a campaign is listed if and only if some row grouped under it yields a line |
| `DiffFacts.GroupOrder` | notifier_playwright.py:209-267 | campaigns are listed, and so messaged, in the order of their first line |
| `DiffFacts.CampaignOrder` | notifier_playwright.py:209-267 | for two listed campaigns, any row bringing a line to the later one comes after a row bringing a line to the earlier one |
| `DiffFacts.NewStateIsOverwrite` | notifier_playwright.py:208-256 | the new state is the stored state with each row's record written over its key in row order, first sightings included |
| `DiffFacts.StateMerge` | notifier_playwright.py:208-256 | every stored key survives; a key no row produces keeps its record; a produced key holds the record of its last row |
| `DiffFacts.StateKeeps` | notifier_playwright.py:208 | a stored key that no current row produces keeps its stored record |
| `DiffFacts.StateLastWins` | notifier_playwright.py:221-256 | a key current rows produce holds the record of the last of them, whether it was a first sighting or not |
| `Grouping.AppendSection` | notifier_playwright.py:276-278 | the parts are non-empty after appending exactly when there was something before or the section has parts |
| `Grouping.Render` | notifier_playwright.py:268-286 | a campaign's message body is empty exactly when it has no line, in which case it is skipped |
| `Grouping.RenderMembers` | notifier_playwright.py:270-283 | a non-blank part is in the message if and only if it belongs to a non-empty section |
| `Grouping.RenderSpend` | notifier_playwright.py:270-273 | the `alert` line, the `Campaign:` header (with this campaign's name) and the spend lines are present exactly when the spend section is non-empty |
| `Grouping.RenderRegs` | notifier_playwright.py:275-278 | the regs title and lines are present exactly when the regs section is non-empty |
| `Grouping.RenderDeps` | notifier_playwright.py:280-283 | the deps title and lines are present exactly when the deps section is non-empty |
| `Grouping.RenderLayout` | notifier_playwright.py:268-283 | a message is whole sections in the order spend, regs, deps, each at most once: it opens with a title and ends with lines, the spend section is `alert`, the header, the lines, each other section is its title then its lines, and a single blank stands between two sections and nowhere else |
| `Grouping.LayoutRejects` | notifier_playwright.py:268-283 | sections run together, a blank inside a section, a section repeated, spend parts out of order and blanks at either end are all outside that layout |
| `Grouping.SendGroupedMessages` | notifier_playwright.py:261-292 | the count equals the number of messages sent, which is at most the number of campaigns |
| `Grouping.SentCount` | notifier_playwright.py:285-292 | the count is the number of campaigns with a non-empty section |
| `Grouping.SentMessages` | notifier_playwright.py:285-290 | the messages sent are exactly the rendered bodies of the campaigns with a line |
| `RunFacts.OneMessagePerCampaign` | notifier_playwright.py:267-290 | when every campaign has a line, the messages are every campaign's body, in order, and the count is the number of campaigns |
| `RunFacts.MessageAt` | notifier_playwright.py:267-290 | the i-th campaign's body is the i-th message sent |
| `Run.Baseline` | notifier_playwright.py:304-313 | the first-run baseline holds exactly the keys of the captured rows |
| `Run.RunOnce` | notifier_playwright.py:296-327 | the saved state holds the stored keys plus every row's key; a run sends nothing exactly when there was no stored state |
| `RunFacts.BaselineIsSilentDiff` | notifier_playwright.py:303-313 | the baseline equals what a diff against the empty state would save, and that diff lists nothing |
| `RunFacts.FirstRunIsSilent` | notifier_playwright.py:303-316 | with no stored state nothing is sent, and every row key maps to the record of its last row |
| `RunFacts.FirstRunSaves` | notifier_playwright.py:305-313 | a first run saves, under each key, the record of the last row with that key |
| `RunFacts.VacationIffQuiet` | notifier_playwright.py:318-327 | with a stored state the merged state is saved, and the vacation message is sent, alone and once, exactly when no row yields a line |
| `RunFacts.VacationWhenQuiet` | notifier_playwright.py:322-324 | with a stored state and no row yielding a line, the only message sent is the vacation message |
| `RunFacts.NoVacationOnChange` | notifier_playwright.py:322-324 | with a stored state and some row yielding a line, the vacation message is not sent |
| `RunFacts.ChangedRunMessages` | notifier_playwright.py:318-324 | with a stored state and some row yielding a line, the messages are exactly one per listed campaign, in list order |
| `RunFacts.QuietRerun` | notifier_playwright.py:318-327 | a second run on the same capture, with distinct keys and positive thresholds, sends only the vacation message |
| `RunFacts.DuplicateKeysReportAgain` | notifier_playwright.py:255-256 | with two rows sharing a key, the state keeps only the last one, so the earlier row is reported again on a re-run |
| `RunFacts.DecreaseReported` | notifier_playwright.py:243-256 | a drop from 10 to 7 leads is reported as 10 -> 7 and 7 is saved: no clamping |

## Left out

- Scraping (`fetch_rows_via_dom`, notifier_playwright.py:102-187) drives a
  browser. It is replaced by the `rows` input, which is already typed.
- `_to_int` and `_to_money` (notifier_playwright.py:86-98) follow Python's
  `int()` and `float()` grammars. Rows arrive with metrics already parsed.
- `tg_send`, `load_state` and `save_state` (notifier_playwright.py:48-83) are
  HTTP calls. Sending is appending to the output, loading is the `prev`
  input (empty when absent or unreadable), and saving is the `saved` output.
  Delivery and save failures are not modelled.
- Reading the environment (notifier_playwright.py:30-44) becomes the
  `Config` parameter. Lower-casing the direction is assumed done:
  `Config.direction` holds the lower-cased text.
- Message text formatting (`:.2f`, `<code>`, arrows, `int(pct)`,
  `"\n".join`; notifier_playwright.py:237-252, 273-288) is left out. Lines are
  structured records and a message is its list of parts.
- Floating point: cost is in exact cents. On a tie, the percentage is the
  exact ratio rounded half to even, where Python rounds the nearest double.
  The two can differ when the float division is inexact. Thresholds with more
  than two decimals are not representable.
- Stored records lacking a field, or stored as null
  (notifier_playwright.py:221-229), are not modelled: a stored record always
  has all three values.
- Row fields that are present but `None` are not modelled: a field is
  either text or missing.
- `Spend.PctSpec`: on a positive base it states the percentage of exact
  rational arithmetic, not of Python floats, because floats are left out.
