# Verified model of the accounting core

A Dafny model of the stateful parts of the accounting system: the general ledger and its account tree,
fixed assets, document numbering, the tenant-prefixed cache, the customer sub-ledger, the two lazily filled
registries of the assistant, budgets, the POS drawer, the payment vault and the cheque lists. Each module
models one of these, and proves what it keeps over every input or every run.

`dafny verify dfyconfig.toml` checks everything.

Conventions used throughout:

- Stored money is an integer number of thousandths (the columns are `Numeric(.,3)`). Division is exact and
  `quantize(..., ROUND_HALF_UP)` is exact half-up rounding (`Rounding`).
- A Python exception is an `Err`. An operation that raises inside a run is rolled back by its caller, so the
  run goes on from the state before it.
- A table is a sequence or a map, a query is a filter over it, and dates are day numbers or clock ticks.
- Objects whose methods assign their fields are classes; each method is tied to a function on values, and the
  properties of whole runs are lemmas about those functions. Where the runs interleave several transactions or
  threads, a method is one caller left to itself, and what it does is shown to be what the steps do then
  (`CustomerBalance.Customer.Move`, `ToolSchemas.CallAlone`, `ActionRegistry.CallAlone`).

| module | what it is about |
|---|---|
| `Forests` | depth-first walks over parent pointers with a depth cap and one shared visited set |
| `Journal`, `Reversals` | journal entries, their sums, and runs of inserting and reversing them |
| `Accounts` | the account tree: descendants, and balances of headers and leaves |
| `Rounding`, `FixedAssets`, `AssetLife`, `Depreciation` | the asset's instalments, postings, disposal, and life |
| `Text`, `Templates`, `DocumentSequences`, `Patterns`, `NumberRuns` | document numbers: what they say, and when they are distinct |
| `TenantCache` | one shared cache standing for one map per tenant |
| `CustomerBalance` | the locked customer balance, step by step over concurrent transactions |
| `ToolSchemas`, `ActionRegistry` | double-checked locking, step by step over concurrent threads |
| `Budgets`, `PosDrawer`, `VaultLock`, `Cheques` | run-level state machines |

Three results say where the code does less than its comments suggest, each with its exact condition:

- A reversed entry keeps the status `posted` (models/gl.py:350), although the comment at models/gl.py:245-256
  speaks of a move to `reversed`. `Reversals.UndatedBalance` follows the code: an entry reversed without having
  been posted leaves its opposite in the balances.
- Straight-line depreciation does not clamp its last instalment (`Depreciation.StraightLineOverrun`,
  `Depreciation.OneYearTakesThirteenMonths`), and a declining-balance asset is fully depreciated in the end
  exactly if its salvage value is large enough for its life and price (`Depreciation.DecliningEnds`,
  `Depreciation.DecliningCompletes`, `Depreciation.NoSalvageNeverDone`, `Depreciation.LastDigitDecides`).
- Document numbers can repeat when a date is passed in. Exactly the dates from the period of the row's last
  write up to the period in which the row is written again are safe (`NumberRuns.DateSafeExactly`); any other
  date restarts the counter, even for later calls with the default date (`NumberRuns.OutOfSpanRepeats`,
  `NumberRuns.BackdatingRepeats`). They also repeat when two numbers are taken before the row is written
  (`NumberRuns.UnwrittenRowRepeats`). The comment at
  models/document_sequence.py:37 names the reset value `yearly`; the code compares with `year`, so `yearly`
  never restarts the counter and is `Unrecognised` here.

## Model

| member | source | states |
|---|---|---|
| Accounts.GetChildrenRecursive | models/gl.py:177-189 | the recursive method, adding to the one visited object in its loop, returns what the functional walk returns, raises what it raises, and leaves the same visited set |
| Accounts.ChildrenRecursive | models/gl.py:177-189 | raises exactly when the account is its own ancestor or has a descendant deeper than the cap; otherwise every proper descendant once and only those, in preorder |
| Forests.VisitFromRoot | models/gl.py:122-128 | for any parent-pointer table and any cap: success iff nothing lies deeper than the cap, each error has its cause, and the result is the listing a walk without visited set or errors gives |
| Forests.VisitSound | models/gl.py:186-188 | a successful walk lists distinct rows, exactly the proper descendants, none visited before, and adds exactly those and the root to the shared set |
| Forests.VisitIsPreorder | models/gl.py:185-189 | the walk with a shared visited set and a cap refines the plain preorder listing |
| Forests.NeverCircular | models/gl.py:182-183 | a row that is not its own ancestor is never rejected as circular, whatever unrelated rows were visited before |
| Forests.NeverTooDeep | models/gl.py:178-179 | the cap never rejects a tree that fits under it |
| Forests.CycleIsUnbounded | models/gl.py:178-183 | a row on a cycle has ancestor paths longer than any cap, so a walk from it can only fail |
| Forests.SiblingsDisjoint | models/gl.py:186-188 | with one parent pointer per row, two children of a row off any cycle share no descendant |
| Accounts.ContraFlips | models/gl.py:166-173 | the contra flag turns the sign of asset, liability and revenue accounts and is without effect on equity and expense accounts |
| Accounts.BalanceIsWalk | models/gl.py:122-144 | the recursive balance is the same depth-first walk over active children of headers, summing the non-header accounts it meets, with the same errors |
| Accounts.LeafSumIsJournalTotal | models/gl.py:149-164 | one query per leaf, added up over distinct leaves, is a single signed pass over the posted entries of the journal |
| Accounts.BalanceIsFlatSum | models/gl.py:115-175 | a balance succeeds iff nothing reached through active headers lies below depth 10, fails on every cycle of active headers, and is then the flat signed sum over the frontier accounts, each counted once |
| Accounts.ReachedExactly | models/gl.py:130-144 | an account is reached iff it is the one asked for or an active child of a header that is reached |
| Accounts.OneEntryMoves | models/gl.py:147-164 | one more entry moves a balance by its lines on the frontier iff it is posted and dated within both bounds, each included, with end_date before as_of_date; any other entry leaves it alone |
| Accounts.OneLineMoves | models/gl.py:166-175 | what one line adds to a balance, account type by account type and with the contra flag; nothing off the frontier or for another tenant |
| Accounts.ReversalMoves | models/gl.py:304-353 | a reversal moves exactly the balances whose window holds the moment it is made, by the opposite of the entry reversed, so a balance of an earlier period stays |
| Accounts.BalanceAdditive | models/gl.py:159-162 | balances over two adjacent date windows add up to the balance over both, and all three succeed or fail together |
| Accounts.BalanceAfterRun | models/gl.py:115-175 | after any run of inserts and reversals every undated balance is the sum of the effects of the reversal chains |
| Journal.Ledger.Insert | models/gl.py:548-566 | an unbalanced entry is refused and changes nothing; a balanced one is appended with its flags brought in line with its status |
| Journal.InsertExactly | models/gl.py:548-566 | an entry is refused iff its totals are more than 0.001 apart; a stored one has every field as given, no link, and flags that follow its status |
| Journal.Ledger.ReverseEntry | models/gl.py:304-353 | the loop over lines appends the full mirror entry and flips only the original's is_reversed; an already reversed entry is refused and nothing changes |
| Journal.ReverseExactly | models/gl.py:304-353 | when a reversal is refused, and what it leaves field by field: the new entry dated now, posted, linked, each line with sides swapped and both amounts negated; the original only marked; every other entry as it was |
| Journal.JournalTotalSplit | models/gl.py:159-162 | a window splits at any tick without losing or repeating an entry |
| Journal.JournalTotalUnion | models/gl.py:150-157 | the posted total over two disjoint sets of accounts is the sum of their totals |
| Journal.SwappedLinesNegate | models/gl.py:330-339 | the reversed lines have the opposite effect on any set of accounts |
| Reversals.RunSound | models/gl.py:304-353 | in every reachable journal: every entry balanced, links point backwards and never twice to one entry, every linked entry mirrors its original, is_reversed iff mirrored or inserted as reversed, is_posted in line with the status |
| Reversals.ReversibleOnce | models/gl.py:306-307 | after any run, reversal succeeds iff no entry mirrors the original yet (and it was not inserted as reversed), with the exact table it leaves; the balance hook never stops it |
| Reversals.MirrorTwice | models/gl.py:309-346 | the mirror of a mirror has the original's totals and both sides of every line |
| Reversals.MirrorKeepsTotals | models/gl.py:320-321 | stored totals that agree with the lines still agree on the mirror |
| Reversals.ChainsPartition | models/gl.py:322 | reversal links split the journal into disjoint acyclic chains covering every entry, each starting at an entry that reverses nothing |
| Reversals.EffectAlternates | models/gl.py:330-346 | along a chain the effect of an entry is the root's, with alternating sign |
| Reversals.UndatedBalance | models/gl.py:146-175 | for any run and any set of accounts, the undated total is the sum over chains: the posted root's effect if the length is odd, nothing if even, and the opposite of an unposted root that was reversed an odd number of times along the chain |
| Reversals.ReversedDraftCounts | models/gl.py:304-353 | a draft entry reversed once leaves the opposite of its lines in the balance of every set of accounts |
| Rounding.HalfUpSpec | models/fixed_asset.py:154 | half-up rounding is the one integer nearest to the quotient, away from zero when halfway, for either sign of both operands |
| Rounding.HalfUpMonotone | models/fixed_asset.py:167 | rounding keeps order |
| FixedAssets.FixedAsset.constructor | models/fixed_asset.py:136-144 | a new asset is active, with its purchase price as book value and nothing posted |
| FixedAssets.FixedAsset.PostMonth | models/fixed_asset.py:177-253 | the new fields, schedule row, entry and status after one posting; each refusal changes nothing, and a zero instalment returns no row and changes nothing |
| FixedAssets.FixedAsset.CollectDisposalLines | models/fixed_asset.py:285-358 | the list built branch by branch holds the accumulated-depreciation, bank, gain or loss and cost lines, each under its own condition |
| FixedAssets.FixedAsset.DisposeOf | models/fixed_asset.py:255-370 | the status, disposal figures and entry; a second disposal changes nothing, and a refused entry leaves the fields already assigned |
| AssetLife.ScheduleInvariant | models/fixed_asset.py:187-253 | after any run: distinct period dates, each row's amount the instalment due then, its accumulated amount the prefix sum, book plus accumulated the price, and the asset's fields those of the last row |
| AssetLife.ConservedInvariant | models/fixed_asset.py:203-220 | after any run each account the asset posts to holds exactly what the asset's fields say, and every entry balances exactly with one positive side per line |
| AssetLife.LifetimeConservation | models/fixed_asset.py:264-358 | once disposed of: expense plus loss minus gain is price minus proceeds, accumulated depreciation is cleared, the whole cost has left the asset account |
| AssetLife.DisposalAccepted | models/fixed_asset.py:261-368 | the ledger accepts a disposal iff the asset is not yet disposed of and its cost is positive |
| AssetLife.DisposalRecords | models/fixed_asset.py:264-269 | what an accepted disposal records on the asset; the schedule, amounts and earlier entries stay |
| AssetLife.DoorExactly | services/gl_posting.py:208-214 | the posting rules an asset's entries meet: two sides at most 0.001 apart, both sides of one line only up to 0.010, no empty line |
| Depreciation.InstalmentExactly | models/fixed_asset.py:146-175 | the instalment of each method, in prices, life and rounding: nothing for land or an unknown method, an error for a life of zero years, the clamp for declining balance only |
| Depreciation.NeverWrittenDown | models/fixed_asset.py:148-175 | no run ever writes land down, or an asset whose method is neither of the two |
| Depreciation.InstalmentsRange | models/fixed_asset.py:151-155 | the number of positive straight-line instalments lies between 6 and 18 a year |
| Depreciation.StraightLineStops | models/fixed_asset.py:231-250 | in every reachable state all instalments are equal, never more than needed, and an asset that has had them all has salvage - m < book <= salvage |
| Depreciation.StraightLineCompletes | models/fixed_asset.py:151-155 | posting distinct months gives exactly that number of instalments and then stops as fully depreciated |
| Depreciation.PositiveInstalment | models/fixed_asset.py:153-154 | the instalment is positive iff there is at least half a cent a month to depreciate |
| Depreciation.NothingDepreciates | models/fixed_asset.py:196-197 | below that, no run ever depreciates the asset or completes it |
| Depreciation.StraightLineReaches | models/fixed_asset.py:231-250 | enough distinct months make the asset fully depreciated iff there is that much to depreciate |
| Depreciation.StraightLineOverrun | models/fixed_asset.py:151-155 | posting distinct months: after its stated months the asset is still active iff the rounded instalments fall short, and in the end its book value is below salvage iff the instalment does not divide the depreciable amount |
| Depreciation.OneYearTakesThirteenMonths | models/fixed_asset.py:231-250 | run over any thirteen distinct months, an asset of 100.000 over one year is active at 0.04 after twelve and fully depreciated at -8.29 after thirteen |
| Depreciation.DoubledBounds | models/fixed_asset.py:159-167 | the double-declining instalment is zero iff the book value is below 0.03 a year, and never above a third of a year's share of it |
| Depreciation.DueMonotone | models/fixed_asset.py:163-173 | a lower book value never has a larger instalment, through rounding and clamp |
| Depreciation.DecliningStops | models/fixed_asset.py:157-173 | in every reachable state book >= salvage, instalments never increase, there are at most as many as cents from price to salvage, and fully depreciated means exactly at salvage |
| Depreciation.DecliningBelowSalvage | models/fixed_asset.py:163-164 | an asset bought below its salvage value is never depreciated |
| Depreciation.DecliningSettles | models/fixed_asset.py:196-197 | posting distinct months ends, after at most as many instalments as cents from price to salvage, exactly at salvage or at a zero instalment with book < 0.03 a year |
| Depreciation.DecliningEnds | models/fixed_asset.py:163-171 | which end it is, exactly: a settled asset stands at salvage iff price and salvage are equal, or the price is at least 0.03 a year and salvage at least 0.03 a year less a cent plus the last digit of the price in thousandths; otherwise no run brings it down to salvage |
| Depreciation.DecliningCompletes | models/fixed_asset.py:249-250 | enough distinct months make the asset fully depreciated iff that condition holds and it started above salvage |
| Depreciation.NoSalvageNeverDone | models/fixed_asset.py:196-197 | an asset of 100.000 over five years without salvage value is not fully depreciated by any run |
| Depreciation.LastDigitDecides | models/fixed_asset.py:163-171 | with salvage 0.020 over one year, a price of 1.000 is written down to it and one of 1.005 never is |
| Text.ValueOfPad | models/document_sequence.py:84 | padding to a width loses nothing: the number can be read back |
| Text.NoLeadingZero | models/document_sequence.py:87 | a counter written plainly has no leading zero |
| Text.PadLength | models/document_sequence.py:84 | padding fills up to the width and no further |
| Templates.FillReplace | models/document_sequence.py:89-91 | string replacement on a filled template is replacement on the template, since placeholder names hold no digits |
| Templates.FillInjective | models/document_sequence.py:80-91 | two fillings with date parts of fixed width are equal iff they agree on every hole, even where the counter outgrows its padding |
| Templates.OtherPlaceholderKept | models/document_sequence.py:89-91 | replacing one placeholder destroys no occurrence of another |
| DocumentSequences.SubstituteCounter | models/document_sequence.py:80-87 | the loop over pad widths with its else branch replaces the first supported padded placeholder, or the plain one |
| DocumentSequences.SubstituteParts | models/document_sequence.py:89-91 | the loop applies the remaining substitutions in their order |
| DocumentSequences.DocumentSequence.GetNextNumber | models/document_sequence.py:55-95 | the number and the counter it leaves, with the reset inferred from the last write and the default date |
| DocumentSequences.RenderFillsTemplate | models/document_sequence.py:69-91 | the whole chain of replacements fills one template that does not depend on the date or counter |
| DocumentSequences.RenderEqual | models/document_sequence.py:69-91 | two numbers of a sequence are equal iff they agree on every date part and counter the template shows |
| DocumentSequences.CounterInTemplate | models/document_sequence.py:80-87 | the template shows the counter iff the pattern has a supported counter placeholder |
| DocumentSequences.DateInTemplate | models/document_sequence.py:89-91 | a date part named in the pattern survives all earlier substitutions |
| Patterns.CounterWritten | models/document_sequence.py:80-87 | the narrowest padded counter of a pattern is written with the width it names, or the plain counter bare if there is no padded one |
| Patterns.NumberSays | models/document_sequence.py:69-91 | the number of any pattern of plain texts and names in braces: each name says its text, the counter the padded counter, and the rest stands |
| Patterns.CounterBetween | models/document_sequence.py:81-85 | for each width, a counter between two plain texts is the counter padded to that width between them |
| Patterns.NameBetween | models/document_sequence.py:70-91 | prefix, year, month, day, branch and tenant, each between two plain texts |
| Patterns.DefaultNumber | models/document_sequence.py:33 | the default pattern gives prefix, four-digit year and a counter of at least four digits |
| Patterns.SeventhInvoice | models/document_sequence.py:33 | the seventh invoice of 2025 is INV-2025-0007 |
| Patterns.PrefixNames | models/document_sequence.py:89-91 | a prefix that is itself the name of another part is filled in with that part |
| Patterns.BranchNames | models/document_sequence.py:89-91 | a branch code that is a name stays as it is, unless it names the tenant, the one part substituted after it |
| NumberRuns.CounterExactly | models/document_sequence.py:63-67 | the counter of the next number from the row's columns: kept within the period of the last write, or of the creation if never written, and 1 outside it |
| NumberRuns.NoGaps | models/document_sequence.py:94 | within the period in which the row was written, the next number has the next counter |
| NumberRuns.KeyIsPeriod | models/document_sequence.py:104-111 | two moments have the same period key iff they agree on the date parts of the reset period |
| NumberRuns.RunRising | models/document_sequence.py:63-67 | over every run whose dates are in span the counters issued in a period rise and stay below the row's counter, whatever else writes the row |
| NumberRuns.SpannedDistinct | models/document_sequence.py:55-111 | all numbers of such a run are distinct, if the template shows the counter and every part of its period; this covers dates passed in, as long as they lie from the period of the last write to that of the next |
| NumberRuns.NumbersDistinct | models/document_sequence.py:55-111 | all numbers issued in a run under a clock that never goes back are distinct, if the template shows the counter and every part of its period, also with unrelated edits moving updated_at |
| NumberRuns.SpelledOutDistinct | models/document_sequence.py:80-91 | the same for any pattern that spells out a supported counter placeholder and every date part of its reset period |
| NumberRuns.DistinctExactly | models/document_sequence.py:55-111 | that condition on the configuration is exact: without it some run repeats a number |
| NumberRuns.DateSafeExactly | models/document_sequence.py:61-67 | a date may be passed in, without risk of a repeated number in any run whose other dates are in span, iff it is itself in span |
| NumberRuns.OutOfSpanRepeats | models/document_sequence.py:63-67 | out of span, the number issued is number 1 of that date, and the next call for the date issues it again |
| NumberRuns.ExplicitDateRepeats | models/document_sequence.py:61-67 | for any last write, date and next write: a call and the next one for the same date give the same number iff the row was written in another period than the date's, and the first call restarted the counter or found it at 1 |
| NumberRuns.RestartRepeats | models/document_sequence.py:66-67 | one call for another period between two default ones makes the second of these repeat number 2 |
| NumberRuns.BackdatingRepeats | models/document_sequence.py:66-67 | a concrete run that repeats: a yearly sequence in March 2025, asked in between for the last day of 2024 |
| NumberRuns.UnwrittenRowRepeats | models/document_sequence.py:97-102 | two numbers taken before the row is written are equal iff the first restarted the counter and the two moments agree on every date part shown |
| TenantCache.Collisions | extensions.py:93-103 | two calls reach one physical key iff they are the same space and key, or an untenanted key spells out the other's prefix |
| TenantCache.TenantKeyExactly | extensions.py:92-103 | which key a call reaches: prefixed with the active tenant, with the request's own tenant if there is no active one or a zero, and bare with neither or outside a request |
| TenantCache.TenantAwareCache.Read | extensions.py:105-106 | answers the value under the caller's prefixed key |
| TenantCache.TenantAwareCache.Write | extensions.py:108-109 | changes the shared map at the caller's prefixed key only |
| TenantCache.TenantAwareCache.Remove | extensions.py:111-112 | removes the caller's prefixed key only |
| TenantCache.TenantAwareCache.RemoveMany | extensions.py:114-115 | removes exactly the prefixed keys named |
| TenantCache.TenantAwareCache.ReadMany | extensions.py:117-120 | each distinct key is paired with its own value through the dictionary and the zip, repeats included |
| TenantCache.TenantAwareCache.WriteMany | extensions.py:122-124 | the mapped dictionary holds each entry under its prefixed key and nothing else |
| TenantCache.ViewsMove | extensions.py:92-124 | one call moves the caller's view as it would move a map of its own, and no other view |
| TenantCache.AnswersAgree | extensions.py:105-120 | a call answers what the caller's own map would |
| TenantCache.SharedRefinesAlone | extensions.py:82-124 | in any interleaving each tenant hears exactly the answers it would hear alone on its own map |
| TenantCache.TenantsIsolated | extensions.py:82-124 | over any interleaving of requests, those acting for one tenant hear what they would hear with a cache of their own, whatever other tenants' requests do |
| TenantCache.UntenantedKeyLeaks | extensions.py:98-103 | the premise on untenanted keys is needed: one that spells out a tenant's prefix is read by that tenant |
| CustomerBalance.Customer.Locked | models/customer.py:91-98 | flushes, locks and re-reads: the balance held is then what the transaction should see; fails iff another transaction holds the row |
| CustomerBalance.Customer.Move | models/customer.py:100-133 | each of the five balance methods applies its effect to the balance seen under the lock, or does nothing if the lock fails; either way it is the lock, read and write steps of the protocol |
| CustomerBalance.Customer.Commit | models/customer.py:82-98 | publishes what the holder saw and releases the row, as the commit step does; commits of others change nothing |
| CustomerBalance.Customer.Rollback | models/customer.py:82-98 | discards the holder's writes and releases the row, as the rollback step does |
| CustomerBalance.MovedShows | models/customer.py:91-106 | lock, read and write take the balance a transaction sees to the movement's effect on it, or change nothing while another holds the row |
| CustomerBalance.RunConsistent | models/customer.py:82-133 | in every interleaving the committed balance replays the committed movements, and only the lock holder has work in hand |
| CustomerBalance.ReplayIsSum | models/customer.py:100-133 | replaying is the opening balance or the last set_balance, plus the later movements with their signs |
| CustomerBalance.NoUpdateLost | models/customer.py:85-90 | no committed movement is ever lost, in any interleaving of locking, reading, writing, committing and rolling back |
| CustomerBalance.OneAtATime | models/customer.py:91-98 | at most one transaction is between its lock and its end |
| CustomerBalance.UnlockedLosesASale | models/customer.py:85-90 | without the lock the same steps lose a sale |
| ToolSchemas.SchemaCache.CachedToolParams | ai_knowledge/tool_registry.py:35-45 | one call alone returns the cached parameters or the stripped schema, and caches what it returns |
| ToolSchemas.RunSound | ai_knowledge/tool_registry.py:35-45 | in every interleaving only the lock holder builds, only for names not cached, and the cache holds only stripped schemas |
| ToolSchemas.BuiltOnceAndRight | ai_knowledge/tool_registry.py:28-45 | no schema is built twice and every caller gets the tool's own schema without its title, also after failed builds |
| ToolSchemas.CallAlone | ai_knowledge/tool_registry.py:35-45 | the steps of a call left to itself return and cache what the method does, and build only what was not cached |
| ToolSchemas.NeverStuck | ai_knowledge/tool_registry.py:37-45 | a thread inside a call can move, or the thread holding the lock can |
| ActionRegistry.Overlay | ai_knowledge/action_dispatcher.py:166-180 | registering leaves exactly the names there before and those registered |
| ActionRegistry.ActionDispatcher.Register | ai_knowledge/action_dispatcher.py:166-180 | adds one action at the end, or overwrites it in its place |
| ActionRegistry.ActionDispatcher.EnsurePacks | ai_knowledge/action_dispatcher.py:950-966 | the action packs are laid over the registry the first time and never again |
| ActionRegistry.ActionDispatcher.GetRegisteredActions | ai_knowledge/action_dispatcher.py:968-971 | lists each name of the registry once, in the order of first registration, with the action packs in place |
| ActionRegistry.ActionDispatcher.GetActionMetadata | ai_knowledge/action_dispatcher.py:973-977 | looks the action up in the registry with the action packs in place |
| ActionRegistry.AllInPlace | ai_knowledge/action_dispatcher.py:955-956 | once every registration is in place, whatever failed attempts left behind is overwritten |
| ActionRegistry.RunSound | ai_knowledge/action_dispatcher.py:950-966 | the invariant of every interleaving: one registering thread at a time, names outside the action packs untouched, the flag only with everything in place |
| ActionRegistry.RegisteredOnce | ai_knowledge/action_dispatcher.py:950-977 | registration completes at most once and no reader sees a half-filled registry, also after failed attempts |
| ActionRegistry.CallAlone | ai_knowledge/action_dispatcher.py:950-977 | the steps of a call left to itself take registry and flag where the methods take them |
| ActionRegistry.NeverStuck | ai_knowledge/action_dispatcher.py:958-966 | a thread inside a call can move, or the thread holding the lock can |
| Budgets.BudgetRecord.UpdateFigures | models/budget.py:195-245 | the loop refreshes every line and leaves the totals of the refreshed lines |
| Budgets.BudgetRecord.CheckProposed | models/budget.py:92-193 | each early answer, and otherwise the budget, actual and remaining figures with the verdict, from its own two sums and test of the account's side |
| Budgets.ActualIsEffectSum | models/budget.py:152-172 | the debit and credit sums with the choice of side come to one signed pass over the entries in scope |
| Budgets.BudgetRecord.Activate | models/budget.py:247-253 | only a draft becomes active |
| Budgets.BudgetRecord.Close | models/budget.py:255-264 | only an active budget closes, and its figures are refreshed first |
| Budgets.TotalVariance | models/budget.py:201-240 | whatever the lines held, each keeps its account and budget and gets actual less budget as its variance, and total variance is total actual less the sum of the line budgets |
| Budgets.CheckReportsRefresh | models/budget.py:125-193 | the actual figure a check reports is the one a refresh stores on that line, and both are one signed pass over the journal; the budget reported is the line's if the account has one line |
| Budgets.EntryMovesActual | models/budget.py:125-172 | which entries move an actual figure, by tenant, first and last day and branch, and by how much for each side |
| Budgets.CheckExactly | models/budget.py:103-193 | each early answer; otherwise the remaining figure, and a refusal only under hard enforcement and past the budget |
| Budgets.AllowedExactly | models/budget.py:174-182 | under hard enforcement a posting is allowed iff the actual figure after it is within the budget |
| Budgets.HardBudgetHolds | models/budget.py:177-182 | if each posting is made only when allowed, actual never exceeds budgeted in any reachable state |
| Budgets.StatusMovesOn | models/budget.py:247-264 | the status moves draft, active, closed and never back, and the closing step has refreshed every figure |
| PosDrawer.PosSession.MoveTo | models/pos_session.py:93-96 | a transition outside the allowed set is refused and changes nothing |
| PosDrawer.PosSession.PauseSession | models/pos_session.py:98-100 | pausing sets the status and time, or changes nothing |
| PosDrawer.PosSession.ResumeSession | models/pos_session.py:102-104 | resuming clears the pause time, or changes nothing |
| PosDrawer.PosSession.CloseSession | models/pos_session.py:118-128 | closing from open or paused fixes the closing, expected and difference figures; a closed session is left alone |
| PosDrawer.PosShift.Reconcile | models/pos_shift.py:83-89 | the counted cash, expected cash, discrepancy and status after a reconcile |
| PosDrawer.PosShift.CloseShift | models/pos_shift.py:91-93 | closing a shift changes its status and none of its figures |
| PosDrawer.ShiftRunSound | models/pos_shift.py:73-93 | in every reachable state of a shift the count and discrepancy come together and agree with all its movements, also once it is closed |
| PosDrawer.RunSound | models/pos_session.py:93-128 | in every reachable state the closing figures exist iff the session is closed, agree with the recorded movements, and closing = expected + difference |
| PosDrawer.ClosedIsTerminal | models/pos_session.py:30-39 | no operation after closing changes anything |
| PosDrawer.DrawerTelescopes | models/pos_shift.py:73-93 | over any runs of consecutive shifts, each counted and perhaps closed, the cash counted last, less what the summed movements predict, is the sum of the discrepancies |
| PosDrawer.SessionDifference | models/pos_session.py:118-124 | the session's close difference is the sum of all shift discrepancies, for any number of shifts |
| PosDrawer.OpExactly | models/pos_session.py:27-128 | which operation goes through in which status and what it changes; the closing cash is rounded half up |
| PosDrawer.ExpectedIsNetFlow | models/pos_session.py:106-116 | over any run, the expected cash is the opening cash and all cash that came in less all that went out while the session was open |
| PosDrawer.ShiftExactly | models/pos_shift.py:73-93 | the same of a shift over any run, with its status, its latest count and its discrepancy |
| VaultLock.PaymentVault.UnlockVault | models/payment_vault.py:128-139 | a right password opens, stamps and clears the failures; a wrong one only counts |
| VaultLock.PaymentVault.LockVault | models/payment_vault.py:141-144 | locks and touches nothing else |
| VaultLock.PaymentVault.IsVaultAccessible | models/payment_vault.py:146-165 | the answer, and the lock it sets when it finds the session expired |
| VaultLock.PaymentVault.ResetFailedAttempts | models/payment_vault.py:167-170 | clears the failures and touches nothing else |
| VaultLock.AccessExactly | models/payment_vault.py:146-165 | over every run with a clock that never goes back, access is granted iff the latest correct unlock has no lock after it and lies within the auto-lock time |
| VaultLock.RefusedUntilUnlock | models/payment_vault.py:161-163 | once refused, access stays refused until the next correct unlock |
| VaultLock.FailuresCounted | models/payment_vault.py:137 | failed_attempts is the number of wrong passwords since the last success or reset, and the lock-out follows it |
| Cheques.ChequeTable.UpdateAllStatuses | models/cheque.py:312-325 | the loop refreshes the warnings of the active pending cheques in scope and of no other |
| Cheques.ChequeTable.GetCheques | models/cheque.py:284-310 | refresh, filter on the stored warnings, and order by due date |
| Cheques.ListExactly | models/cheque.py:284-310 | each list is exactly the in-scope active pending cheques due in [today, today + 7] or before today, as often as they stand in the table, sorted by due date |
| Cheques.ListsDisjoint | models/cheque.py:284-310 | no cheque is in both lists of one day |
| Cheques.ListCounts | models/cheque.py:284-310 | each list holds a cheque exactly as often as it stands among the rows that are pending, active, of the tenant and branch asked for, and due in time |
| Cheques.RefreshExactly | models/cheque.py:312-325 | a refresh reaches those pending, active rows of the tenant and branch asked for, and no other |
| Cheques.StatusExactly | models/cheque.py:169-185 | the days left and whether the cheque is late; a settled cheque is left alone |
| Cheques.StaleWarningsIgnored | models/cheque.py:169-185 | tables that differ only in stored warnings give the same lists |
| Cheques.AssignExactly | models/cheque.py:141-162 | an assignment is refused iff it would give the cheque a second source document; otherwise it changes the one field |
| Cheques.OneSource | models/cheque.py:141-162 | no sequence of assignments gives a cheque two source documents |

## Left out

- Decimal's 28-digit context: division is exact before it is rounded to a cent.
- Integer overflow of counters and the width limits of columns.
- Journal entries: status changes other than inserting and reversing, entry numbers, descriptions, currency, exchange rate and the financial dimensions of lines, which a reversal copies.
- An account outside the table, or a children collection that is not the reverse of the parent column, does not occur.
- The posting service is modelled by its line-side and balance rules only; account resolution, period locks and branch checks are not part of this model.
- Assets are taken to have their ledger accounts linked, a book value that starts at the purchase price, and disposal prices of zero or more in the lifetime laws; the acquisition entry is posted elsewhere.
- Document dates have four-digit years; the row lock the caller must hold is taken as held; is_active and branch_scoped are not read by the code.
- Cache timeouts, eviction, return values of writes, failures of the backend and the attribute pass-through; tenant ids are natural numbers.
- The customer protocol has one customer row; the retries and messages of the lock helper are a step that is not enabled.
- Action handlers, and permission and confirmation gates of the dispatcher.
- Budget percentages and messages; the time zone of the date comparison.
- Who records the POS totals; they are taken to be recorded only while the session, or the shift, is open. A shift count is in whole thousandths. Notes and durations.
- Password hashing: a password is right or wrong.
- Cheque rows with equal due dates are listed in table order, though the query leaves that open; a refresh reads the date once.
- Percentages, labels, serialisation, web requests and all other models, which would only add easy members.
