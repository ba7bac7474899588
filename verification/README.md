# Batfish's shipped scripts, modelled and verified

A Dafny model of the hardest logic in the JavaScript libraries that Batfish's web pages ship, with
proofs of what that logic is for. It is checked with `dafny verify dfyconfig.toml`.

## What is modelled

**Sizzle, the selector engine of jQuery** (`Dom`, `Selectors`, `Matching`, `Selecting`, `Select`,
`SelectLimits`, `Sorting`, `NthChild`). A document is a finite ordered tree and a node is its path
of child indices. Simple filters are an arbitrary predicate on nodes. `Selectors` says what a
selector means, as chains of elements; `Selecting` compiles tokens to matchers; `Matching` runs a
matcher with the caches that Sizzle keeps on nodes; `Select` adds the search for a seed, the
dropped token, the ID shortcut and the run over the candidates. The main result is that `select`
appends exactly the selected elements, once each and in document order, after any earlier runs, and
exactly which of them when it searches by an ID that is shared. `NthChild` is the resumable
position scan, `Sorting` the document-order comparator and `uniqueSort`.

**Callback lists, deferreds, `when` and the effects queue** (`Callbacks`, `CallbackPasses`,
`CallbackMembers`, `CallbackDelivery`, `CallbackList`, `Deferred`, `DeferredProgress`, `When`,
`FxQueue`). A callback list is a machine whose steps end where control passes to a user callback or
back to the caller, so that every re-entrant use is a sequence of steps; the class in `CallbackList`
refines it. `Deferred` runs three such machines.

**The datepicker** (`Calendar`, `Datepicker`, `MonthGrid`, `DateFormat`, `DateRoundTrip`,
`DateParsing`). Dates are day numbers of the proleptic Gregorian calendar, with the carrying of
months and days and the two-digit years of the ECMAScript constructor. Differences of local
midnights carry a clock shift of less than 12 hours. The current year is a parameter of the parser.

**js-cookie** (`UriEncoding`, `Cookies`, `CookieStore`). Text is a sequence of Unicode scalar
values, encoded as UTF-8. The browser keeps a list of names and values.

**debounce and throttle of cytoscape-qtip** (`Debounce`, `DebounceRuns`, `DebounceEnds`,
`DebounceAnswers`, `Debounced`). The closure, its two timers and the page's list of pending timers,
on a clock that does not run back. Timers never fire early; prompt timers are never late.

## What does not hold

The proofs follow the code where it falls short of what its documentation says, and then state
exactly when it does what is promised.

- A search by an ID that several elements share finds the first of them only. What `select`
  reports is then exactly what is selected from that element (`Select.Select`,
  `SelectLimits.IdAlone`, `SelectLimits.IdThenRest`); an ID that is only a filter does no harm.
- In XML documents `select` can report elements that are not below the context, for exactly the
  selectors of `SelectLimits.XmlStraysExactlyWhen`: a plus sign or tilde anywhere in the text, also
  inside a filter, no type selector to search by, and a group not led by ">" or white space.
- The day of the year is wrong after February of the year 0 (`Datepicker.FormattedDayOfYearIs`,
  `Datepicker.FirstOfMarch0`).
- With several months shown, the limit of the drawn month can overflow into a later month
  (`MonthGrid.LimitMonth`, `MonthGrid.EndOfMarchOverflows`).
- Years before 1900 other than centuries are not legible in a two-digit field, nor years without
  four digits in the other (`DateRoundTrip.YearIsRead`, `DateRoundTrip.Year1899IsNotRead`); two
  digits come back only within the window of the cutoff (`DateRoundTrip.RoundTrip`). Left-over text
  is accepted when it starts with white space, whatever follows (`DateFormat.ParseDate`).
- A debounced function with leading, trailing and a `maxWait` longer than `wait` can drop a call
  (`DebounceRuns.DropsExactlyWhen`).
- An earlier cookie of another script whose name is an escaped spelling of a key hides what is set
  under that key, and one whose name cannot be decoded makes the read throw
  (`CookieStore.SetThenGet`, `CookieStore.OtherSpellingHides`, `CookieStore.UndecodableNameThrows`).
- An effect run on an idle queue starts its first two functions together
  (`FxQueue.JumpsQueue`, the second case).

## Model

| member | source | states |
|---|---|---|
| `Sorting.SiblingCheck` | projects/wwwroot/libs/jquery.js:1362-1383 | Walking forward from `a` answers -1 exactly when `a` is absent or `b` is a later sibling of it, and 1 otherwise |
| `Sorting.AncestorList` | projects/wwwroot/libs/jquery.js:1759-1767 | The unshift loop builds the list of ancestors from the document down to the node |
| `Sorting.FirstDifferenceDecides` | projects/wwwroot/libs/jquery.js:1768-1776 | The first place where two ancestor lists part decides document order, by a sibling check of the two nodes there (an absent one first) |
| `Sorting.SortOrder` | projects/wwwroot/libs/jquery.js:1731-1782 | The comparator is negative, zero or positive exactly as the first node precedes, is, or follows the second in document order |
| `Dom.BeforeTotal` | projects/wwwroot/libs/jquery.js:1731-1782 | Document order is a strict total order: two different nodes are ordered one way, never both |
| `Dom.BeforeTransitive` | projects/wwwroot/libs/jquery.js:1731-1782 | Document order is transitive, as a comparator must be |
| `Dom.PreorderPosition` | projects/wwwroot/libs/jquery.js:1731-1782 | Document order is position in the depth-first walk of the tree |
| `Sorting.NodeList.CollectRepeats` | projects/wwwroot/libs/jquery.js:1868-1873 | The collecting loop records the index of every entry equal to its successor, and no other |
| `Sorting.RemoveRepeat` | projects/wwwroot/libs/jquery.js:1874-1876 | Splicing one recorded index, from the last backwards, keeps the order, the members and the indices still to be spliced |
| `Sorting.NodeList.UniqueSort` | projects/wwwroot/libs/jquery.js:1857-1880 | Given a sort by the comparator, what is left is strictly increasing in document order and has the same members |
| `Sorting.UniqueSortedIsTheWalk` | projects/wwwroot/libs/jquery.js:1857-1880 | That list is determined: it is the depth-first walk of the document restricted to the nodes given |
| `Selectors.SelectedMeans` | projects/wwwroot/libs/jquery.js:2653-2706 | The existential chains of section 8 of Selectors Level 3 and the right-to-left reading of the tokens select the same elements |
| `Selectors.DropFilter` | projects/wwwroot/libs/jquery.js:2882-2884 | A filter of the rightmost compound can be dropped and tested apart: the rest of the tokens keeps its meaning |
| `Selectors.MeansStaysBelow` | projects/wwwroot/libs/jquery.js:2722 | Every element a chain reaches lies below whatever the chain started below |
| `Matching.OverwritingKeepsSound` | projects/wwwroot/libs/jquery.js:2507-2514 | Cells of the slot shared per node and direction, overwritten by other combinators, never change what a matcher may rely on |
| `Matching.NextCandidate` | projects/wwwroot/libs/jquery.js:2742-2745 | Counting a candidate turns every failure mark of the one before into a mere failure at that node |
| `Matching.NewRun` | projects/wwwroot/libs/jquery.js:2724 | A fresh run number makes every older cell irrelevant |
| `Matching.WalkMarks` | projects/wwwroot/libs/jquery.js:2513-2517 | Writing the verdict on the node just passed keeps the account of the walk: `true` says the inner matcher holds there, the current number that it fails |
| `Matching.WalkEnds` | projects/wwwroot/libs/jquery.js:2508-2517 | At the end of a walk the current number on a node means that nothing further along that direction matches either |
| `Matching.Engine.Match` | projects/wwwroot/libs/jquery.js:2475-2537 | A compiled matcher run with the caches answers as it would without them, from any sound cache, and leaves the cache sound for the next candidate |
| `Matching.Engine.MatchAll` | projects/wwwroot/libs/jquery.js:2525-2537 | All matchers of a compound are tried from the last; the answer is that all hold |
| `Matching.Engine.MatchClosest` | projects/wwwroot/libs/jquery.js:2480-2488 | With `first`, the closest eligible node decides |
| `Matching.Engine.MatchAnyPlain` | projects/wwwroot/libs/jquery.js:2495-2503 | The uncached loop answers whether some eligible node along the direction matches |
| `Matching.Engine.AskAndMark` | projects/wwwroot/libs/jquery.js:2513-2517 | On a cache miss: reserve the cell, ask the inner matcher, write its verdict; nested matchers may have overwritten the cell meanwhile |
| `Matching.Engine.MatchAnyCached` | projects/wwwroot/libs/jquery.js:2504-2521 | The caching loop answers exactly what the uncached loop does |
| `Selecting.WalkFindsRelated` | projects/wwwroot/libs/jquery.js:2475-2523 | Walking `dir` from an element finds exactly the nodes that stand in the relation of the combinator |
| `Selecting.MatcherFromTokens` | projects/wwwroot/libs/jquery.js:2653-2706 | The loop over the tokens builds the compiled matcher and takes as many combinator numbers as it has walks |
| `Selecting.CompiledIsWellFormed` | projects/wwwroot/libs/jquery.js:2478 | Every combinator of a compiled selector has a number of its own, of no other selector compiled before or after |
| `Selecting.CompoundHolds` | projects/wwwroot/libs/jquery.js:2525-2537 | The matcher of a compound holds exactly when all its members do |
| `Selecting.ContextReached` | projects/wwwroot/libs/jquery.js:2660-2672 | The foundational matcher holds exactly for the nodes where a chain may start under the context |
| `Selecting.CompiledMeans` | projects/wwwroot/libs/jquery.js:2653-2706 | Compilation preserves meaning: the matcher holds of an element exactly when the tokens select it |
| `Selecting.SuperMatcher.TryGroups` | projects/wwwroot/libs/jquery.js:2734-2741 | The groups are tried on a candidate until one matches; failing groups leave their caches sound |
| `Selecting.SuperMatcher.Run` | projects/wwwroot/libs/jquery.js:2713-2746 | An outermost run, after any number of earlier runs of any selectors, appends exactly the candidates that some group holds of, in order |
| `Selecting.Compile` | projects/wwwroot/libs/jquery.js:2809-2834 | The groups are compiled from the last to the first into matchers that share no combinator number |
| `Selecting.CompiledGroupsMean` | projects/wwwroot/libs/jquery.js:2809-2834 | Some compiled group holds of an element exactly when some comma group selects it |
| `Select.FindIsExact` | projects/wwwroot/libs/jquery.js:1515-1560 | A browser search lists, in document order, exactly the elements below the context that pass the filter, and for an ID exactly the first of them |
| `Select.SelectedIsInScope` | projects/wwwroot/libs/jquery.js:2722 | In an HTML document no element outside the nodes searched is selected, sibling combinators at the front included |
| `Select.SeedSplitsMeaning` | projects/wwwroot/libs/jquery.js:2867-2892 | An element is selected, and the first with its ID if the seed is searched by one, exactly when it is in the seed and the tokens without the seed token select it |
| `Select.IdShortcutMeans` | projects/wwwroot/libs/jquery.js:2853-2864 | A selector with a leading ID means that its rest is met under some element with that ID, for every prefix of the tokens |
| `Select.IdShortcutSelects` | projects/wwwroot/libs/jquery.js:2853-2864 | It selects exactly what its rest selects with some element of that ID as the context |
| `Select.GroupReportsSelected` | projects/wwwroot/libs/jquery.js:2867-2906 | What is reported for a group is all selected elements in scope, unless the ID that gives the seed is shared |
| `Select.ReportsSelected` | projects/wwwroot/libs/jquery.js:2845-2907 | The same for a call of `select`, with the ID of the shortcut in place of the one of the seed |
| `Select.CompileAndRun` | projects/wwwroot/libs/jquery.js:2897-2906 | Compiling the groups and filtering the candidates by them |
| `Select.FetchSeed` | projects/wwwroot/libs/jquery.js:2866-2893 | The backwards loop stops at the last compound and fetches the seed of the last filter a search exists for: all elements that pass it, for an ID the first |
| `Select.SelectGroup` | projects/wwwroot/libs/jquery.js:2866-2906 | For one group exactly the selected elements in scope are appended, once each and in document order; when the seed is an ID, those of them that are the first with it |
| `Select.Select` | projects/wwwroot/libs/jquery.js:2845-2907 | `select` appends exactly the elements that some comma group selects under the context, once each and in document order, if the ID it searches by is not shared; otherwise exactly those under, or being, the first element with that ID |
| `SelectLimits.IdSeedIsCompleteIffUnique` | projects/wwwroot/libs/jquery.js:1516-1523 | The seed of an ID has every element with that ID exactly when no two share it |
| `SelectLimits.IdAlone` | projects/wwwroot/libs/jquery.js:2867-2891 | `#id` selects every element with the ID and reports the first |
| `SelectLimits.IdThenRest` | projects/wwwroot/libs/jquery.js:2853-2864 | After a leading ID with a combinator and more behind it, the rest is selected from every element with the ID and reported from the first |
| `SelectLimits.HtmlSeedIsLast` | projects/wwwroot/libs/jquery.js:2866-2893 | In HTML documents the seed comes from the last token of the last compound that the browser can search by: a type, a class or, from the document, an ID |
| `SelectLimits.HtmlReports` | projects/wwwroot/libs/jquery.js:2866-2906 | Without that shortcut one group reports in an HTML document all selected elements, unless that token is an ID and the selector does not look at its context: then only the first element with the ID |
| `SelectLimits.SecondWithIdIsMissed` | projects/wwwroot/libs/jquery.js:2867-2891 | A page on which `#a` misses a selected element |
| `SelectLimits.ChildOfSecondIsMissed` | projects/wwwroot/libs/jquery.js:2853-2864 | A page on which `#a > b` misses a selected element |
| `SelectLimits.XmlSeedIsType` | projects/wwwroot/libs/jquery.js:1515-1578 | In XML documents there is a seed exactly when the last compound has a type selector |
| `SelectLimits.WidensWhen` | projects/wwwroot/libs/jquery.js:2904 | The search is widened to the parent of the context exactly for a plus sign or tilde in the text of any token of any group, unless a lone group has a type selector in its last compound and does not look at the context |
| `SelectLimits.XmlScope` | projects/wwwroot/libs/jquery.js:2722 | In an XML document the elements below the parent of the context are searched in exactly that case, and otherwise those below the context |
| `SelectLimits.XmlSearchIsWide` | projects/wwwroot/libs/jquery.js:2722-2904 | With a sibling combinator, or a plus sign or tilde, anywhere in the groups of an XML call, and no type selector in the last compound of a lone group, every selected element below the parent of the context is appended |
| `SelectLimits.XmlSearchIsNarrow` | projects/wwwroot/libs/jquery.js:2722-2904 | With none of them in any token everything appended lies below the context |
| `SelectLimits.FullPageStrays` | projects/wwwroot/libs/jquery.js:2660-2722 | For every selector that widens the search and has a group not led down there is an XML page on which it reports an element that is not below the context |
| `SelectLimits.XmlStraysExactlyWhen` | projects/wwwroot/libs/jquery.js:2660-2722 | In XML documents `select` can report an element that is not below the context exactly when some token of some group has a plus sign or tilde, no type selector gives a seed, and some group is not led by ">" or white space |
| `SelectLimits.TildeInFilterStrays` | projects/wwwroot/libs/jquery.js:2904 | The tilde inside `[x~=y]` is enough |
| `NthChild.CycleIsNthExpression` | projects/wwwroot/libs/jquery.js:2139-2141 | The final test holds exactly when position = a*n + b for some n >= 0, for a positive, negative or zero (section 6.6.5.2 of Selectors Level 3) |
| `NthChild.PositionCounts` | projects/wwwroot/libs/jquery.js:2116-2126 | A position is the number of element siblings, or for `of-type` of siblings with the same name, from one end up to the child |
| `NthChild.StandsMeans` | projects/wwwroot/libs/jquery.js:2057-2143 | `first` means no counted sibling before the child, `last` none behind, `only` neither, `nth` and `nth-last` that a*n+b are counted from that end up to it |
| `NthChild.ChildFilter.NewRun` | projects/wwwroot/libs/jquery.js:2100 | A new run makes all remembered positions irrelevant, whatever changed in the document |
| `NthChild.ChildFilter.Seek` | projects/wwwroot/libs/jquery.js:2104-2114 | The wrap-around loop, from any remembered child, ends on the element with the count of elements up to it, after two passes at most |
| `NthChild.ChildFilter.SeekForward` | projects/wwwroot/libs/jquery.js:2095-2114 | The resumed scan yields the 1-based position of the element among element siblings, from any valid cache and in any query order |
| `NthChild.ChildFilter.Scan` | projects/wwwroot/libs/jquery.js:2116-2137 | The scan from either end, with or without the cache on each element, yields the position among the counted siblings |
| `NthChild.ChildFilter.NoneCounted` | projects/wwwroot/libs/jquery.js:2079-2087 | Walking away from the element finds no counted sibling exactly when its position from that side is 1 |
| `NthChild.ChildFilter.IsOnly` | projects/wwwroot/libs/jquery.js:2078-2091 | `first`, `last` and `only` hold exactly for the elements in that position |
| `NthChild.ChildFilter.Matches` | projects/wwwroot/libs/jquery.js:2057-2143 | The filter holds exactly for the elements whose position satisfies the pseudo-class, `n` shortcut and detached elements included |
| `Callbacks.KeepsOk` | projects/wwwroot/libs/jquery.js:3015-3174 | Every operation, in the middle of a pass or not, keeps the list consistent: `firingLength` is the length of the list and the cursor is in range |
| `CallbackPasses.PassCallsEachOnce` | projects/wwwroot/libs/jquery.js:3040-3053 | Whatever its callbacks do, the entries a pass had at its start and those added while it lasted, without those removed before their turn or cut off by an early end, are called exactly once each in list order |
| `CallbackPasses.RemoveFollows` | projects/wwwroot/libs/jquery.js:3100-3119 | A removal in the middle of a pass, at, before or behind the cursor, drops the removed entries from what is to come and nothing else |
| `CallbackPasses.AddFollows` | projects/wwwroot/libs/jquery.js:3069-3098 | An addition in the middle of a pass comes last in that pass |
| `CallbackPasses.CutFollows` | projects/wwwroot/libs/jquery.js:3048-3051 | `disable`, `lock` without a memory, and a `false` that counts end the pass after the callback at the cursor: what was still to come is dropped, and nothing else |
| `CallbackPasses.ReturnFollows` | projects/wwwroot/libs/jquery.js:3047-3064 | A callback that returns hands over to the next entry, or the pass ends having called all it owed |
| `CallbackPasses.FireBeginsPass` | projects/wwwroot/libs/jquery.js:3153-3164 | A fire accepted at rest begins a pass over the whole list |
| `CallbackPasses.WaitingFireBeginsPass` | projects/wwwroot/libs/jquery.js:3053-3058 | When a pass ends, the fire that has waited longest begins a pass over the whole list |
| `CallbackPasses.LateAdditionReplays` | projects/wwwroot/libs/jquery.js:3086-3095 | An addition to a list that remembers is called at once with the latest data, in a pass over the additions only |
| `CallbackPasses.FiresAreDeliveredInOrder` | projects/wwwroot/libs/jquery.js:3040-3064 | On a repeatable list every accepted fire gets a pass of its own, in call order; nothing waits once the list is at rest |
| `CallbackPasses.PassesNeverInterleave` | projects/wwwroot/libs/jquery.js:3054-3058 | In every run the calls of a pass carry its data and are never interleaved with those of another |
| `CallbackMembers.RemoveLeavesOthers` | projects/wwwroot/libs/jquery.js:3100-3119 | Firing or not, exactly the entries of other functions stay on the list, in their order |
| `CallbackMembers.AbsentIsNotCalled` | projects/wwwroot/libs/jquery.js:3040-3164 | In every run a function that is not on the list and not added is not called |
| `CallbackMembers.RemovedIsNotCalled` | projects/wwwroot/libs/jquery.js:3100-3119 | Once removed, at rest or in the middle of a pass, a function is not called in any run that does not add it again |
| `CallbackMembers.PushAllHolds` | projects/wwwroot/libs/jquery.js:3073-3085 | After `add` the list has its old functions and the added ones, no others |
| `CallbackMembers.PushAllPlain` | projects/wwwroot/libs/jquery.js:3073-3085 | Without `unique` every function added gets an entry of its own, in order, behind the others |
| `CallbackMembers.LastIsPushed` | projects/wwwroot/libs/jquery.js:3073-3085 | With `unique` the last function added gets an entry behind those of the others exactly when none has it by then |
| `CallbackMembers.UniqueAdds` | projects/wwwroot/libs/jquery.js:3076-3079 | A unique list never gets a second entry of a function |
| `CallbackMembers.RunObeys` | projects/wwwroot/libs/jquery.js:2990-3014 | In every run `once` lets one fire through at most, without `memory` nothing is replayed, with it the last fire is remembered as long as the list is on, and a `unique` list has no function twice |
| `CallbackMembers.EarlyStopForgets` | projects/wwwroot/libs/jquery.js:3048-3064 | A `false` that counts makes the list forget: functions added later are not called, and a list that cannot fire again is disabled |
| `CallbackMembers.DisabledIsSilent` | projects/wwwroot/libs/jquery.js:3132-3135 | A disabled list calls nothing in any run |
| `CallbackDelivery.FireIsHeard` | projects/wwwroot/libs/jquery.js:3040-3164 | On a repeatable list to which functions are only added, every fire, nested or not, has a pass of its own in the order of the fires, and at rest the pass has called, in order and first of all, every entry there was when `fire` was called |
| `CallbackList.CallbackList.constructor` | projects/wwwroot/libs/jquery.js:3015-3038 | A new list is empty, at rest and never fired |
| `CallbackList.CallbackList.Fire` | projects/wwwroot/libs/jquery.js:3040-3047 | `fire` begins the pass and calls the first entry, as the machine does |
| `CallbackList.CallbackList.LoopTest` | projects/wwwroot/libs/jquery.js:3047 | The loop test calls the entry at the cursor or ends the pass |
| `CallbackList.CallbackList.AfterLoop` | projects/wwwroot/libs/jquery.js:3053-3064 | After the loop: the next waiting fire, an emptied list, or a disabled one |
| `CallbackList.CallbackList.Resume` | projects/wwwroot/libs/jquery.js:3047-3052 | A callback returns; `false` ends the pass of a `stopOnFalse` list and forgets the memory |
| `CallbackList.CallbackList.Push` | projects/wwwroot/libs/jquery.js:3073-3085 | The loop of `add` appends each function, unless the list is unique and has it |
| `CallbackList.CallbackList.Add` | projects/wwwroot/libs/jquery.js:3069-3098 | `add` appends, extends the pass in progress, or replays the memory |
| `CallbackList.CallbackList.SpliceAt` | projects/wwwroot/libs/jquery.js:3105-3114 | Splicing at an index moves the firing indexes with the entries |
| `CallbackList.CallbackList.RemoveEach` | projects/wwwroot/libs/jquery.js:3104-3115 | The repeated search and splice takes out every entry of the function, and the cursor goes back by those at or before it |
| `CallbackList.CallbackList.Remove` | projects/wwwroot/libs/jquery.js:3100-3119 | `remove` is the step of the machine, at rest and in the middle of a pass |
| `CallbackList.CallbackList.Empty` | projects/wwwroot/libs/jquery.js:3126-3130 | `empty` drops all entries |
| `CallbackList.CallbackList.Disable` | projects/wwwroot/libs/jquery.js:3132-3135 | `disable` drops list, waiting fires and memory |
| `CallbackList.CallbackList.Lock` | projects/wwwroot/libs/jquery.js:3141-3147 | `lock` drops the waiting fires, and disables a list without memory |
| `CallbackList.CallbackList.FireWith` | projects/wwwroot/libs/jquery.js:3153-3164 | A fire is ignored, waits for the pass in progress, or begins one |
| `Deferred.StateIsFirstSettlement` | projects/wwwroot/libs/jquery.js:3238-3245 | In every run, calls from inside callbacks included, the state is "resolved" exactly when the first settlement is a resolve, "rejected" exactly when it is a reject, and "pending" without one |
| `Deferred.SettlesOnce` | projects/wwwroot/libs/jquery.js:3187-3245 | The state leaves "pending" at most once and never changes again |
| `Deferred.EachCalledOnce` | projects/wwwroot/libs/jquery.js:3180-3253 | Every registration on the list of the outcome is called once, in order, with the first data, and none is owed at rest; the other list is never called |
| `Deferred.RegsAreRegistered` | projects/wwwroot/libs/jquery.js:3234-3245 | The list of the outcome keeps everything ever registered on it, before, during or after its pass |
| `Deferred.CallbacksSeeTheState` | projects/wwwroot/libs/jquery.js:3239-3244 | Whenever a user callback of an outcome has been entered, the state says so, the other list is off and progress is locked |
| `Deferred.NoNotificationAfterSettlement` | projects/wwwroot/libs/jquery.js:3244 | After settlement no `notify` is delivered any more |
| `DeferredProgress.ProgressIsList` | projects/wwwroot/libs/jquery.js:3186-3253 | Until the settlement the progress list is a repeatable callback list with memory, fired by every `notify` |
| `DeferredProgress.EveryNotificationIsDelivered` | projects/wwwroot/libs/jquery.js:3186-3253 | As long as nothing is settled, passes begun and fires waiting are the notifications, in order, and with control back at the top all have been delivered |
| `DeferredProgress.NotificationIsHeard` | projects/wwwroot/libs/jquery.js:3186-3253 | All callbacks registered for progress before a notification have then been called in its pass, in order and with its data |
| `DeferredProgress.LateRegistrationHears` | projects/wwwroot/libs/jquery.js:3186-3244 | Before and after the settlement, a callback registered for progress after notifications is called at once with the last one delivered |
| `Deferred.RecordKeeps` | projects/wwwroot/libs/jquery.js:3180-3253 | Every call of the user, at top level or from a callback, keeps the three lists and the state consistent |
| `Deferred.TickKeeps` | projects/wwwroot/libs/jquery.js:3239-3244 | So does every one of the three functions that Deferred puts on its own lists |
| `When.Joint.constructor` | projects/wwwroot/libs/jquery.js:3268-3314 | After the loop exactly the arguments neither plain nor already resolved are open, and the slots of the others hold their contexts and values |
| `When.Joint.AttachAll` | projects/wwwroot/libs/jquery.js:3295-3309 | The loop cannot complete the count early, with arguments that are resolved, rejected or plain values when looked at |
| `When.Joint.Attach` | projects/wwwroot/libs/jquery.js:3300-3307 | One argument: a listener, an immediate resolution or rejection, or a plain value |
| `When.Joint.AttachNext` | projects/wwwroot/libs/jquery.js:3299-3308 | One turn of the loop over the arguments |
| `When.Joint.CountPlain` | projects/wwwroot/libs/jquery.js:3305-3307 | A plain value is counted as resolved |
| `When.Joint.FillSlot` | projects/wwwroot/libs/jquery.js:3281-3286 | The assignments of a resolution to its slot, and the count |
| `When.Joint.UpdateValue` | projects/wwwroot/libs/jquery.js:3280-3290 | A resolution fills its slot; the master is asked to resolve with it exactly when it was the last open one |
| `When.Joint.Fail` | projects/wwwroot/libs/jquery.js:3303 | A rejection is passed to the master |
| `When.Joint.ResolveIfComplete` | projects/wwwroot/libs/jquery.js:3311-3314 | With nothing to wait for the master is asked to resolve at once |
| `When.MasterOutcome` | projects/wwwroot/libs/jquery.js:3268-3317 | The master resolves just when every argument is plain or resolved, context and value i in slot i; otherwise the first rejection wins, and without one it stays pending |
| `When.SettleNext` | projects/wwwroot/libs/jquery.js:3280-3304 | One waiting argument settles and the account of slots and reasons follows |
| `When.RunWhen` | projects/wwwroot/libs/jquery.js:3268-3317 | In every run, a call of `when` and its waiting arguments settling once each in any order, the master is rejected with the first rejection if there is one, resolved if all arguments are plain or resolved, and pending otherwise; slot i then has a plain argument as it is and no context, and for a promise the context it resolved with and nothing, the one argument or the array of all arguments it resolved with |
| `FxQueue.EffectsQueue.Push` | projects/wwwroot/libs/jquery.js:3902-3918 | A function goes to the end of the queue |
| `FxQueue.EffectsQueue.Dequeue` | projects/wwwroot/libs/jquery.js:3921-3954 | The next function is started and the sentinel put before the rest, or the queue is removed; functions start in the order of enqueueing, each once |
| `FxQueue.EffectsQueue.Enqueue` | projects/wwwroot/libs/jquery.js:3982-3993 | An idle queue starts at once; the sentinel is at the head and nowhere else |
| `FxQueue.EffectsQueue.MoveToFront` | projects/wwwroot/libs/jquery-ui.js:10815-10819 | The splice moves exactly the functions just queued behind the sentinel, in order |
| `FxQueue.EffectsQueue.Bounce` | projects/wwwroot/libs/jquery-ui.js:10740-10819 | Bounce queues its functions and moves them before all that waited |
| `FxQueue.EffectsQueue.Pulsate` | projects/wwwroot/libs/jquery-ui.js:11553-11588 | So does pulsate |
| `FxQueue.EffectsQueue.Shake` | projects/wwwroot/libs/jquery-ui.js:11613-11658 | So does shake |
| `FxQueue.JumpConserves` | projects/wwwroot/libs/jquery-ui.js:10815-10819 | Started and waiting functions are those of before and those queued by the effect, none lost or doubled |
| `Calendar.DateParts` | projects/wwwroot/libs/jquery-ui.js:5022-5025 | Year, month and day read back from a date are those it was made from |
| `Calendar.PartsDate` | projects/wwwroot/libs/jquery-ui.js:5022-5025 | Every day is the day of its parts |
| `Calendar.Epoch` | projects/wwwroot/libs/jquery-ui.js:4842-4849 | Days are counted from Thursday 1 January 1970, and 400 years are 146097 days |
| `Datepicker.DaysInMonthIsLength` | projects/wwwroot/libs/jquery-ui.js:5677-5679 | 32 minus the day that the 32nd becomes is the length of the month, for every year and month |
| `Datepicker.RoundsToDays` | projects/wwwroot/libs/jquery-ui.js:5127 | Rounding a difference of midnights gives the days between them exactly when the clocks moved by less than 12 hours (12 back included) |
| `Datepicker.Iso8601Week` | projects/wwwroot/libs/jquery-ui.js:4839-4850 | The method computes the week number of section 2.2.10 of ISO 8601:2004 |
| `Datepicker.WeekNumberCounts` | projects/wwwroot/libs/jquery-ui.js:4849 | That number is one more than the Thursdays of the year before the one of the week |
| `Datepicker.WeekIsConstant` | projects/wwwroot/libs/jquery-ui.js:4842-4844 | It is the same from Monday to Sunday |
| `Datepicker.WeekNumberInRange` | projects/wwwroot/libs/jquery-ui.js:4849 | It lies in 1 to 53 |
| `Datepicker.FormattedDayOfYearIs` | projects/wwwroot/libs/jquery-ui.js:5125-5128 | What is printed for `o` is the day of the year, except after February of the year 0, which the constructor takes for 1900 |
| `Datepicker.FirstOfMarch0` | projects/wwwroot/libs/jquery-ui.js:5125-5128 | On 1 March of the year 0 it prints 60 instead of 61 |
| `Datepicker.FromDayOfYear` | projects/wwwroot/libs/jquery-ui.js:5009-5021 | The loop ends for every number, on a day that its month has and that is the day of the year asked for |
| `Datepicker.DayOfYearInverts` | projects/wwwroot/libs/jquery-ui.js:5009-5021 | It recovers the month and day whose day of the year it was given |
| `MonthGrid.RowsInRange` | projects/wwwroot/libs/jquery-ui.js:5506-5507 | A month needs 4 to 6 rows, the least that hold its lead and its days |
| `MonthGrid.DrawGrid` | projects/wwwroot/libs/jquery-ui.js:5506-5543 | The loops fill the rows with consecutive days from the lead on |
| `MonthGrid.CellWeekday` | projects/wwwroot/libs/jquery-ui.js:5496-5510 | The weekday of a cell is that of its column header |
| `MonthGrid.CellMonth` | projects/wwwroot/libs/jquery-ui.js:5506-5541 | Exactly the cells from the lead on, as many as the month has days, are in the month, and in order; all others are marked as another month |
| `MonthGrid.EachDayHasOneCell` | projects/wwwroot/libs/jquery-ui.js:5511-5543 | Each day of the month has exactly one cell |
| `MonthGrid.PullBack` | projects/wwwroot/libs/jquery-ui.js:5411-5417 | The loop ends on the latest month, not after the one asked for, that starts no later than the limit |
| `MonthGrid.MonthStartsBy` | projects/wwwroot/libs/jquery-ui.js:5411 | A month, in a year that has not one or two digits, starts by a day exactly when it is not later than the month of that day |
| `MonthGrid.PulledBackTo` | projects/wwwroot/libs/jquery-ui.js:5411-5417 | What the loop ends on, for years of three digits and more, is the month asked for or that of the limit, whichever is earlier |
| `MonthGrid.EarlyMonthsStart` | projects/wwwroot/libs/jquery-ui.js:5411 | Early enough months start by any limit, which is why the loop ends |
| `MonthGrid.LimitMonth` | projects/wwwroot/libs/jquery-ui.js:5408-5410 | With several months the limit lies that many months before the maximum exactly when the earlier month has its day and its year has more than two digits; otherwise it overflows |
| `MonthGrid.MinimumHolds` | projects/wwwroot/libs/jquery-ui.js:5408-5410 | With a minimum date the limit is no earlier, and its month the later of that of the minimum and the one without a minimum |
| `MonthGrid.EndOfMarchOverflows` | projects/wwwroot/libs/jquery-ui.js:5408-5410 | With two months up to 31 March 2015 the limit stays in March |
| `DateFormat.WriteNumber` | projects/wwwroot/libs/jquery-ui.js:5093-5101 | Zeros are put in front up to the width of a doubled letter |
| `DateFormat.WriteItem` | projects/wwwroot/libs/jquery-ui.js:5110-5156 | One turn of the printing loop, with quotes, doubled quotes and doubled letters |
| `DateFormat.FormatDate` | projects/wwwroot/libs/jquery-ui.js:5074-5159 | The loop prints the items of the format side by side |
| `DateFormat.GetNumber` | projects/wwwroot/libs/jquery-ui.js:4899-4911 | The longest run of digits within the width is read, and a shorter one than the least width refused |
| `DateFormat.GetName` | projects/wwwroot/libs/jquery-ui.js:4913-4934 | The longest name that the text starts with, letters compared without case, is read |
| `DateFormat.SortByLength` | projects/wwwroot/libs/jquery-ui.js:4915-4919 | The indices are put in order of decreasing length |
| `DateFormat.ParseItem` | projects/wwwroot/libs/jquery-ui.js:4943-4993 | One turn of the parsing loop: what is read, where, and into which field |
| `DateFormat.YearDayResolves` | projects/wwwroot/libs/jquery-ui.js:5009-5025 | With a day of the year the final check passes exactly when the year has that many days |
| `DateFormat.ParseDate` | projects/wwwroot/libs/jquery-ui.js:4865-5027 | The parser reads the items of the format one by one, refuses left-over text unless it starts with white space, and makes the date of what it read |
| `DateParsing.SingleLetter` | projects/wwwroot/libs/jquery-ui.js:5110-5156 | What each letter prints: d, m, o, y, D and M their fields, any other character itself |
| `DateParsing.DoubledLetter` | projects/wwwroot/libs/jquery-ui.js:5110-5156 | What each doubled letter prints: two or three digits, the whole year, the long names |
| `DateParsing.DoubledQuote` | projects/wwwroot/libs/jquery-ui.js:5144-5150 | A doubled quote prints a quote |
| `DateParsing.QuotedText` | projects/wwwroot/libs/jquery-ui.js:5110-5117 | Text in quotes prints itself |
| `DateParsing.NumbersPrint` | projects/wwwroot/libs/jquery-ui.js:5093-5101 | Numbers are printed in decimal digits, filled with zeros to two or three |
| `DateParsing.FirstOf2000` | projects/wwwroot/libs/jquery-ui.js:5103-5106 | 1 January 2000 is printed as the seventh name of a day, Saturday |
| `DateParsing.ItemReads` | projects/wwwroot/libs/jquery-ui.js:4899-4941 | An item is read as the longest piece at the front of the text that fits it, digits within its width or a name in any letter case, and refused exactly when none does |
| `DateParsing.ReadTextFits` | projects/wwwroot/libs/jquery-ui.js:4943-4993 | Whatever is read is made of pieces that fit the items, side by side, and the last piece of each kind is its field |
| `DateParsing.MonthAndDay` | projects/wwwroot/libs/jquery-ui.js:5002-5026 | Without a day of the year the text is accepted exactly when the month has the day, in a year that has not one or two digits, and gives that date; otherwise it is an invalid date |
| `DateParsing.DayInYear` | projects/wwwroot/libs/jquery-ui.js:5009-5026 | With one it is accepted exactly when the year has that many days, and gives that date |
| `DateParsing.CharactersBehind` | projects/wwwroot/libs/jquery-ui.js:4995-5000 | A visible character of ASCII behind the date is refused, white space is not |
| `DateRoundTrip.NameIsRead` | projects/wwwroot/libs/jquery-ui.js:4913-4934 | Names of a table prefix-free without case are read as themselves, whatever follows |
| `DateRoundTrip.YearIsRead` | projects/wwwroot/libs/jquery-ui.js:5135-5137 | A year field is read as the year it stands for exactly when the year has four digits, or for `y` is from 1900 on or a century |
| `DateRoundTrip.Year1899IsNotRead` | projects/wwwroot/libs/jquery-ui.js:5135-5137 | 1899 is printed as 0-1, which is refused |
| `DateRoundTrip.ItemIsRead` | projects/wwwroot/libs/jquery-ui.js:4943-4993 | Every field is read back as what it was printed for |
| `DateRoundTrip.ScanRecovers` | projects/wwwroot/libs/jquery-ui.js:4943-4993 | Parsing a printed date finds every field where it was printed |
| `DateRoundTrip.WindowIsMeant` | projects/wwwroot/libs/jquery-ui.js:5002-5007 | Two digits mean the year exactly when it is in the 100 years that the cutoff sets |
| `DateRoundTrip.ResolveIs` | projects/wwwroot/libs/jquery-ui.js:5002-5026 | The right fields make the right date, and a wrong year never does |
| `DateRoundTrip.RoundTrip` | projects/wwwroot/libs/jquery-ui.js:4865-5159 | For every format that determines the date, parsing the printed date gives it back exactly when the format says the year: four digits, two digits within the window, or no year in that year itself |
| `DateRoundTrip.FixedWidthIsSeparated` | projects/wwwroot/libs/jquery-ui.js:5093-5101 | In formats of dd, mm, oo, yy, y, names and literals no number can run into another, whatever the date |
| `DateRoundTrip.FixedWidthRoundTrip` | projects/wwwroot/libs/jquery-ui.js:4865-5159 | For these formats the round trip needs nothing of the printed text |
| `UriEncoding.FrontDecodes` | projects/wwwroot/libs/js.cookie.js:93 | Decoding octets undoes encoding a character, whatever octets follow |
| `UriEncoding.OctetsOfText` | projects/wwwroot/libs/js.cookie.js:93 | Decoding a run of escapes succeeds exactly for the UTF-8 of a text, without long forms or surrogates, and gives that text |
| `UriEncoding.DecodeEncoded` | projects/wwwroot/libs/js.cookie.js:88-103 | Replacing each run of escapes by its decoding gives back what was encoded, whatever was kept besides the percent sign |
| `UriEncoding.OtherTextStays` | projects/wwwroot/libs/js.cookie.js:88 | Text without escapes in digits and capitals is left as it is |
| `UriEncoding.UnescapeKeeps` | projects/wwwroot/libs/js.cookie.js:59-66 | Undoing some escapes after encoding all is to keep those characters: nothing else can look like their escapes |
| `UriEncoding.ParenthesesAreEscaped` | projects/wwwroot/libs/js.cookie.js:67 | Escaping parentheses last is not to keep them |
| `Cookies.WrittenAlphabet` | projects/wwwroot/libs/js.cookie.js:58-67 | Keys are written as tokens and values with the cookie-octets of section 4.1.1 of RFC 6265 only |
| `Cookies.WrittenPlain` | projects/wwwroot/libs/js.cookie.js:59-67 | In a key exactly the characters of tokens, and in a value exactly the cookie octets, are written as they are, apart from the percent sign |
| `Cookies.WrittenSideBySide` | projects/wwwroot/libs/js.cookie.js:59-67 | Keys and values are written character by character |
| `Cookies.WrittenDecodes` | projects/wwwroot/libs/js.cookie.js:58-67 | What was written decodes to what was meant |
| `Cookies.SplitJoin` | projects/wwwroot/libs/js.cookie.js:87 | Splitting the text at "; " recovers the cookies |
| `Cookies.PieceParts` | projects/wwwroot/libs/js.cookie.js:92-94 | Splitting a cookie at its first equals sign recovers name and value |
| `Cookies.Set` | projects/wwwroot/libs/js.cookie.js:58-75 | Setting a key stores one cookie with the written key and value, and touches no other |
| `Cookies.Document.Assign` | projects/wwwroot/libs/js.cookie.js:69-75 | The browser keeps the pair before the attributes, in place of one with the same name |
| `Cookies.Get` | projects/wwwroot/libs/js.cookie.js:80-122 | The loop answers with the first cookie of the name that can be decoded, or with all; a name that cannot be decoded throws |
| `CookieStore.SetUpdates` | projects/wwwroot/libs/js.cookie.js:58-75 | Setting a key updates the map of what was set at that key and nowhere else |
| `CookieStore.GetReads` | projects/wwwroot/libs/js.cookie.js:80-122 | Getting a key reads that map, and getting without a key returns it |
| `CookieStore.QuotedIsRead` | projects/wwwroot/libs/js.cookie.js:96-103 | Of a value that begins with a double quote the first and the last character are dropped, whatever the last is |
| `CookieStore.GetAllReads` | projects/wwwroot/libs/js.cookie.js:80-122 | Without a key a get of what any scripts have set throws exactly when some name cannot be decoded, and otherwise answers with each name that can be read and its last value |
| `CookieStore.SetKeepsOthers` | projects/wwwroot/libs/js.cookie.js:58-122 | Whatever else the browser keeps, setting one key changes nothing of what a get of another answers |
| `CookieStore.SetThenGet` | projects/wwwroot/libs/js.cookie.js:58-122 | A get of the key just set answers its value when no cookie before it has a name that cannot be decoded, or another spelling of the key with a value that can; otherwise the first of those throws or answers |
| `CookieStore.AnsweredIsFound` | projects/wwwroot/libs/js.cookie.js:87-122 | A get answers from the text what a search of the cookies finds |
| `CookieStore.FoundIsFirstStop` | projects/wwwroot/libs/js.cookie.js:91-120 | A get answers, or throws, at the first cookie whose name cannot be decoded or is a spelling of the key with a value that can be decoded; without one it answers undefined |
| `CookieStore.AssigningKeepsStorable` | projects/wwwroot/libs/js.cookie.js:69-75 | The browser keeps no separators, whatever it is assigned |
| `CookieStore.OtherSpellingHides` | projects/wwwroot/libs/js.cookie.js:91-114 | Such a cookie exists: one named %61 hides what is set under "a" |
| `CookieStore.UndecodableNameThrows` | projects/wwwroot/libs/js.cookie.js:93 | An earlier cookie named %ZZ makes the get throw |
| `Debounce.ThrottleThrottles` | projects/wwwroot/libs/cytoscape-qtip.js:15-31 | `throttle` is `debounce` with `maxWait` equal to `wait`, also for a negative one |
| `DebounceEnds.OptionsAreKept` | projects/wwwroot/libs/cytoscape-qtip.js:33-56 | Options in range are kept as they are given |
| `Debounce.RunKeepsInv` | projects/wwwroot/libs/cytoscape-qtip.js:33-131 | In every run the pending timers are those the closure remembers, one of each kind at most, the short one due by `wait` after the last call and the long one exactly at `lastCalled + maxWait` |
| `DebounceRuns.FewTimers` | projects/wwwroot/libs/cytoscape-qtip.js:57-131 | At most one timer is pending without `maxWait` or when throttling, and two otherwise |
| `DebounceRuns.ThrottleSpaces` | projects/wwwroot/libs/cytoscape-qtip.js:77-131 | Two invocations of a throttled function are at least `wait` apart in every run, late timers included |
| `DebounceRuns.EveryCallIsAnswered` | projects/wwwroot/libs/cytoscape-qtip.js:57-131 | With trailing on and prompt timers every call is followed within `maxWait` by an invocation with arguments at least as recent, when throttling or without leading |
| `DebounceRuns.DropsExactlyWhen` | projects/wwwroot/libs/cytoscape-qtip.js:57-131 | With trailing on, a call can be dropped exactly when leading is on and `maxWait` is longer than `wait` |
| `DebounceRuns.LostAfterShort` | projects/wwwroot/libs/cytoscape-qtip.js:57-75 | After the short timer has run out: the next call sets both timers but no trailing call, and is dropped |
| `DebounceRuns.LostAfterLong` | projects/wwwroot/libs/cytoscape-qtip.js:77-89 | The same after the long timer |
| `DebounceRuns.BurstInvokes` | projects/wwwroot/libs/cytoscape-qtip.js:57-131 | A burst without `maxWait` invokes for its first call when leading, and for its last when trailing and not yet done, at least `wait` after it and exactly then with prompt timers |
| `DebounceEnds.QuietEnd` | projects/wwwroot/libs/cytoscape-qtip.js:57-89 | When no call follows and the timers are prompt, exactly these invocations come: the trailing one `wait` after the last call if the short timer is first, that of the long timer if it runs out before |
| `DebounceEnds.LastCallIsAnswered` | projects/wwwroot/libs/cytoscape-qtip.js:57-131 | With trailing on and leading off the last call is answered exactly once, `wait` after it or when the long timer runs out, whichever is first |
| `DebounceEnds.ArgumentsAreGivenUp` | projects/wwwroot/libs/cytoscape-qtip.js:57-131 | After an invocation with no timer pending the arguments are given up, and kept as long as one is |
| `DebounceEnds.MaxWaitPaces` | projects/wwwroot/libs/cytoscape-qtip.js:57-131 | In every run with a `maxWait` an invocation comes at least that long after the one before, unless it is that of the short timer |
| `DebounceAnswers.NoCallTwice` | projects/wwwroot/libs/cytoscape-qtip.js:57-131 | In every run, late timers included, every invocation answers a call, answers come in the order of the calls, and no call is answered twice |
| `DebounceAnswers.FirstCall` | projects/wwwroot/libs/cytoscape-qtip.js:91-131 | The first call is answered at once exactly with leading on or a `maxWait` of 0, once the clock has come as far as `maxWait` |
| `Debounced.Wrapper.constructor` | projects/wwwroot/libs/cytoscape-qtip.js:33-56 | `wait` and `maxWait` are clamped, and nothing is pending |
| `Debounced.Wrapper.AskMaxWait` | projects/wwwroot/libs/cytoscape-qtip.js:99-116 | The part of a call that looks at `maxWait`, as in the machine |
| `Debounced.Wrapper.AskWait` | projects/wwwroot/libs/cytoscape-qtip.js:117-122 | The part of a call that looks at the short timer |
| `Debounced.Wrapper.Call` | projects/wwwroot/libs/cytoscape-qtip.js:91-131 | A call of the wrapper, as in the machine |
| `Debounced.Wrapper.DelayedTimer` | projects/wwwroot/libs/cytoscape-qtip.js:57-75 | The short timer, as in the machine |
| `Debounced.Wrapper.MaxDelayedTimer` | projects/wwwroot/libs/cytoscape-qtip.js:77-89 | The long timer, as in the machine |
| `Debounced.Wrapper.Fired` | projects/wwwroot/libs/cytoscape-qtip.js:57-89 | The page runs the callback of the timer that is due |

## Left out

- The scripts of Batfish itself (`projects/wwwroot/scripts`), `jszip-utils.js`, `jquery.spin.js` and `jquery.dialogextend.js`: requests, constants and styling.
- Tokenizing selectors, `toSelector` and the three caches keyed by selector text (`createCache`): a selector is its list of tokens.
- Positional set matchers, nested `:not` and `:has`, and lists of contexts: the shared run counters are only right for an outermost run.
- Native `querySelectorAll`, `matchesSelector` and `compareDocumentPosition`, `sourceIndex` and the branches for old browsers.
- Nodes outside the document tree, in the comparator and in sorting.
- The sort of the engine in `uniqueSort`, represented by its outcome.
- Exceptions thrown by callbacks, and `empty()` in the middle of a pass.
- `then`, `pipe` and the progress values of `when`; `when` with fewer than two arguments.
- `stop`, `clearQueue` and `delay`, queues other than "fx", and replacing a queue by an array.
- The animations that effects queue: a queued function is a number.
- HTML text of the datepicker, the choice of the month asked for, and all other widgets of jQuery UI.
- Time zones beyond one clock shift, the range limits of ECMAScript dates, and times of day.
- Characters beyond the Basic Multilingual Plane in date formats count as one character, and lower-casing works on single characters.
- Values that are not strings (`JSON.stringify`, `getJSON`), custom converters, cookie attributes, expiry and `remove`; blank keys are ignored by the browser.
- Wrapped functions that call their own debounced wrapper, their results and `this`, and a `maxWait` that is not a number.
- DateFormat.FormatDate: not for the letters `@` and `!` outside quotes, which print time stamps and need times of day; the parser also reads `@@` as one letter where the printer prints two.
- DateFormat.ParseDate: not for these letters either.
- DateFormat.WriteItem: the same for one turn of the loop.
- DateFormat.ParseItem: the same for one turn of the loop.
- DateRoundTrip.RoundTrip: for name tables that are prefix-free without case, formats in which no number shorter than it may be is followed by a digit, and years from 100 on that the year fields can print; other texts can be read as something else.
- CallbackPasses.PassCallsEachOnce: for passes without `empty`.
- CallbackDelivery.FireIsHeard: for lists without removals, locks, disabling and early stops, whose effect on a pass is that of `CallbackPasses.PassCallsEachOnce`.
- CallbackPasses.FiresAreDeliveredInOrder: for lists that still queue fires, so never locked or disabled.
- DebounceRuns.EveryCallIsAnswered: the other combinations of options are those of `DebounceRuns.DropsExactlyWhen`.
