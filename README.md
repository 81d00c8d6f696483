# Compendium browser filter engine, in Dafny

This project models the compendium browser of the Pathfinder Second Edition system for Foundry VTT, along with a few small cores of the same system. It proves properties of the model.

The compendium browser is split into several parts:

- **Tab builders.** Each tab (actions, bestiary, campaign features, equipment, feats, hazards, spells) reads the index records of the compendium packs. It skips records that lack required fields, turns each remaining record into an entry tagged with `family:value` strings, and collects the publications it met. Each tab's builder is a function from one record to an outcome: ignored, skipped, indexed or thrown. The tab's `loadData` loop is a method proved against that function.
- **Filters.** A filter is one of seven closed variants (`BrowserFilter`) made of checkbox, chip, trait, select, range, level and order groups.
- **The filter compiler.** It turns a filter into one top-level conjunction of predicate statements. It is a method over loops (`Compiler.BuildPredicate`), proved against a specification function whose meaning is proved facet by facet.
- **Result list.** Candidates are sorted with the comparator of `sortResult`, then filtered by the compiled predicate.
- **Lifecycle.** A tab (`TabBase.CompendiumTab`) and the browser (`Browser.CompendiumBrowser`) are classes. Their fields change in place: initialisation, opening and visibility of tabs, resets, and the per-tab pack settings with their three-level load-flag fallback.

The smaller cores are:

- the effect badge counter and duration normalisation, with increase, decrease and the pre-update rules (`Effect`);
- damage-die stepping, damage categories and the damage term tree helpers (`Damage`);
- the ruler's difficult-terrain cost function and its caches (`Ruler`);
- the choice of an aura's wall-restriction type (`Aura`);
- the feat-limits migration 0.717 (`Migration717`).

Numbers are unbounded integers. JavaScript's `undefined`, `null` and present values are kept apart by `Wrappers.JsValue`, and an unbounded limit is `Wrappers.Limit.Infinity`.

Libraries that the code calls but does not define are parameters of the model: collation, slugs, localisation and the search engine. These parameters are collected in an `Env` value.

**Modelling assumption.** The predicate evaluator the compiled statements are handed to is not part of this model. `Predication.Test` gives the statement forms a plain set-membership meaning:

- a leaf holds when the entry has that tag;
- `and`, `or` and `not` mean what they say;
- `gte`/`lte` hold when some `key:<integer>` tag is in range.

Every "meaning" lemma about compiled predicates is relative to this assumption.

The places where the code does not do what it evidently means to are listed under "## Findings" below. Each has a model of the code as written and a corrected model.

## Model

| member | source | states |
|---|---|---|
| ActionTab.Image | src/module/apps/compendium-browser/tabs/action.ts:55-56 | a passive action shows the passive action icon; any other action keeps its own image |
| ActionTab.Build | src/module/apps/compendium-browser/tabs/action.ts:45-81 | what the tab makes of one item record; its outcomes are stated by ActionTab.BuildOutcome and its tags by ActionTab.TypeAndCategoryTags and ActionTab.TraitAndSourceTags |
| ActionTab.BuildOutcome | src/module/apps/compendium-browser/tabs/action.ts:45-81 | non-action items are ignored; an action missing a checked field is skipped; one whose trait list is not an array aborts the load; an indexed action has no level, rank or rarity, and its image follows the passive rule |
| ActionTab.TypeAndCategoryTags | src/module/apps/compendium-browser/tabs/action.ts:57-72 | an action has exactly one `action-type:` tag and one `category:` tag, with the record's values, and always the `type:action` tag |
| ActionTab.TraitAndSourceTags | src/module/apps/compendium-browser/tabs/action.ts:59-69 | the `trait:` tags are exactly the traits with a leading `hb_` removed; a `source:` tag is present exactly when the trimmed publication string is not empty, and it is that string's slug |
| ActionTab.CategoryOptionsFamiliarOnly | src/module/apps/compendium-browser/tabs/action.ts:90-92 | the category chips offer only `familiar`, and offer it exactly when the configured categories contain it |
| ActionTab.OptionLists | src/module/apps/compendium-browser/tabs/action.ts:88-93 | the trait, action-type, category and source option lists, from the configuration tables and the collected publications; ActionTab.CategoryOptionsFamiliarOnly and ActionTab.WithOptionsIdempotent state them |
| ActionTab.WithOptions | src/module/apps/compendium-browser/tabs/action.ts:88-93 | assigning the option lists keeps the filter an action filter; what is assigned is stated by ActionTab.WithOptionsIdempotent |
| ActionTab.WithOptionsIdempotent | src/module/apps/compendium-browser/tabs/action.ts:88-93 | the trait, type, category and source lists are the ones ActionTab.OptionLists computes; assigning them twice equals assigning them once; the selections, the order and the search text are kept |
| ActionTab.Defaults | src/module/apps/compendium-browser/tabs/action.ts:98-140 | the default filter sorts by name ascending, offers only the name order, and prefixes the action-type chips with `action-type` |
| ActionTab.DefaultsArePristine | src/module/apps/compendium-browser/tabs/action.ts:98-140 | the default filter selects nothing, so it compiles to no statements |
| BestiaryTab.CheckedFieldsSuffice | src/module/apps/compendium-browser/tabs/bestiary.ts:12-47 | the checked field list can fail only on the image, the level and the traits; the two source paths never make an actor fail |
| BestiaryTab.Build | src/module/apps/compendium-browser/tabs/bestiary.ts:46-82 | what the tab makes of one actor record; its outcomes are stated by BestiaryTab.BuildOutcome and its tags by BestiaryTab.SizeTag, BestiaryTab.TraitTag and BestiaryTab.SourceLevelRarityTags |
| BestiaryTab.BuildOutcome | src/module/apps/compendium-browser/tabs/bestiary.ts:46-82 | non-NPC actors are ignored; an NPC missing a checked field is skipped; one without a trait array or a size aborts the load; an indexed NPC keeps its level and rarity |
| BestiaryTab.SizeTag | src/module/apps/compendium-browser/tabs/bestiary.ts:70 | an NPC has exactly one `size:` tag, its size value |
| BestiaryTab.TraitTag | src/module/apps/compendium-browser/tabs/bestiary.ts:64-66 | the `trait:` tags are exactly the traits with a leading `hb_` removed |
| BestiaryTab.SourceLevelRarityTags | src/module/apps/compendium-browser/tabs/bestiary.ts:56-71 | the source is tagged exactly when its trimmed string is not empty; the level, the rarity and the type are always tagged, each with the record's value |
| BestiaryTab.OptionOrder | src/module/apps/compendium-browser/tabs/bestiary.ts:90-93 | the rarity options keep the table's order; every size option's value is a size key, which the `size` prefix turns into a size tag |
| BestiaryTab.OptionLists | src/module/apps/compendium-browser/tabs/bestiary.ts:89-93 | the size, rarity (unsorted), creature-trait and source option lists; BestiaryTab.OptionOrder and BestiaryTab.WithOptionsIdempotent state them |
| BestiaryTab.WithOptions | src/module/apps/compendium-browser/tabs/bestiary.ts:89-93 | assigning the option lists keeps the filter a bestiary filter; what is assigned is stated by BestiaryTab.WithOptionsIdempotent |
| BestiaryTab.WithOptionsIdempotent | src/module/apps/compendium-browser/tabs/bestiary.ts:89-93 | the size, rarity, trait and source lists are the ones BestiaryTab.OptionLists computes; assigning them is idempotent and keeps the selections, the order, the search text and the level window |
| BestiaryTab.Defaults | src/module/apps/compendium-browser/tabs/bestiary.ts:98-149 | the default filter sorts by level ascending (an offered order), has the unchanged level window -1 to 25, prefixes the size chips with `size` and joins traits with `and` |
| BestiaryTab.DefaultsArePristine | src/module/apps/compendium-browser/tabs/bestiary.ts:98-149 | the default filter selects nothing and compiles to no statements |
| CampaignFeatureTab.TaggedLevel | src/module/apps/compendium-browser/tabs/campaign-feature.ts:64 | the level tag reads the record's level, and 0 when the level is missing or `null` |
| CampaignFeatureTab.Build | src/module/apps/compendium-browser/tabs/campaign-feature.ts:47-76 | what the tab makes of one item record; its outcomes are stated by CampaignFeatureTab.BuildOutcome and its tags by CampaignFeatureTab.LevelTag and CampaignFeatureTab.TraitCategoryRaritySourceTags |
| CampaignFeatureTab.BuildOutcome | src/module/apps/compendium-browser/tabs/campaign-feature.ts:47-76 | other items are ignored; no campaign feature is ever skipped, because there is no field check; one without a trait array aborts the load; an indexed feature keeps its level as the record has it, even when missing |
| CampaignFeatureTab.LevelTag | src/module/apps/compendium-browser/tabs/campaign-feature.ts:64 | every campaign feature has exactly one `level:` tag, for its level or 0, so a level window always has a number to test |
| CampaignFeatureTab.TraitCategoryRaritySourceTags | src/module/apps/compendium-browser/tabs/campaign-feature.ts:51-65 | the trait tags are the traits without `hb_`; the category and rarity tags are the record's values; the source tag is present exactly for a non-empty trimmed source |
| CampaignFeatureTab.RarityOptionsSorted | src/module/apps/compendium-browser/tabs/campaign-feature.ts:83-86 | the rarity options are sorted by label and are a permutation of the localized rarity table |
| CampaignFeatureTab.OptionLists | src/module/apps/compendium-browser/tabs/campaign-feature.ts:82-86 | the category, rarity, source and trait option lists; CampaignFeatureTab.RarityOptionsSorted and CampaignFeatureTab.WithOptionsIdempotent state them |
| CampaignFeatureTab.WithOptions | src/module/apps/compendium-browser/tabs/campaign-feature.ts:82-86 | assigning the option lists keeps the filter a campaign-feature filter; what is assigned is stated by CampaignFeatureTab.WithOptionsIdempotent |
| CampaignFeatureTab.WithOptionsIdempotent | src/module/apps/compendium-browser/tabs/campaign-feature.ts:82-86 | the trait, category, rarity and source lists are the ones CampaignFeatureTab.OptionLists computes; assigning them is idempotent and keeps the selections, the order, the search text and the level window |
| CampaignFeatureTab.Defaults | src/module/apps/compendium-browser/tabs/campaign-feature.ts:91-141 | the default filter sorts by level ascending, has the unchanged level window 0 to 20, collapses the category and rarity chips, and joins traits with `and` |
| CampaignFeatureTab.DefaultsArePristine | src/module/apps/compendium-browser/tabs/campaign-feature.ts:91-141 | the default filter selects nothing and compiles to no statements |
| Compiler.TagAll | src/module/apps/compendium-browser/tabs/base.svelte.ts:162 | each selected value becomes `prefix:value`, one tag per value, in order |
| Compiler.IncludedChips | src/module/apps/compendium-browser/tabs/base.svelte.ts:172 | the included chip values are exactly the selections not marked `exclude` |
| Compiler.ExcludedChips | src/module/apps/compendium-browser/tabs/base.svelte.ts:177 | the excluded chip values are exactly the selections marked `exclude` |
| Compiler.IncludedTraits | src/module/apps/compendium-browser/tabs/base.svelte.ts:220 | the included trait values are exactly the selections not marked `not` |
| Compiler.ExcludedTraits | src/module/apps/compendium-browser/tabs/base.svelte.ts:225 | the negated trait values are exactly the selections marked `not` |
| Compiler.PushGroups | src/module/apps/compendium-browser/tabs/base.svelte.ts:157-209 | the loop over one kind of facet group appends exactly the concatenation of each group's statements, in group order |
| Compiler.BuildPredicate | src/module/apps/compendium-browser/tabs/base.svelte.ts:151-231 | the statement list is pushed facet by facet (checkboxes, chips, level, ranges, selects, source, traits) and wrapped in one conjunction |
| Compiler.TestLeaves | src/module/apps/compendium-browser/tabs/base.svelte.ts:162-179 | a conjunction of tags holds when every tag is present; a disjunction holds when one is |
| Compiler.TestIncludeExclude | src/module/apps/compendium-browser/tabs/base.svelte.ts:172-180 | an include/exclude group holds when the included tags satisfy the conjunction and no excluded tag is present |
| Compiler.ChipStatementsMeaning | src/module/apps/compendium-browser/tabs/base.svelte.ts:166-182 | a chip group's statements hold exactly when no excluded value is tagged and the included values, if any, are all tagged (`and`) or one is (`or`) |
| Compiler.TraitStatementsMeaning | src/module/apps/compendium-browser/tabs/base.svelte.ts:218-229 | the same rule for traits, always under the `trait` prefix |
| Compiler.CheckboxStatementsMeaning | src/module/apps/compendium-browser/tabs/base.svelte.ts:157-164 | a checkbox group holds when every selected value is tagged under its prefix, which defaults to the group's key |
| Compiler.RangeStatementsMeaning | src/module/apps/compendium-browser/tabs/base.svelte.ts:191-200 | an unchanged range adds nothing; a changed one bounds its prefix from both sides |
| Compiler.LevelStatementsMeaning | src/module/apps/compendium-browser/tabs/base.svelte.ts:184-189 | the level slider filters only when moved away from its bounds, and then bounds the level from both sides |
| Compiler.SelectStatementsMeaning | src/module/apps/compendium-browser/tabs/base.svelte.ts:202-209 | a select with a value requires the tag `prefix:value`; an empty one adds nothing |
| Compiler.SourceStatementsMeaning | src/module/apps/compendium-browser/tabs/base.svelte.ts:211-216 | selected sources are alternatives: some selected source must be tagged |
| Compiler.ConcatMeaning | src/module/apps/compendium-browser/tabs/base.svelte.ts:157-209 | the concatenated statements of several groups hold exactly when each group's statements hold |
| Compiler.BuildPredicateMeaning | src/module/apps/compendium-browser/tabs/base.svelte.ts:151-231 | the compiled predicate holds of an entry's tags exactly when every facet of the filter holds |
| Compiler.FacetsMeaning | src/module/apps/compendium-browser/tabs/base.svelte.ts:151-231 | the statements of every facet list, joined in the order the builder appends them, hold exactly when each facet of each list holds |
| Compiler.PristineIffEmpty | src/module/apps/compendium-browser/tabs/base.svelte.ts:160-219 | a facet is skipped exactly when nothing is selected in it, so the conjunction is empty exactly for a filter with no selection |
| Compiler.ChipGroupNonEmpty | src/module/apps/compendium-browser/tabs/base.svelte.ts:170-180 | a chip group emits statements exactly when something is selected |
| Compiler.TraitGroupNonEmpty | src/module/apps/compendium-browser/tabs/base.svelte.ts:219-228 | a trait group emits statements exactly when something is selected |
| Compiler.ExcludeOnlyChips | src/module/apps/compendium-browser/tabs/base.svelte.ts:172-180 | a chip group whose selections are all excluded emits only the `not` statement |
| Compiler.NegateOnlyTraits | src/module/apps/compendium-browser/tabs/base.svelte.ts:220-228 | a trait group whose selections are all negated emits only the `not` statement |
| Compiler.LevelWindow | src/module/apps/compendium-browser/tabs/base.svelte.ts:184-189 | for an entry with one level tag, a moved slider keeps exactly the levels between `from` and `to`, both included |
| Options.OptionValue | src/module/apps/compendium-browser/tabs/base.svelte.ts:285-301 | an option is valued `prefix:key` when a non-empty prefix is given, and with the bare key otherwise |
| Options.GenerateOptions | src/module/apps/compendium-browser/tabs/base.svelte.ts:276-304 | one option per table entry; what each option is, and the label order when sorting, is stated by Options.GenerateOptionsSpec and Options.GenerateOptionsValues |
| Options.GenerateOptionsSpec | src/module/apps/compendium-browser/tabs/base.svelte.ts:276-304 | without sorting, option `i` is entry `i` of the table, with the localized label and the (prefixed) key; with sorting (the default) the list is a permutation of the localized options, sorted by label when the collation is a total preorder |
| Options.GenerateOptionsValues | src/module/apps/compendium-browser/tabs/base.svelte.ts:283-302 | every generated option is valued with a (prefixed) key of the table |
| Options.SourceCheckboxOptions | src/module/apps/compendium-browser/tabs/base.svelte.ts:308-312 | the publications in the order the engine's sort leaves them (`Env.sourceOrder`), each labelled with itself and valued `source:` plus its slug |
| Options.SourceCheckboxOptionsContents | src/module/apps/compendium-browser/tabs/base.svelte.ts:308-312 | as long as the engine's sort rearranges the publications, there is one option per publication, a publication is collected exactly when its option is listed, and every option is valued with its own publication's slug |
| Options.Pick | src/module/apps/compendium-browser/tabs/action.ts:91 | `R.pick` keeps only entries of the table whose key is listed |
| Options.PickHas | src/module/apps/compendium-browser/tabs/action.ts:91 | every listed key the table has is picked |
| Options.Omit | src/module/apps/compendium-browser/tabs/spell.ts:158 | `R.omit` keeps exactly the table's entries whose key is not listed |
| Options.Merge | src/module/apps/compendium-browser/tabs/equipment.ts:135-141 | an object spread has the keys of both tables, and the later table's label wins for a key both have |
| Options.ParseRangeFilterInput | src/module/apps/compendium-browser/tabs/base.svelte.ts:257-264 | each bound is `Number(input) \|\| 0` with `Number` read through the integer-valued parameter `Env.toNumber`, and the raw input strings are kept |
| Records.ShowString | src/module/apps/compendium-browser/tabs/action.ts:57-72 | interpolating a present string field gives its value |
| Records.ShowInt | src/module/apps/compendium-browser/tabs/bestiary.ts:68 | interpolating a present number gives its decimal digits |
| Records.NumericValue | src/module/apps/compendium-browser/tabs/base.svelte.ts:244-248 | in a subtraction `undefined` makes `NaN`, while `null` counts as 0 |
| Records.BaseEntry | src/module/apps/compendium-browser/tabs/action.ts:74-80 | an entry carries the name, original name, image, uuid and domains, and leaves the numeric fields undefined |
| Records.HasAllIndexFields | src/module/apps/compendium-browser/tabs/base.svelte.ts:322-329 | the check passes exactly when every listed field is defined or its path matches `.source`/`.publication` |
| Records.HasAllIndexFieldsFails | src/module/apps/compendium-browser/tabs/base.svelte.ts:322-329 | the check fails exactly when some field is missing and not exempt |
| Records.SourcePathsExempt | src/module/apps/compendium-browser/tabs/base.svelte.ts:324 | every source and publication path the tabs list is exempt from the check |
| Records.ExemptFieldsIrrelevant | src/module/apps/compendium-browser/tabs/base.svelte.ts:324 | adding exempt fields to the list never changes the verdict |
| Records.PubSource | src/module/apps/compendium-browser/tabs/action.ts:64 | the publication title, else the source value, else the empty string |
| Records.TagsMember | src/module/apps/compendium-browser/tabs/action.ts:53-72 | with colon-free families, a tag `family:value` is present exactly when its pair was added |
| Records.SourcePairs | src/module/apps/compendium-browser/tabs/action.ts:66-69 | there is a source tag exactly when the publication string is not empty, and it is that string's slug |
| Records.StripAll | src/module/apps/compendium-browser/tabs/action.ts:59-61 | every trait has a leading `hb_` removed, and nothing else changes |
| Records.TraitPairsMember | src/module/apps/compendium-browser/tabs/action.ts:59-61 | the trait tags are exactly the (stripped) traits |
| Records.AddUnique | src/module/apps/compendium-browser/tabs/action.ts:67 | adding to an insertion-ordered set keeps it free of duplicates and adds exactly that string |
| Records.LoadEntries | src/module/apps/compendium-browser/tabs/action.ts:39-82 | the loading loop runs every record of every pack, in order, through the tab's builder, and stops at the first exception |
| Records.LoadPack | src/module/apps/compendium-browser/tabs/action.ts:39-82 | the loop over one pack continues the load of the packs before it, record by record, and stops at the first exception |
| Records.CollectStopsAtThrow | src/module/apps/compendium-browser/tabs/action.ts:39-82 | once a record throws, the whole load rejects |
| Records.CollectAll | src/module/apps/compendium-browser/tabs/action.ts:39-85 | the load state after a list of records: the entries built, the publications and times reported (each once), or none when a record throws; Records.CollectAllMeaning and Records.CollectStopsAtThrow state it |
| Records.CollectAllMeaning | src/module/apps/compendium-browser/tabs/action.ts:39-85 | a load succeeds exactly when no record throws; the entries are exactly those built, and the publication and time sets are exactly the strings the records reported, each once |
| Results.SortResult | src/module/apps/compendium-browser/tabs/base.svelte.ts:234-254 | the corrected sort (see Findings) rearranges every entry and returns as many as it was given |
| Results.SortResultAsWritten | src/module/apps/compendium-browser/tabs/base.svelte.ts:234-254 | the sort as written returns as many entries as it was given |
| Results.CompareBy | src/module/apps/compendium-browser/tabs/base.svelte.ts:240-251 | corrected (see Findings, price order): names are collated; a numeric key compares the entry's own number, the price included, with the name as the tie-break; an unknown key compares equal; Results.ComparatorTotal, Results.LevelOrder and Results.UnknownKeyKeepsOrder state it |
| Results.CompareByAsWritten | src/module/apps/compendium-browser/tabs/base.svelte.ts:245-246 | as written, the price key compares two `undefined` values, so the name alone decides; Results.PriceOrderAsWrittenIsNameOrder states it |
| Results.Comparator | src/module/apps/compendium-browser/tabs/base.svelte.ts:239-251 | the corrected comparator as the function value the sort is given |
| Results.SortResultInPlace | src/module/apps/compendium-browser/tabs/base.svelte.ts:239-253 | `result.sort(...)` and then `reverse()` for a descending order leave the array holding the corrected sort of its old contents |
| Results.SortResultPermutes | src/module/apps/compendium-browser/tabs/base.svelte.ts:239-253 | the sort is a permutation of the entries |
| Results.ComparatorTotal | src/module/apps/compendium-browser/tabs/base.svelte.ts:240-251 | with a collation that is a total preorder, the comparator totally preorders the entries that carry the key: the key first, the name on a tie |
| Results.SortResultOrdered | src/module/apps/compendium-browser/tabs/base.svelte.ts:239-253 | entries that all carry the key come out in ascending key-then-name order, and a descending order lists them back to front |
| Results.LevelOrder | src/module/apps/compendium-browser/tabs/base.svelte.ts:243-244 | in an ascending level order a lower level comes first, and equal levels come in name order |
| Results.DescendingReversesAscending | src/module/apps/compendium-browser/tabs/base.svelte.ts:253 | the descending order is exactly the ascending order reversed |
| Results.UnknownKeyKeepsOrder | src/module/apps/compendium-browser/tabs/base.svelte.ts:249-250 | a key the comparator does not know compares every pair equal, so the entries keep their order (or are reversed for a descending order) |
| Results.PriceOrderAsWrittenIsNameOrder | src/module/apps/compendium-browser/tabs/base.svelte.ts:245-246 | as written, the price key reads a field no entry has, so it sorts by name only |
| Results.PriceOrderCounterexample | src/module/apps/compendium-browser/tabs/base.svelte.ts:245-246 | an item of 1 cp named "b" and one of 100 cp named "a": as written the dearer item comes first in ascending price order, and with the fix the cheaper one does |
| Results.FilterMeaning | src/module/apps/compendium-browser/tabs/base.svelte.ts:31 | the filter keeps, in order, exactly the entries whose domains satisfy the predicate |
| Results.Filter | src/module/apps/compendium-browser/tabs/base.svelte.ts:31 | the entries whose tags pass the predicate, in order; Results.FilterMeaning states it |
| Results.ResultListMeaning | src/module/apps/compendium-browser/tabs/base.svelte.ts:25-32 | no filter data gives no results; otherwise the results are the candidates (the search hits for a non-empty query, else the index) that match every facet, in sorted order |
| Results.ResultList | src/module/apps/compendium-browser/tabs/base.svelte.ts:25-32 | corrected (see Findings, price order): nothing without filter data, else the sorted candidates that pass the compiled predicate; Results.ResultListMeaning states it; used by TabBase.CompendiumTab.ResultList |
| Results.ProcessTerm | src/module/apps/compendium-browser/tabs/base.svelte.ts:94-103 | a term of at most one character or a stop word is dropped; every kept segment is longer than one character and has no quotes |
| Results.CleanAll | src/module/apps/compendium-browser/tabs/base.svelte.ts:98-101 | one result per segment, in order: the segment passed through the `lower` parameter (`toLocaleLowerCase` in the game's language) and then through `cleanQuery` |
| Results.StripQuotes | src/module/apps/compendium-browser/tabs/base.svelte.ts:100 | `replace(/['"]/g, "")` removes exactly the quote characters |
| Results.KeepLong | src/module/apps/compendium-browser/tabs/base.svelte.ts:102 | exactly the segments longer than one character are kept |
| Sorting.InsertionSort | src/module/apps/compendium-browser/tabs/base.svelte.ts:239 | a stable insertion sort, which is the order `Array.prototype.sort` gives under a consistent comparator, returns as many elements as it was given |
| Sorting.SortPermutes | src/module/apps/compendium-browser/tabs/base.svelte.ts:239 | the sort is a permutation of its input |
| Sorting.SortSorted | src/module/apps/compendium-browser/tabs/base.svelte.ts:239 | with a comparator that totally preorders the elements, the sort's result is sorted |
| Sorting.SortKeepsSorted | src/module/apps/compendium-browser/tabs/base.svelte.ts:239 | an input that is already in order comes back unchanged, so ties keep their order |
| Sorting.ConstantComparator | src/module/apps/compendium-browser/tabs/base.svelte.ts:249-250 | a comparator that finds every pair equal leaves the order untouched |
| Sorting.SortDistinct | src/module/apps/compendium-browser/browser.svelte.ts:351 | sorting keeps distinct elements distinct |
| Sorting.SortInPlace | src/module/apps/compendium-browser/tabs/base.svelte.ts:239 | sorting an array in place leaves it holding the stable insertion sort of its old contents |
| Sorting.InsertInPlace | src/module/apps/compendium-browser/tabs/base.svelte.ts:239 | one step of the in-place sort moves an element into the ordered prefix before it and leaves the rest of the array alone |
| Sorting.InsertAt | src/module/apps/compendium-browser/tabs/base.svelte.ts:239 | the element lands just after the last one that does not exceed it, so equal elements keep their order |
| Sorting.ReverseInPlace | src/module/apps/compendium-browser/tabs/base.svelte.ts:253 | `reverse()` leaves the array holding its old contents back to front |
| Sorting.ReverseSorted | src/module/apps/compendium-browser/tabs/base.svelte.ts:253 | reversing a sorted sequence gives one sorted the other way |
| Sorting.ReverseReverse | src/module/apps/compendium-browser/tabs/base.svelte.ts:253 | reversing twice gives the sequence back |
| Predication.NumberAtTag | src/module/apps/compendium-browser/tabs/base.svelte.ts:187-198 | the tag `key:n` carries the number n for a `gte`/`lte` test on key |
| Predication.TestAndAppend | src/module/apps/compendium-browser/tabs/base.svelte.ts:155-231 | a conjunction of two concatenated statement lists holds when both lists hold |
| Predication.TestEmptyAnd | src/module/apps/compendium-browser/tabs/base.svelte.ts:231 | every entry satisfies the empty conjunction |
| Predication.InclusiveRange | src/module/apps/compendium-browser/tabs/base.svelte.ts:187-198 | on an entry with one number for the key, an inclusive `gte`/`lte` pair is interval membership |
| FilterData.ParseTabName | src/module/apps/compendium-browser/browser.svelte.ts:153 | a name maps to the tab with that key, and to none when no tab has it |
| FilterData.DataTabsListComplete | src/module/apps/compendium-browser/browser.svelte.ts:25 | the tab list holds each of the seven content tabs exactly once, and every tab's key parses back to it |
| EquipmentTab.RequiredFields | src/module/apps/compendium-browser/tabs/equipment.ts:35-62 | armor and weapons need the widest field list, kits the base fields, shields the runed-item fields, every other type the physical-item fields; each list extends the base fields |
| EquipmentTab.InfersMagical | src/module/apps/compendium-browser/tabs/equipment.ts:92-98 | runed armor, shields and weapons with no tradition trait; EquipmentTab.MagicalTag and EquipmentTab.TraitTag state what it adds |
| EquipmentTab.Build | src/module/apps/compendium-browser/tabs/equipment.ts:49-117 | what the tab makes of one item record; its outcomes are stated by EquipmentTab.BuildOutcome and EquipmentTab.BuildIndexed, its tags by EquipmentTab.TraitTag, EquipmentTab.AlwaysTagged and EquipmentTab.SourceTag |
| EquipmentTab.BuildOutcome | src/module/apps/compendium-browser/tabs/equipment.ts:49-69 | coin treasure and records of other types are ignored, a record missing a field its type needs is skipped, and no record aborts the load |
| EquipmentTab.TraitTag | src/module/apps/compendium-browser/tabs/equipment.ts:88-101 | the `trait:` tags are the record's traits, plus `magical` for runed armor, shields and weapons without a tradition trait |
| EquipmentTab.BuildIndexed | src/module/apps/compendium-browser/tabs/equipment.ts:107-117 | an indexed item's entry carries the item's tags, and its trimmed publication is collected exactly when it is not empty |
| EquipmentTab.MagicalTag | src/module/apps/compendium-browser/tabs/equipment.ts:92-98 | `trait:magical` is there exactly when the record has the trait or the tab infers it |
| EquipmentTab.AlwaysTagged | src/module/apps/compendium-browser/tabs/equipment.ts:73-116 | every indexed item is tagged with its price in copper, level (default 0), category and group (default `none`), rarity and type, and the entry carries that level and price |
| EquipmentTab.SourceTag | src/module/apps/compendium-browser/tabs/equipment.ts:79-86 | the trimmed publication is collected and tagged as a `source:` slug exactly when it is not empty |
| EquipmentTab.SourceDomain | src/module/apps/compendium-browser/tabs/equipment.ts:79-86 | an item has a `source:` tag exactly for the slug of its non-empty trimmed publication |
| EquipmentTab.OptionLists | src/module/apps/compendium-browser/tabs/equipment.ts:126-154 | the armor and weapon category-and-group lists, the merged trait list, the item types, the unsorted rarities and the sources; EquipmentTab.WithOptionsKeepsSelections states them |
| EquipmentTab.WithOptions | src/module/apps/compendium-browser/tabs/equipment.ts:126-154 | assigning the option lists keeps the filter an equipment filter |
| EquipmentTab.WithOptionsKeepsSelections | src/module/apps/compendium-browser/tabs/equipment.ts:126-154 | the armor, weapon, trait, item-type, rarity and source lists are the ones EquipmentTab.OptionLists computes; the selections, order, search, price and level are kept |
| EquipmentTab.ParseRangeFilterInput | src/module/apps/compendium-browser/tabs/equipment.ts:159-180 | a price input has the localised coin abbreviations replaced by `cp`, `sp`, `gp`, `pp` in turn and is read in copper; any other range goes to the base parser |
| EquipmentTab.ReplaceAllSelf | src/module/apps/compendium-browser/tabs/equipment.ts:167-170 | replacing a non-empty pattern by itself leaves a string unchanged |
| EquipmentTab.EnglishPriceInput | src/module/apps/compendium-browser/tabs/equipment.ts:159-177 | where the abbreviations are the English ones the price input is kept as typed |
| EquipmentTab.Defaults | src/module/apps/compendium-browser/tabs/equipment.ts:182-264 | the default filter sorts by level ascending, has a level range of 0 to 30 and a price range of 0 to 20,000,000 copper, none changed |
| EquipmentTab.DefaultsArePristine | src/module/apps/compendium-browser/tabs/equipment.ts:182-264 | the default filter selects nothing and compiles to no statements |
| FeatTab.NonCategoryFieldsFiltered | src/module/apps/compendium-browser/tabs/feat.ts:53-54 | the non-category fields are the index fields without `system.category` and `system.featType.value` |
| FeatTab.Category | src/module/apps/compendium-browser/tabs/feat.ts:67-72 | a plain `featType` object with a string value replaces the category; otherwise the category is kept |
| FeatTab.PrerequisiteTexts | src/module/apps/compendium-browser/tabs/feat.ts:75-78 | each prerequisite with a non-empty text becomes that text passed through `Env.lower` (`toLowerCase`); one without a text, or with an empty one, becomes `""` |
| FeatTab.CollectSkills | src/module/apps/compendium-browser/tabs/feat.ts:79-89 | the nested loop over prerequisites and configured skills finds the skills in first-found order |
| FeatTab.Skills | src/module/apps/compendium-browser/tabs/feat.ts:79-93 | the skills the prerequisites name, in first-found order; FeatTab.SkillsMember states it and FeatTab.CollectSkills computes it |
| FeatTab.AddMatchingMember | src/module/apps/compendium-browser/tabs/feat.ts:80-89 | after one prerequisite, a skill is found when it was before or the prerequisite names it, and duplicates are never added |
| FeatTab.SkillsMember | src/module/apps/compendium-browser/tabs/feat.ts:79-93 | a skill is found exactly when some prerequisite text contains its key or its localised label passed through `Env.localeLower` (`toLocaleLowerCase` in the game's language), and it is listed once |
| FeatTab.Build | src/module/apps/compendium-browser/tabs/feat.ts:49-118 | what the tab makes of one item record; its outcomes are stated by FeatTab.BuildOutcome and its tags by FeatTab.SkillTag, FeatTab.CategoryTag, FeatTab.TraitTag and FeatTab.SourceLevelRarityTags |
| FeatTab.BuildOutcome | src/module/apps/compendium-browser/tabs/feat.ts:49-97 | non-feats are ignored; a feat missing a non-category field or both category paths is skipped; a feat whose prerequisites or traits are not arrays aborts the load; the entry carries the feat's level |
| FeatTab.DeprecatedCategoryAccepted | src/module/apps/compendium-browser/tabs/feat.ts:51-102 | a feat with only the deprecated `featType.value` is indexed and tagged with that category |
| FeatTab.SkillTag | src/module/apps/compendium-browser/tabs/feat.ts:79-93 | the `skill:` tags are exactly the skills whose key or `Env.localeLower`-ed label some prerequisite text contains |
| FeatTab.CategoryTag | src/module/apps/compendium-browser/tabs/feat.ts:95-103 | the only `category:` tag is the category after the `featType` takeover, and every feat is tagged `type:feat` |
| FeatTab.TraitTag | src/module/apps/compendium-browser/tabs/feat.ts:97-107 | the `trait:` tags are the traits with a leading `hb_` removed, plus `ancestry:universal` for an ancestry feat with no creature trait; a trait is a creature trait when `in` finds it on the creature-trait object, which includes the keys every object inherits |
| FeatTab.IsCreatureTrait | src/module/apps/compendium-browser/tabs/feat.ts:99 | `t in creatureTraits`: a key of the creature-trait table or a key inherited from `Object.prototype` |
| FeatTab.InheritedTraitNotUniversal | src/module/apps/compendium-browser/tabs/feat.ts:99 | a trait such as `constructor` counts as a creature trait, so an ancestry feat carrying it is not tagged universal |
| FeatTab.SourceLevelRarityTags | src/module/apps/compendium-browser/tabs/feat.ts:109-118 | a non-empty publication is tagged as a `source:` slug without trimming; the level and rarity are always tagged |
| FeatTab.OptionLists | src/module/apps/compendium-browser/tabs/feat.ts:136-146 | the trait options end with the universal ancestry entry |
| FeatTab.WithOptions | src/module/apps/compendium-browser/tabs/feat.ts:136-146 | assigning the option lists keeps the filter a feat filter |
| FeatTab.WithOptionsIdempotent | src/module/apps/compendium-browser/tabs/feat.ts:136-146 | the category, skill, rarity, source and trait lists are the ones FeatTab.OptionLists computes; a second load gives the same options, so the universal ancestry entry is not repeated; the selections are kept |
| FeatTab.Defaults | src/module/apps/compendium-browser/tabs/feat.ts:151-209 | the default filter sorts by level ascending over 0 to 20, with the skill chips prefixed `skill` |
| FeatTab.DefaultsArePristine | src/module/apps/compendium-browser/tabs/feat.ts:151-209 | the default filter selects nothing and compiles to no statements |
| HazardTab.Complexity | src/module/apps/compendium-browser/tabs/hazard.ts:65 | the complexity is `complex` exactly when `isComplex` is true, else `simple` |
| HazardTab.Build | src/module/apps/compendium-browser/tabs/hazard.ts:42-78 | what the tab makes of one actor record; its outcomes are stated by HazardTab.BuildOutcome and its tags by HazardTab.ComplexityTag, HazardTab.TraitTag and HazardTab.SourceLevelRarityTags |
| HazardTab.BuildOutcome | src/module/apps/compendium-browser/tabs/hazard.ts:42-78 | other actors are ignored, a hazard missing a checked field is skipped, one whose trait list is not an array aborts the load; the entry keeps the hazard's level and rarity |
| HazardTab.ComplexityTag | src/module/apps/compendium-browser/tabs/hazard.ts:65 | a hazard has exactly one `complexity:` tag, its complexity |
| HazardTab.TraitTag | src/module/apps/compendium-browser/tabs/hazard.ts:52-54 | the `trait:` tags are the traits unchanged |
| HazardTab.SourceLevelRarityTags | src/module/apps/compendium-browser/tabs/hazard.ts:56-68 | a non-empty trimmed publication is tagged as a `source:` slug; the level, rarity and `type:hazard` are always tagged |
| HazardTab.ComplexityOptions | src/module/apps/compendium-browser/tabs/hazard.ts:87-94 | the complexity options are simple then complex, so every hazard's complexity tag has an option; the rarity options keep the table order |
| HazardTab.OptionLists | src/module/apps/compendium-browser/tabs/hazard.ts:87-94 | the complexity and rarity lists in table order, the hazard traits and the sources; HazardTab.ComplexityOptions and HazardTab.WithOptionsIdempotent state them |
| HazardTab.WithOptions | src/module/apps/compendium-browser/tabs/hazard.ts:87-96 | assigning the option lists keeps the filter a hazard filter |
| HazardTab.WithOptionsIdempotent | src/module/apps/compendium-browser/tabs/hazard.ts:87-96 | the complexity, rarity, trait and source lists are the ones HazardTab.OptionLists computes; a second load gives the same options and keeps the selections, order, search and level window |
| HazardTab.Defaults | src/module/apps/compendium-browser/tabs/hazard.ts:101-151 | the default filter sorts by level ascending over -1 to 25, with only the complexity chips expanded and traits joined by `and` |
| HazardTab.DefaultsArePristine | src/module/apps/compendium-browser/tabs/hazard.ts:101-151 | the default filter selects nothing and compiles to no statements |
| SpellTab.WithRitualDefault | src/module/apps/compendium-browser/tabs/spell.ts:49-51 | a missing `system.ritual` becomes `null`, so the field is defined, and nothing else changes |
| SpellTab.Categories | src/module/apps/compendium-browser/tabs/spell.ts:61-72 | a spell has between one and three categories |
| SpellTab.CategoriesMember | src/module/apps/compendium-browser/tabs/spell.ts:61-72 | `spell` marks non-cantrip, non-focus, non-ritual spells; `focus` marks the `focus` trait or a cantrip without traditions; `ritual` marks a ritual object |
| SpellTab.OptionList | src/module/apps/compendium-browser/tabs/spell.ts:82-89 | a casting time that is missing is added to nothing, one that is present once |
| SpellTab.NormalizedTime | src/module/apps/compendium-browser/tabs/spell.ts:80-89 | the casting time the tab tags and collects; SpellTab.TimeTag states it |
| SpellTab.BuildOutcome | src/module/apps/compendium-browser/tabs/spell.ts:46-58 | other records are ignored; a spell is skipped exactly when it misses a checked field, never for a missing ritual; a spell whose trait or tradition list is not an array aborts the load |
| SpellTab.Build | src/module/apps/compendium-browser/tabs/spell.ts:46-131 | what the tab makes of one item record; its outcomes are stated by SpellTab.BuildOutcome and SpellTab.BuildIndexed |
| SpellTab.EarlyChecks | src/module/apps/compendium-browser/tabs/spell.ts:105 | the defense step reads `trait:attack` from the stripped traits and `category:ritual` from the ritual |
| SpellTab.CategoryMember | src/module/apps/compendium-browser/tabs/spell.ts:73-75 | the `category:` tags are exactly the categories |
| SpellTab.CategoryTags | src/module/apps/compendium-browser/tabs/spell.ts:61-75 | each category tag holds exactly under its condition, and every spell has at least one |
| SpellTab.TimeTag | src/module/apps/compendium-browser/tabs/spell.ts:80-89 | a non-empty casting time that mentions a reaction in any case becomes `reaction`; the normalised time is the only `time:` tag; an empty or missing time gives none |
| SpellTab.TraditionAndTraitTags | src/module/apps/compendium-browser/tabs/spell.ts:91-97 | every tradition is tagged, and every trait without its leading `hb_` |
| SpellTab.DefenseMember | src/module/apps/compendium-browser/tabs/spell.ts:99-107 | the `defense:` tags are exactly the defense values |
| SpellTab.DefenseValues | src/module/apps/compendium-browser/tabs/spell.ts:99-107 | the defense values of a spell; SpellTab.DefenseTags and SpellTab.DefenseMember state them |
| SpellTab.DefenseTags | src/module/apps/compendium-browser/tabs/spell.ts:99-107 | a save tags its statistic and, when basic, `save:basic`; a passive defense tags the part of its statistic before the first `-`; an attack spell with no defense that is not a ritual is tagged `passive:armor`, and with no defense that is its only defense tag |
| SpellTab.AlwaysTagged | src/module/apps/compendium-browser/tabs/spell.ts:118-120 | every spell is tagged with its rank, its rarity and `type:spell` |
| SpellTab.BuildIndexed | src/module/apps/compendium-browser/tabs/spell.ts:49-131 | an indexed spell is the record with the ritual default applied; its entry has the spell's rank, the action glyph of the time as given, and the normalised time is collected |
| SpellTab.SourceTag | src/module/apps/compendium-browser/tabs/spell.ts:109-116 | a non-empty trimmed publication is tagged as a `source:` slug |
| SpellTab.RankOptions | src/module/apps/compendium-browser/tabs/spell.ts:140-145 | there are ten rank chips |
| SpellTab.RankOptionValues | src/module/apps/compendium-browser/tabs/spell.ts:140-145 | the rank chips are valued `"1"` to `"10"` in order |
| SpellTab.PushRankOptions | src/module/apps/compendium-browser/tabs/spell.ts:140-145 | the loop appends exactly the ten rank chips to the list already there |
| SpellTab.TimeOptions | src/module/apps/compendium-browser/tabs/spell.ts:171-174 | there is one time option per collected time |
| SpellTab.TimeOptionsSpec | src/module/apps/compendium-browser/tabs/spell.ts:171-174 | the time options are the collected times rearranged, in ascending UTF-16 code-unit order (the order of the default `sort()`, see Strings.LexLessIsUtf16Order), each valued with its slug |
| SpellTab.OptionLists | src/module/apps/compendium-browser/tabs/spell.ts:146-174 | the tradition, unsorted rarity, defense (basic save, saves, passive defenses), trait (traditions omitted), source, category and time lists; SpellTab.TraitOptionsOmitTraditions, SpellTab.TimeOptionsSpec and SpellTab.WithOptionsIdempotent state them |
| SpellTab.WithOptionsAsWritten | src/module/apps/compendium-browser/tabs/spell.ts:138-169 | as written, the rank chips are pushed onto whatever rank chips the filter already has |
| SpellTab.RankOptionsDuplicated | src/module/apps/compendium-browser/tabs/spell.ts:140-145 | a second load of the same filter lists twenty rank chips, the first rank twice |
| SpellTab.WithOptions | src/module/apps/compendium-browser/tabs/spell.ts:138-174 | corrected (see Findings): the filter stays a spell filter and its rank chips are exactly the ten ranks whatever it held before; the other seven lists are stated by SpellTab.WithOptionsIdempotent |
| SpellTab.WithOptionsIdempotent | src/module/apps/compendium-browser/tabs/spell.ts:138-174 | corrected (see Findings): the tradition, rarity, defense, trait, source, category and time lists are the ones SpellTab.OptionLists computes; a second load gives the same filter; the selections, order and search are kept |
| SpellTab.TraitOptionsOmitTraditions | src/module/apps/compendium-browser/tabs/spell.ts:157-159 | no trait option is a magic tradition |
| SpellTab.Defaults | src/module/apps/compendium-browser/tabs/spell.ts:179-254 | the default filter sorts by rank ascending, selects no casting time and prefixes tradition chips with `tradition` |
| SpellTab.DefaultsArePristine | src/module/apps/compendium-browser/tabs/spell.ts:179-254 | the default filter selects nothing and compiles to no statements |
| TabBase.LoadData | src/module/apps/compendium-browser/tabs/base.svelte.ts:79 | the record-by-record load gives what the tab's builder makes of the packs in order: the entries and collected publications and times, or no index when a record throws |
| TabBase.InitSpec | src/module/apps/compendium-browser/tabs/base.svelte.ts:75-113 | what `init` does to a tab's state: an initialised tab is kept unless forced; a throw is reported exactly when the load throws or there is no filter, and a load that throws changes nothing; on success the tab is initialised with its defaults equal to its filter and its search documents equal to its index; the filter keeps the tab's kind |
| TabBase.WithOptions | src/module/apps/compendium-browser/tabs/base.svelte.ts:79 | the tab's option lists are assigned onto a filter of the tab's own kind |
| TabBase.PrepareFilterData | src/module/apps/compendium-browser/tabs/base.svelte.ts:70-72 | each tab prepares a filter of its own kind |
| TabBase.PreparedFilterPassesAll | src/module/apps/compendium-browser/tabs/base.svelte.ts:151-231 | a freshly prepared filter lets every entry through |
| TabBase.PreparedFilterSelectsNothing | src/module/apps/compendium-browser/tabs/base.svelte.ts:151-231 | a freshly prepared filter compiles to no statements |
| TabBase.CompendiumTab.constructor | src/module/apps/compendium-browser/tabs/base.svelte.ts:34-48 | a new tab holds no filter and no defaults, has an empty index, is not initialised, is visible and has the result limit of 100 |
| TabBase.CompendiumTab.SetPreparedFilter | src/module/apps/compendium-browser/tabs/action.ts:17-22 | each tab's own constructor sets the filter to the tab's prepared one, which is of the tab's kind |
| TabBase.CompendiumTab.Init | src/module/apps/compendium-browser/tabs/base.svelte.ts:75-113 | corrected (see Findings, spell rank chips): the tab ends in the state TabBase.InitSpec gives and reports its throw; an initialised tab is left alone unless forced; a load that throws changes nothing; otherwise the index and search documents are the loaded entries, the filter gets the tab's option lists, the defaults are a copy of it and the tab is initialised; visibility and result limit are kept |
| TabBase.CompendiumTab.Adopt | src/module/apps/compendium-browser/tabs/base.svelte.ts:107-112 | the end of a successful init: the filter gets the loaded option lists, the search engine the index, the defaults a copy of the filter, and the tab is marked initialised |
| TabBase.CompendiumTab.Open | src/module/apps/compendium-browser/tabs/base.svelte.ts:118-123 | passing a filter to a tab that is not initialised fails; otherwise the tab's own name is opened |
| TabBase.CompendiumTab.GetFilterData | src/module/apps/compendium-browser/tabs/base.svelte.ts:126-131 | an initialised tab is unchanged and hands out its defaults; any other tab is initialised without force to the state TabBase.InitSpec gives, so on success its filter and defaults are the prepared filter with the loaded option lists, and it hands out those defaults; a throw hands out nothing |
| TabBase.CompendiumTab.ResetFilters | src/module/apps/compendium-browser/tabs/base.svelte.ts:134-136 | the filter becomes the defaults |
| TabBase.CompendiumTab.ResultList | src/module/apps/compendium-browser/tabs/base.svelte.ts:25-32 | corrected (see Findings, price order): the results are Results.ResultList of the filter, the old index and the hits; an empty query sorts the index itself, which keeps that order afterwards |
| Browser.TabsOf | src/module/apps/compendium-browser/browser.svelte.ts:313-318 | a pack is listed in each tab one of its entry types maps to, once |
| Browser.TypeToTab | src/module/apps/compendium-browser/browser.svelte.ts:302-311 | the tab each entry type goes to; Browser.TabsOf and Browser.ListedInMeaning state its use |
| Browser.FindPack | src/module/apps/compendium-browser/browser.svelte.ts:322 | a stored collection is found with its info, and a missing one is not |
| Browser.SetEntry | src/module/apps/compendium-browser/browser.svelte.ts:325-329 | assigning a collection replaces or adds exactly that key and leaves the other entries alone |
| Browser.SetEntryDistinct | src/module/apps/compendium-browser/browser.svelte.ts:325-329 | assigning a key keeps the keys distinct |
| Browser.Register | src/module/apps/compendium-browser/browser.svelte.ts:320-330 | registering a pack adds exactly its tabs to the settings |
| Browser.NoPacksKeys | src/module/apps/compendium-browser/browser.svelte.ts:267-275 | the starting settings have every tab, each empty |
| Browser.RegisterStep | src/module/apps/compendium-browser/browser.svelte.ts:320-330 | registering one more tab for a pack changes only that tab's entries |
| Browser.RegisterEntries | src/module/apps/compendium-browser/browser.svelte.ts:320-330 | a pack's collection is added to exactly its tabs, with the load flag of the fallback chain, and the keys stay distinct |
| Browser.CollectKeys | src/module/apps/compendium-browser/browser.svelte.ts:313-331 | after the walk over the packs every tab is still in the settings |
| Browser.ListedInMeaning | src/module/apps/compendium-browser/browser.svelte.ts:313-318 | a collection is listed in a tab exactly when some pack with that collection has an entry type the tab shows |
| Browser.CollectCollections | src/module/apps/compendium-browser/browser.svelte.ts:313-331 | after the walk, a tab lists exactly those collections |
| Browser.CollectLoad | src/module/apps/compendium-browser/browser.svelte.ts:321-324 | every listed collection's load flag is the stored choice, else the tab's default, else the collection's default |
| Browser.LoadFlag | src/module/apps/compendium-browser/browser.svelte.ts:321-324 | the stored choice, else true for the bestiary and hazard tabs, else whether the collection loads by default; Browser.CollectLoad states its use |
| Browser.CollectDistinct | src/module/apps/compendium-browser/browser.svelte.ts:313-331 | every collection is listed once per tab |
| Browser.CompendiumListMeaning | src/module/apps/compendium-browser/browser.svelte.ts:266-342 | the settings list per tab exactly the collections that have an entry the tab shows, each once, with the fallback load flag, in ascending pack-name order |
| Browser.CompendiumList | src/module/apps/compendium-browser/browser.svelte.ts:266-342 | the settings per tab after the walk, sorted by pack name; Browser.CompendiumListMeaning states them |
| Browser.NameOrderTotal | src/module/apps/compendium-browser/browser.svelte.ts:335-337 | the comparator that never answers 0 still orders entries as a total preorder |
| Browser.LoadedOf | src/module/apps/compendium-browser/browser.svelte.ts:344-348 | the loaded collections are exactly those whose load flag is set |
| Browser.LoadedPacks | src/module/apps/compendium-browser/browser.svelte.ts:344-348 | a tab loads exactly the collections whose load flag it has set |
| Browser.AllLoaded | src/module/apps/compendium-browser/browser.svelte.ts:351 | the collections every tab loads, one tab after another |
| Browser.Unique | src/module/apps/compendium-browser/browser.svelte.ts:351 | `R.unique` keeps each element once and loses none |
| Browser.LoadedPacksAllMeaning | src/module/apps/compendium-browser/browser.svelte.ts:350-352 | every collection some tab loads is listed once, in strictly ascending UTF-16 code-unit order (the order of the default `sort()`, see Strings.LexLessIsUtf16Order) |
| Browser.LoadedPacksAll | src/module/apps/compendium-browser/browser.svelte.ts:350-352 | the collections every tab loads, once each, in UTF-16 code-unit order; Browser.LoadedPacksAllMeaning states it |
| Browser.CodeUnitsTotal | src/module/apps/compendium-browser/browser.svelte.ts:351 | UTF-16 code-unit comparison is a total preorder on strings |
| Strings.LexLessIsUtf16Order | src/module/apps/compendium-browser/browser.svelte.ts:351 | the string order the model sorts with is exactly lexicographic order on the strings' UTF-16 encodings, which is what `sort()` and `>` compare |
| Strings.UnitKeyOrdersUtf16 | src/module/apps/compendium-browser/browser.svelte.ts:336 | two different characters are ordered by their UTF-16 encodings, whatever follows them, and the per-character key gives that order |
| Strings.SupplementaryBeforeHighBmp | src/module/apps/compendium-browser/tabs/spell.ts:171 | U+20000 sorts before U+FF41, as its high surrogate 0xD840 is below 0xFF41, though its scalar value is larger |
| Browser.ParseAll | src/module/apps/compendium-browser/browser.svelte.ts:175-177 | a list of names parses exactly when every name is a tab name, and then keeps each name in place |
| Browser.Index | src/module/apps/compendium-browser/browser.svelte.ts:25 | every tab has a place in the tab list |
| Browser.ClearSearch | src/module/apps/compendium-browser/browser.svelte.ts:111 | the search text is cleared and the filter keeps its kind |
| Browser.CollectPacks | src/module/apps/compendium-browser/browser.svelte.ts:313-331 | the nested loop over packs and their tabs builds the same settings as the walk |
| Browser.RegisterPack | src/module/apps/compendium-browser/browser.svelte.ts:320-330 | the inner loop over one pack's tabs registers the pack with each of them as the walk does |
| Browser.SortSettings | src/module/apps/compendium-browser/browser.svelte.ts:333-339 | the loop sorts every tab's entries by pack name |
| Browser.TabsDistinct | src/module/apps/compendium-browser/browser.svelte.ts:25 | the seven tab names are distinct |
| Browser.NewTabs | src/module/apps/compendium-browser/browser.svelte.ts:40-49 | one fresh, uninitialised tab per tab name, in tab-list order |
| Browser.CompendiumBrowser.constructor | src/module/apps/compendium-browser/browser.svelte.ts:36-52 | the browser has one fresh tab per name and settings built from the game's packs, with no tab active |
| Browser.CompendiumBrowser.InitCompendiumList | src/module/apps/compendium-browser/browser.svelte.ts:266-342 | the settings are rebuilt from the packs, falling back on the old settings' load flags |
| Browser.CompendiumBrowser.SetVisibleTabs | src/module/apps/compendium-browser/browser.svelte.ts:126-139 | a tab is visible when listed (every tab when there is no list), except the campaign tab without a campaign and a GM-only tab for a player |
| Browser.Visible | src/module/apps/compendium-browser/browser.svelte.ts:126-139 | the visibility rule that Browser.CompendiumBrowser.SetVisibleTabs applies to every tab |
| Browser.CompendiumBrowser.InitForOpen | src/module/apps/compendium-browser/browser.svelte.ts:162-165 | a filter for a tab that is not initialised fails with `FilterForUninitialised` and nothing changed; otherwise the tab ends as TabBase.InitSpec says for an unforced init, and a throw fails with `InitFailed` (Browser.OpensAs); the tab's visibility is kept |
| Browser.CompendiumBrowser.ShowTabs | src/module/apps/compendium-browser/browser.svelte.ts:172-185 | an unknown name in `showTabs` fails; otherwise the visibility follows the list, which always gets the opened tab, or no list, or the empty list when the navigation is hidden |
| Browser.CompendiumBrowser.OpenTab | src/module/apps/compendium-browser/browser.svelte.ts:152-197 | an unknown name fails with `UnknownTab` and nothing changed; otherwise the tab becomes active; a player opening a GM-only tab fails with the tab and the rendering unchanged; otherwise the tab ends as Browser.OpensAs says, rendering happens unless its checks failed, and the result is Browser.Outcome; a failure keeps the active filter, name and result limit, and keeps every visibility unless the failure is an unknown name in `showTabs` on a browser not yet rendered, whose first render has shown every tab the campaign and GM rules allow; on success the tab is initialised, the visibility follows the shown list and includes the opened tab, the active filter is the one passed or the tab's own and the result limit is reset when the tab was already active; the settings and the other tabs never change |
| Browser.OpensAs | src/module/apps/compendium-browser/browser.svelte.ts:162-165 | how `openTab` leaves the opened tab: a filter for an uninitialised tab fails first with nothing changed; otherwise as TabBase.InitSpec says for an unforced init, with a throw reported as `InitFailed` |
| Browser.Outcome | src/module/apps/compendium-browser/browser.svelte.ts:152-197 | the result of a checked open: it succeeds exactly when no earlier check failed and `showTabs` has only known names (or is ignored), and it then gives the opened tab |
| Browser.CompendiumBrowser.OpenKnown | src/module/apps/compendium-browser/browser.svelte.ts:157-197 | for a known tab: the tab becomes active; a player opening a GM-only tab fails with `GMOnlyTab` and nothing else changed; otherwise as Browser.CompendiumBrowser.InitAndRender says, so a failure keeps every visibility except after a first render, which has shown every tab the rules allow |
| Browser.CompendiumBrowser.InitAndRender | src/module/apps/compendium-browser/browser.svelte.ts:162-197 | the opened tab ends as Browser.OpensAs says; rendering happens unless that failed; the result is Browser.Outcome; a failure keeps the active filter, name and result limit; it keeps every visibility when the tab's checks failed or the browser was already rendered, and otherwise leaves the visibility of a first render, every tab the campaign and GM rules allow; success is as Browser.CompendiumBrowser.RenderOpened says; the other tabs and the settings are unchanged |
| Browser.CompendiumBrowser.RenderOpened | src/module/apps/compendium-browser/browser.svelte.ts:166-197 | the browser is rendered, a first render showing every tab the campaign and GM rules allow; the result is Browser.Outcome with no earlier failure; an unknown name in `showTabs` fails with the active filter, name and result limit kept, and with every visibility kept on a browser already rendered or as the first render left it otherwise; otherwise every tab's visibility follows the shown list, the opened tab is visible unless navigation is hidden, the active filter is the one passed or the tab's own, and the result limit is reset when the tab was already active; the tabs, the active tab and the settings are unchanged |
| Browser.CompendiumBrowser.ShowFilter | src/module/apps/compendium-browser/browser.svelte.ts:187-194 | the active filter is the one passed or the tab's own, the active tab name becomes the tab, and the result limit goes back to 100 exactly when the tab was already the active one |
| Browser.CompendiumBrowser.FirstRender | src/module/apps/compendium-browser/browser.svelte.ts:102-106 | a browser not yet rendered becomes rendered with every tab visible that the campaign and GM rules allow; a rendered one keeps its visibility |
| Browser.CompendiumBrowser.OnClose | src/module/apps/compendium-browser/browser.svelte.ts:108-113 | the browser is no longer rendered, so the next `openTab` renders it afresh; every tab's search text is cleared, and a tab without filter data throws |
| Browser.CompendiumBrowser.ReloadTab | src/module/apps/compendium-browser/browser.svelte.ts:355-359 | corrected (see Findings, spell rank chips): an initialised tab ends in the state TabBase.InitSpec gives for a forced init, so its filter and defaults are its old filter with the reloaded option lists and its index is rebuilt; any other tab is unchanged; visibility and result limit are kept |
| Browser.CompendiumBrowser.ResetInitializedTabs | src/module/apps/compendium-browser/browser.svelte.ts:354-361 | corrected (see Findings, spell rank chips): every initialised tab is reloaded as TabBase.InitSpec gives for a forced init, the others are unchanged, and the landing page is shown; when a reload throws, the tabs before it are reloaded, that tab and the ones after it are unchanged and the active tab name is kept |
| Effect.PrepareDuration | src/module/item/effect/document.ts:41-46 | an unlimited or encounter duration has no expiry; any other keeps a truthy expiry and gets `turn-start` for a falsy one; unit and value are kept |
| Effect.Clamp | src/module/item/effect/document.ts:57 | `Math.clamp`, that is `Math.min(Math.max(v, lo), hi)`: the value itself when it is in range, the lower bound when the value is below it, the upper bound when the value is above it or when the bounds cross; the result never exceeds the upper bound |
| Effect.ClampIdempotent | src/module/item/effect/document.ts:57 | clamping twice is clamping once, even when the bounds cross |
| Effect.At | src/module/item/effect/document.ts:58 | `at` finds an element exactly for indexes from `-length` to `length - 1`, counting negative ones from the end |
| Effect.BadgeLabel | src/module/item/effect/document.ts:58 | the label is the trimmed label at position `value`, and none when it is empty, out of range, or there are no labels |
| Effect.PrepareBadge | src/module/item/effect/document.ts:49-64 | a formula badge only loses its label; any other badge gets the bounds 1 to the label count with labels, or its own bounds defaulting to 1 and Infinity, its value clamped into them, its label, and a counter gets `loop` defaulting to false; a value badge that reevaluates gets its initial value |
| Effect.PrepareBadgeIdempotent | src/module/item/effect/document.ts:49-64 | preparing prepared badge data changes nothing |
| Effect.PrepareDurationIdempotent | src/module/item/effect/document.ts:41-46 | preparing a prepared duration changes nothing |
| Effect.IsAura | src/module/item/effect/document.ts:25-27 | an effect is an aura exactly when some rule element is an aura that is not ignored |
| Effect.Increase | src/module/item/effect/document.ts:80-88 | only a counter that has not expired is updated: to its minimum when it loops at its maximum, else one up; nothing is deleted |
| Effect.Decrease | src/module/item/effect/document.ts:91-98 | an effect that is not a counter, or has expired, is deleted; a counter is set one down |
| Effect.PreUpdateDuration | src/module/item/effect/document.ts:161-167 | an unlimited unit sets the expiry to `null`; another unit other than encounter gets a falsy expiry replaced by `turn-start` and a value of -1 replaced by 1; a change without a unit or with `encounter` passes unchanged |
| Effect.UpdatedDurationIsPrepared | src/module/item/effect/document.ts:161-167 | a duration updated with a unit other than `encounter` is already what preparation makes of it |
| Effect.MinLimit | src/module/item/effect/document.ts:188 | `Math.min` with a possibly infinite maximum is the count or the finite maximum, and at most both |
| Effect.LabelsAfter | src/module/item/effect/document.ts:174-177 | the labels are the change's when it sets an array, else the current badge's |
| Effect.CounterBounds | src/module/item/effect/document.ts:183-189 | with labels the bounds are 1 and the smaller of the label count and the configured maximum; without them the configured bounds, the change's over the current ones |
| Effect.PreUpdateBadge | src/module/item/effect/document.ts:170-216 | the update is cancelled exactly when a counter change sets a number below the minimum on an effect with an actor; a type change resets the value to 1; a counter's value is clamped into its bounds; a type change, labels or a `null` bound drop the bounds and mark stored ones for deletion; a type change or `-=labels` drops `loop` |
| Effect.ValuedChange | src/module/item/effect/document.ts:179-199 | the value step: cancel below the minimum, a value of 1 after a type change, the clamped value for a counter, the change itself otherwise |
| Effect.DropKeys | src/module/item/effect/document.ts:201-215 | the bound and loop keys are removed under exactly their conditions and every other part of the change is kept |
| Effect.PreparedCounterSteppable | src/module/item/effect/document.ts:49-64 | a prepared counter whose bounds do not cross can be stepped |
| Effect.IncreaseThenUpdate | src/module/item/effect/document.ts:80-88 | on a prepared counter, `increase` then `_preUpdate` wraps to the minimum when looping at the maximum, steps up below the maximum and stays at the maximum otherwise; it is never cancelled |
| Effect.DecreaseThenUpdate | src/module/item/effect/document.ts:91-98 | on a prepared counter, `decrease` then `_preUpdate` steps down above the minimum; at the minimum it deletes an effect with an actor and keeps one without |
| Effect.ExpiredIsNotStepped | src/module/item/effect/document.ts:80-98 | an expired effect, or one without a counter, is left alone by `increase` and deleted by `decrease` |
| Effect.TrimSlug | src/module/item/effect/document.ts:103 | the slug loses exactly one leading `spell-effect-`, `spell-stance-`, `effect-` or `stance-`, and stays as it is without one |
| Effect.FindSplice | src/module/item/effect/document.ts:106 | the list keeps its length; each element is kept or is the target replaced; without the target nothing changes |
| Effect.FirstIndex | src/module/item/effect/document.ts:106 | the first position of the target |
| Effect.FindSpliceFirst | src/module/item/effect/document.ts:106 | only the first occurrence of the target is replaced |
| Effect.GetRollOptions | src/module/item/effect/document.ts:101-109 | the inherited roll options, with `prefix:slug` replaced by the trimmed slug; the slug falls back to the slugged name |
| Effect.RollOptionOfSpellEffect | src/module/item/effect/document.ts:100-108 | `effect:spell-effect-rage` becomes `effect:rage` and other options stay |
| Effect.EffectDocument.constructor | src/module/item/effect/document.ts:38-65 | a created effect holds its data prepared |
| Effect.EffectDocument.PrepareBaseData | src/module/item/effect/document.ts:38-65 | the duration and badge are prepared and `expired` is the remaining duration's |
| Effect.EffectDocument.PrepareRuleElements | src/module/item/effect/document.ts:68-77 | with automatic expiration, an expired effect among its actor's items ignores every rule element and so is no aura; otherwise the rules are untouched |
| Effect.EffectDocument.PreUpdate | src/module/item/effect/document.ts:156-219 | the duration change is normalised in place; the badge change is rewritten in place, or left as it was when the update is cancelled, which is reported |
| Damage.IndexOf | src/module/system/damage/helpers.ts:11 | `indexOf` gives the first position of the element, or -1 exactly when it is absent |
| Damage.NextDamageDieSize | src/module/system/damage/helpers.ts:9-12 | on the scale, a size steps one place up or down and stays at either end; an unknown size upgrades to the first size and is otherwise kept |
| Damage.UpgradeThenDowngrade | src/module/system/damage/helpers.ts:9-12 | on a scale without repeats, one step up then one down (or down then up) gives the size back, and the ends stay put |
| Damage.UpgradeTimesCaps | src/module/system/damage/helpers.ts:9-12 | upgrading n times moves n places, capped at the largest size |
| Damage.OwnCategory | src/module/system/damage/helpers.ts:20 | the own-entry lookup finds a category filed under the type, and finds none exactly when no entry has that type |
| Damage.FromDamageType | src/module/system/damage/helpers.ts:20 | a type with an entry in the table gives that entry's category; a type the table lacks gives the inherited `Object.prototype` member when it has that name, and `null` exactly otherwise |
| Damage.ConstructorIsInherited | src/module/system/damage/helpers.ts:20 | on a table without a `constructor` entry, `fromDamageType("constructor")` is the inherited member, not `null`; a name neither the table nor `Object.prototype` has gives `null` |
| Damage.AllCategories | src/module/system/damage/helpers.ts:23 | the categories are exactly the table's values |
| Damage.BaseCategories | src/module/system/damage/helpers.ts:26 | the base categories are the same set |
| Damage.ToDamageTypes | src/module/system/damage/helpers.ts:29-37 | each type of a category comes from an entry filed under it |
| Damage.ToDamageTypesInverse | src/module/system/damage/helpers.ts:20-37 | with distinct keys, a type is among a category's types exactly when `fromDamageType` gives that category |
| Damage.CategoriesHaveTypes | src/module/system/damage/helpers.ts:23-37 | a category has types exactly when it is one of the table's categories |
| Damage.ToDamageTypesHas | src/module/system/damage/helpers.ts:29-37 | every entry's type is among its category's types |
| Damage.DeepFindTerms | src/module/system/damage/helpers.ts:52-59 | every term found is in the tree and names the flavor |
| Damage.DeepFindTermsIsFilteredPreOrder | src/module/system/damage/helpers.ts:52-59 | the search is the pre-order walk of the tree filtered by flavor, and the walk visits every term |
| Damage.DeepFindTermsComplete | src/module/system/damage/helpers.ts:52-59 | every term of the tree that names the flavor is found |
| Damage.MarkAsCrit | src/module/system/damage/helpers.ts:99-107 | every term of the tree records the multiplier |
| Damage.LooksLikeDamageFormula | src/module/system/damage/helpers.ts:62-74 | a formula mentioning `d20` is never a damage formula; otherwise the patterns decide |
| Damage.D20IsNeverDamage | src/module/system/damage/helpers.ts:63 | `d20` anywhere rules a formula out |
| Ruler.IndexOfChar | src/module/canvas/ruler.ts:58 | the first position of a character, or the length when it is absent |
| Ruler.IndexOfCharAfter | src/module/canvas/ruler.ts:58 | in `u + [c] + v` with no `c` in `u`, the first `c` is at the length of `u` |
| Ruler.CoordsKey | src/module/canvas/ruler.ts:57-58 | the cache key `${x}.${y}`; Ruler.CoordsKeyInjective states that distinct points have distinct keys |
| Ruler.CoordsKeyInjective | src/module/canvas/ruler.ts:57-58 | two grid points with integer coordinates have the same cache key `${x}.${y}` exactly when they are the same point |
| Ruler.EnvironmentBehaviors | src/module/canvas/ruler.ts:33-41 | the behaviors kept are exactly the environment behaviors of the scene's regions |
| Ruler.Environmental | src/module/canvas/ruler.ts:36-38 | the behaviors kept from one region are exactly its environment behaviors |
| Ruler.Matched | src/module/canvas/ruler.ts:65-70 | the behaviors that count for a step are exactly those whose region contains the point, ground-only ones only at elevation 0 |
| Ruler.FirstCached | src/module/canvas/ruler.ts:102-107 | a cached value is found exactly when some matched behavior has one |
| Ruler.FirstCachedAt | src/module/canvas/ruler.ts:102-107 | the value found is that of the first matched behavior with one |
| Ruler.SetAll | src/module/canvas/ruler.ts:139-141 | every matched behavior's id is mapped to the value, and every other key keeps its value |
| Ruler.RegionsOf | src/module/canvas/ruler.ts:150 | the regions are exactly those of the matched behaviors |
| Ruler.CreatePredicateMeaning | src/module/canvas/ruler.ts:111-117 | the predicate built from the statements holds exactly when one of them holds, joined by `or` or used alone |
| Ruler.Tags | src/module/canvas/ruler.ts:125-132 | a predicate is tested against exactly the roll options |
| Ruler.Surcharge | src/module/canvas/ruler.ts:118-138 | the extra cost is none when greater terrain is ignored, 5 for greater terrain whose standard part is ignored, 0 for ignored standard terrain, else 10 for greater and 5 for standard; each predicate is built once, only when it is tested, and the caches are untouched |
| Ruler.SurchargeWithoutStatements | src/module/canvas/ruler.ts:119-121 | an actor without ignore statements asks for no roll options, so its surcharge does not depend on them |
| Ruler.SurchargeRule | src/module/canvas/ruler.ts:122-137 | the surcharge is 0, 5 or 10; ignoring never costs more; standard terrain costs 5 unless ignored; ignored greater terrain costs what standard does |
| Ruler.SurchargeRange | src/module/canvas/ruler.ts:118-138 | the surcharge is always 0, 5 or 10 |
| Ruler.CalculateAsWritten | src/module/canvas/ruler.ts:101-143 | as written (see Findings): a cached behavior cost is returned as it is, and a creature's whole cost is cached; Ruler.StepAsWrittenRules and Ruler.CachedCostCarriesDistance state it |
| Ruler.StepAsWritten | src/module/canvas/ruler.ts:54-84 | as written (see Findings): a cached cell returns its stored cost, the distance of the step that stored it included; Ruler.StepAsWrittenRules and Ruler.CachedCostCarriesDistance state it |
| Ruler.Calculate | src/module/canvas/ruler.ts:101-143 | corrected (see Findings): the behavior cache holds surcharges, added to the distance at hand; Ruler.CalculateRules and Ruler.CalculateBounds state it; used by Ruler.RulerMeasure.CalculateCost |
| Ruler.Step | src/module/canvas/ruler.ts:54-84 | corrected (see Findings): the cell cache holds the surcharge, added to the distance at hand; Ruler.StepBounds, Ruler.StepRules and Ruler.StepDistanceIndependent state it; used by Ruler.RulerMeasure.Cost |
| Ruler.StepBounds | src/module/canvas/ruler.ts:54-84 | with the fix, a step costs its distance plus 0, 5 or 10, caches the cell with its surcharge and label, and keeps every cached surcharge in that range; a cell no behavior counts for costs its distance with no label |
| Ruler.StepRules | src/module/canvas/ruler.ts:71-143 | with the fix, a new cell that behaviors count for gets the worst terrain's label; a cached behavior surcharge is added to the distance; an actor that is no creature pays the distance; a creature pays the terrain rule's surcharge, which is cached for every matched behavior |
| Ruler.CalculateRules | src/module/canvas/ruler.ts:101-143 | a cached behavior surcharge is used first, an actor that is no creature pays the distance with nothing cached, and a creature pays the terrain rule's surcharge, cached for every matched behavior |
| Ruler.CalculateBounds | src/module/canvas/ruler.ts:101-143 | with a sound memo, the computed cost is the distance plus 0, 5 or 10 and the behavior cache stays sound |
| Ruler.StepAsWrittenRules | src/module/canvas/ruler.ts:54-143 | as written, the same rules hold with the whole cost cached and a cached cost returned as it is |
| Ruler.StepDistanceIndependent | src/module/canvas/ruler.ts:54-84 | with the fix, a step's surcharge and what it leaves in the memo do not depend on its distance |
| Ruler.StepAgreesUncached | src/module/canvas/ruler.ts:54-143 | where nothing is cached, the fixed step and the step as written cost the same |
| Ruler.CacheHitIgnoresRegions | src/module/canvas/ruler.ts:59-64 | a cached cell decides the step whatever the regions and the elevation |
| Ruler.CachedCostCarriesDistance | src/module/canvas/ruler.ts:59-141 | as written, a step of 10 into a standard region and then a step of 5 costs 15 where the rule gives 10; with the fix it costs 10 |
| Ruler.Token.constructor | src/module/canvas/ruler.ts:147-148 | a token holds its elevation, actor and regions |
| Ruler.RollOptionsForBehaviors | src/module/canvas/ruler.ts:146-162 | the roll options are read with the token placed in the matched regions as well, and its regions are exactly restored; without regions there are none |
| Ruler.AddRegions | src/module/canvas/ruler.ts:152-154 | the token's region set gains every new region |
| Ruler.RemoveRegions | src/module/canvas/ruler.ts:157-159 | the token's region set loses every new region |
| Ruler.RulerMeasure.constructor | src/module/canvas/ruler.ts:8-31 | a ruler starts with empty caches, no label, no predicates and no behaviors |
| Ruler.RulerMeasure.StartMeasurement | src/module/canvas/ruler.ts:33-41 | the scene's environment behaviors are kept, or none without a scene |
| Ruler.RulerMeasure.EndMeasurement | src/module/canvas/ruler.ts:43-52 | the behaviors, both caches, the label and both predicates are cleared |
| Ruler.RulerMeasure.CalculateCost | src/module/canvas/ruler.ts:101-143 | the method computes what the fixed `#calculateCost` gives, with the memo updated as it says, and the token's regions are as before |
| Ruler.RulerMeasure.CacheSurcharge | src/module/canvas/ruler.ts:139-141 | the loop maps every matched behavior to the surcharge |
| Ruler.RulerMeasure.Cost | src/module/canvas/ruler.ts:54-84 | the cost function computes the fixed step from the ruler's state and leaves that step's memo; the behaviors and the token's regions are unchanged |
| Aura.RestrictionTypeOf | src/module/canvas/token/aura/util.ts:93-99 | sight exactly when the traits have `visual` and not `auditory`, sound exactly when they have `auditory` and not `visual`, movement otherwise and when there are no traits |
| Aura.SwapSensesSwapsRestriction | src/module/canvas/token/aura/util.ts:93-99 | exchanging the sense traits exchanges sight and sound and keeps movement |
| Aura.SwapSensesMembers | src/module/canvas/token/aura/util.ts:93-99 | after exchanging the sense traits, each sense is present exactly when the other one was |
| Aura.OtherTraitsIrrelevant | src/module/canvas/token/aura/util.ts:93-99 | adding a trait other than the two senses changes nothing, and an empty trait list restricts like a missing one |
| Migration717.InheritedKeyPassesTable | src/module/migration/migrations/717-take-feat-limits.ts:59-60 | as written, `"constructor" in this.maxTakeable` holds although the table has no limit for it |
| Migration717.InTableAsWritten | src/module/migration/migrations/717-take-feat-limits.ts:59-60 | as written (see Findings): the `in` test finds the table's keys and every inherited `Object` key; Migration717.InheritedKeyPassesTable states it |
| Migration717.InTable | src/module/migration/migrations/717-take-feat-limits.ts:59-60 | corrected (see Findings): only the table's own keys; Migration717.TableLimits states what it finds; used by Migration717.UpdateItem |
| Migration717.TableLimits | src/module/migration/migrations/717-take-feat-limits.ts:19-44 | every feat in the table may be taken 3 times when it is `armor-proficiency` and without limit otherwise |
| Migration717.TablesDisjoint | src/module/migration/migrations/717-take-feat-limits.ts:8-44 | no level-one-only feat is in the table, and the empty slug is in neither |
| Migration717.Migrated | src/module/migration/migrations/717-take-feat-limits.ts:46-47 | a source that is not a feat is left unchanged |
| Migration717.MigratedIdempotent | src/module/migration/migrations/717-take-feat-limits.ts:46-64 | running the migration twice gives what running it once does |
| Migration717.WithoutGameRules | src/module/migration/migrations/717-take-feat-limits.ts:51-63 | without the `game` global only a lineage or level-one-only feat has `onlyLevel1` set, to true, and only an unrestricted feat in the table has its limit set, to the table's; every other field keeps its value |
| Migration717.MissingSlugIsEmpty | src/module/migration/migrations/717-take-feat-limits.ts:49 | a feat without a slug is treated as the empty slug: only the lineage trait restricts it and the table never gives it a limit |
| Migration717.LevelOneFeatsTakenOnce | src/module/migration/migrations/717-take-feat-limits.ts:53-63 | a lineage or level-one-only feat is marked level-one-only, and its limit is 1 with the `game` global and untouched without |
| Migration717.WithGameBothSet | src/module/migration/migrations/717-take-feat-limits.ts:51-63 | with the `game` global, `onlyLevel1` is whether the feat has the lineage trait or is on the list, and the limit is the table's for an unrestricted feat in the table and 1 otherwise |
| Migration717.ItemSource.constructor | src/module/migration/migrations/717-take-feat-limits.ts:46 | an item source holds its type, slug, traits and both limits |
| Migration717.UpdateItem | src/module/migration/migrations/717-take-feat-limits.ts:46-64 | corrected (see Findings): the migration's fields are updated in place to what the corrected migration gives, and nothing else changes |

## Left out

- Svelte reactivity (`$state`, `$derived`, `untrack`), rendering keys and the DOM are left out. `results` is a function of the index, the search hits and the filter.
- The MiniSearch engine is a parameter. The search hits and the cleaned query are inputs of `Results.ResultList`. `cleanQuery` and the word segmenter are function parameters of `Results.ProcessTerm`.
- These are function parameters of `Env` with no further properties:
  - `localeCompare`, assumed only to be a total preorder where a lemma needs one;
  - `sluggify`, `game.i18n` localisation and `ordinalString`;
  - `Coins` parsing and the action glyph and icon helpers.
  - the string lower-casings `toLowerCase` (`Env.lower`) and `toLocaleLowerCase` in the client language (`Env.localeLower`), because Unicode case mapping is not modelled;
  - the order the engine's `Array.prototype.sort` gives the publications under the comparator of `generateSourceCheckboxOptions` (`Env.sourceOrder`);
  - `Number` on a range input (`Env.toNumber`), which yields an integer or nothing.
- The documents handed to the search engine are kept as a plain sequence, with no indexing.
- The asynchronous pack loader is modelled as a plain sequence of packs and their records, walked in order.
- Roll-table creation and its dialogs (`addToRollTable`, `createRollTable`) are left out because they depend on Foundry documents and UI.
- `openActionTab` and `openSpellTab` are left out. They read `filter.checkboxes` fields that the filter variants do not declare.
- Options.SourceCheckboxOptions: the order of the source options is not claimed. The comparator destructures two characters of its first argument and ignores the second, so the order depends on the engine's sort algorithm; it is the parameter `Env.sourceOrder`. `Options.SourceCheckboxOptionsContents` states only the contents, assuming the engine's sort returns a rearrangement of its input.
- Options.ParseRangeFilterInput: `Number` is the integer-valued parameter `Env.toNumber`, with `None` standing for `NaN`. A fractional input such as "2.5" or an infinite one such as "Infinity" is not modelled. The tabs modelled here do not reach this parser, since the equipment tab's only range, the price, has its own parser.
- Sorting.InsertionSort: its order is the engine's only when the comparator is consistent. For an inconsistent comparator, ECMAScript leaves the order of `Array.prototype.sort` implementation-defined, and the model's insertion order is just one of the orders an engine may give. Two comparators of the source can be inconsistent: the pack-name comparator of `initCompendiumList` answers -1 both ways for equal names (browser.svelte.ts:335-337), and a level difference with a missing level is `NaN`, so the comparison falls back to the name (base.svelte.ts:244).
- Sorting.SortInPlace: the same; only for a consistent comparator is its order the engine's.
- Results.SortResult: the same; entries without the sort key (such as a campaign feature without a level) can make the comparator inconsistent, and the order among them is then not the engine's promise.
- Results.SortResultInPlace: the same as `Results.SortResult`.
- Results.ResultList: the same; the order of its result is claimed only where `Results.SortResult`'s is.
- TabBase.CompendiumTab.ResultList: the same as `Results.ResultList`.
- Browser.SortSettings: packs with equal names keep their collection order, while an engine may give another order under the -1/-1 comparator.
- Browser.CompendiumList: the same as `Browser.SortSettings`; the order of packs with distinct names is the engine's.
- `OrderData.options` keys being index keys of the entries is a typing constraint in the source. It is not checked; an unknown key compares equal (`Results.UnknownKeyKeepsOrder`).
- The sheet's header controls and part rendering are UI, so they are left out.
- The ruler's segment labels (`_getSegmentLabel`) are left out because they use floating-point rounding.
- The aura's `getAreaSquares` and `createTestPolygons` are left out because they are canvas geometry.
- Region containment of a point is a parameter, `inside`.
- The actor refresh after the roll options are gathered is left out because it is a host call.
- The effect's formula-badge `Roll` evaluation, its chat messages, encounter events and `_preCreate` are left out. They need the dice and chat systems.
- The effect's deletion and updates are left out as side effects. They are modelled as returned intents ("delete", "update to value v").
- The effect tracker registration in `_onDelete` is left out.
- The effect's `level`, `isIdentified` and `fromAura` getters are left out. No rule modelled here reads them.
- The damage helpers `renderSplashDamage` and `damageDiceIcon` are left out because they build DOM.
- These tables are parameters or literal constants of the model, not read from the system's configuration:
  - the die-faces tuple;
  - the damage-type-to-category table;
  - the physical item types.
- `looksLikeDamageFormula` is modelled only for its `d20` rule. Its regular-expression tests are a parameter, because regular expressions are not modelled.
- The migration's `game` global is a boolean parameter, which tells whether the global exists.
- `Migration717.Version` is a `real` constant. The schema version is a decimal number in the source.
- Migration717.Migrated: its own contract states only that a non-feat source is unchanged. The feat rules are stated by `WithoutGameRules`, `WithGameBothSet`, `LevelOneFeatsTakenOnce`, `MissingSlugIsEmpty` and `MigratedIdempotent`.
- TabBase.WithOptions: its contract states only that the filter keeps its kind. What each tab assigns is stated by that tab's `WithOptionsIdempotent` lemma and its `OptionLists` function.
- ActionTab.WithOptions: its contract states only that the filter keeps its kind. The rest is in `ActionTab.WithOptionsIdempotent`.
- BestiaryTab.WithOptions: the same; the rest is in `BestiaryTab.WithOptionsIdempotent`.
- CampaignFeatureTab.WithOptions: the same; the rest is in `CampaignFeatureTab.WithOptionsIdempotent`.
- EquipmentTab.WithOptions: the same; the rest is in `EquipmentTab.WithOptionsKeepsSelections`.
- FeatTab.WithOptions: the same; the rest is in `FeatTab.WithOptionsIdempotent`.
- HazardTab.WithOptions: the same; the rest is in `HazardTab.WithOptionsIdempotent`.
- SpellTab.WithOptions: its own contract states only the kind and the rank chips. The other seven lists are stated by `SpellTab.WithOptionsIdempotent`.
- CoordsKeyInjective: the ruler's grid points and step distances are integers here. Canvas coordinates in the source are JavaScript numbers, and fractional or non-finite coordinates are not modelled.
- The equipment tab's `traits.push("magical")` changes the index record's own trait array in place. The model builds a fresh trait sequence instead. The tags are the same, but the in-place change to the record is not modelled.
- Browser.CompendiumBrowser.ShowTabs: when the opened tab is missing from `showTabs`, the source pushes it onto the caller's own array (browser.svelte.ts:179-181). The model builds the extended list as a new value (`Browser.VisibleList`), so it does not capture that the caller's array is changed in place, or the aliasing through it.
- Browser.CompendiumBrowser.OpenTab: the same in-place push onto the caller's `showTabs` array happens through `ShowTabs`, and is not captured either.
- SpellTab.Build: the source writes `system.ritual ??= null` (spell.ts:49) and the normalised casting time `system.time.value` (spell.ts:87) back into the index record it was given. The model treats records as values and does not capture that these writes change the record in place. The tags and the collected times are the same.
- FeatTab.Category: the source assigns `system.category = featType.value` and deletes `system.featType` on the index record itself (feat.ts:68-72). The model computes the category as a value and does not capture that the record is rewritten in place.
- FeatTab.Build: the same in-place rewrite of the feat record happens through `FeatTab.Category`, and is not captured.
- ActionTab.Image: the source reassigns `actionData.img` on the record for a passive action (action.ts:56). The model computes the entry's image as a value and does not capture the change to the record.
- Browser.CompendiumBrowser.OnClose: the application framework's `close`, which marks the browser as no longer rendered before `_onClose` runs, is not part of this model; `OnClose` sets `rendered` to false itself, so the next `openTab` takes the first-render path.
- Browser.CompendiumBrowser.OpenTab: the other tabs being unchanged is stated by its `modifies` frame, which names only the opened tab and the tabs' visibility, and not by an `ensures`.
- Concurrency is left out. The source's asynchronous steps are modelled as running to completion one after another.
- Static label tables, configuration registration, type declarations and UI listeners elsewhere in the system are not part of this model.

## Findings

| source | as written | input that shows it | evidently intended | confidence | as-written member | corrected member |
|---|---|---|---|---|---|---|
| src/module/apps/compendium-browser/tabs/base.svelte.ts:245-246 | sorting by price subtracts `priceInCopper`, a field the entries do not carry, so every comparison is `NaN` and the price order falls back to the name order | two equipment entries, "b" priced 1 cp and "a" priced 100 cp, sorted by price ascending, come out as "a", "b" | entries ordered by their price in copper, with the name as the tie-break | medium, not executed | Results.SortResultAsWritten, Results.PriceOrderCounterexample | Results.SortResult (used by Results.ResultList and TabBase.CompendiumTab.ResultList) |
| src/module/apps/compendium-browser/tabs/spell.ts:140-145 | the ten rank options are pushed onto the existing list on every load, and a forced re-initialisation loads again without preparing a fresh filter | a spell filter initialised and then re-initialised by force has twenty rank options, with the first rank listed twice | the rank options are exactly the ten ranks after any number of loads | medium, not executed | SpellTab.WithOptionsAsWritten, SpellTab.RankOptionsDuplicated | SpellTab.WithOptions, SpellTab.WithOptionsIdempotent (used by TabBase.WithOptions, so by TabBase.CompendiumTab.Init, Browser.CompendiumBrowser.ReloadTab and Browser.CompendiumBrowser.ResetInitializedTabs) |
| src/module/canvas/ruler.ts:101-107, 139-141 | the per-behavior cache stores the whole cost of the step that first met the behavior, its distance included, and later steps through the same behavior return that cost unchanged | in one standard difficult-terrain region, a step of 10 and then a step of 5 costs 15 for the second step instead of 10 | each step costs its own distance plus the terrain's surcharge; the corrected model stores only the surcharge in both the behavior cache and the cell cache (the cell entry is the cost less the distance, 0 for a cell no behavior counts for) and adds the distance at hand on every hit | medium, not executed | Ruler.StepAsWritten, Ruler.CalculateAsWritten, Ruler.CachedCostCarriesDistance | Ruler.Step, Ruler.Calculate (used by Ruler.RulerMeasure.Cost and Ruler.RulerMeasure.CalculateCost) |
| src/module/migration/migrations/717-take-feat-limits.ts:59-60 | the table test uses the `in` operator, which also finds the keys every object inherits | a feat with the slug `constructor` passes the test and would be given the inherited `Object` function as its limit | only the table's own keys get a limit | low, not executed | Migration717.InTableAsWritten, Migration717.InheritedKeyPassesTable | Migration717.InTable, Migration717.TableLimits (used by Migration717.UpdateItem) |
