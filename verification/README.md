# lithos-llm: a verified model of its core

`lithos-llm` is a provider-neutral client for language models. This project models, in Dafny, the parts
of it whose correctness is not visible from any single function, and proves what they promise.

* **The stream assembler.** Every provider stream becomes calls on one mutable assembler. The class
  `StreamAssembler` keeps its blocks in a list searched by position, as the source does, and is proved
  call by call and run by run against a ledger keyed by block id. Everything else is proved of the
  ledger, for every sequence of calls: blocks do not affect one another; the events of a block form
  groups of one start, matching deltas and one end; in every reachable state the deltas shown agree
  with the buffer the final part is built from; completion conserves blocks; and a run satisfies the
  documented stream contract exactly when no call reopens a discarded id or emits after completion.
  The contract is an independent scanner, proved to be the documented rules. What a run amounts to is
  also read off its calls alone: the kind an id gets, the part its fragments become, and every field of
  the terminal response.
* **Layered configuration.** The recursive table merge has an exact pointwise law, for two layers and
  for any number; regrouping layers, three or any number, is sound exactly when a stated condition
  holds. Provider options are a three-level merge with control keys taken out, related to the same
  merge.
* **Catalog, offerings and resolver.** The validation loops accept exactly the documents whose
  selectors are unambiguous. The resolver's ranking and the offering query's, written independently,
  agree on every catalog; every route is sound; printed handles resolve to what they name; and each form
  of selector has its result stated in the catalog's own fields.
* **Evaluation.** Which verdicts validation accepts, that an honest provider's rounded distribution is
  always among them, the acceptance rules in numbers with sums of their own, that the judge's decoding
  inverts its encoding and only gives valid verdicts, and what the readers of reported distributions
  accept.
* **Concurrency boundary.** The cancellation token as a step-by-step protocol between any number of
  threads, and nested call guards: what passes them in one poll, and over the polls of a stream that
  releases its source at its first terminal item.
* **Pricing and credentials.** Cost estimates, which price list applies and the sum written out, their
  error bounds under 64-bit saturation, and the credential table's order-sensitive builder and fallback
  chain.

Doubles are `Finite(real)`, `NaN` or `Infinite`; 64-bit integers and their saturation are written out;
maps walked in key order are sequences in key order.

`dafny verify dfyconfig.toml` checks the whole project.

## Where the code and its documentation differ

The model follows the code.

* `reconcile` is documented to ignore an unknown block, but it opens one
  (src/codecs/assembler.rs:339-381): `BlockRuns.ReconcileOpensUnknownBlock`.
* The stream invariants are documented as upheld by every codec; the assembler itself lets a discarded
  id start again and lets a call after completion emit (src/types/stream.rs:69-92,
  src/codecs/assembler.rs:595-608): `AssemblerContract.ReopeningAndLateCallsBreakTheContract`.
* Configuration layers read as "later layers win", but the merge is not associative
  (src/catalog/overlay.rs:3-16) and provider options are not a three-layer fold
  (src/codecs/options.rs:97-121): `Overlay.RegroupingCanFail`, `Options.OptionsAreNotAFold`.
* `with_http` is documented to leave an earlier fallback alone, but a fallback added to an empty chain
  is the primary mapping and is edited (src/credentials.rs:776-793):
  `CredentialBuilder.FirstFallbackIsEdited`.
* Bearer and headers are documented to be registrable in either order; with `bearer_header` among them
  the bearer can move a header forward (src/credentials.rs:650-662):
  `CredentialBuilder.OrderIsKeptExactly`, with an instance in `CredentialBuilder.ExtraHeaderIsOvertaken`.
* `Pricing` advises callers to fall back to the input rate for an unpriced cache bucket
  (src/catalog/model.rs:20-22); the estimate gives no cost instead:
  `Costs.UnpricedCacheIsNotEstimated`, and for any price list `Bills.UnpricedTokensHaveNoCost`.

## Model

| member | source | states |
|---|---|---|
| StreamTypes.SuppressWithholdsExactlyTheCalls | src/types/response.rs:398-418 | withholding an unfinished turn's tool calls loses no part, warns once per call, leaves finished turns alone and is idempotent |
| StreamContract.CheckAllConcat | src/types/stream.rs:233-300 | the contract scanner reads a stream piece by piece: a break anywhere breaks the whole |
| StreamContract.ScannerIsTheRules | src/types/stream.rs:233-285 | the scanner accepts exactly the streams whose every event keeps the rules, stated over the events before it: at most one stream start, each block started once before deltas of its own kind and ended once after them, every block ended before the terminal event, nothing after it |
| StreamContract.FailedStreamsAreAccepted | src/types/stream.rs:233-285 | an error may leave blocks open but ends the stream: nothing may follow it and it may not follow the terminal event |
| AssemblerBuffers.RunDeltasAgreeWithBuffers | src/codecs/assembler.rs:233-301 | in every reachable state, what the run's deltas showed of an open block is a prefix of its buffer, equal to it unless it is redacted reasoning, and an opaque block's buffer is empty; only a reconcile that replaced the buffer breaks this |
| AssemblerBuffers.RunEndPartsCarryWhatWasHeard | src/codecs/assembler.rs:448-463 | ending or completing an open block in any reachable state gives one part, in the event and in the response, whose content is the text the run's deltas showed of it, under the same conditions |
| BlockRuns.OpenBlockReplaysItsCalls | src/codecs/assembler.rs:233-442 | an open block's buffer is the last reconciled whole and the deltas since; its signature, redaction, payload, identity and metadata are each what the calls say |
| BlockRuns.SealedBlockStaysSilent | src/codecs/assembler.rs:259-274 | once reasoning is redacted no call on it shows another delta while it is open |
| BlockRuns.FirstCallOpens | src/codecs/assembler.rs:209-442 | the block and the events an unused id gets from each first call: text opens text, reasoning, signature and redaction open reasoning, arguments and metadata an unnamed function call, a payload an opaque block, each with its own payload; repairs, ends and discards open nothing |
| BlockRuns.EndGivesThePartOfItsKind | src/codecs/assembler.rs:448-463 | the part an ended block gives, kind by kind: text; reasoning with its signature, origin and redaction; a call with its id, name, input and metadata, an empty function input reading `{}`; an opaque payload; a discard shows the part and keeps none |
| AssemblerParts.TextFragmentsBecomeText | src/codecs/assembler.rs:233-245 | text fragments for one id, scattered in any run, and then an end show a text block, each fragment in order and one text part of all of them |
| AssemblerParts.ReasoningFragmentsBecomeReasoning | src/codecs/assembler.rs:259-318 | reasoning fragments and a signature likewise give one reasoning part of all of them with that signature and the route's origin |
| AssemblerParts.ArgumentFragmentsBecomeACall | src/codecs/assembler.rs:209-301 | an announced call and its argument fragments likewise give one call with its id and name whose input is all of them |
| BlockRuns.ReconcileConverges | src/codecs/assembler.rs:349-381 | reconciling an open block after any fragments leaves its buffer exactly the whole content, so its end does not depend on how fragments were split or lost |
| BlockRuns.ReconcileOpensUnknownBlock | src/codecs/assembler.rs:349-381 | reconciling an unknown id opens it and shows the whole content |
| AssemblerBuffers.RunReconcileShowsTheTail | src/codecs/assembler.rs:349-381 | in any run, a reconcile extending what the consumer heard leaves the consumer and the buffer with exactly the whole content |
| AssemblerBuffers.RunReconcileConverges | src/codecs/assembler.rs:349-381 | after any run, reconciling an open block and ending it leaves that block closed with exactly the whole content and appends exactly its part |
| AssemblerModel.RunKeepsValid | src/codecs/assembler.rs:618-672 | in every reachable state ids are unique and every block is filed under its own id |
| AssemblerRuns.BlocksDoNotInterfere | src/codecs/assembler.rs:209-463 | a whole run, seen through one block id, is that block's own machine fed the calls that name it |
| AssemblerRuns.EventsFormGroups | src/types/stream.rs:69-92 | for every run and id the events are groups of start, deltas of the start's kind, end; only the last group may be unfinished, exactly when the block is open |
| AssemblerRuns.OneStartOneEnd | src/types/stream.rs:75-78 | an id never discarded has one start if it is known and one end if it is closed, and never more |
| AssemblerCompletion.RunAccounts | src/codecs/assembler.rs:448-463 | at every moment the response parts are the parts of the kept end events in event order, one per closed block |
| AssemblerCompletion.CompletionConservesBlocks | src/codecs/assembler.rs:544-586 | completing closes every block and ends with one response holding exactly the kept parts in end order before suppression; completing again does nothing |
| AssemblerReports.CompletedRunReports | src/codecs/assembler.rs:544-586 | the terminal response is for the route and has the id, usage, cost, raw document and finish reason the calls last set, `Incomplete` when none did; a turn cut by length or incomplete keeps the parts that are no tool calls and withholds the calls, in order, with a warning naming each; any other keeps all |
| AssemblerReports.RunAnnouncesItsCalls | src/codecs/assembler.rs:471-500 | beside its blocks a run announces its first start with its id, and after each usage call the snapshot as it then stands |
| AssemblerOrder.CompletionEndsInOpeningOrder | src/codecs/assembler.rs:544-560 | completion ends exactly the open blocks, once each, in the order they were last started |
| AssemblerCompletion.AtMostOneTerminal | src/codecs/assembler.rs:544-586 | a run emits one terminal event if it completes and none otherwise |
| AssemblerCompletion.ClosedBlockIsSilent | src/codecs/assembler.rs:623-672 | no call on a closed block emits or changes anything |
| AssemblerCompletion.KnownBlocksAreSilentAfterCompletion | src/codecs/assembler.rs:544-586 | after completion no later run, whatever it calls, emits anything about an id known then or changes its block |
| AssemblerContract.ContractHoldsExactlyWhenAllowed | src/types/stream.rs:233-285 | a run's events satisfy the contract scanner if and only if no call reopened a discarded id or emitted after completion |
| AssemblerContract.PlainRunsAreAccepted | src/types/stream.rs:69-92 | any calls without a discard and then one completion make an accepted stream |
| AssemblerContract.FailedRunsAreAcceptedExactly | src/types/stream.rs:224-232 | a run cut short by an error is accepted if and only if its calls were allowed and it had not completed |
| AssemblerContract.ReopeningAndLateCallsBreakTheContract | src/codecs/assembler.rs:595-608 | two short runs, one reopening a discarded id and one calling after completion, break the contract |
| StreamAssembler.StreamAssembler.constructor | src/codecs/assembler.rs:179-203 | a new assembler is the empty ledger for its route |
| StreamAssembler.StreamAssembler.Find | src/codecs/assembler.rs:618-620 | the position of the one block with an id, or none |
| StreamAssembler.StreamAssembler.FindOpen | src/codecs/assembler.rs:623-646 | the position of the one open block with an id, or none |
| StreamAssembler.StreamAssembler.OpenBlockWith | src/codecs/assembler.rs:649-672 | opens an unknown id once, with its start event, and otherwise changes nothing |
| StreamAssembler.StreamAssembler.Update | src/codecs/assembler.rs:623-646 | replacing the block at a position changes that id and no other |
| StreamAssembler.StreamAssembler.Start | src/codecs/assembler.rs:209-211 | the ledger's step for an announced start |
| StreamAssembler.StreamAssembler.Text | src/codecs/assembler.rs:233-245 | the ledger's step for text, latching included |
| StreamAssembler.StreamAssembler.Reasoning | src/codecs/assembler.rs:259-274 | the ledger's step for reasoning, silent when redacted |
| StreamAssembler.StreamAssembler.Arguments | src/codecs/assembler.rs:284-301 | the ledger's step for an argument fragment |
| StreamAssembler.StreamAssembler.Signature | src/codecs/assembler.rs:310-318 | the ledger's step for a signature snapshot |
| StreamAssembler.StreamAssembler.RepairToolIdentity | src/codecs/assembler.rs:328-337 | the ledger's step for a repaired identity, which opens nothing |
| StreamAssembler.StreamAssembler.ShowMissing | src/codecs/assembler.rs:361-381 | a missing tail goes through the delta method of the block's own kind |
| StreamAssembler.StreamAssembler.Reconcile | src/codecs/assembler.rs:349-381 | the ledger's step for reconciliation |
| StreamAssembler.StreamAssembler.SetRedacted | src/codecs/assembler.rs:391-399 | the ledger's step for redaction |
| StreamAssembler.StreamAssembler.SetOpaqueData | src/codecs/assembler.rs:406-417 | the ledger's step for an opaque payload |
| StreamAssembler.StreamAssembler.ProviderMetadata | src/codecs/assembler.rs:424-442 | the ledger's step for call metadata |
| StreamAssembler.StreamAssembler.End | src/codecs/assembler.rs:448-463 | the ledger's step for closing a block into the response |
| StreamAssembler.StreamAssembler.Discard | src/codecs/assembler.rs:595-608 | the ledger's step for removing an open block |
| StreamAssembler.StreamAssembler.Started | src/codecs/assembler.rs:471-478 | one start event however often it is called |
| StreamAssembler.StreamAssembler.SetUsage | src/codecs/assembler.rs:485-488 | the newest usage snapshot replaces the last |
| StreamAssembler.StreamAssembler.MergeUsage | src/codecs/assembler.rs:497-500 | the snapshot folded by the caller's update |
| StreamAssembler.StreamAssembler.SetFinishReason | src/codecs/assembler.rs:503-505 | only the finish reason changes |
| StreamAssembler.StreamAssembler.SetId | src/codecs/assembler.rs:513-515 | only the response id changes |
| StreamAssembler.StreamAssembler.SetRaw | src/codecs/assembler.rs:521-523 | only the raw document changes |
| StreamAssembler.StreamAssembler.SetCost | src/codecs/assembler.rs:530-532 | only the cost changes, the later one winning |
| StreamAssembler.StreamAssembler.OpenBlockIds | src/codecs/assembler.rs:544-560 | the open ids in the order they were opened |
| StreamAssembler.StreamAssembler.EndEach | src/codecs/assembler.rs:544-560 | ends the listed blocks in order |
| StreamAssembler.StreamAssembler.Complete | src/codecs/assembler.rs:544-586 | the ledger's completion step |
| StreamAssembler.StreamAssembler.AnnouncedToolCall | src/codecs/assembler.rs:220-225 | whether an explicit start announced a tool call under the id |
| StreamAssembler.StreamAssembler.HasToolCall | src/codecs/assembler.rs:611-615 | whether any block, open or closed, is a tool call |
| StreamAssembler.StreamAssembler.TouchWith | src/codecs/assembler.rs:209-463 | whatever the call on one block, the object takes the ledger's step |
| StreamAssembler.StreamAssembler.TakeCall | src/codecs/assembler.rs:209-608 | whatever the call, the object takes the ledger's step |
| StreamAssembler.StreamAssembler.TakeAll | src/codecs/assembler.rs:209-608 | any list of calls on the object gives the events and the final state of the ledger's run, so every result about runs is about the object |
| Overlay.MergeInto | src/catalog/overlay.rs:3-16 | the loop that removes and inserts keys computes the recursive merge |
| Overlay.MergeLaw | src/catalog/overlay.rs:3-16 | a merged value has a leaf at a path exactly when the overlay has it there, or the base does and the overlay does not cover the path |
| Overlay.CoversExactly | src/catalog/overlay.rs:3-16 | an overlay covers a path exactly when it has a value there or a leaf on the way |
| Overlay.MergeWithSelf | src/catalog/overlay.rs:150-154 | merging the same overlay again changes nothing |
| Overlay.FoldLaw | src/catalog/loader.rs:113-129 | after any number of layers, a leaf is there exactly when the last layer covering its path has it |
| Overlay.RegroupingIsSoundExactly | src/catalog/overlay.rs:3-16 | two groupings of three layers agree if and only if wherever a middle leaf stands between two tables the last absorbs the first |
| Overlay.RegroupingCanFail | src/catalog/overlay.rs:3-16 | a table, a leaf and a table at one path regroup to different values |
| Regrouping.RegroupingAnyLayersIsSoundExactly | src/catalog/loader.rs:113-129 | for any number of layers split in two, merging the groups agrees with merging all in turn if and only if wherever a later layer overrides an earlier value the later group as a whole does |
| Regrouping.ClashFreeLayersRegroup | src/catalog/overlay.rs:3-16 | layers in which no leaf stands where an earlier and a later layer both have a table may be merged in any two groups |
| Options.MergeOptions | src/codecs/options.rs:187-198 | the imperative map merge computes the overlay merge on object roots |
| Options.SplitControls | src/codecs/options.rs:107-121 | exactly the control keys are removed, and the auto-cache control is read from them |
| Options.WireOptions | src/codecs/options.rs:97-104 | away from the control key every leaf of the request's own options is sent, and every default leaf the request does not touch; without request options the defaults alone; `auto_cache` is the request's when it has one, else the default's |
| Options.EncodeBody | src/codecs/options.rs:187-198 | the body sent has those leaves too, keeps every encoded leaf neither level touches, and has under the control key just what was encoded there |
| Options.MergedCover | src/codecs/options.rs:97-104 | which paths the merged options cover, in terms of the two levels |
| Options.ThreeLevelLaw | src/codecs/options.rs:97-121 | outside control keys, exactly which level supplies each leaf of the body sent |
| Options.PrecedenceHolds | src/codecs/options.rs:97-121 | request leaves always arrive; default leaves the request does not cover arrive; body leaves neither covers survive |
| Options.ControlPathsKeepTheBody | src/codecs/options.rs:107-121 | under a control key the encoded body is untouched |
| Options.OptionsAreNotAFold | src/codecs/options.rs:97-104 | the three levels are not the fold of three layers, by example |
| Options.OptionsAreAFoldExactly | src/codecs/options.rs:97-104 | the options are the fold of both namespaces without control keys if and only if the three levels regroup |
| Loader.CatalogBuilder.Add | src/catalog/loader.rs:77-103 | a layer is queued after the earlier ones |
| Loader.CatalogBuilder.MergeDocument | src/catalog/loader.rs:113-129 | one more document extends the fold and the record of who declared what |
| Loader.CatalogBuilder.MergeBuiltin | src/catalog/loader.rs:176-181 | the built-in documents extend the fold in their own order |
| Loader.CatalogBuilder.Build | src/catalog/loader.rs:113-155 | the merged document is the fold of all layers in call order, and each provider is credited to the last document declaring it |
| Loader.RecordOrigins | src/catalog/loader.rs:166-173 | every provider the document declares is credited to it, the others keep their layer |
| Loader.DeclaresAKey | src/catalog/loader.rs:166-173 | a document declares a provider exactly as a key of its `providers` table |
| Loader.LayeredLookup | src/catalog/loader.rs:113-129 | the built configuration's leaf at a path is the last covering layer's |
| Loader.LastLayerDecides | src/catalog/loader.rs:113-129 | the last layer decides the paths it covers, a named document by itself and the built-in layer by the last of its documents to cover the path, and leaves the others to the layers under it |
| Loader.MergedProvidersHaveOrigins | src/catalog/loader.rs:130-155 | every provider of the merged document was declared by some layer, so its errors can name it |
| Catalog.ValidateIdentifier | src/catalog/mod.rs:185-203 | accepts exactly the nonempty strings of letters, digits, `-`, `_` and `.`, and for model ids `:` and `/`, and names the refused value |
| Catalog.ValidateIdentifiers | src/catalog/provider.rs:514-516 | accepts exactly lists of plain identifiers, and names the first refused one |
| Catalog.InsertAll | src/catalog/mod.rs:82-92 | inserting names one by one stops exactly at a repeat |
| Catalog.TryModel | src/catalog/model.rs:335-343 | a model record is accepted exactly when its id and aliases are identifiers |
| Catalog.TryModels | src/catalog/provider.rs:553-570 | the alias loop accepts exactly the records whose selectors are all different, and names a real repeat |
| Catalog.TryProvider | src/catalog/provider.rs:499-583 | succeeds exactly on records describing a valid provider; a failure names what is wrong with the record, its id before its models, an unknown default before a stand-in for itself |
| Catalog.TryProviders | src/catalog/mod.rs:73-95 | the provider loop accepts exactly valid providers with different selectors, and blames a provider that deserves it in its layer |
| Catalog.FromDocument | src/catalog/mod.rs:60-116 | a catalog comes out exactly when the version is 1 and the described catalog is valid, with every field of every record in place; an error is deserved and names the layer of the provider it is about |
| CatalogRules.ValidDocumentIs | src/catalog/mod.rs:60-116 | the records that describe a valid catalog: some, each with proper identifiers, models named once, a default it lists and no stand-in for itself, providers named once, stand-in targets among them |
| CatalogRules.SelectorsAreDistinctExactly | src/catalog/mod.rs:73-95 | inserting ids and then aliases meets no repeat exactly when no two entries share a name and none lists one twice |
| Offerings.SelectorsAreUnambiguous | src/catalog/mod.rs:73-95 | a validated selector answers for at most one entry, as id or alias |
| Offerings.ProviderSelectorsFindTheirProvider | src/catalog/mod.rs:151-158 | every id and alias of a provider finds that provider |
| Offerings.ModelSelectorsFindTheirModel | src/catalog/provider.rs:484-497 | every id and alias of a model finds that model on its provider |
| Offerings.ProviderModelSound | src/catalog/provider.rs:484-497 | a lookup succeeds exactly when some model carries the selector as id, alias or wire id, and returns such a model, the first by wire id when none matches otherwise |
| Offerings.ListEnabledProviders | src/catalog/offering.rs:106-115 | the enabled providers and no others, by higher priority and then smaller id |
| Offerings.OfferingsAreRanked | src/catalog/offering.rs:141-163 | sorting stably by the alias flag alone yields the whole documented ranking over exactly the enabled matches |
| Offerings.ListOfferings | src/catalog/offering.rs:144-163 | the enabled matches and no others: by id before by alias, then higher priority, then smaller provider id |
| RoutingLaws.RankingsAgree | src/resolver.rs:218-241 | the resolver's ranked matches equal the offering query's narrowed to available providers, for every catalog, available set and selector |
| RoutingLaws.BareSelectorPicksTheBest | src/resolver.rs:218-254 | a bare name resolves exactly when an enabled available provider offers it, to the candidate none outranks |
| RoutingLaws.CanonicalIdIsRouted | src/catalog/offering.rs:173-183 | without a provider, the canonical id of any selector is the best-ranked offering's; the route of a bare name is that offering whenever its provider is available, and a routed name always has one |
| RoutingLaws.NamedCanonicalIdIsRouted | src/catalog/offering.rs:173-183 | with a provider, the canonical id is that of the model its id, alias or wire id finds there, and the two as a handle route to it; a provider unknown, disabled or without the model counts as none |
| RoutingLaws.SlashedSelectorsDiverge | src/resolver.rs:192-208 | a selector with a slash is its own canonical id exactly when an enabled provider has that id, yet the resolver refuses it when the text before the slash names no provider |
| RoutingLaws.ProviderDefaultResolves | src/resolver.rs:330-346 | in a built catalog a provider default always resolves, to that very model, and agrees with the default offering |
| RoutingLaws.DefaultCandidatesAgree | src/resolver.rs:305-322 | filtering then sorting and sorting then filtering give the same candidates in the same order |
| RoutingLaws.DefaultsAgree | src/catalog/offering.rs:188-199 | resolving "default" equals the default offering when some enabled ready provider has a default; otherwise one reports it and the other falls back |
| RoutingLaws.ServingProviderIs | src/resolver.rs:264-287 | an enabled provider serves itself when available, else the first enabled available stand-in does, else none; a disabled one is refused |
| RoutingLaws.ExplicitIsSound | src/resolver.rs:289-303 | on one provider a selector resolves exactly when a model carries it as id, alias or wire id, or a non-blank one passes through |
| RoutingLaws.RoutesAreSound | src/resolver.rs:192-346 | every route has an enabled available provider owning or passing through its model, and a model mismatch is unreachable |
| RoutingLaws.ResolvedHandlesAreFixed | src/resolver.rs:200-208 | the printed handle of any sound route resolves to that route, slashes and passthrough models included |
| RoutingLaws.CatalogHandlesRoundTrip | src/catalog/provider.rs:176-180 | any provider name and model name written as a handle reach that provider's model |
| RoutingLaws.ResolveSelector | src/resolver.rs:192-255 | the resolver as it runs gives sound routes whose handles resolve to themselves |
| RoutingResults.ProviderNameResolves | src/resolver.rs:213-216 | a provider's id or alias resolves to the default model of whoever serves it, itself or its first available stand-in; disabled, unserved and without a default are told apart |
| RoutingResults.HandleResolves | src/resolver.rs:200-208 | a provider and a model resolve on whoever serves that provider, or fail as it does |
| RoutingResults.ModelOnAProviderResolves | src/resolver.rs:289-303 | on a provider the name is a model's id or alias, else the first wire id, else passed through unless blank or not allowed |
| RoutingResults.UnknownProviderIsRefused | src/resolver.rs:200-206 | a handle whose first part names no provider is refused by that part |
| RoutingResults.DefaultResolves | src/resolver.rs:305-322 | "default" is the default model of the enabled available provider of highest priority that names one, then of smallest id |
| RoutingResults.BareNameResolves | src/resolver.rs:218-254 | a bare name is the model so called that no other outranks, by id before alias, priority and provider id, and unknown exactly when none is offered |
| Sorting.LessIsLexicographic | src/resolver.rs:228-241 | ids are ordered by their first difference, a proper prefix first |
| Judge.SchemaFor | src/client/judge.rs:264-297 | one required property per question, named "q" and its number, and no others: a choice among the codes "c" and their numbers, or a number |
| Judge.VerdictFrom | src/client/judge.rs:320-417 | the decoding loop reads every question or stops at the first unreadable one, with that question's error; an unfinished turn and a wrong number of values are refused first |
| Judge.AcceptedExactlyWhenConforming | src/client/judge.rs:320-350 | an object is accepted if and only if the completion stopped and it has exactly the schema's keys with allowed values |
| Judge.AnswersAre | src/client/judge.rs:352-417 | the values that answer a question: an option's code, a number from zero to the last level, or a number from zero to one |
| Judge.JudgedVerdictsValidate | src/client/judge.rs:320-417 | every decoded verdict passes validation for the same evaluation |
| Judge.JudgeRoundTrips | src/client/judge.rs:320-417 | any assignment of options, scores and probabilities, in any field order, decodes to exactly those answers |
| Judge.RubricMatchesDecoding | src/client/judge.rs:215-260 | the label shown beside a code is the option the code decodes to, and the schema lists that code |
| Judge.QuestionKeysAreDistinct | src/client/judge.rs:299-305 | question keys never collide |
| Validation.AcceptanceIsExact | src/evaluation/validate.rs:31-125 | a verdict is accepted if and only if its rounding is allowed, it answers exactly the questions asked, and each answer is of its kind, in range, and consistent with its distribution |
| VerdictRules.AcceptanceWrittenOut | src/evaluation/validate.rs:31-125 | the same in numbers: at most fifteen places; probabilities from zero to one summing to one, no option above the choice, scores on the scale and near their mean, each within a millionth and half a unit of the declared rounding per value |
| VerdictRules.BeatenChoiceIsRefused | src/evaluation/validate.rs:70-80 | a choice some option's probability exceeds by more than a millionth is refused, whatever else the verdict holds |
| Validation.RefusalsAreOrdered | src/evaluation/validate.rs:22-60 | a refusal comes in the documented order, each by its id: too fine a rounding, the first missing answer in id order, the first unasked one, then the first unacceptable answer |
| Validation.FirstOffenderIsNamed | src/evaluation/validate.rs:51-123 | the refusal names the first question whose answer is not acceptable, all before it being acceptable |
| HonestProvider.HonestVerdictsAreAccepted | src/evaluation/validate.rs:68-111 | an honestly rounded verdict of any size is accepted exactly when at most fifteen places are declared |
| HonestProvider.SumDrift | src/evaluation/validate.rs:157-176 | a rounded distribution's sum drifts by at most half a unit per outcome |
| HonestProvider.MeanDrift | src/evaluation/validate.rs:93-108 | a rounded distribution's mean drifts by at most half a unit times each level's index |
| HonestProvider.RoundedIsMonotone | src/evaluation/validate.rs:75-86 | rounding never reorders, so the true mode stays a mode |
| HonestProvider.WholeNumbersStay | src/evaluation/validate.rs:87-92 | rounding fixes whole numbers, so it never leaves the scale |
| HonestProvider.MeanIsOnTheScale | src/evaluation/validate.rs:87-92 | a true mean lies between the first level and the last |
| HonestProvider.UndeclaredRoundingIsRefused | src/evaluation/answer.rs:109-135 | three thirds at two places are refused undeclared and accepted declared |
| Distributions.ChoiceProbabilities | src/codecs/evaluation_common.rs:218-254 | with a choice question succeeds exactly when each option has a number and no other key is there, giving each option its own in question order; otherwise keeps the wire's own |
| Distributions.ScoreProbabilities | src/codecs/evaluation_common.rs:260-291 | succeeds exactly when the keys are "0" up to the level count, or the field count without a question, with numbers, giving each level its own; an extra level is named by a key that parses as none |
| Distributions.ExtraKey | src/codecs/evaluation_common.rs:281-290 | names the first wire key that parses as no level, which is none, or the stand-in "?" when every key parses as one |
| Distributions.LevelSpellings | src/codecs/evaluation_common.rs:281-290 | a level may be written with a plus sign or leading zeros, and with nothing else |
| Distributions.OptionProbabilities | src/codecs/evaluation_common.rs:233-253 | the loops over options and over wire keys together accept exactly the question's options, and otherwise name the first option without a number, else the first foreign key |
| Distributions.WireProbabilities | src/codecs/evaluation_common.rs:227-238 | without a question every field is kept with its number in wire order, and the first that is no number is named |
| Distributions.WrittenNumbersReadBack | src/codecs/evaluation_common.rs:218-291 | numbers written under distinct keys in any order read back as written |
| Distributions.ReadChoicesAreComplete | src/codecs/evaluation_common.rs:218-254 | whatever is read for a choice question is complete to the validator |
| Cancellation.ReachableKeepsInv | src/middleware/mod.rs:71-92 | in every interleaving the flag precedes notification and no waiter sleeps on a notification already sent |
| Cancellation.RunProgresses | src/middleware/mod.rs:80-92 | from any cancelled state a waiter finishes once it has taken as many of its own steps as its place in the loop needs |
| Cancellation.NoEarlyReturn | src/middleware/mod.rs:80-92 | a waiter returns only after some cancel set the flag |
| Cancellation.NoLostWakeup | src/middleware/mod.rs:71-92 | once some cancel has returned no waiter is blocked |
| Cancellation.UncancelledWaitersSleep | src/middleware/mod.rs:80-92 | while nobody cancels a waiter is asleep after three of its own steps and stays so |
| Cancellation.SleepersWillBeWoken | src/middleware/mod.rs:71-92 | a waiter asleep with the flag up has a canceller whose next step wakes it |
| Cancellation.WaitersReturnPromptly | src/middleware/mod.rs:80-92 | after a cancel returned, every waiter returns within two of its own steps in every interleaving |
| Cancellation.CancellingIsPermanent | src/middleware/mod.rs:71-78 | the flag never comes down and returned waiters stay returned |
| Guards.TimeoutsOnlyTighten | src/middleware/guard.rs:31-43 | a timeout is refused exactly when the clock cannot express it, and otherwise adds its limit to the one already there |
| Guards.PreparedDeadlinesOnlyTighten | src/client/mod.rs:463-476 | preparing a call keeps its deadline and adds the request's timeout, or the default when it has none |
| Guards.RetryPermissionIsExact | src/middleware/guard.rs:62-69 | after a yes, a retry starting within its delay with its token uncancelled finds the guard open; after a no, none starting at its delay or later does |
| Guards.EnclosingGuardsAreOpen | src/middleware/mod.rs:371-378 | what a boundary's middleware, inside or endpoint do can change a poll's outcome only when its guard and every enclosing one are open at their own readings |
| Guards.ClosedGuardsHideTheirInside | src/middleware/mod.rs:371-378 | under a closed guard the result is the same for every middleware conduct, deeper stack and endpoint |
| Guards.ClosedGuardsHideTheEndpoint | src/middleware/mod.rs:371-378 | under a closed guard the result does not depend on the endpoint |
| Guards.PlainStacksArePolledPlainly | src/middleware/mod.rs:371-378 | middleware that hand results through leave only their guards |
| Guards.PlainResult | src/middleware/guard.rs:71-82 | a result comes through exactly when all guards are open; otherwise the outermost closed guard decides the failure |
| Guards.OutermostClosedGuardDecides | src/middleware/guard.rs:71-82 | the outermost closed guard gives the reason, cancellation before expiry, whatever inner guards or the endpoint say |
| Guards.NestedGuardsOnlyTighten | src/middleware/guard.rs:31-93 | a stack read at one moment is one guard with every token and the earliest deadline, however layers rewrote theirs |
| Guards.GuardedStreamIsAPrefix | src/middleware/guard.rs:84-93 | a guarded stream is its source poll for poll until a guard is closed or the source gives a terminal item; that poll gives one terminal item, the outermost closed guard's reason first, and every later poll the end |
| Guards.GuardedStreamEndsOnce | src/types/stream.rs:188-208 | item by item: the source's own while guards are open and it goes on, then one last item, a bare end reported as ending early and a closed guard as cancelled or expired, then bare ends |
| Guards.ReleasedForGood | src/types/stream.rs:188-208 | a released response stream stays released |
| Costs.EstimateIs | src/cost.rs:58-113 | an estimate exists exactly when every non-empty bucket has a rate, resolved speed, long-context, base, then derivation, and is the capped sum of floors |
| Bills.FlatBill | src/cost.rs:58-113 | under one full price list each bucket pays its own rate per million rounded down, reasoning as output, capped at 64 bits |
| Bills.ListIsChosen | src/catalog/model.rs:96-151 | each rate is that of the call's own speed, else the long-context one past the threshold, else the base one |
| Bills.UnlistedWritesPayAQuarterMore | src/cost.rs:79-86 | a missing cache-write rate, where it is derived, is a quarter more than the input rate |
| Bills.UnpricedTokensHaveNoCost | src/cost.rs:87-104 | a cost exists exactly when every kind of token used has a rate |
| Costs.UnpricedCacheIsNotEstimated | src/cost.rs:74-86 | cached tokens under a pricing with an input rate and no cache rate give no estimate |
| Costs.RatesResolve | src/catalog/model.rs:96-151 | applying the two overrides in order picks each rate from the speed, else the long context, else the base |
| Costs.TierIsDecidedByTheWholePrompt | src/cost.rs:64-68 | the long-context tier is decided by new input and both cache buckets together, saturation notwithstanding |
| Costs.DerivedRateIsFiveQuarters | src/cost.rs:79-85 | the derived cache-write rate is five quarters of the input rate rounded down |
| Costs.EstimateIsAccurate | src/cost.rs:58-113 | the estimate never exceeds the exact price and is less than four micro-dollars below it |
| Costs.SplittingABill | src/cost.rs:58-113 | within one tier, billing together costs at least as much as apart and at most four micro-dollars more, and one is priced exactly when the other is |
| Costs.SplittingABillAcrossTiers | src/cost.rs:58-113 | across tiers the four-micro bound holds around the change of each call's own bill at the tier reached together; it survives when the changes cancel and not when they exceed four |
| Costs.TiersBreakTheBound | src/catalog/model.rs:96-119 | across a long-context threshold the bound fails, by one example at every speed and either way of deriving rates |
| CredentialTable.Resolve | src/credentials.rs:471-493 | the loop comes to the first served mapping, else the first mapping's failure |
| CredentialTable.MappingResolvesExactly | src/credentials.rs:531-631 | a mapping resolves exactly when all its names are in the store, else reports the first missing |
| CredentialTable.ServedMappingCarriesItsSecrets | src/credentials.rs:531-616 | a served mapping yields its authentication and each extra header in order with its own secret's value |
| CredentialTable.ResolutionIsExact | src/credentials.rs:471-493 | a chain resolves exactly when some mapping has all its names, as the first such does; else the first mapping's first missing name, or not configured when empty |
| CredentialTable.AwsDefaultChainAlwaysResolves | src/credentials.rs:741-752 | a chain ending in the AWS default chain always resolves |
| CredentialTable.SecretNames | src/credentials.rs:404-414 | every name some mapping reads, once each, in first-appearance order |
| CredentialTable.DeduplicatedKeepsFirstPlaces | src/credentials.rs:404-414 | the advertised names stand in the order of their first appearances |
| CredentialTable.ResolutionDependsOnAdvertisedNames | src/credentials.rs:404-493 | two stores that agree on the advertised names resolve alike |
| CredentialTable.ResolveLinks | src/credentials.rs:850-873 | the first success, else the first failure that says more than not configured, else the first failure, else not configured |
| CredentialBuilder.Builder.WithHttp | src/credentials.rs:780-793 | edits the primary mapping, starting from blank when it is not HTTP, and touches no other provider |
| CredentialBuilder.Builder.SetPrimary | src/credentials.rs:796-799 | replaces the provider's whole chain |
| CredentialBuilder.Builder.Push | src/credentials.rs:802-805 | appends to the provider's chain |
| CredentialBuilder.Builder.RegisterEach | src/credentials.rs:645-805 | any registrations for one provider leave every other chain alone |
| CredentialBuilder.RegistrationOrderDoesNotMatter | src/credentials.rs:650-683 | a bearer inserted anywhere among headers gives that bearer and all headers in registration order |
| CredentialBuilder.OrderIsKeptExactly | src/credentials.rs:655-700 | with always-extra headers, order is kept under a later bearer if and only if none different came before the first authenticating header |
| CredentialBuilder.ExtraHeaderIsOvertaken | src/credentials.rs:655-700 | one always-extra header, a different header and then a bearer come out with the second header first |
| CredentialBuilder.FallbacksKeepTheirPlace | src/credentials.rs:776-805 | once a primary mapping exists, edits touch only it and fallbacks queue behind it in order |
| CredentialBuilder.EarlierFallbackIsKeptExactly | src/credentials.rs:776-793 | an earlier fallback survives an edit if and only if something stood before it, or the edit is empty or its own bearer |
| CredentialBuilder.FirstFallbackIsEdited | src/credentials.rs:776-793 | a fallback added first is edited by a later header |
| CredentialBuilder.EditReplacesWhatIsNotHttp | src/credentials.rs:776-793 | editing a chain whose primary mapping is not HTTP starts that mapping from blank and keeps the fallbacks |
| CredentialBuilder.ReplacingForgetsTheChain | src/credentials.rs:795-799 | naming a primary mapping drops everything registered before |
| CredentialBuilder.DerivedNameIs | src/credentials.rs:427-443 | the derived name is the provider's in capitals, dashes and dots as underscores, before `_API_KEY` |
| CredentialBuilder.DerivedCredentials | src/credentials.rs:445-467 | an unlisted provider's secret is a bearer token, its own header's value, a Bedrock key or not needed, as its scheme says |
| CredentialBuilder.ListedChainIsKept | src/credentials.rs:445-455 | a listed provider keeps the chain it lists whatever its scheme |
| CredentialBuilder.DerivedMappingResolves | src/credentials.rs:427-464 | an unlisted provider reads exactly its derived name, none when its scheme needs none, and is never configured otherwise |

## Left out

- Overlay.MergeInto: works on values and returns the merged tree, because the source owns each tree it merges; aliasing and the order of keys inside a table are not captured.
- Validation.AcceptanceIsExact: treats arithmetic on doubles as exact; a sum within one rounding step of the tolerance may fall the other way.
- Tool-call arguments are kept as the raw wire string per call kind; parsing them as JSON is not modelled.
- The assembler's route is a provider id and a model id; the usage update passed by a codec is a function on token counts.
- Catalog.TryModel: accepts on identifiers alone; the display name, limits and codecs of a row are not modelled.
- Catalog.TryProvider: accepts on identifiers, selectors, default and stand-in; the display name, base URL, adapter, codecs and headers are not modelled.
- Loader.CatalogBuilder.Build: stops at the merged document and the origins; reading records out of it is parsing, and Catalog.FromDocument takes the records and the origins from there.
- Catalog.TryModels: rests on Catalog.TryModel, so the display names, limits and codecs of the rows are not modelled either.
- Catalog.TryProviders: rests on Catalog.TryProvider, so the display names, base URLs, adapters, codecs and headers of the rows are not modelled either.
- Catalog.FromDocument: rests on both, so a document the source refuses only for one of those fields is accepted here.
- TOML and JSON parsing, the schema of records, and the contents of built-in documents: the builder starts from parsed documents.
- Offering queries for probes, closest models, small defaults and listings: each is one filter over the lists modelled here.
- Answer confidence, question texts and the prompt around the rubric: validation and decoding never read them.
- Codec answers other than distributions, and the encoding of questions for native protocols.
- Memory ordering below interleaving: the flag's store and load are single atomic steps, and between a store and its notification a poll may still deliver.
- Middleware are one poll's conduct each; what a middleware remembers between polls is free, and retries are further runs of the same stack.
- Guards.GuardedStreamIsAPrefix: nests boundaries whose middleware pass the stream through; a stream some middleware transforms is the source of the boundaries outside that middleware.
- The clock is a parameter at each reading, with the platform's latest instant as a bound.
- HTTP transport, server-sent events, provider codecs, tracing, retry scheduling, local files and the command line.
- Reading the process environment: a store of secrets is any function from names to values.
