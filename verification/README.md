# Verified model of the cell router operator

The operator turns `Cell`, `CellPlacement` and `CellRouter` resources into Gateway API objects. This
project models its decision logic in Dafny and proves what that logic guarantees. There are four parts.

- **Placement compiler.** Selectors (Exact, Prefix, Suffix, Range over a header, a query parameter or a
  path capture) become regular expressions. `RegexSyntax` fixes the fragment of regex text involved,
  with a printer and a parser that are inverse to each other, and `RegexMatch` says what a text
  matches, so the results below are about the text the operator emits and not about a tree.
  `RangeCompiler` proves that a compiled decimal interval matches exactly that interval;
  `CaptureScanner` and `PathCompiler` prove the scanner that splices a body into a named capture, and
  `CaptureOrder` which lists of path selectors compile and when their order matters;
  `PlacementCompiler` proves that compilation preserves meaning.
- **Planning.** `Overlap` says what the cheap overlap check computes, `OverlapExact` exactly which pairs of
  valid placements it flags, `JointRequests` when it agrees with the question it stands in for, whether some
  request satisfies both placements, and `OverlapLimits` gives inputs where it does not. `RoutePlans` proves
  which placements become routes, and `PinnedPaths` when routes on a path capture exclude each other.
- **Reconciliation.** `RouterController` is the router's controller as a class over cluster state, with
  a history of every state it passes through. Any API call may be refused, or take effect and still
  report an error. `RouterModel`, `Convergence`, `Safety` and `Reports` hold the properties it keeps and
  the state it ends in, and `Delivery` what the gateway then serves for each static route and placement.
  `CellController` is the condition machine of a cell. `Operations` runs arbitrary interleavings of all
  of them.
- **Builders and labels.** `Metadata`, `Builders`, `RouteBuilder` and `Overlay` say what the mutations leave,
  key by key and field by field, and that they are idempotent.

## Hypotheses

They are stated in the contracts and repeated here.

- `Schema` / `AllPresent`: a Range selector carries its range. The overlap check reads it before
  validation; the resource schema (`api/v1alpha1/cellplacement_types.go:85`) demands it.
- `RequestPlain`, `WildcardOk`: `.` does not match a newline, so Prefix and Suffix agree with their regex
  exactly when the part under the wildcard is newline-free. `CompiledValueExact` is the exact statement,
  `PrefixStopsAtNewline` a value for which the two differ.
- `HeadersApart`: header names of one placement differ up to case. Validation compares them case
  sensitively, HTTP does not (section 5.1 of RFC 9110), and a second match on the same name is ignored.
- `PathShape`: a search for `(?P<name>` finds each selected capture itself (`Reachable`), and no selected
  capture lies inside another. `ReplaceExact` shows that the first condition is exact,
  `OrderMattersIffNested` the second; `SplicesInsideClass` is a regex where the first fails. `PlainHeadFirst`
  is a purely syntactic condition that implies it.
- `Alone`: the head of a selected capture is spelled at that capture and nowhere else in the path regex. It
  stands where replacements may remove captures; `PlainAlone` is a syntactic condition that implies it.
- `Readable`: signatures of selectors are joined with `;`. Where placements have several ranges, the names
  of their sources must not contain one; `SignaturesRunTogether` shows two placements on different
  sources that are flagged because a name does. Results on one range each need no such hypothesis.
- `PartsSeparate`, `FieldsSeparate` (`Legible`): no part of a signature contains `;`, and no value contains the
  bar that separates the fields of a part; `FieldsRunTogether` shows why the second is there. They stand where
  the check is read back completely; that flagged placements share listeners and hostnames needs neither.
- No cell has the empty name, in the results of `Delivery` on placements: a primary cell without a name is
  skipped, and object names are never empty.
- `Comparable`: joint satisfiability is decided for placements that agree up to ranges, have header and
  query selectors only, and whose header names differ by more than case or not at all. `CaseMatters`
  shows why case is there.
- `PinnedSelector`: a path regex that is anchored at the front, reaches the capture over atoms of fixed
  width, and goes on with the end of the path or a fixed character that is no digit.
  `SearchedNotExclusive` shows two rules that share a request without it.
- Path matches are unanchored searches, as in Go's `regexp`; the Gateway API leaves the flavour of
  regular-expression path matches to the implementation.
- `NoCollision`: grant names contain a 32-bit hash. It stays uninterpreted and does not collide on the
  triples of route, namespace and Service in play.
- `Good`, on the state a run or history starts from: managed routes are covered, every labelled grant has
  the name of some triple in play (`WellNamed`), and a router without its finalizer has nothing managed
  (`finalizer || Clean`). An empty cluster is such a state, and every run keeps it.
- `CellsOk`, on the cells a history starts from: they are filed under their names, and those whose conditions
  read ready are among the initially admitted ones, a parameter of `History`.
- `Scope`: a history draws its names from a finite universe. The router's gateway name and namespace do
  not change.

Some expectations about the code are false and are replaced by what holds. The bound of `2^n - 1`
alternatives for n digits is attained by the interval from n zeros to n nines, but not only by it:
`BoundAttainedIff` is the exact condition on the digits. The overlap check is neither sound nor complete
with ranges on several sources (`MissedOverlap`, `FalseAlarm`); `FlagExactness` says exactly when it
agrees with joint satisfiability. Stale-object cleanup, unlike finalization, deletes a labelled object the
router does not control; `ForeignRouteKept` and `ForeignGrantKept` say exactly which ones stay.

## Model

| member | source | states |
|---|---|---|
| `Decimal.HeadOrder` | internal/controller/cellplacement_compiler.go:313-335 | on equal lengths numeric order is digitwise order |
| `Decimal.ShorterIsSmaller` | internal/controller/cellplacement_compiler.go:299-308 | a shorter canonical decimal has a smaller value |
| `Decimal.CanonicalInjective` | api/v1alpha1/cellplacement_validation.go:11 | a value has one canonical decimal |
| `Decimal.Uint64Digits` | api/v1alpha1/cellplacement_validation.go:125-132 | a value that fits into 64 bits has at most 20 digits, so repetition counts stay legal |
| `RegexSyntax.RoundTrip` | api/v1alpha1/cellplacement_validation.go:139-147 | parsing undoes printing on every well-formed tree |
| `RegexSyntax.ParseSound` | api/v1alpha1/cellplacement_validation.go:139-147 | every text the parser accepts is the print of a well-formed tree |
| `RegexMatch.AnchoredMatches` | internal/controller/cellplacement_compiler.go:133-139 | the anchored text matches a value iff the body matches all of it |
| `RegexMatch.JoinLang` | internal/controller/cellplacement_compiler.go:310 | alternatives joined by a bar match what some alternative matches |
| `RegexMatch.QuoteLang` | internal/controller/cellplacement_compiler.go:143-144 | a quoted value matches that value and nothing else |
| `Sorting.UniqueStrings` | internal/controller/cellplacement_compiler.go:395-407 | the in-place compaction leaves the sorted, deduplicated input in the front of the very slice; no unread cell is overwritten |
| `Sorting.UniqueSpec` | internal/controller/cellplacement_compiler.go:395-407 | that result is strictly increasing and has exactly the input's strings |
| `Sorting.UniqueKeepsAll` | internal/controller/cellplacement_compiler.go:395-407 | deduplication drops nothing from a list without repetitions |
| `Sorting.SortStrings` | internal/controller/cellplacement_compiler.go:380-384 | in-place insertion sort computes the sorted permutation |
| `Sorting.LessIsLexicographic` | internal/controller/cellplacement_compiler.go:380-384 | the order is that of Go strings: a proper prefix, or smaller at the first difference |
| `Sorting.SortEqual` | internal/controller/cellplacement_compiler.go:172-177 | comparing sorted copies compares multisets |
| `RangeCompiler.SameLengthLang` | internal/controller/cellplacement_compiler.go:313-335 | the alternatives for equal-length bounds match exactly the digit strings between them |
| `RangeCompiler.RangeLang` | internal/controller/cellplacement_compiler.go:282-311 | a compiled range matches exactly the canonical decimals in the closed interval, for every valid range |
| `RangeCompiler.RangeRegexExact` | internal/controller/cellplacement_compiler.go:133-139 | the same for the anchored text |
| `RangeCompiler.SameLengthDistinct` | internal/controller/cellplacement_compiler.go:313-335 | the alternatives are pairwise different and at most `2^n - 1`; deduplication drops none |
| `RangeCompiler.BoundAttainedIff` | internal/controller/cellplacement_compiler.go:313-335 | the bound is attained iff n is 1, or the first digits differ by at least 2, no inner digit of the lower bound is above 7 and none of the upper bound is below 2 |
| `RangeCompiler.FullIntervalCount` | internal/controller/cellplacement_compiler.go:328-334 | n zeros to n nines attains the bound |
| `RangeCompiler.BoundAlsoAttained` | internal/controller/cellplacement_compiler.go:328-334 | so does `01` to `98`, by the same condition |
| `RangeCompiler.AlternativesDisjoint` | internal/controller/cellplacement_compiler.go:313-335 | no string is matched by two alternatives |
| `CaptureScanner.FindClose` | internal/controller/cellplacement_compiler.go:245-279 | the loop over escape, class and depth state finds what the recursive scan finds |
| `CaptureScanner.ReplaceNamedCaptureBody` | internal/controller/cellplacement_compiler.go:238-280 | the scanner computes the splice specified by `Replaced`, errors included |
| `CaptureScanner.ScanBody` | internal/controller/cellplacement_compiler.go:245-279 | scanning the print of any tree ends where it began, at the same depth |
| `CaptureScanner.ReplaceAtHead` | internal/controller/cellplacement_compiler.go:238-280 | the scanner stops at the parenthesis that closes the capture, so the result is the print of the substituted tree |
| `CaptureScanner.ReplaceExact` | internal/controller/cellplacement_compiler.go:238-280 | replacement is substitution for every body iff the capture's head is the first occurrence of its spelling |
| `CaptureScanner.SplicesInsideClass` | internal/controller/cellplacement_compiler.go:239-245 | a text where it is not, and what the code returns |
| `PathCompiler.PlainHeadFirst` | internal/controller/cellplacement_compiler.go:239-245 | a sufficient condition by syntax alone: if no class mentions a parenthesis and no escaped one is optional, the first occurrence of a head is the capture |
| `PathCompiler.HeadFirstStays` | internal/controller/cellplacement_compiler.go:119-129 | replacing one capture by an emitted body leaves the head of every other, not nested, capture the first occurrence of its spelling |
| `PathCompiler.CompilePathIsSubstAll` | internal/controller/cellplacement_compiler.go:108-131 | if a search finds each selected capture and none is inside another, the result is the print of the simultaneous substitution |
| `PathCompiler.CompilePathAnyOrder` | internal/controller/cellplacement_compiler.go:119-129 | hence every order of the selectors compiles to the same text |
| `PathCompiler.SecondOverrides` | internal/controller/cellplacement_compiler.go:119-129 | a second replacement of the same capture overrides the first |
| `CaptureOrder.CompilesIffOrderly` | internal/controller/cellplacement_compiler.go:119-129 | a list of replacements succeeds iff each name is captured and lies inside no capture replaced before it |
| `CaptureOrder.PathCompilesIff` | internal/controller/cellplacement_compiler.go:108-131 | the path regex of a valid placement compiles iff each selected name is spelled `(?P<name>` in it and lies inside no capture selected before it; so the `(?<name>` spelling, which validation accepts, never compiles |
| `CaptureOrder.AloneAfter` | internal/controller/cellplacement_compiler.go:238-280 | replacing a capture leaves every other head spelled at its capture and nowhere else, also for captures that nest |
| `CaptureOrder.PlainAlone` | internal/controller/cellplacement_compiler.go:239-245 | in a plain tree every head is spelled only at its capture |
| `CaptureOrder.InOrder` | internal/controller/cellplacement_compiler.go:119-129 | compiling two selectors in an order fails iff the second one's capture is inside the first one's |
| `CaptureOrder.OrderMattersIffNested` | internal/controller/cellplacement_compiler.go:119-129 | two selectors compile to the same in both orders iff neither capture is inside the other |
| `PathCompiler.CompiledPathMatches` | internal/controller/cellplacement_compiler.go:108-131 | the compiled path regex matches iff the original does with its selected captures read as constraints instead of their old bodies |
| `Placements.ValidateRange` | api/v1alpha1/cellplacement_validation.go:114-137 | accepts exactly canonical 64-bit bounds in order |
| `Placements.ValidateSource` | api/v1alpha1/cellplacement_validation.go:89-111 | accepts exactly the sources with a name, a known kind and, for path captures, a regex with that group |
| `Placements.ValidateSelector` | api/v1alpha1/cellplacement_validation.go:58-86 | accepts exactly the selectors with a valid source and the operand their operator needs |
| `Placements.Validate` | api/v1alpha1/cellplacement_validation.go:19-55 | the single pass accepts iff all selectors are valid, their sources pairwise differ and path selectors share one regex |
| `Placements.GroupsCover` | api/v1alpha1/cellplacement_validation.go:139-147 | the captures the scanner recognizes are among the groups validation accepts, each once |
| `PlacementCompiler.SelectorBodyLang` | internal/controller/cellplacement_compiler.go:141-154 | the emitted body matches exactly the values the selector holds for with a newline-free wildcard part, and is safe to insert: it parses on its own, has no capture and spells no capture head |
| `PlacementCompiler.SelectorBodyFlat` | internal/controller/cellplacement_compiler.go:141-154 | the emitted body has no group at all, so no unescaped parenthesis |
| `PlacementCompiler.CompiledValueExact` | internal/controller/cellplacement_compiler.go:66-106 | the compiled header or query match holds iff the value is present, the selector holds and the wildcard part is newline-free |
| `PlacementCompiler.PrefixStopsAtNewline` | internal/controller/cellplacement_compiler.go:145-146 | a value that satisfies a Prefix selector and misses its match |
| `PlacementCompiler.CompilePath` | internal/controller/cellplacement_compiler.go:108-131 | the loop over the path selectors replaces their captures in order and stops at the first error |
| `PlacementCompiler.CompileValueMatches` | internal/controller/cellplacement_compiler.go:38-53 | the selector loop appends header and query matches in order, or reports the first error |
| `PlacementCompiler.RouteSpecFromPlacement` | internal/controller/cellplacement_compiler.go:15-64 | fails exactly on invalid placements and failing compilations; otherwise the destinations come back in order with their weights, the first as primary and the rest as additional backends, with no fallback, and name, listeners and hostnames are the placement's |
| `PlacementCompiler.CompiledCarriesOver` | internal/controller/cellplacement_compiler.go:15-64 | the same of the compiled specification that all results on plans and runs are about |
| `PlacementCompiler.PathMeaning` | internal/controller/cellplacement_compiler.go:108-131 | the compiled path match means the constrained path regex |
| `PlacementCompiler.CompilationPreservesMeaning` | internal/controller/cellplacement_compiler.go:15-154 | the rule built from a valid placement applies to a newline-free request iff all its selectors hold |
| `PlacementCompiler.NeverCatchAll` | internal/resource/router/builder.go:170-211 | a valid placement that compiles yields exactly one match, never the catch-all |
| `PlacementCompiler.RuleNeedsSelector` | internal/resource/router/builder.go:170-211 | on any request at all, a rule that applies implies each of its header and query selectors |
| `Overlap.IntersectIsCommonValue` | internal/controller/cellplacement_compiler.go:230-236 | two valid ranges intersect numerically iff some value matches both compiled regexes |
| `Overlap.SignatureReads` | internal/controller/cellplacement_compiler.go:204-218 | for equal non-range parts and readable ranges, signatures are equal iff the range parts are equal as multisets |
| `Overlap.SingleRangeReads` | internal/controller/cellplacement_compiler.go:204-218 | with one range each on one source, equal signatures mean equal ranges, whatever the names contain |
| `Overlap.KinCheck` | internal/controller/cellplacement_compiler.go:171-202 | for placements equal up to readable ranges the check depends on the ranges alone |
| `Overlap.FlaggedIffSomeSourceMeets` | internal/controller/cellplacement_compiler.go:171-202 | such a pair is flagged iff some source has a value both compiled ranges match |
| `Overlap.FlaggedIffIntersect` | internal/controller/cellplacement_compiler.go:171-236 | with one range each on one source, flagged iff the intervals intersect |
| `Overlap.FlaggedIffCommonValue` | internal/controller/cellplacement_compiler.go:171-236 | equivalently, iff some string matches both compiled regexes |
| `OverlapExact.FlaggedSameAudience` | internal/controller/cellplacement_compiler.go:172-178 | any flagged pair has the same listeners and the same hostnames, as multisets |
| `OverlapExact.OtherPartsRead` | internal/controller/cellplacement_compiler.go:204-218 | if no part has the separator, signatures without ranges are equal iff the parts are equal as multisets |
| `OverlapExact.SourceKeyInjective` | api/v1alpha1/cellplacement_validation.go:149-159 | valid sources with the same key are the same source |
| `OverlapExact.FlaggedIffParts` | internal/controller/cellplacement_compiler.go:172-202 | any two valid placements whose parts lack the separator are flagged iff listeners, hostnames and non-range parts are equal as multisets and either neither has a range or some source has an intersecting range in both |
| `OverlapExact.FlaggedIff` | internal/controller/cellplacement_compiler.go:172-236 | if moreover no value has a bar, the non-range selectors themselves are equal: flagged iff alike up to ranges, with no range or a shared one |
| `JointRequests.JointIffAllIntersect` | internal/controller/cellplacement_compiler.go:190-201 | some request satisfies both placements iff their ranges intersect on every source they share |
| `JointRequests.FlagExactness` | internal/controller/cellplacement_compiler.go:171-202 | the check agrees with that iff neither placement has a range, or some shared source intersects exactly when all do |
| `OverlapLimits.DifferentSourcesPass` | internal/controller/cellplacement_compiler.go:190-201 | placements whose ranges are on different sources are never flagged |
| `OverlapLimits.MissedOverlap` | internal/controller/cellplacement_compiler.go:190-201 | two valid placements that one request satisfies and that are not flagged |
| `OverlapLimits.FalseAlarm` | internal/controller/cellplacement_compiler.go:190-201 | two valid placements that no request satisfies together and that are flagged |
| `OverlapLimits.SignaturesRunTogether` | internal/controller/cellplacement_compiler.go:204-218 | two valid placements on different sources that are flagged because a name spells the separator |
| `OverlapLimits.FieldsRunTogether` | internal/controller/cellplacement_compiler.go:204-218 | two valid placements on different headers and values that are flagged because a bar in a name and in a value makes their parts equal |
| `OverlapLimits.CaseMatters` | api/v1alpha1/cellplacement_validation.go:39-43 | a valid placement with two spellings of one header that overlaps itself on every source and that no request satisfies |
| `RoutePlans.RecordOverlaps` | internal/controller/cellplacement_compiler.go:156-169 | the nested loops record for each name its overlapping partner of greatest index, and nothing else |
| `RoutePlans.ValidatePlacementOverlaps` | internal/controller/cellplacement_compiler.go:156-169 | the same for placements with distinct names |
| `RoutePlans.RecordedIffConflicted` | internal/controller/cellplacement_compiler.go:156-202 | a name is recorded iff another placement overlaps it |
| `RoutePlans.ConflictedAnyOrder` | internal/controller/cellplacement_compiler.go:156-202 | a placement that conflicts in one order of the list conflicts in every other |
| `RoutePlans.OverlapKeysAnyOrder` | internal/controller/cellplacement_compiler.go:156-169 | the recorded names are the same for every permutation of the list |
| `RoutePlans.PlanStatic` | internal/controller/cellrouter_controller.go:338-346 | static routes become plans in order, or a name repeats |
| `RoutePlans.PlanPlacements` | internal/controller/cellrouter_controller.go:348-370 | placements are planned in order or marked invalid; fails iff a name repeats |
| `RoutePlans.BuildRoutePlans` | internal/controller/cellrouter_controller.go:335-373 | fails iff a name repeats; otherwise static routes come first, then the planned placements, and exactly the others are marked invalid: as overlapping, naming the last placement they overlap, iff they overlap one |
| `RoutePlans.PlansPartition` | internal/controller/cellrouter_controller.go:335-373 | plans and invalid placements add up to routes and placements |
| `RoutePlans.PlanNamesDistinct` | internal/controller/cellrouter_controller.go:335-373 | no two plans share a name |
| `RoutePlans.OwnAudiencePlanned` | internal/controller/cellrouter_controller.go:354-369 | a placement that compiles and shares its listeners and hostnames with no other one is planned |
| `RoutePlans.PlannedIffNoRival` | internal/controller/cellrouter_controller.go:348-370 | among valid placements without separators in their texts, one is planned iff it compiles and no other is alike up to ranges with no range or a shared one |
| `RoutePlans.PlannedPlacementsExclusive` | internal/controller/cellrouter_controller.go:354-369 | no request is matched by the rules of two planned placements that differ only in their range on one header or query parameter |
| `PinnedPaths.PinnedPlacementsExclusive` | internal/controller/cellrouter_controller.go:354-369 | the same for a range on a path capture that the regex pins |
| `PinnedPaths.PathRange` | internal/controller/cellplacement_compiler.go:108-131 | a rule on a pinned capture that applies has read, at its offset and up to where digits end, a number in the range |
| `PinnedPaths.SearchedNotExclusive` | internal/controller/cellplacement_compiler.go:119-130 | without the pin: two planned placements with disjoint ranges and a request both rules match |
| `Metadata.Merge` | internal/utils/metadata/merge.go:6-31 | the result is the overlay without protected keys, whatever the iteration order |
| `Metadata.MergedAt` | internal/utils/metadata/merge.go:20-30 | key by key: an unprotected key of the source wins and every other key is as in the destination |
| `Metadata.OperatorKeysWin` | internal/resource/cell/builder.go:19-28 | operator keys end with the operator's values whatever the object had and the user asks, the user's other keys with the user's, and all others as they were |
| `Metadata.OwnedIdempotent` | internal/resource/cell/builder.go:19-28 | merging again changes nothing |
| `Builders.ListenersAnyOrder` | internal/resource/router/builder.go:55-73 | listeners with distinct names come out equal from every order of the specification |
| `Builders.SortedListeners` | internal/resource/router/builder.go:55-73 | the loop computes the stable sort by name |
| `Builders.Gateway.Mutate` | internal/resource/router/builder.go:42-74 | the labels and annotations are layered so, the class is the specified one, and the listeners are the specified ones in the order of their names |
| `Builders.GatewaySettles` | internal/resource/router/builder.go:42-74 | building again, also from reordered listeners, changes nothing |
| `Builders.Service.Refill` | internal/resource/cell/builder.go:44-56 | the selector ends as exactly the wanted one; no stale key stays |
| `Builders.Service.Mutate` | internal/resource/cell/builder.go:31-84 | the labels and annotations are layered so, the selector is the workload's or else the cell's name, and the one port is the entrypoint's with the API's defaults |
| `Builders.ServiceSettles` | internal/resource/cell/builder.go:31-84 | building again changes nothing, and the selector's keys are the workload's |
| `CellController.FindUpsert` | internal/controller/cell_controller.go:403-411 | setting a condition changes what is read for its own type only |
| `CellController.CountReadyEndpoints` | internal/controller/cell_controller.go:288-306 | the loop computes the 32-bit wrap of the sum that the next rows describe |
| `CellController.NoneReadyIff` | internal/controller/cell_controller.go:294-305 | the sum is zero iff every endpoint of every slice is reported not ready or has no address; one that reports nothing counts |
| `CellController.EndpointAdded` | internal/controller/cell_controller.go:297-302 | one endpoint more in any slice adds exactly its addresses, unless it is reported not ready |
| `CellController.CountAnyOrder` | internal/controller/cell_controller.go:294-305 | the sum depends only on the multiset of endpoints |
| `CellController.SlicesPermute` | internal/controller/cell_controller.go:294-296 | reordering slices keeps that multiset |
| `CellController.EndpointsPermute` | internal/controller/cell_controller.go:297-302 | and so does reordering endpoints within slices |
| `CellController.WrapFits` | internal/controller/cell_controller.go:293-302 | the 32-bit count is congruent to the sum and in range; it is zero iff 2^32 divides the sum |
| `CellController.CountIsExact` | internal/controller/cell_controller.go:294-305 | below 2^31 addresses the count is the number |
| `CellController.SettleReads` | internal/controller/cell_controller.go:124-146 | after the last switch Ready holds iff the state admits traffic and the count is not zero, BackendReady iff the cell is not disabled and the count is not zero, or positive while draining, and other conditions are as before |
| `CellController.ReconcileNormal` | internal/controller/cell_controller.go:76-158 | from any prior conditions, after a successful status patch the cell is traffic-ready iff all steps succeeded, the state is neither draining nor disabled and the 32-bit count is not zero; each step's condition tells its outcome if the step was reached and is as before if not; requeue, result, stored namespace, state and count exactly |
| `CellController.AdmitsIff` | internal/controller/cell_controller.go:124-146 | below 2^32 addresses a cell is admitted iff its steps succeed, it is neither draining nor disabled, and some endpoint with an address is not reported unready |
| `Overlay.FoldAt` | internal/controller/cellrouter_controller.go:300-303 | after a series of create-or-update writes each key holds its last write over what it had |
| `Overlay.FoldIdempotent` | internal/controller/cellrouter_controller.go:300-303 | repeating the series changes nothing |
| `Convergence.WrittenIdempotent` | internal/controller/cellrouter_controller.go:258-322 | a run that stops before its cleanups and is repeated writes nothing new |
| `RouterModel.ResolveIsSubsequence` | internal/controller/cellrouter_controller.go:441-473 | resolution keeps order and weights and drops exactly the references that do not resolve |
| `RouterModel.ResolvesIff` | internal/controller/cellrouter_controller.go:456-468 | a reference resolves iff its cell exists, is traffic-ready and has namespace, service and port, and then to these with the reference's weight |
| `RouterModel.GrantNameInjective` | internal/resource/router/builder.go:27-31 | equal grant names mean equal route, namespace and Service, if the hash does not collide |
| `RouterModel.TripleTextInjective` | internal/resource/router/builder.go:27-31 | the hashed text determines route, namespace and Service, whose names have no slash |
| `RouterModel.GrantStepCovered` | internal/controller/cellrouter_controller.go:544-558 | writing a grant takes no permission away from a covered route |
| `RouterModel.RouteStepCovered` | internal/controller/cellrouter_controller.go:295-303 | writing a route keeps coverage if all its backends are granted |
| `RouterModel.DropGrantsCovered` | internal/controller/cellrouter_controller.go:597-606 | deleting grants no managed route needs keeps coverage |
| `RouterModel.CoveredPermits` | internal/resource/router/builder.go:77-105 | corollary of `ReconcileRoutes` and `History`: each backend of a managed route has a grant in its own namespace that permits it |
| `RouterModel.HttpSpecSays` | internal/resource/router/builder.go:118-167 | a written route has the plan's hostnames; its parents are the gateway, one per listener in order, or one without a section; its backends have namespace, name, port and weight of the resolved ones in order; it has no match iff the plan has no path, header and query match, and otherwise one match with all three |
| `RouteBuilder.HttpRoute.Mutate` | internal/resource/router/builder.go:108-167 | the method with its two loops leaves exactly that specification and the router's labels over those the object had |
| `Convergence.SettledRoute` | internal/controller/cellrouter_controller.go:258-326 | the routes a successful run leaves, key by key |
| `Convergence.SettledGrant` | internal/controller/cellrouter_controller.go:287-330 | the grants it leaves, key by key |
| `Convergence.ExactRoutes` | internal/controller/cellrouter_controller.go:295-326 | labelled routes in the gateway namespace are exactly the materialized plans, owned by the router, labelled with its name, cell and placement, and with hostnames, parents, matches and backends as the plan says, field by field |
| `Convergence.ExactGrants` | internal/controller/cellrouter_controller.go:287-330 | labelled grants are exactly those of the desired backends; each is the router's, names its route and cell, and permits exactly the gateway namespace to refer to exactly that Service |
| `Convergence.SettledIdempotent` | internal/controller/cellrouter_controller.go:232-333 | settling again changes no route and no grant |
| `Safety.ExpectedAreResolved` | internal/controller/cellrouter_controller.go:279-287 | the expected routes are exactly the plans with a resolved backend |
| `Safety.ExpectedSuffice` | internal/controller/cellrouter_controller.go:324-330 | once stale routes are gone, managed routes need only expected grants, so routes must be cleaned up first |
| `Safety.ResolvedChosen` | internal/controller/cellrouter_controller.go:401-439 | over the fields of the specification: the primary cell comes first with the route's weight iff it resolves, then exactly the resolving additional backends in order with their weights; the fallback comes iff none of these resolves and it does; nothing iff nothing resolves |
| `Safety.ChosenReady` | internal/controller/cellrouter_controller.go:475-500 | a chosen backend is the address of a cell that resolves, with the weight of its reference |
| `Safety.SettledSound` | internal/controller/cellrouter_controller.go:258-333 | after a successful run every managed route says, field by field, what a plan says on its chosen backends |
| `Safety.ForeignRouteKept` | internal/controller/cellrouter_controller.go:560-584 | a route of another owner outside the plans survives a run iff it does not carry the router's labels in the gateway namespace |
| `Safety.ForeignGrantKept` | internal/controller/cellrouter_controller.go:586-609 | a grant the run does not write survives iff it is not labelled under an unexpected name |
| `Reports.IsRouteReady` | internal/controller/cellrouter_controller.go:502-542 | ready iff some parent that is the gateway has Accepted true and no ResolvedRefs, or one that is true |
| `Reports.StatusKept` | internal/resource/router/builder.go:108-167 | writing routes keeps the status a gateway implementation reported |
| `Reports.CountKeeps` | internal/controller/cellrouter_controller.go:264-321 | each pass of the plan loop keeps expected names, statuses and flags equal to their definition over the plans so far |
| `Reports.OneStatusEach` | internal/controller/cellrouter_controller.go:240-322 | exactly one status entry per static route and per placement, in whatever order invalid placements are visited |
| `Reports.AllTold` | internal/controller/cellrouter_controller.go:243-271 | each entry tells a plan's name, listeners, primary cell, placement and the cells of its chosen backends, or names a placement without a plan and nothing else |
| `RouterController.Cluster.CreateOrUpdate` | internal/controller/cellrouter_controller.go:550-553 | an object under another controller is left alone and the call fails; otherwise the state is the built one, or unchanged with an error reported |
| `RouterController.Cluster.ResolveRouteBackends` | internal/controller/cellrouter_controller.go:401-473 | unless a read fails, returns the backends that `ResolvedChosen` describes |
| `RouterController.Cluster.ReconcileGrants` | internal/controller/cellrouter_controller.go:288-293 | all backends of the plan are granted on success; every state on the way is safe |
| `RouterController.Cluster.ReconcilePlan` | internal/controller/cellrouter_controller.go:258-321 | one pass writes the plan's grants and route or nothing, reports readiness, and passes safe states only |
| `RouterController.Cluster.ReconcilePlans` | internal/controller/cellrouter_controller.go:258-322 | the loop ends in all plans written, with exact expected names, statuses and flags |
| `RouterController.Cluster.CleanupStaleRoutes` | internal/controller/cellrouter_controller.go:560-584 | deletes exactly the labelled, unexpected routes of the gateway namespace |
| `RouterController.Cluster.CleanupStaleGrants` | internal/controller/cellrouter_controller.go:586-609 | deletes exactly the labelled, unexpected grants |
| `RouterController.Cluster.ReconcileRoutes` | internal/controller/cellrouter_controller.go:232-333 | at every state of every run, aborted or not, managed routes are covered and other controllers' objects are not taken over; success means the settled state, sound routes and an accurate report; without failing calls it succeeds iff names are distinct and no object to be written is under another controller |
| `RouterController.Cluster.ReconcileNormal` | internal/controller/cellrouter_controller.go:90-153 | the same for the whole reconcile, from the state with finalizer and gateway in place; it succeeds iff the routes were reconciled and the status patch got through |
| `RouterController.RunRoutesExact` | internal/controller/cellrouter_controller.go:232-333 | after a successful run labelled routes are exactly the plans with at least one resolved backend |
| `RouterController.RunGrantsExact` | internal/controller/cellrouter_controller.go:232-333 | and labelled grants exactly those of their backends, each permitting exactly what it is for |
| `RouterController.SecondRunChangesNothing` | internal/controller/cellrouter_controller.go:232-333 | a second successful run on the same inputs leaves the whole state as it is |
| `Delivery.StaticRouteServed` | internal/controller/cellrouter_controller.go:258-322 | after a successful run a static route is there iff something it refers to resolves, and it says what the specification says on the chosen backends |
| `Delivery.PlacementServed` | internal/controller/cellrouter_controller.go:258-322 | a planned placement has a route iff one of its destinations resolves; the route has exactly the resolving destinations as backends, in order with their weights, and the placement's hostnames, listeners, compiled match and name |
| `Delivery.PlacementTakesRequests` | internal/controller/cellrouter_controller.go:232-333 | that route takes a newline-free request iff all the placement's selectors hold of it |
| `Delivery.UnplannedAbsent` | internal/controller/cellrouter_controller.go:243-256 | a placement that overlaps another or does not compile has no route |
| `RouterController.Cluster.DeleteManagedRoutes` | internal/controller/cellrouter_controller.go:636-659 | on success no managed route is left; every route that is not both labelled and controlled stays as it is throughout |
| `RouterController.Cluster.DeleteManagedGrants` | internal/controller/cellrouter_controller.go:681-703 | on success no managed grant is left; every grant that is not both labelled and controlled stays as it is throughout |
| `RouterController.Cluster.DeleteManagedGateway` | internal/controller/cellrouter_controller.go:661-679 | on success the router controls no gateway; any other gateway stays |
| `RouterController.Cluster.ReconcileDeletion` | internal/controller/cellrouter_controller.go:155-183 | at every state coverage holds, nothing is created or changed, only managed objects are gone, and the finalizer is gone only if nothing managed remains; without failing calls it completes |
| `Operations.ResolvedInScope` | internal/controller/cellrouter_controller.go:611-634 | resolved backends stay within the names in play |
| `Operations.RunCellOp` | internal/controller/cell_controller.go:76-158 | a cell reconcile changes that cell alone, and a stored one decides whether the cell is admitted: iff it found every step, the state and the count in order |
| `Operations.RunRouterOp` | internal/controller/cellrouter_controller.go:67-88 | dispatch to nothing, finalization or the normal path, with their guarantees; without failing calls the outcome is determined |
| `Operations.Perform` | internal/controller/cellrouter_controller.go:66-183 | every operation changes the cluster, the cells and the admitted cells as specified, and only those it concerns |
| `Operations.History` | internal/controller/cellrouter_controller.go:66-183 | over every interleaving, every state is safe; the log ties each state, the cells and the admitted cells to the operations before; every successful router reconcile ends settled, sound and accurately reported; one without failing calls succeeds iff names are distinct and no other controller is in the way, and finalizes a router being deleted |
| `Operations.AdmittedIffLastAdmitting` | internal/controller/cell_controller.go:76-158 | in any log a cell is admitted iff the last stored reconcile or removal of it was a stored reconcile that admits it, on the specification it then had, or there is none and it was admitted at the start |
| `Operations.SpecIffLastSpec` | internal/controller/cell_controller.go:421-426 | in any log a cell has a specification iff the last edit or removal of it gave it that one |
| `Operations.HistoryServesRightful` | internal/controller/cellrouter_controller.go:258-332 | over every history, right after a successful router reconcile every backend of a managed route is the namespace, service and port of a cell whose last specification is neither draining nor disabled and whose last stored reconcile admitted it |
| `Operations.BackendsAdmitted` | internal/controller/cellrouter_controller.go:475-500 | the same for one run: every backend is the namespace, service and port of an admitted cell that is neither draining nor disabled |
| `Operations.NothingOrphaned` | internal/controller/cellrouter_controller.go:174-182 | corollary of `History` and `ReconcileDeletion`: a router that is gone has left no managed route, grant or gateway, at any state of any history |

## Left out

- `cmd/main.go`, manager wiring, flags, RBAC, event recording, logging and the watch mapping functions: plumbing without routing decisions.
- `api/v1alpha1/zz_generated.deepcopy.go`: generated copies.
- ValidateSource: stands in for Go's `regexp.Compile` with the parser of the fragment. Repetition `{n,m}`, lazy quantifiers, flags, POSIX and Unicode classes, escapes of letters and digits other than `\d`, `\w`, `\s` and their negations (so `\n`, `\t`, `\b`, `\A`, `\pL`, `\x41`), and raw `]`, `{` and `}` are outside and rejected here; nested repeat counts whose product exceeds 1000, also those that arise when a range body is inserted under an outer count, are accepted here and refused by Go.
- The FNV hash of grant names: uninterpreted, with the no-collision hypothesis above.
- Condition messages and reasons, status reasons, generations and timestamps, and the contents of placement and router status: the calls that patch them are modelled as calls that may fail.
- ResourceQuota, LimitRange and NetworkPolicy contents and the gateway namespace's labels: plain field copies.
- Finalization of a Cell: only its normal reconcile feeds the router.
- Deletion is immediate: finalizers of other controllers on routes, grants and gateways are not modelled, and neither are stale caches or writers other than the ones in `Operations`.
- Cells do not change while one router reconcile runs; they change between runs.
- Aliasing of the map that `Merge` writes into: the model returns the new map, and its callers assign it back as the source does.
- `routeSpecFromPlacement` has no effects, so the model compiles all placements ahead of the loop that consults the results.
- CompilationPreservesMeaning: for path captures the meaning is that of the original regex with the selected captures' bodies replaced; the code discards the original bodies, so the result is not contained in the original language.
