# rela: a verified model of its hard parts

This project models six parts of rela and proves what they are for: the generation switch
of rela-server, the client ceiling of the access-control layer with the authorizer and its
reports, the expansion of abstract types in a policy, the CSS layering of the frontend
build, the desktop's keychain-backed secrets and connector tokens, and two build tools.
`dafny verify dfyconfig.toml` checks all of it.

## How the parts are modelled

- **Generation switch** (`GenerationSwitch`, `SchedulerSafety`, `SchedulerTheorems`,
  `DrainSafety`, `DrainTheorems`, `ProgressTheorems`). Requests, one save at a time and
  any number of background retirements run as a transition system with one atomic load, store,
  add or critical section per step, over any number of generations and threads. Deadlines and
  cancellations are free choices. The theorems hold after every run; two inductive invariants
  carry them.
- **Client ceiling** (`Text`, `Grants`, `Ceiling`, `CeilingLaws`, `CeilingValidation`,
  `Authorize`, `AuthorizeLaws`, `AccessReports`). The code narrows roles by rewriting lists and
  re-checks at match time; the theorems compare that with plain sets, path by path. The
  attributions of a principal are given.
- **Abstract types** (`AbstractTypes`, `FieldExpansion`, `PolicyExpansion`, `LoadedCeiling`). A
  policy object is rewritten in place; the theorems say what the rewritten lists, field maps and
  blocks mean in terms of the original ones, and what a loaded policy then permits.
- **CSS layering** (`CssLayer`, `CssDeclarations`, `CssCascade`, `CssTokenContract`,
  `CssElements`). A sheet is a tree; its meaning is the sequence of declarations with what
  encloses them; the cascade is the order of section 6.1 of CSS Cascading and Inheritance Level 5
  (importance, layer, specificity, order). Matching and specificity are left open, and given for
  compound selectors in `CssElements`.
- **Keychain** (`SecretStore`, `SecretStoreLaws`, `PlaceHistory`, `DesktopTokens`). The classes
  work over a keychain whose every call may be refused, or applied and still report an error.
  Each method is proved to take one step of a store; the laws are about every sequence of steps.
- **Build tools** (`BuildTags`, `GeneratedRegion`).

## Where the code does less than it says

Each of these is proved with a case that shows it, and, where the property holds sometimes,
with the exact condition under which it does.

- `Service.Retry` in internal/configedit/service.go migrates and activates without pausing the
  serving generation. It migrates beside its scheduler and writers, so can a save that follows,
  and that save's resume can run two schedulers (`SchedulerTheorems.RetryRun`,
  `SchedulerTheorems.OneSchedulerExactly`, `DrainTheorems.MigrationAloneExactly`). One scheduler
  is restored if saves and retries wait for the halt of every generation that was replaced
  unpaused (`SchedulerTheorems.GuardedRunsHaveOne`).
- A ceiling can grant a permission: `filterPermissions` replaces a role's `"*"` by the allowlist,
  while permission checks never read `"*"` as a wildcard
  (`AuthorizeLaws.CeilingCanGrantARelation`, `AuthorizeLaws.RelationNeverOpenedExactly`). By the
  same swap a role that says `"*"` beside a named permission loses the name under an allowlist
  `["*"]`, and a relation write that ceiling and user both permit is denied
  (`AuthorizeLaws.CeilingCanDropARelation`, `AuthorizeLaws.RelationNeverDroppedExactly`,
  `AuthorizeLaws.RelationExactly`).
- A `visible:` entry left empty in YAML is nil, and folding a redaction into it loses the
  redaction (`FieldExpansion.NilVisibleLosesRedaction`,
  `FieldExpansion.RedactionKeptExactly`).
- A scope's `"*"` by itself re-opens nothing on a denial axis, despite the union stated in
  internal/acl/ceiling.go (`CeilingLaws.HarmfulStar`, `CeilingLaws.CeilingIsStatedUnionExactly`).
- A custom property set both in a palette and by a heavier rule that is no document scope, such
  as `html:root`, changes its winner on an element that both match
  (`CssElements.HtmlLosesItsGap`, `CssTokenContract.TokenWinnerKeptExactly`).
- `ReplaceRegion` grows the document at each run when the rendered table holds the end marker,
  which nothing checks (`GeneratedRegion.EndMarkerInTable`,
  `GeneratedRegion.IdempotentExactly`).
- A failed put whose item write was applied leaves an item no index lists
  (`SecretStoreLaws.TornPutLeavesOrphan`,
  `SecretStoreLaws.NewOrphanExactly`). At a place nobody approved, a failed put of a name the
  index lists without an item then keeps that place from reading
  (`DesktopTokens.PlaceLocksItselfOut`, `DesktopTokens.OtherTokensKept`).

## Model

| member | source | states |
|---|---|---|
| SchedulerSafety.RunKeeps | cmd/rela-server/serve.go:291-379 | The scheduler invariant (who may hold, run or be about to start each generation's scheduler) holds after every run. |
| SchedulerTheorems.OnePerGeneration | cmd/rela-server/serve.go:291-322 | In every run and environment a generation never has two schedulers started and not stopped. |
| SchedulerTheorems.OnlyServing | cmd/rela-server/serve.go:337-367 | If generations are activated only under a pause, every scheduler that has not stopped belongs to the serving generation. |
| SchedulerTheorems.OneScheduler | cmd/rela-server/serve.go:86-91 | Then at most one scheduler runs, in every interleaving of saves, failed saves and retirements. |
| SchedulerTheorems.OneSchedulerExactly | internal/configedit/service.go:358-386 | At most one scheduler runs in every run if and only if no generation is activated without a pause, as Service.Retry does. |
| SchedulerTheorems.RetryMigratesBesideScheduler | internal/configedit/service.go:358-386 | Service.Retry migrates records while the serving generation's scheduler runs and nothing is paused. |
| SchedulerTheorems.RetryMigrationRun | internal/configedit/service.go:358-386 | A retry then swaps the generation, and the next save migrates beside the old scheduler. |
| SchedulerTheorems.RetryRun | cmd/rela-server/serve.go:208-215 | When that save fails, its resume starts a second scheduler beside the old one. |
| SchedulerTheorems.PauseStopsScheduler | cmd/rela-server/serve.go:326-335 | Once haltScheduler returned, no scheduler of the paused generation runs until resume releases it. |
| SchedulerTheorems.MigrationHasNoScheduler | cmd/rela-server/serve.go:189-194 | While a save migrates under a pause, no scheduler runs at all. |
| SchedulerTheorems.NoLostScheduler | cmd/rela-server/serve.go:295-300 | With no save running and the last retirement past its start call, the serving generation is not held and its scheduler runs, also when a pause overtook that retirement. |
| SchedulerTheorems.StoppedForGood | cmd/rela-server/serve.go:360-367 | Once a retirement halted a generation, its scheduler does not run then or at any later point. |
| SchedulerTheorems.ReplacedSchedulerLives | cmd/rela-server/serve.go:337-367 | In every environment a replaced generation's scheduler runs only if it was activated without a pause and its retirement has not halted it yet. |
| SchedulerTheorems.OneWhenHalted | cmd/rela-server/serve.go:341-379 | At most one scheduler runs, and none while a save migrates, whenever every generation that was replaced without a pause has been halted. |
| SchedulerTheorems.GuardedRunsHaveOne | internal/configedit/service.go:358-386 | If saves and retries begin only then, at most one scheduler ever runs, and none while a save migrates, although Service.Retry activates unpaused. |
| DrainSafety.RunKeeps | cmd/rela-server/serve.go:136-216 | Every run keeps the counting invariant: inflight and writes count exactly the requests between their add and their subtraction. |
| DrainSafety.ZeroMeansNone | cmd/rela-server/serve.go:150-161 | Reading a zero count proves that no request it counts is left. |
| DrainTheorems.AnsweredOnce | cmd/rela-server/serve.go:136-171 | A request is answered at most once and, when done, exactly once, by the last generation it tried or by one 503; the generations it tries strictly increase and are no more than were activated. |
| DrainTheorems.DrainedForGood | cmd/rela-server/serve.go:368-372 | If a drain loop read inflight = 0, no request is inside that generation's handler, or can still get there, then or ever after. |
| DrainTheorems.ClosedInOrder | cmd/rela-server/serve.go:341-379 | Generations are closed in activation order, each once, never the serving one; a closed one runs no scheduler, and has a request inside only after the deadline exit. |
| DrainTheorems.PauseExcludesWriters | cmd/rela-server/serve.go:161-168 | From reading writes = 0 until frozen is cleared, and for ever once replaced, no record write is inside the paused generation's handler. |
| DrainTheorems.MigrationAloneExactly | cmd/rela-server/serve.go:192-216 | In every run, no scheduler and no record write in any generation's handler runs while records are migrated, by a save or by a retry, if and only if every migration is made under a pause. |
| DrainTheorems.NoDeadlock | cmd/rela-server/serve.go:341-379 | Something can always move: every unanswered request can step, and a running save or an unfinished retirement can step or has a cancelled scheduler that can exit. |
| ProgressTheorems.RequestsAreBounded | cmd/rela-server/serve.go:136-171 | In every run a request takes at most four steps for each generation ever activated, and four more. |
| ProgressTheorems.RetirementsAreBounded | cmd/rela-server/serve.go:341-379 | In every run a retirement takes at most nine steps besides polls that find requests in flight and time left. |
| ProgressTheorems.RetireStepLowers | cmd/rela-server/serve.go:360-379 | A retirement step brings it closer to its end, unless it is such a poll, which changes nothing. |
| ProgressTheorems.SaveStepLowers | cmd/rela-server/serve.go:195-216 | A step of a pause, resume or activation brings the save closer to its end, unless it is a poll that finds writes running and time left. |
| ProgressTheorems.SavesAreBounded | cmd/rela-server/serve.go:195-216 | Over a run, saves take at most eleven steps each and retries three, besides polls that find writes running and time left. |
| Ceiling.AxisCell.Reopen | internal/acl/ceilingcompile.go:222-244 | The receiver becomes the re-opened axis: the allowlist and, under a denial, the exceptions grow by the scope's list. |
| Ceiling.BaselineFor | internal/acl/ceilingcompile.go:195-207 | Returns a baseline that covers the trimmed principal type, and none only if none does or the type is blank. |
| Ceiling.CeilingFor | internal/acl/ceilingcompile.go:147-190 | Compiles the baseline that covers the principal type, widened by every scope the token carries; inactive when none covers it. |
| Ceiling.FilterTypes | internal/acl/ceilingcompile.go:334-379 | The loop computes the clamped list. |
| Ceiling.FilteredMembers | internal/acl/ceilingcompile.go:314-379 | A clamped list holds exactly the role's kept entries, and the ceiling's own allowlist when that replaces the role's "*". |
| Ceiling.FilterPermissions | internal/acl/ceilingcompile.go:382-400 | The clamped permission list, the allowlist where the role has "*". |
| CeilingLaws.UnionLaw | internal/acl/ceilingcompile.go:81-94 | On one axis the widened ceiling permits a target iff the baseline does or some scope names it. |
| CeilingLaws.CeilingIsUnion | internal/acl/ceiling.go:14-26 | Every axis of the compiled ceiling permits exactly baseline ∪ matched scopes. |
| CeilingLaws.ScopesMonotone | internal/acl/ceilingcompile.go:209-245 | More scope lists never take a target away. |
| CeilingLaws.MoreScopesMoreAccess | internal/acl/ceiling.go:22-24 | Holding more scopes never closes anything, on any axis. |
| CeilingLaws.ScopeOrderIrrelevant | internal/acl/ceilingcompile.go:175-189 | The verdict depends on which scopes a token holds, not on order or repeats. |
| CeilingLaws.StatedUnionExactly | internal/acl/ceiling.go:14-26 | An axis is baseline ∪ scopes, with "*" read as in every other list, if and only if it is an allowlist, denies nothing, no scope says "*", or the scopes name every denied type and "*" is not denied. |
| CeilingLaws.HarmfulStar | internal/acl/ceilingcompile.go:79-94 | Otherwise some denied name stays closed although a scope says "*". |
| CeilingLaws.CeilingIsStatedUnionExactly | internal/acl/ceiling.go:14-26 | The same, exactly, for every axis of a compiled ceiling and the scopes a token holds. |
| CeilingLaws.StarReopensNoDenial | internal/acl/ceilingcompile.go:79-94 | The smallest case: a scope's "*" alone re-opens nothing on a denial axis, because exceptions are matched exactly. |
| CeilingLaws.ExactOnFace | internal/acl/ceilingcompile.go:314-379 | Where the ceiling permits the type, a clamped write list covers a face iff the unclamped list does. |
| CeilingLaws.ExactOnType | internal/acl/ceilingcompile.go:270-288 | The same for the type-only rename list. |
| CeilingLaws.ExactOnConvert | internal/acl/ceilingcompile.go:278-283 | Filtering convert by update and then by delete stays exact. |
| CeilingLaws.ClampAloneIsInexact | internal/acl/ceilingcompile.go:260-269 | Clamping alone is not exact: a role's "*" survives a denial, so the match-time check is needed. |
| CeilingLaws.ExactOnRead | internal/acl/ceilingcompile.go:314-379 | Where the ceiling permits it, reads are intersected exactly, face by face, for every type name the schema loader accepts (internal/metamodel/loader.go:403-416 refuses "@"). |
| CeilingLaws.RoleReadExact | internal/acl/ceilingcompile.go:427-434 | With the match-time check, a clamped role reads a face of any loadable type iff the ceiling permits the type and the unclamped role reads the face. |
| CeilingLaws.PermissionNeverAddedExactly | internal/acl/ceilingcompile.go:381-400 | A ceiling adds no permission to a role if and only if swapping the role's "*" for the allowlist adds none. |
| CeilingLaws.PermissionExactly | internal/acl/ceilingcompile.go:381-400 | The permission axis is an exact intersection if and only if the swap neither adds nor drops a permitted name. |
| CeilingLaws.CompiledExceptsListed | internal/acl/ceilingcompile.go:209-245 | On every axis of every compiled ceiling, permissions included, nothing is carved out of an allowlist that is not on it, which the above needs. |
| CeilingLaws.ConfigEditNeverPasses | internal/acl/ceilingcompile.go:109-123 | config:edit passes no compiled ceiling. |
| CeilingLaws.WorldExact | internal/acl/ceilingcompile.go:436-455 | A named world is intersected exactly; the default world always passes. |
| CeilingValidation.ClaimTypes | internal/acl/ceiling.go:388-405 | Records a baseline's principal types iff none is blank, repeated or already claimed. |
| CeilingValidation.CheckBaselines | internal/acl/ceiling.go:374-410 | Accepts iff every baseline is valid and no two claim the same principal type. |
| CeilingValidation.ValidateClients | internal/acl/ceiling.go:371-441 | Accepts exactly the policies that meet the declarative rules, and hands them back with deny_write expanded. |
| CeilingValidation.ExpansionLossless | internal/acl/ceiling.go:487-504 | On a validated block, expanding deny_write changes no verdict of the block as written. |
| CeilingValidation.ExpansionNeedsTheCheck | internal/acl/ceiling.go:279-329 | Without the spelling check a denial beside a per-verb allowlist would be lost. |
| CeilingValidation.BaselineUnique | internal/acl/ceiling.go:374-429 | At most one baseline covers a principal type, so the lookup order cannot matter. |
| CeilingValidation.CompiledSound | internal/acl/ceiling.go:223-276 | Every verb axis compiled from an accepted policy is face-free where the clamp needs it. |
| AuthorizeLaws.OpenedRequestsAreLoaded | internal/acl/ceiling.go:371-441 | Every request opened on an accepted policy that names no abstract type meets the conditions the authorizer theorems need. |
| LoadedCeiling.LoadedRequests | internal/acl/policy.go:1553-1561 | Every request opened on a policy as loaded, abstract names expanded, meets them too. |
| AuthorizeLaws.RoleExact | internal/acl/ceilingcompile.go:270-288 | Where the ceiling permits the verb, a clamped role grants it on a type and face iff the unclamped role does. |
| AuthorizeLaws.EntityWriteExact | internal/acl/authz_write.go:256-303 | An entity write is allowed iff the ceiling permits the verb and the user's own roles allow it. |
| AuthorizeLaws.FamilyWriteExact | internal/acl/authz_write.go:51-98 | The same for a whole family; a conversion also needs the ceiling to permit its destination. |
| AuthorizeLaws.RelationWriteMeaning | internal/acl/authz_write.go:121-230 | What an allowed relation write means: the delegate gate and the ceiling, and then a relation grant with an updatable tail or the verb on every face. |
| AuthorizeLaws.EveryFace | internal/acl/authz_write.go:168-214 | A family-level edge needs the verb on every face its type declares. |
| AuthorizeLaws.PermissionNeverGrantsExactly | internal/acl/resolver.go:274-295 | No permission check is ever won by the ceiling if and only if no role's "*" is swapped for a name the role does not hold. |
| AuthorizeLaws.SwapGrantsExactly | internal/acl/ceilingcompile.go:381-400 | The ceiling alone gives a principal a permission if and only if a held role says "*", the allowlist names the permission, and no held role does. |
| AuthorizeLaws.RelationNeverGrantsExactly | internal/acl/authz_write.go:121-230 | A relation write allowed under the ceiling is allowed without it, if and only if the swap gave the principal neither the relation's gate nor, where the verb is missing on some face, its grant. |
| AuthorizeLaws.RelationNeverOpenedExactly | internal/acl/authz_write.go:121-230 | For one principal, verb and relation, over all of its writes: the ceiling opens none, if and only if the swap opens neither the gate nor the grant to a write that can go through. |
| AuthorizeLaws.CeilingNeverGrants | internal/acl/ceiling.go:19-21 | Every write a ceiling allows, on entities, families, renames and conversions, the same user is allowed without it; on relations exactly those the swap did not open. |
| AuthorizeLaws.CeilingCanGrantARelation | internal/acl/ceilingcompile.go:381-400 | A role with permissions ["*"] and an accepted baseline that lists a permission: the ceiling compiled from it opens a relation write. |
| AuthorizeLaws.PermissionWithinExactly | internal/acl/ceilingcompile.go:381-400 | A permission check differs from the intersection of ceiling and roles only where the swap of a held "*" opens it, or drops it because the allowlist says "*" and does not name it. |
| AuthorizeLaws.WithinIsOwn | internal/acl/ceiling.go:14-21 | The intersection of a relation write lies within the user's own grants, and is the whole answer without a ceiling. |
| AuthorizeLaws.RelationWriteExact | internal/acl/authz_write.go:121-230 | An allowed relation write lies within user_grants ∩ ceiling unless the swap opened it, and one that lies within it is allowed unless the swap dropped its gate or, where the verb is missing on some face, its grant. |
| AuthorizeLaws.RelationNeverDroppedExactly | internal/acl/authz_write.go:121-230 | For one principal, verb and relation: no write within the intersection is denied, if and only if the swap drops neither the gate nor the grant. |
| AuthorizeLaws.RelationExactly | internal/acl/ceiling.go:14-21 | All writes of one relation are exactly user_grants ∩ ceiling, if and only if the swap neither opens nor drops its gate or its grant. |
| AuthorizeLaws.CeilingCanDropARelation | internal/acl/ceilingcompile.go:381-400 | A role with permissions ["*", name] under an accepted baseline with permissions ["*"]: the compiled ceiling denies a relation write that both permit. |
| AuthorizeLaws.FaceFreeIsNeeded | internal/acl/ceiling.go:224-248 | If an allowlist named a face, the clamp would grant that face to a role whose "*" does not cover it. |
| AuthorizeLaws.DenialNamesTheCeiling | internal/acl/authz_write.go:305-330 | A denied entity write names the ceiling iff the ceiling is what denied it; otherwise the user lacks the grant anyway. |
| AccessReports.FindGrant | internal/acl/access.go:183-224 | The loop over a role's list computes the report the theorems below speak of. |
| AccessReports.GrantingAttributions | internal/acl/access.go:285-343 | The loop over the attributions computes the reported routes. |
| AccessReports.TypeGrantIsImplicitFace | internal/acl/policy.go:546-594 | The type-granular grant question is exactly the implicit face of the face-granular one. |
| AccessReports.RoutesExact | internal/acl/access.go:285-343 | A role is a reported route iff it alone makes the authorizer allow the write at the implicit face, under the same ceiling. |
| AccessReports.EveryoneExact | internal/acl/access.go:145-162 | The everyone report says granted iff the everyone role alone does. |
| AccessReports.ReportsDecide | internal/acl/access.go:187-224 | Together the two reports say exactly whether the principal may write the implicit face. |
| AbstractTypes.ExpandList | internal/acl/abstracttypes.go:124-144 | The loops compute the expanded list, nil kept apart from empty. |
| AbstractTypes.ExpandedMembers | internal/acl/abstracttypes.go:126-144 | An entry is in the expanded list iff it is a concrete entry of the original or a variant, with the suffix, of an abstract one. |
| AbstractTypes.ExpansionMeaning | internal/acl/abstracttypes.go:11-24 | For any way of matching entries by type and suffix, an expanded list covers a concrete type iff the original covers it or its abstract parent. |
| AbstractTypes.WriteMeaning | internal/acl/abstracttypes.go:11-24 | The same for write grants on any face. |
| AbstractTypes.ReadMeaning | internal/acl/abstracttypes.go:11-24 | The same for read grants on any face. |
| AbstractTypes.TypeListMeaning | internal/acl/abstracttypes.go:146-153 | The same for ceiling lists and for rename and convert. |
| AbstractTypes.ExpandedFaceFree | internal/acl/abstracttypes.go:124-144 | A list that names no face names none after expansion. |
| AbstractTypes.ExpandTwice | internal/acl/abstracttypes.go:30-31 | Expanding an expanded list changes nothing, in content or in order. |
| FieldExpansion.ExpandOverride | internal/acl/abstracttypes.go:214-234 | A variant's own entry wins, and otherwise it gets its abstract parent's; without an abstract key the map is returned as it is. |
| FieldExpansion.ExpandUnion | internal/acl/abstracttypes.go:177-212 | A type redacts what it or its abstract parent redacts. |
| FieldExpansion.FieldBlock.FoldRedactIntoVisible | internal/acl/abstracttypes.go:157-175 | Each type with both spellings keeps the visible list without the redacted fields, and its redact entry is deleted. |
| FieldExpansion.ExpandRestriction | internal/acl/abstracttypes.go:146-155 | A block is expanded on every axis and both field maps. |
| FieldExpansion.OneSpellingLeft | internal/acl/abstracttypes.go:157-162 | No type is left with both a visible and a redact entry. |
| FieldExpansion.HiddenAfterExpansion | internal/acl/abstracttypes.go:157-234 | After expansion a field of a concrete type is hidden iff its own-or-inherited visible list omits it or its own or its parent's redact names it, and the visible entry is not nil. |
| FieldExpansion.RedactionKeptExactly | internal/acl/abstracttypes.go:163-175 | Expansion keeps every redaction of a type if and only if its visible entry is not nil or nothing of it is redacted. |
| FieldExpansion.NilVisibleLosesRedaction | internal/acl/abstracttypes.go:163-175 | The case that shows it: a variant with an empty visible entry shows a field its abstract parent redacts. |
| FieldExpansion.FieldCeilingFor | internal/acl/ceilingcompile.go:511-546 | The loop over the token's scopes computes the re-opened field ceiling. |
| FieldExpansion.ScopedHiding | internal/acl/ceilingcompile.go:511-546 | A field is hidden iff the baseline hides it and no matched scope names it. |
| FieldExpansion.MoreScopesHideLess | internal/acl/ceilingcompile.go:504-510 | Holding more scopes never hides a field that fewer scopes showed. |
| PolicyExpansion.LoadedPolicy.ExpandAbstractTypes | internal/acl/abstracttypes.go:32-64 | The policy is rewritten block by block, or not written to when it names no abstract type; an abstract user type is reported and the rest still expanded. |
| PolicyExpansion.PolicyExpandsOnce | internal/acl/abstracttypes.go:30-31 | After expansion no abstract name is left, and a second expansion writes nothing. |
| PolicyExpansion.RoleMeaning | internal/acl/abstracttypes.go:43-54 | An expanded role grants a verb on a concrete type and face iff it did on the type or on its abstract parent. |
| PolicyExpansion.AxisMeaning | internal/acl/abstracttypes.go:146-153 | An expanded axis permits a concrete type exactly as its lists did for the type and its abstract parent. |
| LoadedCeiling.LoadClients | internal/acl/policy.go:1324-1345 | Validating and then expanding gives the loaded policy of the theorems below, rewritten only if it names an abstract type. |
| LoadedCeiling.CeilingFromFile | internal/acl/ceiling.go:371-441 | From the policy file to the ceiling: on a concrete type each verb axis permits what the file's baseline says of the type or its abstract parent, deny_write included, or what a scope of the token names so. |
| LoadedCeiling.FieldsFromFile | internal/acl/ceilingcompile.go:504-546 | From the policy file to the client: a field is hidden iff the file's rule hides it, its visible entry is not nil, and no scope of the token shows it. |
| CssLayer.ScopeIsCompound | frontend/relaCssLayer.ts:89-103 | A document scope holds only one compound selector: no combinator, list or attribute. |
| CssLayer.SplitPalette | frontend/relaCssLayer.ts:141-162 | The loop computes the palette half and the remainder of a rule. |
| CssLayer.SplitPaletteAtRule | frontend/relaCssLayer.ts:169-190 | The loop computes the two halves of a conditional at-rule. |
| CssLayer.WrapCss | frontend/relaCssLayer.ts:200-251 | The pass over the sheet computes the rebuilt sheet, and declines a sheet that is already layered. |
| CssDeclarations.WrapConserves | frontend/relaCssLayer.ts:206-251 | The unlayered and the layered declarations interleave to exactly the sheet's: none lost, none repeated, each side in order. |
| CssDeclarations.InterleavedMembers | frontend/relaCssLayer.ts:206-251 | Interleaving conserves the multiset of declarations. |
| CssDeclarations.UnlayeredIsPalette | frontend/relaCssLayer.ts:29-57 | Every unlayered declaration is a palette declaration directly in a document scope, at the top or in one conditional at-rule. |
| CssDeclarations.TokenSideExactly | frontend/relaCssLayer.ts:29-57 | A custom property leaves the layer iff what encloses it is such a palette path. |
| CssCascade.CandidatesOfWrapped | frontend/relaCssLayer.ts:240-250 | Read as a stylesheet, the rebuilt sheet offers the tokens unlayered and the rest layered, and nothing else. |
| CssCascade.OrdinaryWinnerKept | frontend/relaCssLayer.ts:1-24 | For any element, specificities and own layers of the sheet, the declaration that wins an ordinary property is the same before and after. |
| CssCascade.KeptWhenOneSided | frontend/relaCssLayer.ts:29-40 | The winner is the same for any property whose declarations are all on one side of the split, such as a token set only in palettes. |
| CssCascade.WrapAgain | frontend/relaCssLayer.ts:200-217 | Wrapping the result is declined if and only if the first wrap layered at least one node. |
| CssTokenContract.WinnerAfterLayering | frontend/relaCssLayer.ts:21-40 | For any property, color-scheme included: after the layering its winner is that of one half alone, the layered half if it insists with !important or is the only one to set it. |
| CssTokenContract.TokenWinnerKeptExactly | frontend/relaCssLayer.ts:29-60 | On a given element and page a token keeps its winner if and only if the winner was on the side that wins once layered. |
| CssTokenContract.KeptWithoutClash | frontend/relaCssLayer.ts:29-60 | A token that no palette and no other rule set at the same importance keeps its winner on every element. |
| CssElements.ElementTokenExactly | frontend/relaCssLayer.ts:89-103 | The exact statement for an element, its classes and tag, and the conditions that hold. |
| CssElements.HeavierRuleLoses | frontend/relaCssLayer.ts:89-103 | A heavier rule that is no document scope loses its token to a palette that matches the same element. |
| CssElements.HtmlLosesItsGap | frontend/relaCssLayer.ts:98-103 | Such as html:root beside :root, on the html element. |
| CssTokenContract.OperatorWinsExactly | frontend/relaCssLayer.ts:21-24 | Whatever the load order and specificity, an operator's ordinary declaration outside any layer wins, unless and only unless a layered declaration, rela's or in an operator's own layer, is !important. |
| CssTokenContract.ImportantDecides | frontend/relaCssLayer.ts:58-61 | An important declaration that applies decides the winner among the important ones. |
| SecretStore.KeychainSecrets.GetEntry | cmd/rela-desktop/hostconfig.go:252-280 | Returns the cached or freshly read entry, and fails without touching the cache when a read fails or the index is damaged. |
| SecretStore.KeychainSecrets.ForPlace | cmd/rela-desktop/hostconfig.go:141-152 | Answers unreadable, withheld or released from that entry, and changes only the cache. |
| SecretStore.KeychainSecrets.TrustPlace | cmd/rela-desktop/hostconfig.go:155-164 | Takes the trust step and reports success iff it succeeded. |
| SecretStore.KeychainSecrets.PutSecret | cmd/rela-desktop/hostconfig.go:183-216 | Takes the put step: checks, item, index, cleanup, with every way each write can fail. |
| SecretStore.KeychainSecrets.RemoveSecret | cmd/rela-desktop/hostconfig.go:221-237 | Takes the remove step. |
| SecretStoreLaws.CacheStaysCoherent | cmd/rela-desktop/hostconfig.go:89-96 | After any calls and restarts, with any keychain call failing or applied despite its error, a cached entry is what a fresh read would give. |
| SecretStoreLaws.OtherDocsUntouched | cmd/rela-desktop/hostconfig.go:183-237 | A call leaves every other document's secrets and cache entry alone. |
| SecretStoreLaws.NewOrphanExactly | cmd/rela-desktop/hostconfig.go:201-215 | A call leaves a stored item unlisted iff the item's own write was applied despite its error, or the index write and the cleanup delete were both refused. |
| SecretStoreLaws.TornPutLeavesOrphan | cmd/rela-desktop/hostconfig.go:197-200 | The first case: a put whose item write was applied despite its error leaves an unlisted item. |
| SecretStoreLaws.ItemsStayListed | cmd/rela-desktop/hostconfig.go:201-215 | Over a run without such a call, every stored item stays listed in its document's index. |
| SecretStoreLaws.PutThenRead | cmd/rela-desktop/hostconfig.go:183-216 | After a successful put a fresh read gives the same entry with this value and this place added, and nothing else changed. |
| SecretStoreLaws.RemoveThenRead | cmd/rela-desktop/hostconfig.go:221-237 | After a successful remove a fresh read gives the entry without the name, or no entry when it was the last. |
| SecretStoreLaws.PutIsContained | cmd/rela-desktop/hostconfig.go:183-216 | However a put ends, every other value of the document is as it was. |
| PlaceHistory.KeptExactly | cmd/rela-desktop/hostconfig.go:240-248 | Of a sequence of approvals, exactly the places with fewer than 32 others approved since are kept, each once. |
| PlaceHistory.RecentIsRecent | cmd/rela-desktop/hostconfig.go:240-248 | The kept places stand in the order of their last approval. |
| PlaceHistory.PlacesAreRecent | cmd/rela-desktop/hostconfig.go:155-248 | After any run from an empty keychain, a document's places are the recent ones of its approvals since the index was last removed. |
| PlaceHistory.ReleasedExactly | cmd/rela-desktop/hostconfig.go:83-87 | Non-empty secrets are released to a place iff it was approved since the index was last removed and fewer than 32 others were approved after it. |
| PlaceHistory.ApprovalIsSuccess | cmd/rela-desktop/hostconfig.go:155-216 | An approval is a put or trust at that place that succeeded, or whose index write was applied all the same. |
| PlaceHistory.ApprovalOrigin | cmd/rela-desktop/hostconfig.go:155-216 | Every place in the history comes from such a call with no removal of the index after it. |
| DesktopTokens.KeychainTokens.Get | cmd/rela-desktop/tokens.go:63-84 | Reads the two items of a token from what the store releases. |
| DesktopTokens.KeychainTokens.Put | cmd/rela-desktop/tokens.go:92-104 | Writes the refresh item and, only once that succeeded, the state item. |
| DesktopTokens.KeychainTokens.Delete | cmd/rela-desktop/tokens.go:107-112 | Removes the refresh item and then the state item. |
| DesktopTokens.TokenRoundTrip | cmd/rela-desktop/tokens.go:63-104 | Get at the same place returns exactly the token a successful Put stored. |
| DesktopTokens.NewRefreshSurvives | cmd/rela-desktop/tokens.go:86-104 | Once the refresh item is written, Get at that place finds the new refresh token whatever becomes of the second write, except exactly when a damaged state item was there and was not replaced. |
| DesktopTokens.StoredTokenNeverLost | cmd/rela-desktop/tokens.go:86-104 | A token stored at a listed place keeps a refresh token however a put ends: the new one iff its item write was applied, whatever the index write reports, and else the old one, with the same damaged-state exception. |
| DesktopTokens.OtherTokensKept | cmd/rela-desktop/tokens.go:86-112 | However a token's writes end, Get at that place reads every other token as before, except exactly when a failed first put locks its own unapproved place out. |
| DesktopTokens.PlaceLocksItselfOut | cmd/rela-desktop/tokens.go:86-112 | The case that shows it, reached from an empty keychain: a put, a delete and a put elsewhere, the last two with a refused index write, turn Get's answer for another token at the second place from not found into not trusted. |
| DesktopTokens.DeletedIsNotFound | cmd/rela-desktop/tokens.go:106-112 | Once its refresh item is removed, Get at that place answers not found, however the second removal ends. |
| DesktopTokens.SecretsApartFromTokens | cmd/rela-desktop/tokens.go:24-27 | Scripts are given every secret and no token item, and no secret can carry a token item's name. |
| DesktopTokens.AccountsDistinct | cmd/rela-desktop/hostconfig.go:83-86 | Document ids have no slash, so no two items share a keychain account. |
| BuildTags.TagSet.Collect | scripts/tagged_build_tags.go:87-102 | The walk records exactly the tags under an even number of negations. |
| BuildTags.CollectIsComplete | scripts/tagged_build_tags.go:78-102 | If more tags turn a constraint on, one of them is collected; if they turn it off, one is collected under a negation. |
| BuildTags.CollectedIsPositive | scripts/tagged_build_tags.go:78-86 | The collected tags are the positive literals of the equivalent constraint with negations pushed to the tags. |
| BuildTags.CollectedMayBeIdle | scripts/tagged_build_tags.go:78-86 | The converse fails: a collected tag need not change whether the file builds. |
| BuildTags.CollectedMatters | scripts/tagged_build_tags.go:78-86 | In a constraint that names no tag twice it holds: for some setting of the others the file builds with a collected tag and not without it. |
| BuildTags.ReadHeader | scripts/tagged_build_tags.go:110-149 | The scan stops at the package clause; the last //go:build line wins and // +build lines are kept in order. |
| BuildTags.FileTags | scripts/tagged_build_tags.go:110-162 | The tags of the //go:build line if there is one, and otherwise of every // +build line. |
| BuildTags.FileTagsComplete | scripts/tagged_build_tags.go:104-162 | A file that more tags bring into the build names one of them. |
| BuildTags.PrintedTags | scripts/tagged_build_tags.go:174-214 | The pass over the files gathers every tag and drops platform and toolchain tags. |
| BuildTags.NoHiddenFile | scripts/tagged_build_tags.go:176-214 | Whatever opt-in tags bring a scanned file into the build, the tool prints one of them. |
| GeneratedRegion.RegionOfReplaced | cmd/gen-icons/main.go:366-382 | After a replacement with a body free of the end marker, the region is exactly the body. |
| GeneratedRegion.LastWins | cmd/gen-icons/main.go:366-382 | Of two replacements the last wins; text outside the region is unchanged. |
| GeneratedRegion.IdempotentExactly | cmd/gen-icons/main.go:366-382 | Replacing again with the same body changes nothing if and only if the body holds no end marker. |
| GeneratedRegion.EndMarkerInTable | cmd/gen-icons/main.go:366-382 | The case that shows it: a table whose text holds the end marker anywhere makes the document longer at every run. |
| GeneratedRegion.MarkersAreSeparate | cmd/gen-icons/main.go:49-52 | The two markers cannot overlap each other or themselves, which the above needs. |
| GeneratedRegion.Repository.Run | cmd/gen-icons/main.go:73-142 | Check mode writes nothing and lists exactly the stale outputs; write mode writes every output. |
| GeneratedRegion.CheckAfterWriteExactly | cmd/gen-icons/main.go:95-134 | A check right after a write finds nothing stale if and only if the rendered table holds no end marker. |

## Left out

- AuthorizeLaws.CeilingNeverGrants: on relations it holds exactly where the swap of a "*" did not open the write; there the code does less than its comment says.
- SchedulerTheorems.OneScheduler: holds for activations made under a pause; the exact condition is stated by OneSchedulerExactly.
- SchedulerTheorems.NoLostScheduler: assumes that the identity binder succeeds, as the code only logs when it fails.
- CssCascade.OrdinaryWinnerKept: is about the declarations of the sheet itself; what an @import brings in stays outside the layer and is not part of this model.
- DesktopTokens.TokenRoundTrip: needs a token within the size limit, which a successful Put implies.
- The generation's counters, flags and scheduler slot are values in a state, not fields of a shared object, because their methods are interleaved step by step; aliasing between generations is not captured. Starting the process, building a generation, reloading of data-entry.yaml and sleeping between polls are left out.
- AbstractTypes.ExpansionMeaning: is about types not named "*", which every list reads as a wildcard.
- CssElements.ElementTokenExactly: elements match one compound selector of tag, classes, :root and :not; combinators, attributes and nesting are taken to match nothing there, while the other CSS theorems leave matching open.
- ProgressTheorems.RetirementsAreBounded: bounds steps, not time; that a poll ends once requests finish or the deadline passes is the environment's part.
- Each candidate is a fresh generation, and configedit's save mutex lets one save run at a time.
- The walks that find a principal's attributions, the read query and identity resolution: attributions are an input.
- Error texts and decision reasons beyond the allow flag and the kind of rule.
- Trimming of policy names is taken as done where validation follows it; the sorted order in which maps are listed is not kept, since no result depends on it.
- The order of an expanded redact list: only its members are stated.
- The schema is assumed to give each variant one abstract parent, as its loader checks; its loader is not part of this model.
- The secret store's map of place names to hashes: a place stands for its hash, so two places with one hash count as one. Sorting of the index's names is left out.
- JSON encoding of index and token items: decoding is taken to undo encoding. The mutex of the secret store: calls run one at a time.
- A block-less `@media` or `@supports` statement is taken to carry no palette. Printing and parsing of CSS are taken to be inverse. How a selector matches an element, and the order of a sheet's own layers, are free in the cascade theorems.
- Go's parser for constraint lines and the directory walk of the tag tool: lines come parsed and files come listed.
- Rendering and validation of the icon table: the rendered texts are inputs.
- The deadline arithmetic of pause and drain: a deadline may pass at any poll.
- The project registry, the access-mode table, download limits and icon lookup.
