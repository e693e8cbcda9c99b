# Permissions, dataset sharing and page walks, verified

A Dafny model of the parts of the research workbench that decide who may do what, with proofs of what they promise.

- `PermissionKeys`, `PermissionStore`: identity permissions as rows of one table. Keys are ids joined by `|`, writes are all-or-nothing transactions of at most 100 rows, reads are paged and filtered, bulk deletes page first and chunk afterwards. Every method keeps the rows equal to a plain map of permissions, `perms`.
- `Authorization`: the service over the store and the rules. The decision, which runs through keys, pages, filters and rule order, is proved equal to one statement over the whole map, `Grants`.
- `RouteAuthorization`: the operations a route needs, filled in with request parameters and all required.
- `AccessLevels`: dataset access levels as READ and UPDATE entries, the fold back, and when the reported level is the authorized one.
- `DatasetReading`: the listing of a dataset's access levels, turn by turn, and exactly when it ends.
- `DatasetGrants`, `DatasetSharing`, `DatasetService`: provisioning, sharing, taking back and removing datasets, write by write, over four subject types and the association table. One invariant, `Inv`, ties them together in every reachable state.
- `SharingConditions`: the condition each shared entry carries, and what the decision makes of it for requests on behalf of a project.
- `DatasetListing`, `ListingPages`, `OldestFirstListing`, `OldestFirstIndex`, `ProjectListing`, `ProjectIndex`, `ProjectPaging`: walks over opaque tokens that filter, over-collect, sort, truncate, are stacked on one another and make their own tokens, compared with the unpaged list, for an index read newest first and for one read oldest first; and when every walk is complete, judged on the index alone.
- `ListingShared`: a user is listed exactly what the projects of the user's roles own or share.
- `GroupLifecycle`, `GroupLocking`: overlapping create and delete calls on groups as a state machine whose step is what happens between two waits of one call, and exactly when a lock is safe.
- `StorageLocations`, `AuditMasking`, `TokenRevocation`: the reference count per storage location, the recursive masking of audit entries, and revoked tokens under a clock and sweeps.
- `Prelude`: filtering, and the paging contract of the database.

`dafny verify dfyconfig.toml` checks everything.

## What is assumed of code outside the model

- A query page is a contiguous run of the selected rows, at most `limit` and, while that many remain, at least `least` of them (`Prelude.PageOf`); its token is absent only at the end, and may still be present after the last row. `least` is any positive number; the dataset service needs it to be five or more. The rows keep some stable order, and no particular one is assumed.
- The creation-time index resumes correctly from a token that holds only the partition and sort key of a row, which is what workbench-core/datasets/src/ddbDataSetMetadataPlugin.ts:309-311 passes.
- A transaction is applied whole or not at all. The database refuses an empty one, one that addresses a row twice, and an empty IN list.
- The rule library lets the last relevant rule decide (`Authorization.Can`); whether conditions and fields admit an operation is an arbitrary `Matcher`, which may answer differently for a permitting and for a forbidding rule.
- One service call is one step, with strongly consistent reads, except in `GroupLifecycle`.
- Ids come from the service's generator, so they hold neither `|` nor `#` where a property says so (`Clean`, `PlainId`, `PlainProjects`).
- A token verifier refuses a token from its expiry on and has nothing to refuse it for when it has none (section 4.1.4 of RFC 7519). A sweep takes only records whose time to live has passed, and only within a window after it, five years in the database in use (the window is a parameter; `timeToLiveAttribute` is set in solutions/swb-reference/src/RSWStack.ts:1494).

## Where the code and its intent part company

The model follows the code; each point has its exact condition or a counterexample.

- `getDataSet` (workbench-core/datasets/src/dataSetService.ts:353-359) passes the first page's token on every turn, so every turn but the first reads the same place again. It ends whatever the database serves if and only if every first page shows all of the dataset's entries (`EveryPagingEndsIff`), and it can end at all if and only if they fit into two pages of fifty (`SomePagingEndsIff`). Beyond a hundred entries it has not ended after any number of turns, and then sharing, taking back and removing do not end either; a run of forty-nine read-only shares gets there, and nothing about the dataset ever changes again, however the run goes on (`WideSharingIsFinal`).
- `listDataSets` (workbench-core/datasets/src/dataSetService.ts:305-312) sorts newest first, while the plugin's query (workbench-core/datasets/src/ddbDataSetMetadataPlugin.ts:74-80) reads the creation-time index upwards. A walk is then complete if and only if no call collected more than a page (`OldestFirstWalkIff`, `OldestFirstLoses`). Judged on the index before the first call, every walk is complete if and only if no page of readable datasets ends between two that lie fewer than a page's places apart (`EveryWalkCompleteIff`); for a user who may read everything that means pages of one or a single page (`AllReadableIff`). Over a newest-first index with distinct creation times a walk always is complete (`NewestFirstWalk`), and with ties it need not be (`TiesLose`).
- `listDataSetsForProject` (solutions/swb-reference/src/services/dataSetService.ts:154-193) is stacked on that listing and inherits the order. Its walk is complete and free of repeats if and only if no readable dataset of the project lies in the gap or the overlap between what one inner call shows and what the next one does (`ProjectOldestFirstWalkIff`). Judged on the index, every walk of every project is, if and only if the general listing's condition holds and each project's datasets come out at a page exactly when gathered page by page (`EveryProjectCompleteIff`). A cut among other projects' datasets can repeat one of the project's even when none of its own is dropped (`ProjectWalksGoWrong`).
- `getAccessPermissions` (workbench-core/datasets/src/wbcDataSetsAuthorizationPlugin.ts:61-70) reads the first page only, and the identity filter applies after the page limit. The report is right on every first page the database may serve if and only if the row that decides the level is absent or among the rows every first page shows (`FirstPageAgreesIff`); a run of twenty-six read-only shares breaks that (`SharingRunHidesRole`).
- The documentation of the plugin's `removeDataSet` (workbench-core/datasets/src/ddbDataSetMetadataPlugin.ts:142-145) says that an absent dataset is no error; the code then reads attributes of a result that is not there and fails.
- Provisioning stores the dataset before its permissions (workbench-core/datasets/src/dataSetService.ts:105-106). With an inactive project group the dataset stays behind without any; the state's `granted` set records which datasets got theirs.
- A key with `|` in its ids is read back wrong (`KeyRoundTripIff`).
- A group deletion is safe (`DeletedStaysEmpty`) under two hypotheses on the interleaving: no create that saw the group active is still to commit when the group is locked, and the name is not taken again while an old deletion is under way. For the first there is an exact condition: after a lock the deleted group holds nothing in any run, if and only if no create that saw it active can still commit, given the other groups it names (`LockSafeIff`). For the second, `StaleDeleteCloses` leads to a deleted group with permissions from every state with an old deletion of a free name. `LateCommitHappens` and `StaleDeleteHappens` get there from the empty state.
- A record of a revoked token is replaced whole by a later revocation under the same signature, so an earlier expiry filed there can be swept while the token is still valid; the revocation lasts if and only if there is none such (`RevocationLastsIff`). A revoked token without an expiry is filed with time to live zero. Since a sweep leaves records alone that are long past, its revocation lasts exactly if the clock is past the sweep's window (`WithoutExpiryLastsIff`).
- An undefined value under a masked name at the top level of an audit entry turns into the mask and then counts as present (`MaskingKeepsCompletenessIff`); further down it is dropped.

## Model

| member | source | states |
|---|---|---|
| `PermissionKeys.KeyRoundTripIff` | workbench-core/authorization/src/dynamicAuthorization/ddbDynamicAuthorizationPermissionsPlugin.ts:378-435 | decoding an encoded key gives the permission back exactly when subject type, subject id and identity id are free of the delimiter |
| `PermissionKeys.KeyIsReadAs` | workbench-core/authorization/src/dynamicAuthorization/ddbDynamicAuthorizationPermissionsPlugin.ts:378-435 | every key that is written can be read back, whatever its ids; with a delimiter in an id it is taken for the permission whose ids are the first parts |
| `PermissionKeys.KeySpelled` | workbench-core/authorization/src/dynamicAuthorization/ddbDynamicAuthorizationPermissionsPlugin.ts:378-389 | the literal text of a row's keys and of its index attribute, for every permission |
| `PermissionKeys.DistinctPermissionsDistinctKeys` | workbench-core/authorization/src/dynamicAuthorization/ddbDynamicAuthorizationPermissionsPlugin.ts:378-389 | two permissions share a database row only if they are the same permission; needed of the ids: no delimiter in the subject types |
| `PermissionKeys.DelimiterInSubjectTypeCollides` | workbench-core/authorization/src/dynamicAuthorization/ddbDynamicAuthorizationPermissionsPlugin.ts:378-389 | the condition is needed: a subject type with a delimiter makes two different permissions share a row |
| `PermissionKeys.PartitionKeyNamesSubject` | workbench-core/authorization/src/dynamicAuthorization/ddbDynamicAuthorizationPermissionsPlugin.ts:378-380 | the partition of a delimiter-free permission is asked for by exactly one subject type and id, whatever is asked |
| `PermissionKeys.PrefixSelectsAction` | workbench-core/authorization/src/dynamicAuthorization/ddbDynamicAuthorizationPermissionsPlugin.ts:184-186 | the sort-key prefix query for an action selects entries of that action and no others, for every key |
| `PermissionKeys.IdentityKeyInjective` | workbench-core/authorization/src/dynamicAuthorization/ddbDynamicAuthorizationPermissionsPlugin.ts:148-156 | the index attribute tells identities apart, with no condition on their ids |
| `PermissionStore.PermissionTable.TransactPut` | workbench-core/base/src/aws/helpers/dynamoDB/dynamoDBService.ts:528-540 | a put transaction either adds all rows or changes nothing; it is cancelled exactly when a row exists, and row keys stay unique |
| `PermissionStore.PermissionTable.Query` | workbench-core/base/src/aws/helpers/dynamoDB/dynamoDBService.ts:213-223 | a page is a contiguous run of at most `limit` selected rows, filtered only afterwards, with a token absent only at the end |
| `PermissionStore.PermissionTable.Create` | workbench-core/authorization/src/dynamicAuthorization/ddbDynamicAuthorizationPermissionsPlugin.ts:220-255 | on any table and for any ids: the whole batch is written exactly if it holds 1 to 100 permissions with different keys and no row stands under any of them, and otherwise nothing changes, with the error for the first of these that fails; where the table stands for a permission map and the ids are delimiter-free, it goes on doing so |
| `PermissionStore.PermissionTable.Delete` | workbench-core/authorization/src/dynamicAuthorization/ddbDynamicAuthorizationPermissionsPlugin.ts:256-287 | on any table and for any ids: exactly the rows the batch addresses are gone, in one step, or nothing happens with the error the batch alone determines; permissions that were not held are no error, and a table that stands for a permission map goes on doing so |
| `PermissionStore.CancelledIffHeld` | workbench-core/authorization/src/dynamicAuthorization/ddbDynamicAuthorizationPermissionsPlugin.ts:231-247 | on the level of rows a create is refused exactly when some permission of the batch is already held |
| `PermissionStore.CreatedRepresents` | workbench-core/authorization/src/dynamicAuthorization/ddbDynamicAuthorizationPermissionsPlugin.ts:346-376 | after a create the rows still say, one row each and all readable, what the enlarged permission map says |
| `PermissionStore.DeletedRepresents` | workbench-core/authorization/src/dynamicAuthorization/ddbDynamicAuthorizationPermissionsPlugin.ts:263-277 | after a delete by composed keys the rows still say what the reduced permission map says, and nobody else's row went |
| `PermissionStore.PermissionTable.FilterValues` | workbench-core/authorization/src/dynamicAuthorization/ddbDynamicAuthorizationPermissionsPlugin.ts:190-204 | the loop builds the identity values in request order |
| `PermissionStore.PermissionTable.PageBySubject` | workbench-core/authorization/src/dynamicAuthorization/ddbDynamicAuthorizationPermissionsPlugin.ts:170-219 | serves a page of exactly the subject's rows for the action, narrowed to the identities after the limit; refuses more than 100 identities and an empty list |
| `PermissionStore.PermissionTable.PageByIdentity` | workbench-core/authorization/src/dynamicAuthorization/ddbDynamicAuthorizationPermissionsPlugin.ts:144-169 | serves a page of exactly the identity's rows from the index |
| `PermissionStore.PageExtends` | workbench-core/authorization/src/dynamicAuthorization/ddbDynamicAuthorizationPermissionsPlugin.ts:294-310 | whatever the page boundaries and however empty the filtered pages, each page extends what was gathered by the next stretch, and the walk advances or is over |
| `PermissionStore.SubjectListing` | workbench-core/authorization/src/dynamicAuthorization/ddbDynamicAuthorizationPermissionsPlugin.ts:170-219 | the listing behind a subject query holds each permission on the subject once and no other |
| `PermissionStore.PermissionTable.ReadSubject` | workbench-core/authorization/src/dynamicAuthorization/ddbDynamicAuthorizationPermissionsPlugin.ts:294-310 | reading page after page gives the whole partition in order and ends, for every page size |
| `PermissionStore.PermissionTable.DeleteInChunks` | workbench-core/authorization/src/dynamicAuthorization/ddbDynamicAuthorizationPermissionsPlugin.ts:312-319 | deletes a batch of any size, in chunks of at most 100, and nothing else |
| `PermissionStore.PermissionTable.DeleteSubject` | workbench-core/authorization/src/dynamicAuthorization/ddbDynamicAuthorizationPermissionsPlugin.ts:288-326 | returns exactly what was held on the subject, each permission once, empties that partition and touches no other, for any partition and page size |
| `Authorization.CreateIdentityPermissions` | workbench-core/authorization/src/dynamicAuthorization/dynamicAuthorizationService.ts:601-627 | for any ids: refuses over 100 entries first, then exactly the batches with an inactive group, then what the store refuses; otherwise writes the batch as a whole, and with delimiter-free ids exactly the batch joins the permission map |
| `Authorization.BySubjectFor` | workbench-core/authorization/src/dynamicAuthorization/ddbDynamicAuthorizationPermissionsPlugin.ts:170-219 | prefix query plus identity filter is the set of held permissions on the subject for the action and the identities, each once |
| `Authorization.GetAllBySubject` | workbench-core/authorization/src/dynamicAuthorization/dynamicAuthorizationService.ts:629-653 | the paging loop ends and returns exactly the held permissions on the subject for the action and identities, each once, for any page boundaries and empty pages |
| `Authorization.CollectBySubject` | workbench-core/authorization/src/dynamicAuthorization/dynamicAuthorizationService.ts:629-653 | the loop equals one unpaged filter of the listing, in order |
| `Authorization.IndexAgreesWithScan` | workbench-core/authorization/src/dynamicAuthorization/ddbDynamicAuthorizationPermissionsPlugin.ts:144-169 | the index is by the database's contract a filter of the rows on one attribute; what is proved is that the attribute and the decoding carry that filter over to permissions: a page walk of the index finds for the identity exactly what a scan of all permissions finds, each once |
| `Authorization.GetAllByIdentity` | workbench-core/authorization/src/dynamicAuthorization/dynamicAuthorizationService.ts:655-675 | the paging loop over the index ends with the whole listing |
| `Authorization.DeleteAllByIdentity` | workbench-core/authorization/src/dynamicAuthorization/dynamicAuthorizationService.ts:681-704 | afterwards the identity holds nothing and every other permission is unchanged |
| `Authorization.PurgeStep` | solutions/swb-reference/src/postDeployment/authorizationSetup.ts:181-193 | one page of an identity's entries is a legal delete batch and takes nothing from anyone else |
| `Authorization.PurgeGroupPermissions` | solutions/swb-reference/src/postDeployment/authorizationSetup.ts:177-195 | re-reading the first page for ever still ends, by the group's remaining entries, and leaves none of the group's permissions and all of everyone else's |
| `Authorization.CanReadsLastRelevant` | workbench-core/authorization/src/caslAuthorizationPlugin.ts:88-122 | with all ALLOW rules before all DENY rules, last-rule-wins means: some ALLOW is relevant and no DENY is |
| `Authorization.DefineAbilities` | workbench-core/authorization/src/caslAuthorizationPlugin.ts:88-122 | the ability holds every ALLOW as a permitting rule first and every DENY as a forbidding rule last, wildcard subjects without a subject condition |
| `Authorization.IsAuthorizedOnDynamicOperation` | workbench-core/authorization/src/caslAuthorizationPlugin.ts:35-56 | accepts exactly when some collected ALLOW is relevant and no collected DENY is, whatever their order |
| `Authorization.ActsAs` | workbench-core/authorization/src/dynamicAuthorization/dynamicAuthorizationService.ts:115-125 | a caller acts as the user and as each validated group, and as nobody else |
| `Authorization.IsAuthorizedOnSubject` | workbench-core/authorization/src/dynamicAuthorization/dynamicAuthorizationService.ts:93-156 | accepts exactly when, over the whole store, some ALLOW for the exact subject or the wildcard, held by the user or a validated group, speaks about the operation and no such DENY does |
| `RouteAuthorization.EscapeKeepsIff` | workbench-core/authorization/src/dynamicAuthorization/dynamicAuthorizationService.ts:218-221 | a parameter is put in unchanged exactly when it holds no character special to regular expressions |
| `RouteAuthorization.EscapeEach` | workbench-core/authorization/src/dynamicAuthorization/dynamicAuthorizationService.ts:218-221 | character by character: each of the fourteen characters special to regular expressions gets a backslash in front, every other stays |
| `RouteAuthorization.WildcardOnlyIfLiteral` | workbench-core/authorization/src/dynamicAuthorization/dynamicAuthorizationService.ts:211-224 | no parameter can turn a subject template into the wildcard: the result is the wildcard exactly when the template is that literal text |
| `RouteAuthorization.FillIs` | workbench-core/authorization/src/dynamicAuthorization/dynamicAuthorizationService.ts:210-224 | the filled text is the in-order concatenation of what the pieces put in, literal text or the escaped value of a parameter, and exists exactly if no parameter is missing or empty |
| `RouteAuthorization.AsksOne` | workbench-core/authorization/src/dynamicAuthorization/dynamicAuthorizationService.ts:210-226 | a declared operation asks for one operation at most |
| `RouteAuthorization.FillAll` | workbench-core/authorization/src/dynamicAuthorization/dynamicAuthorizationService.ts:210-226 | fails exactly if some operation lacks a parameter; otherwise asks, in order, for operations with the declared action, field and attribute names, each part of the subject spelled out from its pieces |
| `RouteAuthorization.AuthorizeAll` | workbench-core/authorization/src/dynamicAuthorization/dynamicAuthorizationService.ts:227-229 | accepts exactly when every operation is granted over the whole store; fails exactly with a hundred groups or more and something to check |
| `RouteAuthorization.IsAuthorizedOnRoute` | workbench-core/authorization/src/dynamicAuthorization/dynamicAuthorizationService.ts:187-236 | accepts exactly an ignored route, or a secured one for which every operation that its declared ones ask for, with provided parameters before path parameters, is granted; each refusal has its exact cause |
| `AccessLevels.ToIdentityPermissions` | workbench-core/datasets/src/wbcDataSetsAuthorizationPlugin.ts:217-269 | the loop yields, for each request, READ and for read-write also UPDATE on that dataset and identity, as unconditional ALLOWs described by the level, and nothing else |
| `AccessLevels.ToPermissionsResponse` | workbench-core/datasets/src/wbcDataSetsAuthorizationPlugin.ts:271-331 | one response per dataset met, giving each identity once in first-seen order, read-write iff it has an UPDATE; fails exactly on a foreign action or a DENY |
| `AccessLevels.SeenInOrder` | workbench-core/datasets/src/wbcDataSetsAuthorizationPlugin.ts:271-331 | in a response the identities stand in the order in which the entries first mention them |
| `AccessLevels.LevelsRoundTrip` | workbench-core/datasets/src/wbcDataSetsAuthorizationPlugin.ts:217-331 | requests expanded and folded back give each requested identity once, in first-seen order, read-write iff any request for it was |
| `AccessLevels.PagesReportSameLevels` | workbench-core/datasets/src/wbcDataSetsAuthorizationPlugin.ts:118-154 | over any split of the entries into pages, the best level reported per identity equals that of the unsplit list |
| `AccessLevels.GetAllDataSetAccessPermissions` | workbench-core/datasets/src/wbcDataSetsAuthorizationPlugin.ts:118-154 | a page reports the summary of the level entries it scanned, and fails exactly when it scanned a DENY |
| `AccessLevels.GetAccessPermissions` | workbench-core/datasets/src/wbcDataSetsAuthorizationPlugin.ts:57-93 | the answer speaks of that identity alone and summarizes its entries on the first page only; on a well-shared dataset it is the level held whenever the decisive row is surely shown, and so whenever the dataset has no more entries than every first page shows |
| `AccessLevels.AddAccessPermission` | workbench-core/datasets/src/wbcDataSetsAuthorizationPlugin.ts:30-55 | for any ids: creates exactly the expanded batch or nothing, with the verdict of the store, and answers with the levels of that batch, each identity at its best requested one |
| `AccessLevels.RemoveAccessPermissions` | workbench-core/datasets/src/wbcDataSetsAuthorizationPlugin.ts:95-116 | on any table and for any ids: removes exactly the rows of the expanded batch and answers with the levels of that batch, or fails with the error that batch determines |
| `AccessLevels.IsAuthorizedOnDataSet` | workbench-core/datasets/src/wbcDataSetsAuthorizationPlugin.ts:187-215 | accepts exactly when the operation READ on Dataset and that id, without field and attributes, is granted over the whole store, and for read-write also UPDATE; fails exactly with a hundred groups or more |
| `AccessLevels.LevelHeldIsAuthorized` | workbench-core/datasets/src/wbcDataSetsAuthorizationPlugin.ts:187-215 | on a well-shared dataset a caller is authorized at a level exactly when one of the caller's identities, user or group, holds it or better |
| `AccessLevels.FirstPageAgreesIff` | workbench-core/datasets/src/wbcDataSetsAuthorizationPlugin.ts:57-93 | judged on the table before the call: over all first pages the database may serve the reported level is the level held, if and only if the identity's decisive row is absent or among the rows every first page shows |
| `AccessLevels.PageAgreesIff` | workbench-core/datasets/src/wbcDataSetsAuthorizationPlugin.ts:57-93 | for one given page: the report is right exactly when the decisive row is on it, and it is never too high |
| `AccessLevels.HiddenIsUnderreported` | workbench-core/datasets/src/wbcDataSetsAuthorizationPlugin.ts:57-93 | whenever the condition fails, some page the database may serve makes the report lower than what is held |
| `AccessLevels.CrowdHidesReader` | workbench-core/datasets/src/wbcDataSetsAuthorizationPlugin.ts:57-93 | for every dataset with more readers than every first page shows, in any order of the rows, some authorized reader's row need not be shown |
| `DatasetGrants.RoleNameIsRead` | solutions/swb-reference/src/utils/roleUtils.ts:17-29 | a role name reads back as one project and role only |
| `DatasetGrants.ProductIsGrant` | solutions/swb-reference/src/services/dataSetService.ts:489-529 | the nested loops create one entry per role and action, pairwise distinct, and no other |
| `DatasetSharing.ShareKeeps` | solutions/swb-reference/src/services/dataSetService.ts:312-386 | sharing with an unassociated project finds none of its keys taken and keeps the invariant |
| `DatasetSharing.UnshareKeeps` | solutions/swb-reference/src/services/dataSetService.ts:388-466 | taking a dataset back keeps the invariant |
| `DatasetSharing.ProvisionKeeps` | solutions/swb-reference/src/services/dataSetService.ts:208-266 | provisioning a fresh id finds none of its keys taken and keeps the invariant, also when it stops after storing the dataset |
| `DatasetSharing.RemoveKeeps` | solutions/swb-reference/src/services/dataSetService.ts:62-113 | removing an unshared dataset keeps the invariant, leaves no entry on its id and changes no entry on any other |
| `DatasetSharing.HeldUnderSwbDataset` | solutions/swb-reference/src/services/dataSetService.ts:115-127 | every SWB_DATASET entry on a known dataset is one of the owner project's four or stands for an association |
| `DatasetSharing.FirstPageShowsForeignProjects` | solutions/swb-reference/src/services/dataSetService.ts:115-127 | by pigeonhole on the owner's four entries, a first page of at least five rows shows a foreign project whenever there is one |
| `DatasetSharing.UnshareUndoesShare` | solutions/swb-reference/src/services/dataSetService.ts:312-466 | sharing and then taking back, at either level, restores the permission store and the association table exactly |
| `DatasetSharing.RemoveUndoesProvision` | solutions/swb-reference/src/services/dataSetService.ts:62-113 | provisioning and then removing restores the state, so no key mentioning the id is left and every other key is unchanged |
| `DatasetSharing.StepElsewhere` | solutions/swb-reference/src/services/dataSetService.ts:62-466 | a call on one dataset changes nothing about any other: not its row, its associations or any permission that names it |
| `DatasetSharing.RunKeeps` | solutions/swb-reference/src/services/dataSetService.ts:62-466 | every state of every run of provision, share, unshare and remove satisfies the invariant |
| `DatasetSharing.RightsStandTogether` | solutions/swb-reference/src/services/dataSetService.ts:208-466 | in every state of every run, for each non-owner project: association, SWB_DATASET READ and Dataset READ stand together, and Dataset UPDATE and SWB_DATASET_UPLOAD READ exactly with a read-write share, for both roles |
| `SharingConditions.RunKeepsConditioned` | solutions/swb-reference/src/services/dataSetService.ts:208-386 | in every state of every run each SWB_DATASET and SWB_DATASET_UPLOAD entry on a known dataset carries, as its literal condition text, the project of its own role, and every other entry no condition |
| `SharingConditions.GrantedOnBehalf` | solutions/swb-reference/src/services/dataSetService.ts:208-466 | in every state of every run, for every caller and any matcher that admits that text exactly for its project: reading or uploading on behalf of a project is granted exactly to roles of that very project that owns or shares the dataset (for uploading, read-write), changing and deleting to the owner's admin role; without a project nothing |
| `SharingConditions.LevelsForOwnerAdmin` | solutions/swb-reference/src/services/dataSetService.ts:247-255 | access levels are granted exactly to the admin role of the owner, for READ, UPDATE and DELETE |
| `DatasetSharing.InvIsWellShared` | workbench-core/datasets/src/wbcDataSetsAuthorizationPlugin.ts:187-269 | in every reachable state UPDATE on a dataset comes with READ and all its entries are unconditional ALLOWs |
| `DatasetSharing.HeldIffEntitled` | workbench-core/datasets/src/wbcDataSetsAuthorizationPlugin.ts:187-269 | the level an identity holds on a known dataset is exactly the one its role is entitled to by ownership and association; a user alone holds none |
| `DatasetSharing.AuthorizedIffShared` | workbench-core/datasets/src/wbcDataSetsAuthorizationPlugin.ts:187-215 | in every state of every run, for every user and list of groups: authorized at a level exactly when one of the groups is a role of the project that owns the dataset, or of one it is shared with at that level or better |
| `DatasetSharing.RunsReportWhatIsAuthorized` | workbench-core/datasets/src/wbcDataSetsAuthorizationPlugin.ts:57-93 | in every state of every run, for every user and list of groups and whatever pages are served: a caller is authorized at a level exactly when that level or better is reported for one of the caller's identities, if the dataset has no more entries than every first page shows or each decisive row is surely shown |
| `DatasetSharing.SharingRunHidesRole` | workbench-core/datasets/src/wbcDataSetsAuthorizationPlugin.ts:57-93 | the condition is needed of sharing runs too: after one provisioning and 26 read-only shares, in any order of the rows, the report for some role may be lower than what its members are authorized for |
| `DatasetSharing.StuckForGood` | workbench-core/datasets/src/dataSetService.ts:344-359 | in every run, once a dataset has more entries than two pages hold, its row, associations and permissions stay as they are for good, whatever is done to it or to other datasets |
| `DatasetSharing.WideSharingIsFinal` | workbench-core/datasets/src/dataSetService.ts:344-359 | a run of one provisioning and 49 read-only shares ends with 102 entries on the dataset, and however that run goes on, nothing about the dataset ever changes again |
| `DatasetReading.ListPermissions` | workbench-core/datasets/src/dataSetService.ts:344-359 | the loop, turn by turn, passes the first page's token each time; it ends only at a page without successor, within two pages of entries and with every level reported, and is still under way after its turns only if more entries remain than every first page shows |
| `DatasetReading.EveryPagingEndsIff` | workbench-core/datasets/src/dataSetService.ts:344-359 | the call ends under every paging the database may choose if and only if every first page shows the whole listing |
| `DatasetReading.SomePagingEndsIff` | workbench-core/datasets/src/dataSetService.ts:344-359 | the call ends under some paging if and only if the listing fits into two pages of fifty; otherwise no turn is ever the last |
| `DatasetReading.ReadingEndsIff` | workbench-core/datasets/src/dataSetService.ts:344-359 | both conditions in terms of the number of entries a dataset has, however the rows are ordered |
| `DatasetService.DataSetService.AddAuthZPermissions` | solutions/swb-reference/src/services/dataSetService.ts:489-529 | adds the whole grant or nothing, with the verdict the roles' status and the held keys determine |
| `DatasetService.DataSetService.BuildBatch` | solutions/swb-reference/src/services/dataSetService.ts:510-522 | the two nested loops build the product of roles and actions |
| `DatasetService.DataSetService.RemoveAuthZPermissions` | solutions/swb-reference/src/services/dataSetService.ts:531-566 | removes exactly the keys of the grant |
| `DatasetService.DataSetService.ProvisionDataSet` | solutions/swb-reference/src/services/dataSetService.ts:208-266 | six writes in order amount to the dataset row, under the given name and the project's admin role, and the owner's grant; with an inactive group only the dataset row stays behind; each outcome has its literal cause |
| `DatasetService.DataSetService.WriteOwner` | solutions/swb-reference/src/services/dataSetService.ts:228-263 | once the first permission write goes through, the four later ones do too |
| `DatasetService.DataSetService.AddAccessForProject` | solutions/swb-reference/src/services/dataSetService.ts:312-386 | the writes amount to the whole share, or the state is as before with the stated error; nothing is left half done; it can be stuck reading the dataset only beyond what every first page shows, and for every number of turns it is stuck beyond two pages of entries, unless refused before it reads; each outcome has its literal cause |
| `DatasetService.DataSetService.WriteShare` | solutions/swb-reference/src/services/dataSetService.ts:344-381 | once the first permission write goes through, the later ones do too, and they add exactly the share's grant |
| `DatasetService.DataSetService.AddDataAccess` | solutions/swb-reference/src/services/dataSetService.ts:353-370 | asks for both roles at the level and adds exactly that grant on the dataset |
| `DatasetService.DataSetService.RemoveAccessForProject` | solutions/swb-reference/src/services/dataSetService.ts:388-466 | removes exactly what a read-write share creates, and the association, or changes nothing with the stated error; it can be stuck reading the dataset only beyond what every first page shows, and for every number of turns it is stuck beyond two pages of entries, unless refused before it reads; each outcome has its literal cause |
| `DatasetService.DataSetService.EraseShare` | solutions/swb-reference/src/services/dataSetService.ts:421-456 | three deletes amount to the read-write grant, whatever the level of the share was |
| `DatasetService.DataSetService.AssociatedProjects` | solutions/swb-reference/src/services/dataSetService.ts:115-127 | although only the first page is read, the answer is empty exactly when no other project is associated |
| `DatasetService.DataSetService.RemoveDataSet` | solutions/swb-reference/src/services/dataSetService.ts:62-113 | refused while any project is associated or an endpoint exists; done, no permission or association mentions the id and all others are as before; it can be stuck reading the dataset only beyond what every first page shows, and for every number of turns it is stuck beyond two pages of entries, unless refused before it reads; each outcome has its literal cause |
| `DatasetService.DataSetService.EraseOwner` | solutions/swb-reference/src/services/dataSetService.ts:80-112 | the bulk delete and four role deletes amount to everything on the Dataset subject and the owner's grant |
| `DatasetService.DataSetService.GetDataSet` | workbench-core/datasets/src/dataSetService.ts:334-366 | once it ends it reports every identity's level; watched for any number of turns it has not ended if the dataset has more than two pages of entries, and has ended after one if they fit into every first page |
| `DatasetListing.BackendPage` | workbench-core/datasets/src/ddbDataSetMetadataPlugin.ts:70-89 | a page of the index with a token naming its last dataset unless it ends the index |
| `DatasetListing.CheckPage` | workbench-core/datasets/src/dataSetService.ts:288-302 | keeps exactly the datasets of a page for which the store grants the reader the READ operation, no more; any failure of a decision other than forbidden fails the page |
| `DatasetListing.CollectPage` | workbench-core/datasets/src/dataSetService.ts:288-302 | one turn collects the readable datasets of the next page, by the decision over the permission store, in any order of completion; it fails exactly if there is a dataset to decide on and the decision fails |
| `DatasetListing.CollectPages` | workbench-core/datasets/src/dataSetService.ts:284-303 | the loop ends and has collected, in some order, exactly the readable datasets of the stretch it scanned, fewer than two pages of them |
| `ListingPages.PagedIff` | workbench-core/datasets/src/dataSetService.ts:284-303 | over every paging the database may choose, the places where a call can stop scanning are exactly those at most a page behind a place with less than a page collected |
| `DatasetListing.SortSorts` | workbench-core/datasets/src/dataSetService.ts:305-307 | the sort is newest first and a permutation |
| `DatasetListing.UniqueOrder` | workbench-core/datasets/src/dataSetService.ts:305-307 | over distinct creation times the sorted order does not depend on the order in which the checks completed |
| `DatasetListing.SortStable` | workbench-core/datasets/src/dataSetService.ts:305-307 | datasets created at one instant keep the order in which they were collected |
| `DatasetListing.ListDataSets` | workbench-core/datasets/src/dataSetService.ts:271-317 | a call answers with the newest page of what it collected and a token for the last one shown, or with everything and the backend's token; it fails exactly if there is a dataset to decide on and the user has a hundred groups or more |
| `DatasetListing.NewestFirstChunks` | workbench-core/datasets/src/dataSetService.ts:305-312 | over a newest-first index every answer, truncated or not, is the next stretch of the readable datasets |
| `DatasetListing.ProgressOf` | workbench-core/datasets/src/dataSetService.ts:305-317 | a token always leads further into the index than the call's start, so every walk ends |
| `DatasetListing.NewestFirstWalk` | workbench-core/datasets/src/dataSetService.ts:284-317 | over a newest-first index, walking from no token to the end lists every readable dataset exactly once, in order, in at most n + 1 calls |
| `DatasetListing.TiesLose` | workbench-core/datasets/src/dataSetService.ts:305-312 | distinct creation times are needed: with a tie a newest-first walk may lose a dataset, which is exhibited |
| `DatasetListing.ListsWhatIsAuthorized` | workbench-core/datasets/src/dataSetService.ts:271-317 | over a newest-first index every walk lists exactly the datasets for which the permission store grants the user the operation READ on Dataset and the id, once each |
| `OldestFirstListing.TurnShows` | workbench-core/datasets/src/dataSetService.ts:284-317 | over an oldest-first index each call shows one span of the index turned around; a truncated call starts its span at a readable dataset, leaves readable ones before it, and hands out a token pointing just behind that start |
| `OldestFirstListing.SeamlessIff` | workbench-core/datasets/src/dataSetService.ts:284-317 | spans that tile the index show every readable dataset exactly once if and only if no readable dataset lies in the gap or overlap between one span and the next |
| `OldestFirstListing.LostForever` | workbench-core/datasets/src/dataSetService.ts:309-312 | over an oldest-first index what a truncated call drops is never shown by any later call |
| `OldestFirstListing.OldestFirstWalkIff` | workbench-core/datasets/src/dataSetService.ts:284-317 | over an oldest-first index, which is the order the plugin asks for, a walk is complete and free of repeats if and only if no call on the way collected more than a page |
| `OldestFirstListing.OldestFirstLoses` | workbench-core/datasets/src/dataSetService.ts:284-317 | a concrete walk over an oldest-first index that loses one dataset and repeats another |
| `OldestFirstIndex.EveryWalkCompleteIff` | workbench-core/datasets/src/dataSetService.ts:284-317 | judged on an oldest-first index before the first call: every walk, over every paging, is complete and free of repeats if and only if no two readable datasets fewer than a page apart in the index have a full number of pages of readable datasets before the younger one |
| `OldestFirstIndex.NoSplitWhenSmallOrSparse` | workbench-core/datasets/src/dataSetService.ts:284-317 | that is so with pages of one, with no more readable datasets than a page, and with readable datasets that lie a page apart, however many |
| `OldestFirstIndex.AllReadableIff` | workbench-core/datasets/src/dataSetService.ts:284-317 | for a user who may read everything it is so exactly with pages of one or a page that holds the whole index |
| `OldestFirstIndex.ListsWhatIsAuthorizedIff` | workbench-core/datasets/src/dataSetService.ts:271-317 | every walk lists exactly the datasets for which the store grants the user that operation, once each, if and only if the index condition holds |
| `ListingShared.ListsWhatIsShared` | workbench-core/datasets/src/dataSetService.ts:271-317 | in every state of every sharing run, over a newest-first index, a walk lists exactly the datasets that a project of one of the user's roles owns or shares, at either level, once each |
| `ListingShared.ListsWhatIsSharedIff` | workbench-core/datasets/src/dataSetService.ts:271-317 | the same over an oldest-first index, for all walks, if and only if the index condition holds |
| `ProjectListing.ListDataSetsForProject` | solutions/swb-reference/src/services/dataSetService.ts:154-193 | nothing for an ITAdmin; otherwise, in any order of the index, datasets the store grants the user to read and whose owner text begins with the project, namely what consecutive calls of the general listing found, cut to a page exactly when they found more; over a newest-first index that is the next stretch of the project's readable datasets; it fails exactly when the general listing does |
| `ProjectListing.ProjectWalk` | solutions/swb-reference/src/services/dataSetService.ts:154-193 | over a newest-first index, walking a project's pages lists exactly the readable datasets it owns, each once |
| `ProjectListing.ProjectOldestFirstWalkIff` | solutions/swb-reference/src/services/dataSetService.ts:154-193 | over an oldest-first index, which is the order the plugin asks for, a project's walk is complete and free of repeats if and only if no readable dataset of the project lies in the gap or overlap between what one inner call shows and what the next one does |
| `ProjectListing.ProjectWalkUncutIff` | solutions/swb-reference/src/services/dataSetService.ts:154-193 | as long as no inner call collects more than a page, that is the case if and only if no outer call finds more than a page |
| `ProjectListing.ProjectWalksGoWrong` | solutions/swb-reference/src/services/dataSetService.ts:154-193 | two concrete walks without an outer truncation: one project loses a dataset; the other is shown one twice although no inner call drops any of its own |
| `ProjectIndex.EveryProjectCompleteIff` | solutions/swb-reference/src/services/dataSetService.ts:154-193 | judged on an oldest-first index of owned datasets before the first call: every walk of every project is complete and free of repeats if and only if the general listing's condition holds and, dealt out in pages of readable datasets, each project's come out at a page exactly |
| `ProjectIndex.ProjectCompleteIff` | solutions/swb-reference/src/services/dataSetService.ts:154-193 | the same for one project, where the general listing's condition holds |
| `ProjectIndex.AllReadableProjectsIff` | solutions/swb-reference/src/services/dataSetService.ts:154-193 | for a user who may read everything no project loses any exactly with pages of one or a page that holds the whole index |
| `GroupLifecycle.StepKeeps` | workbench-core/authorization/src/dynamicAuthorization/dynamicAuthorizationService.ts:282-327 | every step of overlapping creates and deletes keeps: no entry for a group without status, a create that saw a group active finds it active, and a delete's list covers what its group still holds |
| `GroupLifecycle.RunKeeps` | workbench-core/authorization/src/dynamicAuthorization/dynamicAuthorizationService.ts:282-327 | so does every run whose locks and re-creations are quiet |
| `GroupLifecycle.PendingOnlyShrinks` | workbench-core/authorization/src/dynamicAuthorization/wbcGroupManagementPlugin.ts:219-230 | from the lock on, until the name is taken again, the group's permission set only shrinks, over every run |
| `GroupLifecycle.DeletedStaysEmpty` | workbench-core/authorization/src/dynamicAuthorization/dynamicAuthorizationService.ts:282-327 | once a delete has finished, the group holds nothing in every later state of every run until it is created again |
| `GroupLifecycle.DeleteCompletes` | workbench-core/authorization/src/dynamicAuthorization/dynamicAuthorizationService.ts:681-704 | from every state a lock can be carried through to the end, and the result takes only the group's own entries, role and status |
| `GroupLifecycle.FailedNeverCommits` | workbench-core/authorization/src/dynamicAuthorization/dynamicAuthorizationService.ts:601-627 | a create call that failed writes nothing later, unless it is made anew |
| `GroupLifecycle.FailedNeverFinishes` | workbench-core/authorization/src/dynamicAuthorization/dynamicAuthorizationService.ts:681-704 | a delete call that failed erases and closes nothing later, unless it is made anew |
| `GroupLocking.LockSafeIff` | workbench-core/authorization/src/dynamicAuthorization/dynamicAuthorizationService.ts:282-327 | for one lock, over all runs after it that do not take the name again, whatever else goes on: the group, once deleted, holds nothing, if and only if at the lock no create that saw it active can still commit, which depends on the other groups it names being or becoming active |
| `GroupLocking.LateCommitEscapes` | workbench-core/authorization/src/dynamicAuthorization/dynamicAuthorizationService.ts:601-627 | from every state in which a create call names an active group and sees, or can come to see, all its other groups active: whatever else is under way, there is a run to a deleted group that still holds permissions |
| `GroupLocking.LateCommitHappens` | workbench-core/authorization/src/dynamicAuthorization/dynamicAuthorizationService.ts:601-627 | such a run exists from the empty state, for every group permission |
| `GroupLifecycle.StaleDeleteCloses` | workbench-core/authorization/src/dynamicAuthorization/wbcGroupManagementPlugin.ts:231-241 | why a name must not be taken again while an old delete is under way: the old call, in any phase of its work, can close the new group with its permissions in place |
| `GroupLifecycle.StaleDeleteHappens` | workbench-core/authorization/src/dynamicAuthorization/wbcGroupManagementPlugin.ts:231-241 | such a run exists from the empty state, for every group permission |
| `GroupLifecycle.GroupService.DeleteGroup` | workbench-core/authorization/src/dynamicAuthorization/dynamicAuthorizationService.ts:282-327 | uninterrupted, it leaves the state without the group's status, role and permissions; with the role missing, the group stays locked and emptied |
| `ProjectPaging.TokenRoundTripIff` | workbench-core/accounts/src/services/projectService.ts:355-357 | a token names the project it was made for exactly when the id is free of the separator |
| `ProjectPaging.BuildPage` | workbench-core/accounts/src/services/projectService.ts:350-379 | fails exactly on a token that has no second part or whose second part is the id of no listed project; otherwise the projects behind the one named, as many as a page takes, with a token for the last exactly if the page is full |
| `ProjectPaging.WalkShowsAll` | workbench-core/accounts/src/services/projectService.ts:350-379 | walking from no token concatenates to the full sorted list, no loss and no repeat, in pages of at most the page size and in exactly n divided by the page size, rounded down, plus one calls |
| `ProjectPaging.WalkLength` | workbench-core/accounts/src/services/projectService.ts:350-379 | the number of calls of a walk from any place in the list is determined by what is left of it |
| `ProjectPaging.WalkCompletes` | workbench-core/accounts/src/services/projectService.ts:350-379 | no token met on the way is refused, so the walk can always be completed |
| `StorageLocations.MetadataTable.AddDataSet` | workbench-core/datasets/src/ddbDataSetMetadataPlugin.ts:112-135 | fails exactly when the name is in use, changing nothing; otherwise the dataset is stored under its id, its location's count is one more and every other count what it was; counts and names stay right |
| `StorageLocations.MetadataTable.RemoveDataSet` | workbench-core/datasets/src/ddbDataSetMetadataPlugin.ts:146-160 | an absent dataset is an error that changes nothing; otherwise its row is gone, its location's count is one less and every other count what it was; counts stay right |
| `StorageLocations.MetadataTable.StoreLocation` | workbench-core/datasets/src/ddbDataSetMetadataPlugin.ts:276-307 | the counter moves by one and its row is gone once it falls below one |
| `StorageLocations.RunCounts` | workbench-core/datasets/src/ddbDataSetMetadataPlugin.ts:112-160 | in every state of every run each location's count is the number of datasets stored there, its row exists iff that is positive, and names are unique |
| `StorageLocations.RunHolds` | workbench-core/datasets/src/ddbDataSetMetadataPlugin.ts:112-160 | after every run a dataset is held exactly if some operation added it while its name was free and no later one removed it |
| `StorageLocations.RemoveUndoesAdd` | workbench-core/datasets/src/ddbDataSetMetadataPlugin.ts:112-160 | removing the dataset just added restores every row and counter |
| `StorageLocations.MetadataTable.UpdateDataSet` | workbench-core/datasets/src/ddbDataSetMetadataPlugin.ts:137-140 | writes the row as given; right counts stay right if and only if the row exists and keeps its location |
| `StorageLocations.UpdateKeepsCountsIff` | workbench-core/datasets/src/ddbDataSetMetadataPlugin.ts:137-140 | rewriting a dataset's row keeps the counts right if and only if the row exists and keeps its location |
| `AuditMasking.MaskDeepAt` | workbench-core/audit/src/auditService.ts:107-116 | along every path at any depth: a primitive under a masked name becomes the mask, every other primitive stays, kinds stay, nothing appears |
| `AuditMasking.MaskDeepCompact` | workbench-core/audit/src/auditService.ts:107-116 | no undefined property and no trailing undefined element is left anywhere |
| `AuditMasking.MaskDeepIsTheOnlyOne` | workbench-core/audit/src/auditService.ts:107-116 | the two facts above determine the masked tree |
| `AuditMasking.MaskDeepTwice` | workbench-core/audit/src/auditService.ts:107-116 | masking is idempotent |
| `AuditMasking.AuditEntry.Mask` | workbench-core/audit/src/auditService.ts:96-105 | the in-place loop over the entry's values masks each of them once |
| `AuditMasking.MaskedEntryAt` | workbench-core/audit/src/auditService.ts:96-105 | the whole entry is masked path by path too; an undefined top-level value under a masked name, and nothing else, gains a mask |
| `AuditMasking.MaskEntriesTwice` | workbench-core/audit/src/auditService.ts:96-105 | masking a whole entry is idempotent |
| `AuditMasking.AuditEntry.IsComplete` | workbench-core/audit/src/auditService.ts:48-53 | the loop accepts exactly when every required value is present and defined |
| `AuditMasking.MaskingKeepsCompletenessIff` | workbench-core/audit/src/auditService.ts:73-94 | asking the masked entry for completeness answers for the original, for all entries, if and only if no required value is a masked field |
| `TokenRevocation.TokenRevocationService.RevokeToken` | workbench-core/authentication/src/tokenRevocationService.ts:39-49 | files the expiry, or zero, under the type and the third part of the token, and fails exactly on an unreadable token |
| `TokenRevocation.ValidateToken` | workbench-core/authentication/src/plugins/cognitoAuthenticationPlugin.ts:158-166 | accepts exactly what the verifier accepts and whose third part is not on record |
| `TokenRevocation.RevokedNeverAccepted` | workbench-core/authentication/src/tokenRevocationService.ts:39-83 | once revoked, a token that expires is never accepted again in any run of clock ticks, sweeps and further revocations that file no earlier expiry under its signature |
| `TokenRevocation.RevocationLastsIff` | workbench-core/authentication/src/tokenRevocationService.ts:65-83 | for every token, clock, sweep window and set of tokens that may be revoked later: the token is never accepted again in any run if and only if neither its own revocation nor one of those files a record under its signature that a sweep can take while the token is valid |
| `TokenRevocation.WithoutExpiryLastsIff` | workbench-core/authentication/src/tokenRevocationService.ts:65-83 | a token without an expiry is filed with time to live zero; with no other expiry filed under its signature its revocation lasts if and only if the clock is past the window in which a sweep would take that record |
| `TokenRevocation.UndoneBy` | workbench-core/authentication/src/tokenRevocationService.ts:43-48 | each such revocation undoes the first one in some run: the record is replaced whole, and swept in time |
| `TokenRevocation.OtherRevocationHarmless` | workbench-core/authentication/src/tokenRevocationService.ts:65-83 | revoking a token with another signature does not change whether this one is accepted |
| `TokenRevocation.AcceptedUntilExpiry` | workbench-core/authentication/src/tokenRevocationService.ts:39-83 | in every run that revokes none but tokens with other signatures, a token not on record is accepted until it expires |

## Left out

- PermissionStore.PermissionTable.Create: with the delimiter in an id the result is stated on rows, not on the permission map, because such rows are read back as other permissions (`PermissionKeys.KeyIsReadAs`). Pages, whole-subject reads, creates and deletes are stated for every table; the decision, the listing and the bulk deletes only for tables that stand for a permission map.
- DatasetReading.ListPermissions: the loop need not end, so the method watches it for a given number of turns and answers `Unended` when they are used up; its contract holds for every such number.
- Authorization.IsAuthorizedOnSubject: takes the groups already validated for the user; the lookup that validates them is not part of this model.
- Authorization.DeleteAllByIdentity: deletes its chunks one after the other, where the service starts them together; a retry after a partial failure is not modelled here, though `GroupLifecycle` lets a call fail at any step.
- AccessLevels.IsAuthorizedOnDataSet: the caller's groups are a parameter, as above.
- AccessLevels.GetAllDataSetAccessPermissions: the bound on a caller-supplied page size is the store's, and the check of malformed access levels and identity types is left to the types.
- DatasetService.DataSetService.ProvisionDataSet: the checks of storage name, account and storage creation are one input, `storageOk`; the generated id is an input that no key mentions yet.
- DatasetService.DataSetService.RemoveAccessForProject: whether environments still mount the dataset is an input, `mounted`.
- DatasetService.DataSetService.RemoveDataSet: the bulk delete of access entries and the delete of the dataset row, started together in the code, are steps one after the other; the storage location's counter is modelled apart, in `StorageLocations`.
- DatasetListing.ListDataSets: the permission store does not change during a walk; tokens name the last dataset seen, and one that names no dataset is out of scope. The page size is positive, as the request parsers demand.
- OldestFirstIndex.EveryWalkCompleteIff: quantifies over every paging with at least one row a page; for a database that never serves short pages the condition is sufficient and need not be necessary.
- ProjectIndex.EveryProjectCompleteIff: quantifies over the same pagings.
- DatasetListing.NewestFirstWalk: creation times are distinct; `DatasetListing.TiesLose` shows a walk that needs it. Which walks over tied times lose data is not characterized.
- GroupLifecycle.StepKeeps: the permission entries are their keys only, and role creation is one step with the status write.
- ProjectPaging.BuildPage: takes the filtered and sorted list as given, with distinct ids, which the batch read enforces; the administrator's and the single-group branches are plain reads.
- StorageLocations.MetadataTable.AddDataSet: the storage type, account and region written beside the counter, and the parsers' rejections, are not modelled.
- AuditMasking.MaskDeepAt: property names that the path-setting library would read as a path or as the prototype are excluded by the type `Name`; values other than plain objects, arrays and primitives are not modelled.
- TokenRevocation.ValidateToken: the signature check is the input `verified`; a deployment without a revocation service is not modelled.
- RouteAuthorization.IsAuthorizedOnRoute: what the route matcher finds for a route is an input, and templates are given as parsed pieces of text and parameter names.
- `isProjectAuthorizedForDatasets`, external endpoints, mount strings and upload links: reads and lists over what is modelled, or storage calls.
- Project creation and deletion permission sets (`swbProjectService`): constant lists of grants handed to the modelled create and delete.
- User assignment to groups, audit writes, logging, error classes and status codes: they would only add easy members; errors are result variants.
- Cloud storage, key and identity policies, environments and their lifecycle, stacks and scripts: outside the model.
