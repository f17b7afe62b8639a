# Evidra in Dafny

A model of the Evidra protocol, and proofs about it. Evidra answers factual claims on chain: anyone
pays for a request, a resolver fetches web sources, an adjudicator proposes an answer, validators
compare it with their own, and the registry records the result and calls consumers back.

The project models three contracts, the messages between them, and two programs that read them.

| files | what they model |
|---|---|
| `Common`, `Text`, `Digests`, `Sums`, `Seqs` | shared types and limits, strings, hashes as tagged payloads, sums over maps, passes over lists |
| `SourceClasses`, `PolicyRegistry` | class-list parsers, versioned source policies |
| `Registry` | every public write of the registry as a transaction that commits or reverts |
| `RegistryInvariant`, `RegistryRuns`, `RegistryCommit` | what each transaction keeps |
| `RegistryTheorems`, `RegistryResults`, `RegistryLife`, `RegistryIdentity`, `RegistryRequests` | results over whole runs |
| `RegistryContract` | the registry as a class whose methods update fields and undo payments |
| `Hosts`, `Evidence`, `SourcePolicies` | URL hosts and subject ownership, merging and clustering sources, applying a policy |
| `EvidenceTheorems`, `PrimarySources` | results about the evidence pipeline |
| `Manifests`, `Verdicts` | the manifest and its JSON text, the verdict, validation and commit |
| `Consumer`, `Protocol` | a callback consumer, and the whole protocol with messages in flight |
| `Projection`, `Indexer`, `IndexerTheorems`, `IndexerRuns` | the projection tables, the chain indexer, what readers can rely on, whole runs of its timer |
| `Scheduler`, `SchedulerTheorems`, `SchedulerJobs`, `SchedulerCounts` | the RPC scheduler as interleaved events, a log of each job's attempts, and its counters |

How to read it: `Registry.Execute` is one call; `RegistryTheorems.Run` is any interleaving of calls;
`Protocol.After` adds resolvers, a consumer and undelivered, repeated or reordered messages. In the
evidence pipeline every pass is a `Scan` that carries a state, and each has a method with the
contract's own loops that is proved to compute it. In the indexer, `chain` lists the states the
registry will pass through and every read may see a later one than the read before; any read or
write may fail. In the scheduler, `Step` is one timer, reply or call, and `EventLoop` drives the scheduler
object through them.

Assumptions. SHA-256 is injective on the tagged payloads it is given. JSON lists are sequences of
strings and the JSON decoder is an arbitrary function where it matters. Widths of integers are not
modelled: `u256` and `u32` values are naturals. The clock never goes back. Callers of the registry
have non-zero addresses. A URL is given with the host and path the URL parser finds in it; the
parser keeps the text, and validation only accepts texts with a non-empty host. Similarity is an
exact ratio compared with 0.62. Letters, digits and case are those of ASCII. Fetched contents, adjudicator replies, leaders' proposals, RPC errors and their
classification are arbitrary. In `Protocol`, commits come only from contracts that run the resolver
code, and a proposal becomes a commit only if at least one validator that follows the code accepted it.

Where documentation and code differ the model follows the code: a record that could not be fetched
keeps class UNKNOWN, since the classing loop skips it (contracts/evidra_resolver.py:601-602).

Six properties are stated with an exact condition because the plain one is false of the code:

- `EvidenceTheorems.SourceIsolation`: a later source that repeats the URL of an unavailable one becomes
  its duplicate. A merged list never contains such a pair, so in the protocol the condition always
  holds (`EvidenceTheorems.MergedIsolated`).
- `Hosts.OneRegistrableDomain` and `PrimarySources.AtMostOnePrimary`: a subject such as `co.uk` owns many
  registrable domains, and two of its one-letter hosts both count as primary (`Hosts.BareCompoundSubject`,
  `PrimarySources.TwoPrimariesForCoUk`).
- `RegistryLife.PaymentConserves`: credit to the zero address is dropped.
- `Verdicts.CommitAcceptsVerdict`: the manifest of twelve maximal URLs exceeds the registry's bound
  (`Verdicts.TwelveLongUrlsRefused`).
- `SchedulerTheorems.RestoredCooldownHolds` and `SchedulerTheorems.RestoredCooldownExact`: a quota error
  overwrites a restored cooldown, even a longer one.
- `IndexerRuns.RunTimer`: a row whose callback was acknowledged counts as settled, so a failure reported
  afterwards never reaches it (`IndexerRuns.StaleRow`, `IndexerRuns.StaleHappens`).

## Model

| member | source | states |
|---|---|---|
| `RegistryResults.CanonicalHead` | contracts/evidra_registry.py:1351-1434 | In every reachable state a fact's cached head fields are those of one resolution of its history: the last boolean one that satisfied its policy, else the first boolean one, else the last; its latest id is the last of the history |
| `RegistryResults.HeadIsCanonical` | contracts/evidra_registry.py:349-356 | Folding the head rule over any non-empty list of records picks exactly the record of that closed form, and no other |
| `RegistryResults.RunExtends` | contracts/evidra_registry.py:1331-1457 | Later states keep every resolution unchanged, histories only grow at the end, facts never disappear, a boolean head never turns non-boolean again, and a settled request never moves except for its callback mark |
| `RegistryResults.StepExtends` | contracts/evidra_registry.py:1273-1457 | The same for one call by anybody |
| `RegistryResults.OnlyCommitsRecord` | contracts/evidra_registry.py:1315-1457 | No call but a commit writes a resolution, a history or a fact |
| `RegistryResults.CommitRecord` | contracts/evidra_registry.py:1331-1395 | An accepted commit records exactly one fresh resolution, bound to the live request and its active attempt, with the outcome, diagnostic and flag of the message; an immutable one never expires, a mutable one at the end asked for or else its time to live after the commit |
| `RegistryResults.CommitTexts` | contracts/evidra_registry.py:1344-1348 | The texts of an accepted commit are bounded and kept, the manifest as its hash |
| `RegistryTheorems.ReachableGood` | contracts/evidra_registry.py:931-1500 | Every run of signed calls, in any interleaving with policy publications, keeps the joint invariant of requests, resolutions, histories, facts, counters, money, messages and policy bindings |
| `RegistryTheorems.ActKeeps` | contracts/evidra_registry.py:931-1500 | One call on either contract keeps that invariant |
| `RegistryTheorems.Movement` | contracts/evidra_registry.py:1273-1487 | A call that opens no request moves at most the one request it names, and only along the allowed lifecycle step |
| `RegistryTheorems.CreationAddsOne` | contracts/evidra_registry.py:993-1083 | Opening, refreshing or reassessing adds exactly one request under the next id and touches no resolution, fact or history |
| `RegistryLife.SingleResolution` | contracts/evidra_registry.py:1331-1339 | Under any interleaving of retries, cancels and stale or repeated commits a request has at most one resolution, made by its active attempt, and it never changes afterwards |
| `RegistryLife.NoIntermediateStatus` | contracts/evidra_registry.py:907-917 | Between transactions a request is dispatched or settled; it is resolved exactly when a resolution names it; a cancelled one holds no fee and has no resolution |
| `RegistryLife.CountersAreCounts` | contracts/evidra_registry.py:1782-1790 | The reported resolution count is the number of resolved requests and of stored resolutions, and the reused count the number of reused requests |
| `RegistryLife.BudgetStep` | contracts/evidra_registry.py:1273-1296 | Attempts left plus liveness strictly decreases on each successful retry, cancel or commit of a request and never rises |
| `RegistryLife.LifecycleBounded` | contracts/evidra_registry.py:1273-1339 | So the successful lifecycle calls on one request, over any run, are bounded by its attempt budget |
| `RegistryLife.Solvent` | contracts/evidra_registry.py:784-805 | Over every run, value received = credits + fees held by requests + value withdrawn, so the balance covers every credit |
| `RegistryLife.PaymentConserves` | contracts/evidra_registry.py:784-805 | Taking a payment conserves value if and only if the payer is not the zero address or paid no surplus |
| `RegistryLife.HistoryExact` | contracts/evidra_registry.py:867-876 | A fact's history lists exactly the resolutions with its key, in strictly increasing order, with versions 1, 2, 3, ... and each superseding its predecessor |
| `RegistryLife.PagesReproduce` | contracts/evidra_registry.py:1627-1654 | Concatenating successive pages from any offset until an empty one reproduces the rest of the list |
| `RegistryLife.ReadPage` | contracts/evidra_registry.py:1864-1890 | The paging loop returns the requested slice, cut at the end of the list |
| `RegistryLife.CallbacksAgree` | contracts/evidra_registry.py:878-905 | Any two callbacks ever sent have equal ids if and only if they are for the same request, and then they are the identical message |
| `RegistryIdentity.RefreshSameFact` | contracts/evidra_registry.py:1196-1230 | A refresh that succeeds opens a request on the same fact key, claim, policy, specification and template as the fact's canonical request, of a mutable fact, with the URLs given or else those of before |
| `RegistryIdentity.ReassessSameSpec` | contracts/evidra_registry.py:1232-1271 | A reassessment that succeeds keeps the fact key and the specification hash and takes the supplementals given |
| `RegistryIdentity.FactIdentityKept` | contracts/evidra_registry.py:1396-1434 | A fact's claim, policy hash, template hash and mutability never change over any run |
| `RegistryIdentity.ReuseIsFreshness` | contracts/evidra_registry.py:327-346 | Inside request creation the identity checks of the reuse test always pass: a hit means that reuse was asked for and the fact has a boolean head that is immutable, or neither expired nor older than the time to live asked for |
| `RegistryRequests.CreationExact` | contracts/evidra_registry.py:931-1084 | A creation that succeeds stores what was asked, bounded, with the caller, the time, the fee and an active policy; it is answered at once if and only if reuse was asked for and the fact's head is boolean and immutable, or neither expired nor too old, and otherwise it is sent to an enabled resolver |
| `RegistryRequests.CreationSucceeds` | contracts/evidra_registry.py:931-1010 | Well-formed arguments under an active policy fail for nothing but a payment below the reuse fee when the head answers, or below the base and attempt fees when not |
| `RegistryRequests.ReusedWasFresh` | contracts/evidra_registry.py:327-346 | In every reachable chain a request answered from the cache holds a boolean resolution of its own fact that was immutable, or neither expired nor older than the time to live asked for, when the request was opened |
| `RegistryRequests.EverythingSent` | contracts/evidra_registry.py:878-930 | In every reachable chain each attempt of each request was sent to its resolver, and each settled request with a target was called back |
| `RegistryRequests.CallbackTells` | contracts/evidra_registry.py:878-905 | Every callback ever sent tells the request's own resolution, field by field, under the derived id |
| `RegistryRequests.WhoMoves` | contracts/evidra_registry.py:1273-1339 | Whatever is called in a reachable chain: a request is cancelled if and only if its requester, the owner or the guardian asks for it once it is stale; it gets one more attempt if and only if its requester or the owner asks, pays, has attempts left and has waited; and it is resolved if and only if its assigned resolver commits a bounded, well-formed answer for its active attempt with its bindings |
| `RegistryRequests.WhoMarks` | contracts/evidra_registry.py:1459-1487 | The callback mark of a settled request moves only by its consumer's report, or from a reported failure by its requester or the owner having it sent again |
| `RegistryIdentity.ArgsReparse` | contracts/evidra_registry.py:1196-1261 | The arguments rebuilt from a stored request pass validation only as the same specification and policy, and unchanged seeds stay unchanged |
| `RegistryCommit.CommitKeeps` | contracts/evidra_registry.py:1315-1457 | An accepted commit keeps the whole registry invariant, including that each fact is the fold of its history |
| `RegistryCommit.FactIdentity` | contracts/evidra_registry.py:235-244 | A fact's key is the digest of its own claim, policy, schema and template |
| `RegistryRuns.CreateKeeps` | contracts/evidra_registry.py:931-1084 | Opening a request, dispatched or answered from the cache, keeps the invariant |
| `RegistryRuns.RetryKeeps` | contracts/evidra_registry.py:1273-1296 | A retry keeps the invariant, fees included |
| `RegistryRuns.CancelKeeps` | contracts/evidra_registry.py:1298-1313 | A cancellation raises the requester's balance by exactly the fees held, nobody else's, changes no other request and sends nothing; the invariant holds afterwards |
| `RegistryRuns.CallbackRetryKeeps` | contracts/evidra_registry.py:1459-1472 | A repeated callback sends exactly the one callback message of the request again; the invariant holds afterwards |
| `RegistryRuns.MarkKeeps` | contracts/evidra_registry.py:1474-1487 | A callback mark changes nothing but the mark of that request; the invariant holds afterwards |
| `RegistryRuns.WithdrawKeeps` | contracts/evidra_registry.py:1489-1500 | A withdrawal of a balance that is not zero pays out exactly the caller's balance, leaves that balance at zero and every other as it was; the invariant holds afterwards |
| `Registry.ParseSeedUrls` | contracts/evidra_registry.py:182-202 | The parsing loop with its seen table keeps the first URL of each normalised key, and reports too many or invalid URLs first |
| `Registry.ReparseSeeds` | contracts/evidra_registry.py:182-202 | A stored URL list parses to itself |
| `Text.CollapseJoins` | contracts/evidra_registry.py:55-56 | Collapsing white space in one pass gives the words of the text joined by single blanks |
| `Registry.OutcomeTextParses` | contracts/evidra_registry.py:1340-1341 | Every outcome's text is accepted by commit as that outcome |
| `Registry.DiagnosticTextParses` | contracts/evidra_registry.py:1342-1343 | Every diagnostic's text is accepted by commit as that diagnostic |
| `RegistryContract.EvidraRegistry.TakePayment` | contracts/evidra_registry.py:794-805 | Keeps the required part, credits the surplus to the sender, and changes nothing when too little is attached |
| `RegistryContract.EvidraRegistry.CreditAccount` | contracts/evidra_registry.py:784-792 | Adds to one balance, and silently drops credit to the zero address |
| `RegistryContract.EvidraRegistry.EmitCallback` | contracts/evidra_registry.py:878-905 | Sends one message with the derived id, or none without a target |
| `RegistryContract.EvidraRegistry.Dispatch` | contracts/evidra_registry.py:907-930 | Sends one resolver job for the active attempt, or reverts with no change |
| `RegistryContract.EvidraRegistry.CreateRequest` | contracts/evidra_registry.py:931-1084 | Field by field, with the payment undone on a later revert, it performs exactly the creation transaction |
| `RegistryContract.EvidraRegistry.RefreshFact` | contracts/evidra_registry.py:1196-1230 | Performs exactly the refresh transaction, or reverts with no change |
| `RegistryContract.EvidraRegistry.RequestReassessment` | contracts/evidra_registry.py:1232-1271 | Performs exactly the reassessment transaction, or reverts with no change |
| `RegistryContract.EvidraRegistry.RetryResolution` | contracts/evidra_registry.py:1273-1296 | Performs exactly the retry transaction, or reverts with no change |
| `RegistryContract.EvidraRegistry.CancelStaleRequest` | contracts/evidra_registry.py:1298-1313 | Performs exactly the cancel transaction, or reverts with no change |
| `RegistryContract.EvidraRegistry.CommitResolution` | contracts/evidra_registry.py:1315-1457 | Performs exactly the commit transaction, or reverts with no change |
| `RegistryContract.EvidraRegistry.RequestCallbackRetry` | contracts/evidra_registry.py:1459-1472 | Performs exactly the callback retry, or reverts with no change |
| `RegistryContract.EvidraRegistry.MarkCallbackResult` | contracts/evidra_registry.py:1474-1487 | Performs exactly the callback mark, or reverts with no change |
| `RegistryContract.EvidraRegistry.WithdrawCredit` | contracts/evidra_registry.py:1489-1500 | Performs exactly the withdrawal, or reverts with no change |
| `RegistryContract.EvidraRegistry.GetResolutionHistory` | contracts/evidra_registry.py:1627-1654 | Returns the requested page of a fact's history |
| `PolicyRegistry.RunKeeps` | contracts/evidra_policy_registry.py:306-391 | Over any run every record is well formed (canonical disjoint lists, hash of its own fields), latest version = largest published, and anything published earlier has changed at most to deprecated |
| `PolicyRegistry.StepKeeps` | contracts/evidra_policy_registry.py:306-391 | One publication or deprecation keeps this |
| `PolicyRegistry.WhoPublishes` | contracts/evidra_policy_registry.py:306-391 | Only the owner changes the book: a record appears if and only if the owner publishes a well-formed policy under an unused key, active and with an event, and an active one is switched off if and only if the owner deprecates it |
| `PolicyRegistry.StorageKeyInjective` | contracts/evidra_policy_registry.py:77-78 | A storage key determines policy id and version, even when ids contain the separator |
| `PolicyRegistry.ValidateCanonical` | contracts/evidra_policy_registry.py:123-130 | Validated lists are canonical texts of disjoint duplicate-free lists, and validating them again changes nothing |
| `PolicyRegistry.PublishedHash` | contracts/evidra_policy_registry.py:606-629 | The published hash is what the hash view computes from the publisher's raw arguments |
| `PolicyRegistry.StoredListsReadBack` | contracts/evidra_resolver.py:386-414 | Both the strict and the resolver's lenient parser read the stored texts of any published policy back as the same two disjoint lists |
| `PolicyRegistry.PolicyContract.PublishSourcePolicy` | contracts/evidra_policy_registry.py:306-373 | Updating the fields in order performs exactly the publication, or changes nothing |
| `PolicyRegistry.PolicyContract.DeprecateSourcePolicy` | contracts/evidra_policy_registry.py:375-391 | Performs exactly the deprecation, or changes nothing |
| `SourceClasses.ParseSourceClasses` | contracts/evidra_policy_registry.py:102-120 | The strict parser's loop computes its specification: reject unknown and repeated classes |
| `SourceClasses.ParseClassList` | contracts/evidra_resolver.py:386-414 | The lenient parser's loop computes its specification: skip unknown and repeated classes |
| `SourceClasses.StrictAccepts` | contracts/evidra_policy_registry.py:102-120 | The strict parser accepts exactly the readings that name known classes, each once |
| `SourceClasses.EmptyOnlyBlank` | contracts/evidra_policy_registry.py:102-112 | The strict parser reads the empty list from blank text or an empty JSON list and from nothing else |
| `SourceClasses.SemicolonsSeparate` | contracts/evidra_resolver.py:401-403 | Semicolons separate class names as commas do |
| `SourceClasses.ClassNamed` | contracts/evidra_policy_registry.py:112-114 | A token that is no alias names a class if and only if it spells its name, in any case and with blanks for underscores |
| `SourceClasses.LenientKeeps` | contracts/evidra_resolver.py:386-414 | The lenient parser keeps each known class once, where it is first named, and nothing else |
| `SourceClasses.CanonicalRoundTrip` | contracts/evidra_policy_registry.py:123-130 | Both parsers read the canonical text of a duplicate-free list back as that list, whatever the JSON decoder does |
| `Hosts.SuffixIsLabelSuffix` | contracts/evidra_resolver.py:164-168 | A host matches a dotted suffix if and only if its labels end with the suffix's labels |
| `Hosts.CanonicalMeans` | contracts/evidra_resolver.py:341-350 | On one host, URLs are told apart by their paths up to one slash at the end, and a missing path is the root |
| `Hosts.OneRegistrableDomain` | contracts/evidra_resolver.py:264-334 | All URLs owned by a subject share one registrable domain if and only if the subject's host is not itself a bare compound top-level domain |
| `Hosts.OwnedDomain` | contracts/evidra_resolver.py:171-183 | That shared domain is the registrable domain of the subject's host |
| `Hosts.BareCompoundSubject` | contracts/evidra_resolver.py:171-183 | Such subjects exist: for the subject `co.uk` the URLs of a.co.uk and b.co.uk are both subject-owned with different registrable domains |
| `Hosts.AuthorityHost` | contracts/evidra_resolver.py:264-296 | A subject's host, when there is one, is a normalised host name with at least two labels, and an owner is only read for platform hosts |
| `Hosts.AuthorityShape` | contracts/evidra_resolver.py:186-203 | A subject's host has at least two labels, the last of two or more letters and digits |
| `Hosts.SubjectForms` | contracts/evidra_resolver.py:264-296 | A subject given as host and name is read the same with either scheme, with a leading www. and with a slash, query or fragment after it; the name is the owner if and only if the host is a platform |
| `Hosts.PlatformOwned` | contracts/evidra_resolver.py:264-334 | A subject on a code platform owns exactly the pages there under its own name, so two names share none |
| `Evidence.MergeResolutionUrls` | contracts/evidra_resolver.py:353-383 | The two loops return the first 12 of: the first 6 key-distinct supplementals, then the key-distinct seeds not already there, with their origins |
| `EvidenceTheorems.MergeFacts` | contracts/evidra_resolver.py:353-383 | A merged list respects both budgets, puts supplementals first with the right origins, takes every URL from its own list, and never repeats a canonical key |
| `EvidenceTheorems.MergeComplete` | contracts/evidra_resolver.py:353-383 | No URL is left out while there is room for its key |
| `EvidenceTheorems.NoDuplicates` | contracts/evidra_resolver.py:589-596 | Clustering what was fetched from a merged list marks nothing as a duplicate |
| `Evidence.Tokenize` | contracts/evidra_resolver.py:417-429 | The character loop collects exactly the alphanumeric words of four or more characters of the lower-cased text |
| `Evidence.JaccardMeaning` | contracts/evidra_resolver.py:432-442 | The similarity is the share of common words among all words: symmetric, between 0 and 1, and 1 exactly for equal non-empty word sets |
| `Evidence.SimilarMeans` | contracts/evidra_resolver.py:432-442 | Contents are similar if and only if they have words and at least 62 of 100 of all their words are shared |
| `Evidence.FingerprintMeans` | contracts/evidra_resolver.py:445-451 | A fingerprint is the text's lower-case words joined by single blanks, empty below 40 characters and cut at 2048 |
| `Evidence.AttributionTarget` | contracts/evidra_resolver.py:539-557 | Returns the group of the first candidate the content names by host or URL |
| `Evidence.CatalogSources` | contracts/evidra_resolver.py:561-597 | The first loop computes the catalogue pass over the fetched records |
| `Evidence.LinkOne` | contracts/evidra_resolver.py:600-632 | One turn of the second loop: link a usable record to an earlier root or make it a root, and class it |
| `Evidence.ClusterSources` | contracts/evidra_resolver.py:560-637 | The three loops compute the clustering as a scan over the records |
| `EvidenceTheorems.CatalogAt` | contracts/evidra_resolver.py:589-596 | A record is marked as a duplicate exactly when its canonical URL occurred before it, and is otherwise left as fetched |
| `EvidenceTheorems.PairwiseIndependence` | contracts/evidra_resolver.py:599-632 | For non-empty hosts, any two records left usable have different non-empty groups, no shared fingerprint and similarity below 62/100, and the later content names neither the earlier host nor its URL |
| `EvidenceTheorems.KeptExactly` | contracts/evidra_resolver.py:560-637 | A source is left usable if and only if it was fetched, its URL did not occur before, and its group, fingerprint, words and text are apart from those of every earlier source left usable; one that is not apart takes the group of an earlier one it repeats or names |
| `EvidenceTheorems.ClassExactly` | contracts/evidra_resolver.py:513-536 | The class of a source left usable, each with its exact condition on ownership, platform and amount of text |
| `EvidenceTheorems.SourceIsolation` | contracts/evidra_resolver.py:560-637 | Inserting an unavailable source anywhere leaves every other record of the whole pipeline as it is without it, if and only if its URL occurred before or does not occur later |
| `EvidenceTheorems.MergedIsolated` | contracts/evidra_resolver.py:353-383 | What was fetched from a merged list always meets that condition, so there an unavailable source never affects another record |
| `EvidenceTheorems.AppendKeepsPolicy` | contracts/evidra_resolver.py:691-720 | Appending any sources never turns a satisfied policy into an unsatisfied one |
| `EvidenceTheorems.CrossCheckSound` | contracts/evidra_resolver.py:719-720 | A satisfied cross-check rests on two independently counted sources that are pairwise independent |
| `EvidenceTheorems.FinalStatus` | contracts/evidra_resolver.py:589-604 | A record ends as a duplicate exactly when its URL was repeated or it was fetched as one |
| `PrimarySources.AtMostOnePrimary` | contracts/evidra_resolver.py:513-536 | Every evaluation counts at most one primary source if and only if the subject's host is not a bare compound top-level domain |
| `PrimarySources.TwoPrimariesForCoUk` | contracts/evidra_resolver.py:513-536 | For the subject `co.uk` two concrete fetched sources both count as primary |
| `PrimarySources.TwoPrimariesNeverMet` | contracts/evidra_resolver.py:715-716 | So a policy wanting two primary sources is never satisfied for any other subject |
| `SourcePolicies.ApplySourcePolicy` | contracts/evidra_resolver.py:640-683 | The pass that rewrites the records in place computes the scan that carries the groups seen |
| `SourcePolicies.JudgeOne` | contracts/evidra_resolver.py:644-682 | Setting and clearing the flags in the contract's order gives the pass's decision on one record |
| `SourcePolicies.PolicyEval` | contracts/evidra_resolver.py:691-732 | The counting loop returns the counts and the verdict they imply |
| `SourcePolicies.PolicyEligibleIff` | contracts/evidra_resolver.py:649-682 | Each flag of each record equals its declarative condition; independent means countable and first of its group |
| `SourcePolicies.IndependentIsGroups` | contracts/evidra_resolver.py:665-711 | The independent count equals the number of distinct non-empty groups among acceptable records of independent classes |
| `SourcePolicies.StatsMeaning` | contracts/evidra_resolver.py:691-711 | All five counts in terms of the records before the pass |
| `SourcePolicies.VerdictIsMet` | contracts/evidra_resolver.py:712-720 | The verdict is satisfied if and only if some record before the pass is acceptable, the acceptable primary ones reach the primary minimum, and the distinct groups reach the independent minimum, and two under a cross-check |
| `SourcePolicies.ApplyTwice` | contracts/evidra_resolver.py:640-683 | Applying a policy to its own result changes nothing |
| `SourcePolicies.VerdictIgnoresOrder` | contracts/evidra_resolver.py:691-720 | Permuting the records before the pass changes no count and not the verdict |
| `Verdicts.NormalizeLeaderResult` | contracts/evidra_resolver.py:822-872 | Overwriting the claim step by step computes the normalised verdict and its manifest |
| `Verdicts.VerdictSound` | contracts/evidra_resolver.py:822-845 | Whatever the leader claims, the satisfied flag equals the evaluation, the verdict is boolean if and only if the policy is satisfied and the claim parses as that boolean, and no usable source gives SOURCE_UNAVAILABLE |
| `Verdicts.SemanticsExact` | contracts/evidra_resolver.py:822-904 | The whole verdict from the reply's texts and the clustered sources: TRUE or FALSE if and only if the policy is met and the reply claims it, and otherwise the one diagnostic that applies |
| `Verdicts.ShortSummary` | contracts/evidra_resolver.py:846-848 | The summary is the reply's own, stripped and cut at 1024 characters |
| `Verdicts.VerdictIsolated` | contracts/evidra_resolver.py:822-845 | An unavailable source among distinct URLs changes none of the fields validators compare |
| `Verdicts.AcceptedSound` | contracts/evidra_resolver.py:1141-1173 | Any proposal a validator accepts, honest or not, carries the request's four bindings and parses to exactly the outcome, the diagnostic and the flag of the validator's own evaluation; a boolean one met the policy there |
| `Verdicts.HonestAccepted` | contracts/evidra_resolver.py:907-912 | The proposal of a leader that follows the code is accepted if and only if its outcome, diagnostic and flag are the validator's own |
| `Verdicts.CommitAcceptsVerdict` | contracts/evidra_resolver.py:1183-1198 | An honest leader's commit for the active attempt is accepted if and only if the JSON text of the manifest the normalisation built fits the registry's bound |
| `Verdicts.TwelveLongUrlsRefused` | contracts/evidra_registry.py:1348 | A manifest bound that can fail: for six seeds and six supplementals of 2048 characters each, all kept by the merge, every such commit reverts |
| `Verdicts.ManifestTells` | contracts/evidra_resolver.py:850-866 | Each manifest entry tells the fetched source's URL, origin and excerpt, its clustered group and status, and flags that are the declarative conditions of the policy |
| `Manifests.ManifestLength` | contracts/evidra_resolver.py:849-865 | The manifest's JSON text is at least as long as the URLs it lists |
| `Verdicts.TwoPrimariesUnresolved` | contracts/evidra_resolver.py:875-904 | A policy wanting two primary sources leaves every ordinary subject UNRESOLVED |
| `Consumer.ConsumerProbe.OnEvidraResult` | contracts/evidra_consumer_probe.py:71-96 | Applies a payload with a new id, counts a repeated one, refuses other senders |
| `Consumer.ExactlyOnce` | contracts/evidra_consumer_probe.py:51-96 | Over any deliveries: callback count = number of distinct ids = number of effects; callback count + ignored duplicates = accepted deliveries; the effects have distinct ids covering all delivered ids |
| `Consumer.EveryPayloadApplied` | contracts/evidra_consumer_probe.py:85-96 | When equal ids mean equal payloads, every payload delivered takes effect exactly once in any order |
| `Protocol.BooleanRestsOnPolicy` | contracts/evidra_resolver.py:1116-1198 | With messages reordered, repeated or lost and all commits from resolvers: every resolution is backed by an evaluation of its own request's merged URLs, all with hosts, under the published policy its hash names; its satisfied flag is right, and a boolean outcome met the policy |
| `Protocol.ResolutionTells` | contracts/evidra_resolver.py:1152-1198 | With messages in any order: every resolution has exactly the outcome and diagnostic of its validator's evaluation, TRUE or FALSE if and only if the reply claimed it of sources meeting the policy, its request's bindings, and the end its time to live gives |
| `Protocol.BooleanMeetsPolicy` | contracts/evidra_resolver.py:712-720 | A boolean resolution rests on an acceptable source, on as many acceptable primary sources and on as many distinct provenance groups as the policy its hash names was published to want, under that policy's own class lists |
| `Protocol.CrossCheckedBoolean` | contracts/evidra_resolver.py:719-720 | A boolean resolution whose policy wants a cross-check rests on two separately counted sources that are pairwise independent |
| `Protocol.NoBooleanWithTwoPrimaries` | contracts/evidra_resolver.py:715-716 | Under a policy wanting two primary sources no resolution is ever boolean, unless the subject is itself a bare compound top-level domain |
| `Protocol.JobHosted` | contracts/evidra_resolver.py:1085-1093 | A job that passes the URL check only fetches from URLs with a host |
| `Protocol.HeadIsLastBoolean` | contracts/evidra_registry.py:1396-1434 | Then a fact's head is the last boolean resolution of its history if there is one, else the last resolution |
| `Protocol.CallbacksTakeEffectOnce` | contracts/evidra_registry.py:878-905 | Every callback that reaches a consumer takes effect exactly once, at most one a request, and the two counters account for all accepted deliveries |
| `Protocol.JobSound` | contracts/evidra_resolver.py:1013-1051 | A job that passes the resolver's checks and validation sends a commit backed by the published policy of its request |
| `Protocol.SentForLive` | contracts/evidra_resolver.py:1013-1116 | A resolver sends a commit only for a live request, from its assigned resolver, for its active attempt, with its bindings and after every URL was accepted |
| `IndexerTheorems.Agreement` | apps/api/src/indexer.ts:141-189 | What the agreement every cycle keeps means: each resolution up to the checkpoint has its exact row, and its fact is projected as the chain held it when all its resolutions up to the checkpoint were there |
| `IndexerTheorems.CaughtUpFact` | apps/api/src/indexer.ts:262-279 | Under that agreement a fact with no resolution past the checkpoint is projected exactly as the chain has it |
| `IndexerTheorems.FlaggedExactly` | packages/db/src/repository.ts:152-154 | Once a cycle has left all flags clean, no fact has two rows flagged canonical or two flagged latest; and a caught-up fact has a row for its head and its last resolution, exactly its head is flagged canonical and exactly its last resolution latest |
| `IndexerTheorems.RunIsHistory` | apps/api/src/indexer.ts:119-122 | The states any run of the registry passes through satisfy what the agreement results ask of a chain |
| `IndexerTheorems.BacklogCycles` | apps/api/src/indexer.ts:219-224 | The arithmetic of catching up: iterating the batch step reaches a fixed counter exactly from ceil(backlog / batch) steps on |
| `IndexerTheorems.CatchesUp` | apps/api/src/indexer.ts:164-165 | The iterated batch step in closed form |
| `Projection.CheckpointKeeps` | apps/api/src/indexer.ts:167-176 | Moving the checkpoint once the batch is processed keeps agreement and leaves every fact's flags consistent |
| `Projection.PutResolutionKeeps` | packages/db/src/repository.ts:137-143 | Writing one row of the batch keeps agreement |
| `Projection.SetFlagsKeeps` | packages/db/src/repository.ts:152-154 | Rewriting one fact's flags from a fact read keeps agreement and leaves that fact consistent |
| `Projection.PutFactKeeps` | packages/db/src/repository.ts:145-150 | Writing one fact read keeps agreement |
| `Projection.PutRequestKeeps` | packages/db/src/repository.ts:129-135 | Writing one request read keeps agreement |
| `Projection.TimePasses` | apps/api/src/indexer.ts:107-189 | Agreement survives the chain moving on |
| `Indexer.ProjectionRepository.UpsertResolution` | packages/db/src/repository.ts:137-143 | Inserts or overwrites one row |
| `Indexer.ProjectionRepository.SetResolutionFlags` | packages/db/src/repository.ts:152-154 | Flags exactly the rows of one fact |
| `Indexer.ProjectionRepository.SetSyncStatus` | packages/db/src/repository.ts:295-317 | Overwrites the given checkpoint fields and keeps the others |
| `Indexer.ProjectionRepository.ListMutableRequestIds` | packages/db/src/repository.ts:156-161 | The newest unsettled requests in descending order: an id is listed if and only if fewer newer ones than the limit are unsettled |
| `Indexer.ChainIndexer.ReadEventDelta` | apps/api/src/indexer.ts:206-217 | Returns exactly the events from the previous offset up to the new one, no more than the batch, and stops short of the counter only when the batch is full |
| `Indexer.ChainIndexer.Range` | apps/api/src/indexer.ts:219-224 | The next ids in order, at most a batch |
| `Indexer.ChainIndexer.SyncRequests` | apps/api/src/indexer.ts:242-251 | Every listed request that exists has a row read during the call and every other row is untouched; agreement holds wherever it stops |
| `Indexer.ChainIndexer.SyncResolutions` | apps/api/src/indexer.ts:253-260 | Reads the chain's exact records, in order |
| `Indexer.ChainIndexer.SyncFact` | apps/api/src/indexer.ts:265-278 | One fact's rows, flags and record, touching no other fact; agreement holds wherever it stops |
| `Indexer.ChainIndexer.SyncFacts` | apps/api/src/indexer.ts:262-279 | All facts of the batch, those of its requests too, in any order |
| `Indexer.ChainIndexer.WriteBatch` | apps/api/src/indexer.ts:155-160 | Writes all rows of a batch, with the rows of the listed unsettled requests and their facts read again, or stops with agreement and the checkpoint intact; rows outside the batch are untouched |
| `Indexer.ChainIndexer.ProcessBatch` | apps/api/src/indexer.ts:155-176 | Moves the checkpoint to the end of the batch once every row of it is written, and not otherwise |
| `Indexer.ChainIndexer.Cycle` | apps/api/src/indexer.ts:119-176 | A cycle keeps agreement and touches only rows of its batch; one that fails leaves the checkpoint; one that succeeds moves it to min(counter, checkpoint + batch), moves the log offsets, and has read every new and every listed unsettled request, and its fact, at some moment since it began |
| `Indexer.ChainIndexer.SyncOnce` | apps/api/src/indexer.ts:107-189 | The guarded cycle: skipped while syncing or cooling down; agreement always holds afterwards, and what a cycle has read again |
| `IndexerRuns.RunTimer` | apps/api/src/indexer.ts:94-189 | Any run of the timer, with cycles skipped, failed or truncated while the chain moves: every row, fact and request up to the checkpoints is right and caught-up facts equal the chain's; both checkpoints lie between what the first and the present counters allow after the successful cycles; on a chain that stood still they reach the counters if and only if those are at least ceil(backlog / batch); and if the last cycle that ran succeeded no fact has two rows with the same flag and the flags of caught-up facts are exactly the chain's, and if moreover the chain's requests stood still and the unsettled ones fit the limit, a row up to the checkpoint equals the chain's request if and only if it was not stale from the start |
| `IndexerRuns.StaleRow` | packages/db/src/repository.ts:156-161 | A stale row is settled and differs from the chain in nothing but a callback mark that looked final |
| `IndexerRuns.StaleHappens` | contracts/evidra_registry.py:1474-1487 | It happens: a consumer that had acknowledged may still report a failure, and no cycle reads that request again |
| `Indexer.ChainIndexer.Resume` | apps/api/src/indexer.ts:75-90 | After a restart with any batch size the agreement the tables already have is enough to go on, unless the batch shrank below the reach of a failed cycle: then exactly when no row lies past the checkpoint plus the new batch (`Indexer.OtherBatch`) |
| `SchedulerTheorems.NoJobLost` | packages/protocol/src/scheduler.ts:85-187 | In every interleaving a job is queued, in progress or settled, exactly one of them, settled once, after at most maxRetries + 1 attempts |
| `SchedulerJobs.JobOutcome` | packages/protocol/src/scheduler.ts:137-169 | Over any run a job is resolved if and only if its last attempt succeeded; once started it is rejected if and only if its last attempt met a quota error, an error that is not retryable, or was the last allowed; each earlier attempt failed with a retryable error and was followed no sooner than the server's wait and the capped exponential backoff |
| `SchedulerJobs.EveryRunRecorded` | packages/protocol/src/scheduler.ts:137-169 | Every run has the log of attempts these results speak of |
| `SchedulerCounts.CountersMean` | packages/protocol/src/scheduler.ts:141-187 | Over any run each counter is the number of logged attempts it is named after, and the suppressed calls are the jobs turned away before they started |
| `SchedulerCounts.FirstComeFirstServed` | packages/protocol/src/scheduler.ts:90-121 | Over any run jobs start in the order they were scheduled: while a job waits, none that came after it has been started |
| `SchedulerCounts.SlotsUsed` | packages/protocol/src/scheduler.ts:114-118 | A job that joins the queue and a slot that comes free set the timer when a slot is free, for as soon as the interval allows |
| `SchedulerTheorems.SafeStarts` | packages/protocol/src/scheduler.ts:114-135 | Active jobs never exceed the concurrency; a non-empty queue has a timer or an active job; starts are at least the minimum interval apart; none follows an earlier quota error within its cooldown |
| `SchedulerTheorems.MetricsConserved` | packages/protocol/src/scheduler.ts:176-187 | Each metric total equals the sum over subsystems and the sum over methods, and the calls counted are the attempts made |
| `SchedulerTheorems.NoStartInCooldown` | packages/protocol/src/scheduler.ts:122-127 | While a cooldown is on, no sequence of events before its end starts a job, unless one of them is a quota error |
| `SchedulerTheorems.RestoredCooldownHolds` | packages/protocol/src/scheduler.ts:99-101 | Over any run, a job that starts after a cooldown was restored starts at or after its end, unless a quota error came between |
| `SchedulerTheorems.RestoredCooldownExact` | packages/protocol/src/scheduler.ts:148-158 | The exact exception, for every configuration and all times: after a quota error at time q, a job can start before a restored end if and only if q is not below the minimum interval, before which nothing starts, and both q plus the configured quota cooldown and two minimum intervals lie before that end |
| `SchedulerTheorems.RestoredCooldownCutShort` | packages/protocol/src/scheduler.ts:148-158 | For every configuration and all such times, the run in which it happens: one job starts, the cooldown is restored, the job meets the quota error, and the next job starts as soon as that allows |
| `SchedulerTheorems.StepKeeps` | packages/protocol/src/scheduler.ts:85-170 | Every event keeps the joint invariant behind these results |
| `SchedulerTheorems.QuotaKeeps` | packages/protocol/src/scheduler.ts:148-158 | A quota error rejects the job and everything queued, each exactly once |
| `SchedulerTheorems.ReachesInv` | packages/protocol/src/scheduler.ts:60-187 | The invariant holds after any timed sequence of events |
| `SchedulerTheorems.EventLoop` | packages/protocol/src/scheduler.ts:85-187 | The scheduler object, updated in place by its methods and callbacks under any timed events, passes only through the states those results are about |
| `Scheduler.OptionsOf` | packages/protocol/src/scheduler.ts:76-83 | Every option is clamped to its documented range |
| `Scheduler.OptionsKept` | packages/protocol/src/scheduler.ts:76-83 | An option in its range is kept, one out of range goes to the nearest end, and missing ones take the documented defaults |
| `Scheduler.RpcScheduler.ScheduleCall` | packages/protocol/src/scheduler.ts:85-94 | Queues a job and starts the pump, or rejects it during a cooldown |
| `Scheduler.RpcScheduler.IsHardQuotaCoolingDown` | packages/protocol/src/scheduler.ts:103-106 | Forgets a cooldown that has passed and reports whether one is on |
| `Scheduler.RpcScheduler.StartPump` | packages/protocol/src/scheduler.ts:114-118 | Sets one timer, late enough after the last start, when there is work and a free slot |
| `Scheduler.RpcScheduler.OnPumpTimer` | packages/protocol/src/scheduler.ts:118-134 | Starts the first job, or rejects it during a cooldown and pumps again |
| `Scheduler.RpcScheduler.OnSuccess` | packages/protocol/src/scheduler.ts:141-143 | Resolves the job once and counts it |
| `Scheduler.RpcScheduler.OnFailure` | packages/protocol/src/scheduler.ts:144-168 | Classifies the error: reject with the whole queue, reject, or wait for a retry |
| `Scheduler.RpcScheduler.RejectQueued` | packages/protocol/src/scheduler.ts:153-156 | Rejects every queued job, in order |
| `Scheduler.RpcScheduler.OnRetryTimer` | packages/protocol/src/scheduler.ts:138-141 | Begins the next attempt |
| `Scheduler.RpcScheduler.OnFinished` | packages/protocol/src/scheduler.ts:130-133 | Frees the slot and pumps |
| `Scheduler.RpcScheduler.RestoreHardQuotaCooldown` | packages/protocol/src/scheduler.ts:99-101 | Extends the cooldown to a later time only |
| `Scheduler.RpcScheduler.Note` | packages/protocol/src/scheduler.ts:176-187 | Counts one event in the total and in one bucket of each kind |

## Left out

- Templates of the policy registry: publication and deprecation follow the same pattern as policies; a request carries an arbitrary template reference, and the guards of `request_fact_by_template` and of the resolver's template check can only refuse more.
- Event logs of the registry: their text; `Indexer` reads arbitrary logs that only grow.
- Administrative setters (owner, guardian, pause, fees, resolvers): over-approximated by one unguarded `Reconfigure` call that may set everything but keeps 1 to 32 attempts.
- URL validation rules and `urllib` parsing: an arbitrary predicate on texts and an arbitrary parser.
- Web rendering, prompts, and extraction of JSON from a reply.
- Fetch errors of a source, which reach neither the verdict nor the manifest, and the manifest text the registry stores beyond its hash and size.
- Non-ASCII case folding and alphanumerics, and integer widths.
- Delivery of withdrawn value by the native transfer.
- Projection of policies, templates, evidence rows, protocol state and the `is_fresh` flag, SQL, search queries and HTTP.
- Interleaving of one indexer cycle with another: excluded by the `syncing` flag, so a cycle is modelled as one method whose reads see a moving chain.
- Indexer.ChainIndexer.SyncFacts: visits the facts of a batch in any order instead of insertion order, which covers the one the code uses.
- The scheduler's error texts and retry classification, randomness of the jitter, and values of resolved calls.
- Scheduler.RpcScheduler.OnPumpTimer: timers are modelled as due times; that the runtime eventually fires them is not stated.
- Host extraction from free text and identity helpers of the resolver that its verdict does not use.
