# livefire-rag: verified model of the evidence pipeline

A Dafny model of the Python modules that define what livefire-rag's evidence artifacts mean, with
proofs of the properties those artifacts rely on. Six parts, in the order of the pipeline:

1. **Projection** of one typed event: pointers and exact attributes (`JsonPointer`,
   `ExactAttributes`), the bounded priority traversal (`Traversal`, `TraversalProperties`), the
   semantic texts and group digest (`SemanticProjection`, `SemanticContent`) and what they must not
   depend on (`NonInterference`).
2. **Projection packs**: locating Parquet rows (`RowLocation`), building (`PackTypes`,
   `PackBuilder`), verifying (`PackVerifier`), when the two agree (`PackTheorem`, `PackSources`) and
   inputs on which they do not (`PackRejections`).
3. **Deterministic derivation**: membership digests (`MembershipDigest`), the state-transition
   machine (`StateTransitions`, `TransitionFamily`), windows (`Grouping`, `Families`, `Windows`), the
   entity control break with its relationship summaries (`EntityFamily`, `EntityLinks`,
   `EntitySummaries`), writing and verifying packs (`DerivationTypes`,
   `DerivationPack`, `DerivationVerifier`, `DerivationBuilder`) and their agreement
   (`DerivationAgreement`, `DerivationTheorem`).
4. **Pilot sampling**: apportionment (`Apportionment`), the frame (`PilotFrame`), building and
   verifying (`PilotBuilder`, `PilotVerifier`), their agreement (`PilotSelection`, `PilotClosure`,
   `PilotTheorem`, `PilotWeights`, `PilotCrowd`), what acceptance means (`PilotAcceptance`) and the
   step from projection packs (`PilotSources`).
5. **Index**: resumable embedding (`EmbeddingRun`, `EmbeddingTheorem`) and search (`SearchTypes`,
   `SearchScoring`, `SearchIndex`, `SearchTheorem`).
6. **Metrics**: nDCG, recall and reciprocal rank (`Rearrangement`, `Ndcg`, `RankingMetrics`) and the
   paired bootstrap (`Bootstrap`).

`Ordering` holds Python's orders on strings and tuples and its sorts; `Wrappers` the optional value.

Conventions. SHA-256 and the RFC 8785 encoding are function parameters, assumed injective, or to
yield 64 hexadecimal digits (`PackTypes.Hexadecimal`), only where a theorem says so. SQL tables are
maps and sequences; a cursor is a sequence in its ORDER BY order. A counter that holds only positive
entries is a multiset. Floating point is `real`; rounding appears only where a bound depends on it.
The embedder, tokenizer, logarithm, text sanitiser, path predicates and random draws are arbitrary
functions, so the theorems hold for all of them. A Python exception is a constructor of a result
datatype; where an exception cannot happen the model proves the branch dead. Loops, captured
variables and objects that update fields are methods and classes, each proved equal to a function;
the properties are proved of that function.

Findings about the code that the proofs brought out:

- A derivation pack is rejected by its own verifier exactly when some participant row carries an empty
  entity id: the referential checks let it through when the entity table has an empty id
  (`DerivationTheorem.BuilderVerifierAgreement`, and `DerivationTheorem.NamelessRefused` for such tables).
- A projection pack built from fixture rows can fail its own verification: the builder checks four
  members of a supplied pointer, the verifier all of them, and rows may name one place. The exact
  condition on the rows is `PackTheorem.BuiltVerifies`; `PackRejections` has three inputs that miss it.
  Rows read from Parquet meet it (`PackSources.ReadRowsVerify`, `PackSources.PublicBuildVerifies`).
- Sampling weights miss part of a relation exactly when it is sampled (above the census limit) and has
  more strata than the sample limit (`PilotWeights.WeightsSumToPopulation`); `PilotCrowd.CrowdMissed`
  gives such a pack for every policy.
- The pilot verifier accepts samples that the builder does not make. It looks up the selection reason
  under the relation a row names, but never compares that relation
  (`src/livefire_rag/evidence_pilot.py:419-438`); an occurrence without documents is never tied to a
  selected one (lines 349-358 and 398-410); and the statistics by relation are not read. In the
  model these three are all (`PilotAcceptance.AcceptsExactly`), with failing samples in `PilotAcceptance.OneMislabelled` and
  `PilotAcceptance.StrayAccepted`.
- A relationship of an entity that takes part in no event is missing from that entity's side of the
  summaries (`EntitySummaries.SummariesComplete`).
- At most one of the two quota repair loops does any work, and the "cannot represent all strata" error
  is dead code (`Apportionment.Repair`).
- The check that coverage relations are sorted compares a list that was just built in sorted order
  (`src/livefire_rag/evidence_builder.py:1387-1390`); it cannot fail and is not modelled.

`dafny verify dfyconfig.toml` checks the whole project.

## Model

| member | source | states |
|---|---|---|
| `Apportionment.LargestRemainder` | src/livefire_rag/evidence_pilot.py:102-126 | For positive populations and any budget both repair loops terminate, the "cannot represent all strata" error is unreachable, and the result meets IsApportionment: the population table itself when the budget covers it, otherwise quotas that sum to the budget, stay between 0 and the population, are at least 1 when the strata fit the budget, and obey the two saturation orders |
| `Apportionment.ApportionmentUnique` | src/livefire_rag/evidence_pilot.py:102-126 | That specification has exactly one solution, so the result does not depend on dictionary insertion order |
| `Apportionment.Cut` | src/livefire_rag/evidence_pilot.py:112-119 | First loop: stops exactly at the budget if it starts above it and changes nothing otherwise; a stratum is cut only once every stratum ahead of it is down to 1 |
| `Apportionment.TopUp` | src/livefire_rag/evidence_pilot.py:120-125 | Second loop: reaches the budget exactly; a stratum gains only once every stratum ahead of it is at its population |
| `Apportionment.Repair` | src/livefire_rag/evidence_pilot.py:112-126 | At most one of the two loops does any step |
| `Apportionment.CutStep` | src/livefire_rag/evidence_pilot.py:113-119 | One cut keeps the cut order |
| `Apportionment.TopUpStep` | src/livefire_rag/evidence_pilot.py:121-125 | One top-up keeps the top-up order |
| `Apportionment.SomethingToCut` | src/livefire_rag/evidence_pilot.py:113-115 | While the quotas exceed the number of strata there is a candidate to cut |
| `Apportionment.SomethingToTopUp` | src/livefire_rag/evidence_pilot.py:121-124 | While the quotas fall short of the population there is a candidate to top up |
| `Apportionment.FloorsWithinBudget` | src/livefire_rag/evidence_pilot.py:107-111 | Floor quotas without the representation bump never exceed the budget |
| `Apportionment.BaseBounds` | src/livefire_rag/evidence_pilot.py:107-111 | Base quotas lie between 0 and the population, and at 1 or more when every stratum can be represented |
| `Apportionment.NoOpposition` | src/livefire_rag/evidence_pilot.py:112-125 | Two solutions cannot differ upwards at one stratum and downwards at another |
| `PilotFrame.BucketLower` | src/livefire_rag/evidence_pilot.py:78-82 | The bucket bound is a power of two with lower <= count <= 2 * lower - 1 |
| `PilotFrame.ReadFrame` | src/livefire_rag/evidence_pilot.py:162-175 | Reading fails exactly when some document lacks structural fields; otherwise it yields every record and the nested population table |
| `PilotFrame.PopulationCounts` | src/livefire_rag/evidence_pilot.py:162-175 | A stratum population is the number of its records, and exactly the strata met occur |
| `PilotFrame.PopulationTotal` | src/livefire_rag/evidence_pilot.py:177-183 | The strata of a relation account for all of its documents |
| `PilotFrame.QuotasFor` | src/livefire_rag/evidence_pilot.py:177-183 | Every relation gets a quota table meeting its specification: census below the limit, apportionment of min(sample limit, total) above |
| `PilotFrame.QuotasUnique` | src/livefire_rag/evidence_pilot.py:177-183 | Build and replay arrive at the same quotas |
| `PilotSelection.DrawIsHashMin` | src/livefire_rag/evidence_pilot.py:198-202 | Each stratum contributes exactly its quota, and nothing drawn ranks above anything left out |
| `PilotSelection.ExactlyTheDrawn` | src/livefire_rag/evidence_pilot.py:188-213 | A document is selected if and only if its record is drawn, with the row its stratum prescribes |
| `PilotSelection.TablesUnique` | src/livefire_rag/evidence_pilot.py:177-186 | The builder and the verifier work from identical tables |
| `PilotBuilder.BuildPilot` | src/livefire_rag/evidence_pilot.py:129-243 | The builder: refuses unstructured packs, otherwise its outcome (sample or first error) is the one determined by pack, policy and quotas |
| `PilotBuilder.SelectRelations` | src/livefire_rag/evidence_pilot.py:188-213 | The nested relation/stratum/row loops fill the selected and statistics dictionaries as specified |
| `PilotBuilder.RetainOccurrences` | src/livefire_rag/evidence_pilot.py:223-240 | One pass keeps every occurrence touching a selected document, counts its documents and stops at the first mixed or unknown one |
| `PilotBuilder.CheckClosure` | src/livefire_rag/evidence_pilot.py:241-243 | Closure holds exactly when every selected document was seen as often as it declares |
| `PilotClosure.RetentionSucceeds` | src/livefire_rag/evidence_pilot.py:225-240 | On a reconciled pack no occurrence is mixed and none has an unknown relation, whatever is selected |
| `PilotClosure.RetainsExactly` | src/livefire_rag/evidence_pilot.py:225-240 | An occurrence is kept if and only if its document is selected |
| `PilotClosure.ClosureHolds` | src/livefire_rag/evidence_pilot.py:241-243 | The closure error cannot occur on a reconciled pack |
| `PilotClosure.EmittedConsistent` | src/livefire_rag/evidence_pilot.py:330-360 | What is emitted satisfies every internal check of the verifier |
| `PilotClosure.EmittedMatches` | src/livefire_rag/evidence_pilot.py:373-412 | What is emitted agrees with the source pack document by document and occurrence by occurrence |
| `PilotVerifier.VerifyPilot` | src/livefire_rag/evidence_pilot.py:302-443 | The verifier accepts exactly the samples that are internally consistent, match the pack and replay from the policy |
| `PilotVerifier.CheckConsistent` | src/livefire_rag/evidence_pilot.py:330-360 | Sorted unique identities, selection covering the documents, closed occurrence counts, reconciled totals |
| `PilotVerifier.CheckDocuments` | src/livefire_rag/evidence_pilot.py:380-412 | No sampled document differs from, or is absent from, the pack |
| `PilotVerifier.CheckOccurrences` | src/livefire_rag/evidence_pilot.py:398-412 | No occurrence of a selected document is missing and none differs |
| `PilotVerifier.CheckRows` | src/livefire_rag/evidence_pilot.py:413-438 | The selection has the replayed ids, and each row agrees with the replay in rank, stratum, population, quota, inclusion probability and weight, and has the reason of the relation it names itself; the relation is not compared |
| `PilotAcceptance.AcceptsExactly` | src/livefire_rag/evidence_pilot.py:302-443 | On a reconciled pack the verifier accepts a sample if and only if it is the builder's up to the relation of a row (with the reason of the relation it names), occurrences of the pack without documents, and the statistics by relation |
| `PilotAcceptance.AcceptedIsReplayed` | src/livefire_rag/evidence_pilot.py:340-438 | An accepted sample has the builder's documents, and its rows and occurrences are the builder's if and only if every row names the relation of its document and no occurrence is without documents |
| `PilotAcceptance.StatisticsUnchecked` | src/livefire_rag/evidence_pilot.py:330-443 | Any statistics by relation may replace those of an accepted sample |
| `PilotAcceptance.MislabelledAccepted` | src/livefire_rag/evidence_pilot.py:413-438 | Whenever a relation is a census or its strata fit the budget, the builder's sample with a row of it put under any other relation is accepted |
| `PilotAcceptance.OneMislabelled` | src/livefire_rag/evidence_pilot.py:413-438 | A census of a single document is such a sample |
| `PilotAcceptance.StrayAccepted` | src/livefire_rag/evidence_pilot.py:340-412 | A sample that holds a document-less occurrence of the pack is accepted, although the builder keeps none |
| `PilotTheorem.BuildSucceeds` | src/livefire_rag/evidence_pilot.py:129-243 | On a reconciled pack building never meets a closure error |
| `PilotTheorem.SampleAccepted` | src/livefire_rag/evidence_pilot.py:302-443 | The built sample passes the replaying verifier |
| `PilotTheorem.BuildPassesReplay` | src/livefire_rag/evidence_pilot.py:129-443 | Build and replay agree even though each computes its own tables |
| `PilotSources.BuiltPackReconciled` | src/livefire_rag/evidence_pilot.py:146-182 | A projection pack built from any rows satisfies what the pilot relies on, whether or not the pack verifies |
| `PilotSources.BuiltPackSampled` | src/livefire_rag/evidence_pilot.py:129-443 | From rows to an accepted pilot: a structured pack built from rows is sampled without a closure error and the sample passes the replay |
| `PilotWeights.WeightsSumToPopulation` | src/livefire_rag/evidence_pilot.py:198-213 | The emitted sampling weights of a relation add up to its documents if and only if the relation is a census or its strata fit the budget |
| `PilotCrowd.CrowdMissed` | src/livefire_rag/evidence_pilot.py:198-213 | For every policy: a reconciled pack of n documents in n strata of one relation, n above both limits, whose weights do not add up to n |
| `PilotWeights.AllRepresented` | src/livefire_rag/evidence_pilot.py:109-111 | Every stratum has a quota of at least 1 exactly when the relation is a census or has no more strata than the budget |
| `PilotWeights.EmittedIsSelection` | src/livefire_rag/evidence_pilot.py:215-222 | The emitted rows are the selection, each row once |
| `PilotWeights.StratumWeight` | src/livefire_rag/evidence_pilot.py:198-213 | A represented stratum weighs its population, an unrepresented one nothing |
| `MembershipDigest.MembershipSetDigest` | src/livefire_rag/evidence_derivation.py:534-545 | The digest of the sorted members, refused for duplicates and for payloads whose length does not fit eight bytes |
| `MembershipDigest.FramesInjective` | src/livefire_rag/evidence_derivation.py:543-544 | Length-prefixed framing is uniquely decodable |
| `MembershipDigest.BigEndianInjective` | src/livefire_rag/evidence_derivation.py:543 | The eight-byte length prefix determines the length |
| `MembershipDigest.SetDigestPermutation` | src/livefire_rag/evidence_derivation.py:534-545 | The digest ignores the order of the members |
| `MembershipDigest.EqualDigestsEqualMembers` | src/livefire_rag/evidence_derivation.py:534-545 | With a collision-free hash, equal digests mean equal membership sets |
| `MembershipDigest.DigestIsCanonical` | src/livefire_rag/evidence_derivation.py:534-545 | For unique members, digests are equal if and only if the membership sets are |
| `StateTransitions.DeriveSeries` | src/livefire_rag/evidence_derivation.py:1236-1312 | The sort and the imperative loop over one series compute the declarative documents and outcome counts |
| `StateTransitions.SettleInstant` | src/livefire_rag/evidence_derivation.py:1244-1312 | One instant: an ambiguous one resets, a unanimous one counts its duplicates and yields at most one document |
| `StateTransitions.EndOfInstant` | src/livefire_rag/evidence_derivation.py:1241-1243 | The inner loop finds the end of the run of equal times |
| `StateTransitions.EmitsExactlyTheTransitions` | src/livefire_rag/evidence_derivation.py:1236-1312 | A document is emitted if and only if two consecutive distinct instants are both unanimous and differ in state |
| `StateTransitions.OutcomesPartition` | src/livefire_rag/evidence_derivation.py:1236-1312 | The five outcome counters add up to the rows |
| `StateTransitions.ArrivalOrderIrrelevant` | src/livefire_rag/evidence_derivation.py:1236-1240 | The result does not depend on arrival order |
| `StateTransitions.TransitionsChain` | src/livefire_rag/evidence_derivation.py:1244-1312 | Between two ambiguity resets transitions chain: the after-state of one is the before-state of the next |
| `StateTransitions.StateCarries` | src/livefire_rag/evidence_derivation.py:1244-1312 | Without a transition or reset in between, the state at two unanimous instants is the same |
| `StateTransitions.DerivedDistinct` | src/livefire_rag/evidence_derivation.py:1244-1312 | No two documents of a series end at the same instant |
| `TransitionFamily.DeriveTransitions` | src/livefire_rag/evidence_derivation.py:1173-1326 | The whole family: filing rows into series and deriving each series in key order |
| `TransitionFamily.StateConservation` | src/livefire_rag/evidence_derivation.py:1173-1326 | Outcome counts add up to the eligible rows, and eligible plus all reasons to the applicable ones |
| `TransitionFamily.StateFamilyFacts` | src/livefire_rag/evidence_derivation.py:1236-1326 | Every document has its own key and two distinct members |
| `Families.FileRows` | src/livefire_rag/evidence_derivation.py:932-976 | Counting, rejecting with a reason and filing under the group key is exact for every reading of a row |
| `Families.EligibilityPartition` | src/livefire_rag/evidence_derivation.py:932-976 | Eligible rows plus all reason counts are the applicable rows |
| `Families.EmissionOrder` | src/livefire_rag/evidence_derivation.py:977-1012 | Groups are emitted once each, ordered by their encoded keys |
| `Grouping.Conservation` | src/livefire_rag/evidence_derivation.py:932-1022 | Whatever is summed over the groups equals its total over the rows |
| `Windows.WindowsPartitionTime` | src/livefire_rag/evidence_derivation.py:959-969 | Every instant lies in exactly one aligned half-open window |
| `Windows.MetricRowHasOneWindow` | src/livefire_rag/evidence_derivation.py:932-1022 | Every eligible sample is a member of the one group under its key, whose half-open window contains its time and whose count*min <= sum <= count*max; when rows have different occurrences it is a member of no other group |
| `Windows.MetricWindowHoldsItsRows` | src/livefire_rag/evidence_derivation.py:932-1022 | Conversely every member of a metric group is the occurrence of an eligible row with that key, whose time lies in that window |
| `Windows.NetworkRowHasOneWindow` | src/livefire_rag/evidence_derivation.py:1040-1158 | The same for network events: one group under the key, its window holds the time, and no other group has the member when occurrences differ |
| `Windows.NetworkWindowHoldsItsRows` | src/livefire_rag/evidence_derivation.py:1040-1158 | Conversely every member of a network group is the occurrence of an eligible event with that key, whose time lies in that window |
| `Windows.SharedOccurrenceInTwoWindows` | src/livefire_rag/evidence_derivation.py:932-1022 | Different occurrences are needed: two eligible rows that share one under different keys put it into two groups |
| `Windows.MetricConservation` | src/livefire_rag/evidence_derivation.py:932-1022 | Sample counts and exact sums over all windows equal the corpus totals |
| `Windows.ExtremesBoundSum` | src/livefire_rag/evidence_derivation.py:977-987 | count*min <= sum <= count*max for every non-empty group |
| `Windows.DeriveMetric` | src/livefire_rag/evidence_derivation.py:917-1022 | The imperative metric family equals its specification |
| `Windows.NetworkGroupFacts` | src/livefire_rag/evidence_derivation.py:1040-1170 | In every network group observed + missing = events for each measure, outcome counts sum to events, and each observed measure obeys the extremes bound |
| `Windows.NetworkConservation` | src/livefire_rag/evidence_derivation.py:1040-1170 | Events, observed values, measure sums and outcomes over all windows equal the corpus totals |
| `Windows.DeriveNetwork` | src/livefire_rag/evidence_derivation.py:1025-1170 | The imperative network family equals its specification |
| `Windows.MetricMembersDistinct` | src/livefire_rag/evidence_derivation.py:970-1012 | With unique occurrences no metric document has a member twice |
| `Windows.NetworkMembersDistinct` | src/livefire_rag/evidence_derivation.py:1072-1158 | With unique occurrences no network document has a member twice |
| `EntityFamily.ControlBreak` | src/livefire_rag/evidence_derivation.py:1354-1443 | The streaming control break over sorted rows yields one group per entity with all of its rows and all of its links |
| `EntityLinks.CountLinks` | src/livefire_rag/evidence_derivation.py:1338-1346 | The pass over the joined relationships counts the links of every entity, at both ends |
| `EntityLinks.LinkCounts` | src/livefire_rag/evidence_derivation.py:1338-1346 | A link (direction, kind, neighbour kind) of an entity is counted once for every joined relationship that gives it |
| `EntitySummaries.LinkPerRelationship` | src/livefire_rag/evidence_derivation.py:1339-1343 | With unique entity ids the join has one row per relationship, with the kinds of its two entities |
| `EntitySummaries.SummariesComplete` | src/livefire_rag/evidence_derivation.py:1338-1443 | The summaries of all entity documents count each relationship at most twice, and all of them twice if and only if both entities of every relationship take part in some event |
| `EntityFamily.DeriveEntities` | src/livefire_rag/evidence_derivation.py:1348-1469 | Sorting first makes the control break exact for rows in any order |
| `EntityFamily.EntityPresent` | src/livefire_rag/evidence_derivation.py:1348-1443 | An entity has a document if and only if some row names it |
| `EntityFamily.EntityFamilyFacts` | src/livefire_rag/evidence_derivation.py:1354-1443 | Entity groups have distinct keys and are never empty |
| `EntityFamily.EntityMembersDistinct` | src/livefire_rag/evidence_derivation.py:1348-1443 | Distinct joined rows give distinct members |
| `DerivationPack.OutputWriter.Add` | src/livefire_rag/evidence_derivation.py:743-763 | Appends the document and one membership row per member, in sorted member order, and keeps the three counters equal to what was written |
| `DerivationPack.WriteGroups` | src/livefire_rag/evidence_derivation.py:561-660 | Writing succeeds exactly when every group has a membership digest, and then appends exactly its documents and rows |
| `DerivationVerifier.VerifyDerivationPack` | src/livefire_rag/evidence_derivation.py:1824-1958 | The verifier accepts exactly the packs that satisfy all identity, membership, digest, count and coverage conditions |
| `DerivationVerifier.VerifyDocuments` | src/livefire_rag/evidence_derivation.py:1824-1859 | Documents are accepted exactly when their ids are unique and each digest, context and identity recomputes |
| `DerivationVerifier.VerifyMemberships` | src/livefire_rag/evidence_derivation.py:1860-1901 | Rows are accepted exactly when each resolves to a document and carries an entity id if and only if its kind demands one |
| `DerivationVerifier.VerifyMemberSets` | src/livefire_rag/evidence_derivation.py:1902-1912 | Per document: no duplicates, right count, right set digest, right number of occurrences |
| `DerivationBuilder.PrepareViews` | src/livefire_rag/evidence_derivation.py:860-892 | The referential checks pass exactly on admissible tables, and otherwise the refusal is that of the first check that fails |
| `DerivationBuilder.BuildDerivationPack` | src/livefire_rag/evidence_derivation.py:1472-1573 | A pack is built exactly when the tables are admissible, all digests exist and the verifier accepts; a missing digest and a rejected pack are reported exactly when the steps before succeeded |
| `DerivationAgreement.WrittenDocumentsOk` | src/livefire_rag/evidence_derivation.py:561-628 | Written documents pass the document checks when their group keys differ |
| `DerivationAgreement.WrittenRowsOk` | src/livefire_rag/evidence_derivation.py:631-660 | Written membership rows pass the row checks when every group is named |
| `DerivationAgreement.WrittenMemberSetsOk` | src/livefire_rag/evidence_derivation.py:743-763 | Written member sets pass the set checks |
| `DerivationAgreement.UnnamedRowRefused` | src/livefire_rag/evidence_derivation.py:1877-1886 | A non-empty entity group with an empty name is refused |
| `DerivationTheorem.DeclaredCounts` | src/livefire_rag/evidence_derivation.py:1498-1573 | The declared family counts are those of the groups, and inclusion and eligibility split the base records |
| `DerivationTheorem.CountsMatch` | src/livefire_rag/evidence_derivation.py:1498-1573 | The declared counts match what was written |
| `DerivationTheorem.AllKeysDistinct` | src/livefire_rag/evidence_derivation.py:1472-1508 | No two groups of any two families share a key |
| `DerivationTheorem.BuilderVerifierAgreement` | src/livefire_rag/evidence_derivation.py:1472-1573 | Whatever the four families write, the verifier accepts it if and only if no participant has an empty entity id |
| `DerivationTheorem.NamelessRefused` | src/livefire_rag/evidence_derivation.py:1877-1886 | Tables in which one entity and its participant carry the id "" are admissible, digestible and refused |
| `DerivationTheorem.DigestsExist` | src/livefire_rag/evidence_derivation.py:534-545 | Unique occurrences, unique entities and one typed row per event make every membership digest exist |
| `JsonPointer.ResolveExactPointer` | src/livefire_rag/evidence_builder.py:501-527 | The resolver walk equals its specification, error cases included |
| `JsonPointer.UnescapeEscape` | src/livefire_rag/evidence_projection.py:874-875 | Escaping and unescaping a reference token is the identity (section 3 and 4 of RFC 6901) |
| `JsonPointer.EscapeShape` | src/livefire_rag/evidence_builder.py:506-513 | An escaped token has only valid escapes and no separator |
| `JsonPointer.DecimalFacts` | src/livefire_rag/evidence_builder.py:519-521 | An array index is rendered without leading zeros and parses back |
| `JsonPointer.SplitRender` | src/livefire_rag/evidence_builder.py:505 | Splitting a rendered pointer gives its segments back |
| `JsonPointer.PointerRoundTrip` | src/livefire_rag/evidence_builder.py:501-527 | A pointer rendered for a location of an event resolves to the value at that location |
| `JsonPointer.PointersDiffer` | src/livefire_rag/evidence_projection.py:874-896 | Different locations of an event have different pointers |
| `ExactAttributes.ExactAttributeSubset` | src/livefire_rag/evidence_projection.py:859-964 | The recursive visitor, the sort and the accounting compute the specified subset |
| `ExactAttributes.Scanner.Visit` | src/livefire_rag/evidence_projection.py:877-939 | The visitor on its nonlocal state refines the functional scan |
| `ExactAttributes.SubsetAccounting` | src/livefire_rag/evidence_projection.py:942-964 | Scanned scalars equal selected plus omitted, within the scan and attribute bounds |
| `ExactAttributes.EveryAttributeIsALeaf` | src/livefire_rag/evidence_projection.py:859-941 | Every attribute is a scalar leaf of the event that the policy does not refuse, under its own pointer |
| `ExactAttributes.NoHydrationMeansComplete` | src/livefire_rag/evidence_projection.py:940-964 | When hydration is not required, every scalar leaf of the event is an attribute |
| `ExactAttributes.PathsIncrease` | src/livefire_rag/evidence_projection.py:941 | Paths are strictly increasing after the sort |
| `ExactAttributes.CheckExactAttributes` | src/livefire_rag/evidence_builder.py:529-571 | The builder checks accept exactly the subsets that are closed, sorted, in range and resolve to the same scalar |
| `ExactAttributes.BuilderAcceptsProjector` | src/livefire_rag/evidence_builder.py:529-571 | No builder check on exact attributes can reject projector output |
| `Traversal.FlattenEvent` | src/livefire_rag/evidence_projection.py:757-835 | The visitor object, the priority sort and the cut compute the specified entries |
| `Traversal.Visitor.Visit` | src/livefire_rag/evidence_projection.py:791-818 | The recursive visitor on its captured variables refines the functional traversal |
| `Traversal.FullScanOnlyTruncates` | src/livefire_rag/evidence_projection.py:797-799 | Leaving the loop once the scan is full loses nothing but further truncation marks |
| `TraversalProperties.PriorityRespected` | src/livefire_rag/evidence_projection.py:820-835 | At most 160 leaves are kept, and nothing of lower priority is kept while something of higher priority is dropped |
| `TraversalProperties.UntruncatedMeansComplete` | src/livefire_rag/evidence_projection.py:791-835 | An unset truncation flag means every scalar leaf of the event is present under its dotted path |
| `TraversalProperties.EntriesStandForTheEvent` | src/livefire_rag/evidence_projection.py:791-818 | Every entry stands for a scalar leaf or an empty container of the event |
| `TraversalProperties.VisitCounted` | src/livefire_rag/evidence_projection.py:791-818 | The scan counts each candidate once and stops at 1024 |
| `SemanticProjection.SelectSemanticEntries` | src/livefire_rag/evidence_projection.py:668-704 | The selection loop equals its specification |
| `SemanticProjection.Bounded` | src/livefire_rag/evidence_projection.py:707-711 | A bounded text fits; a cut one ends in the marker and otherwise is a prefix |
| `SemanticProjection.ComposedTextFits` | src/livefire_rag/evidence_projection.py:1013-1035 | The composed text has at most 3059 characters for every input, so the assertion error is unreachable |
| `SemanticProjection.ProjectEvent` | src/livefire_rag/evidence_projection.py:1139-1225 | The projection of one event, with its text within the limit |
| `SemanticContent.SelectionIsExact` | src/livefire_rag/evidence_projection.py:668-704 | A leaf is selected if and only if it is present, neither timing nor noise nor a bare identifier, and not shadowed by a typed leaf of the same name |
| `SemanticContent.GroupLeavesAreExact` | src/livefire_rag/evidence_projection.py:1209-1224 | The group material lists a leaf with its text if and only if it is selected and neither identifying nor secret |
| `SemanticContent.LeafReachesText` | src/livefire_rag/evidence_projection.py:1004-1036 | Every selected leaf stands in the semantic text as label=value, unless what there is to say under its role exceeds the budget of that role |
| `NonInterference.NonInterference` | src/livefire_rag/evidence_projection.py:1166-1225 | Two events of one shape that differ only in scalars at secret or identifier paths (both non-null) or at time, volatile, positional or noise paths get the same facet texts, semantic text and group digest |
| `NonInterference.FlattenAlike` | src/livefire_rag/evidence_projection.py:757-835 | Such events are flattened to the same paths in the same order, truncated alike |
| `NonInterference.SemanticEntriesAlike` | src/livefire_rag/evidence_projection.py:668-704 | Their selected entries read the same |
| `NonInterference.SortPairwise` | src/livefire_rag/evidence_projection.py:793-831 | Sorting by a key that related elements share keeps them at related places |
| `RowLocation.LocateFinds` | src/livefire_rag/evidence_builder.py:209-243 | Every file row has a place in a non-empty row group that leads back to it, also past empty row groups |
| `RowLocation.PlaceLocates` | src/livefire_rag/evidence_builder.py:209-243 | Every (row group, ordinal) is found again: with LocateFinds, a bijection |
| `RowLocation.BuildBoundaries` | src/livefire_rag/evidence_builder.py:209-213 | The loop builds the cumulative boundaries |
| `RowLocation.LocateRow` | src/livefire_rag/evidence_builder.py:232-243 | The place of one row from the boundaries |
| `PackBuilder.Staging.Insert` | src/livefire_rag/evidence_builder.py:613-643 | Upsert with counting: collides exactly when the stored payload differs, duplicates exactly when the occurrence id exists, otherwise the new tables |
| `PackBuilder.StageRows` | src/livefire_rag/evidence_builder.py:720-758 | The row loop ends with exact tables and counters, or in an error, and then the rows cannot all be normalised and clean |
| `PackBuilder.BuildPack` | src/livefire_rag/evidence_builder.py:720-812 | A pack is built if and only if all rows normalise, rows of one group agree on the payload and no two share an occurrence; the closure failure is unreachable |
| `PackTypes.CountPermutation` | src/livefire_rag/evidence_builder.py:1141-1235 | The counters do not depend on the order in which occurrences stream by |
| `PackVerifier.VerifyPack` | src/livefire_rag/evidence_builder.py:1098-1441 | The verifier accepts exactly the packs whose sorted streams reconcile with the declared counts and, when sources are mounted, replay |
| `PackVerifier.CheckOccurrences` | src/livefire_rag/evidence_builder.py:1141-1235 | Sorted unique identities bound to complete pointers (schema, snapshot, profile, record, digest, locator shape, supports), one occurrence per source row |
| `PackVerifier.CheckRelations` | src/livefire_rag/evidence_builder.py:1362-1390 | Declared relations are unique, reconcile and cover every relation counted |
| `PackVerifier.CheckReplay` | src/livefire_rag/evidence_builder.py:1264-1360 | Every mounted row replays to an occurrence and document of the pack, relation by relation |
| `PackTheorem.BuiltVerifies` | src/livefire_rag/evidence_builder.py:720-812 | A built pack has one occurrence per row and verifies if and only if, among the rows as they came in, every supplied pointer has the schema version, the record profile, its own relation, a file digest, two non-negative integer row numbers and a support, and no two rows name one place |
| `PackRejections.OnePlaceTwice` | src/livefire_rag/evidence_builder.py:1141-1235 | Two fixture rows without pointers that name one place build, and every pack built from them is refused |
| `PackRejections.NegativeRowGroup` | src/livefire_rag/evidence_builder.py:331-343 | So does a supplied pointer with row group -1, which the builder takes and the verifier refuses |
| `PackRejections.NoSchemaVersion` | src/livefire_rag/evidence_builder.py:331-343 | So does a supplied pointer without schema version |
| `PackTheorem.DocumentCountsConserve` | src/livefire_rag/evidence_builder.py:1236-1253 | Document occurrence counts add up to the occurrences that bear a document |
| `PackTheorem.RelationTotalsConserve` | src/livefire_rag/evidence_builder.py:1362-1390 | Per-relation totals add up to all occurrences, and dispositions to their relation |
| `PackTheorem.EmittedOccurrences` | src/livefire_rag/evidence_builder.py:646-666 | The emitted occurrences are those of the rows, each once, in identity order |
| `PackTheorem.MentionsAreBearers` | src/livefire_rag/evidence_builder.py:613-629 | A document is mentioned as often as rows bear it |
| `PackSources.PlacesUnique` | src/livefire_rag/evidence_builder.py:188-243 | Rows read from mounted Parquet relations never name the same place |
| `PackSources.ReadRowsVerify` | src/livefire_rag/evidence_builder.py:188-243 | Rows read from mounted Parquet relations meet the whole condition |
| `PackSources.PublicBuildVerifies` | src/livefire_rag/evidence_builder.py:926-958 | Whatever is built from mounted Parquet relations passes the verifier that re-reads them |
| `EmbeddingRun.EmbedDocuments` | src/livefire_rag/evidence_index.py:290-363 | The keyset loop over the resume store computes the specified run: rows, requests, committed cache and ending, wherever it crashes |
| `EmbeddingRun.EmbedPage` | src/livefire_rag/evidence_index.py:318-362 | One page: row errors before any request, misses embedded and committed, rows in order |
| `EmbeddingRun.RemainderIsSuffix` | src/livefire_rag/evidence_index.py:303-317 | What the keyset query still sees is exactly the part of the table not yet read |
| `EmbeddingTheorem.RunKeeps` | src/livefire_rag/evidence_index.py:290-363 | Every run keeps the cache coherent, forgets nothing and asks only for what was not committed |
| `EmbeddingTheorem.RunRefines` | src/livefire_rag/evidence_index.py:290-363 | From every coherent cache and for every batch size an uninterrupted run succeeds exactly when all documents are acceptable, and then equals the embedder applied pointwise |
| `EmbeddingTheorem.StepRefines` | src/livefire_rag/evidence_index.py:318-362 | The same for one page |
| `EmbeddingTheorem.CrashKeepsPages` | src/livefire_rag/evidence_index.py:341-351 | A run that crashes after p commits of acceptable pages has committed every document of those pages, whatever comes after them |
| `EmbeddingTheorem.RunAttempts` | src/livefire_rag/evidence_index.py:290-363 | Reopening and rerunning after each crash leaves the resume database with the cache the theorems speak of |
| `EmbeddingTheorem.NeverAskedAgain` | src/livefire_rag/evidence_index.py:318-351 | Across any sequence of crashes and reruns what was committed is never sent to the embedder again |
| `EmbeddingTheorem.ResumedEqualsPlain` | src/livefire_rag/evidence_index.py:290-363 | After any sequence of crashes and reruns a complete run equals plain embedding |
| `SearchIndex.EvidenceIndex.PrepareEligible` | src/livefire_rag/evidence_index.py:1420-1519 | The eligible table holds exactly the links that satisfy the whole filter, with both counts |
| `SearchIndex.EvidenceIndex.Search` | src/livefire_rag/evidence_index.py:1529-1652 | A search refuses in the order of its checks, otherwise answers as specified |
| `SearchIndex.SearchOnce` | src/livefire_rag/cli.py:539-559 | The command line opens the index, searches and closes it whatever the outcome |
| `SearchScoring.CountTexts` | src/livefire_rag/evidence_index.py:1573-1586 | The first pass yields the same statistics for every chunk size |
| `SearchScoring.ScoreDocuments` | src/livefire_rag/evidence_index.py:1588-1620 | The second pass yields one row per document in order for every chunk size |
| `SearchScoring.ScoredIffMatching` | src/livefire_rag/evidence_index.py:1600-1615 | A text has a positive lexical score exactly when it contains a query term |
| `SearchScoring.FrequencyBounded` | src/livefire_rag/evidence_index.py:1576-1585 | A document frequency never exceeds the number of documents |
| `SearchTheorem.TopOfTheOrder` | src/livefire_rag/evidence_index.py:1622-1648 | In all three modes the answer is the first n of the order: nothing left out is ahead of anything returned |
| `SearchTheorem.ListedUnique` | src/livefire_rag/evidence_index.py:1622-1648 | The order by score descending, identity ascending is unique |
| `SearchTheorem.ReportedInOrder` | src/livefire_rag/evidence_index.py:1622-1648 | Reported scores are the ones ordered by |
| `SearchTheorem.FusionIsMonotone` | src/livefire_rag/evidence_index.py:1634-1647 | A document ahead of another in both lists never has a lower fused score |
| `SearchTheorem.FusedBounded` | src/livefire_rag/evidence_index.py:1635-1643 | Fused scores lie between 0 and 32787, reached by a leader of both lists |
| `SearchTheorem.PointersSatisfyTheFilter` | src/livefire_rag/evidence_index.py:1704-1750 | Every returned pointer belongs to its document and satisfies the whole filter; exhausted means all matching ones are returned |
| `SearchTheorem.AnswerRanksEligible` | src/livefire_rag/evidence_index.py:1563-1652 | The answer ranks one row for each eligible document and no other |
| `Rearrangement.WeightedBound` | tools/evaluate_fact_evidence.py:248-249 | Weighting a series with non-negative partial sums by a falling positive weight gives a non-negative sum, zero only with all its terms |
| `Ndcg.PrefixDominance` | tools/evaluate_fact_evidence.py:779-781 | At every depth the ideal list has gathered at least as much gain |
| `Ndcg.DcgDominance` | tools/evaluate_fact_evidence.py:248-249 | Discounted gain never exceeds the ideal one, with equality exactly for the same zero-padded truncated grades |
| `Ndcg.NdcgBounds` | tools/evaluate_fact_evidence.py:779-781 | nDCG lies in [0,1] and is 1 exactly when the truncated grades, zero-padded, are the ideal ones and there is something to gain |
| `RankingMetrics.EvaluateQuery` | tools/evaluate_fact_evidence.py:688-794 | One eligible query: inconsistent groups and unjudged documents are refused, a query without relevant judgments or ranking fails, otherwise the metrics |
| `RankingMetrics.GradeTop` | tools/evaluate_fact_evidence.py:765-778 | The loop over the ranking computes the grades and the retrieved groups |
| `RankingMetrics.GradedGroups` | tools/evaluate_fact_evidence.py:700-705 | The table of positively graded groups |
| `RankingMetrics.DuplicateScoresZero` | tools/evaluate_fact_evidence.py:768-776 | A later member of an evidence group scores zero |
| `RankingMetrics.GradesWithinIdeal` | tools/evaluate_fact_evidence.py:765-779 | Positive grades are entries of the ideal list, one per group |
| `RankingMetrics.MetricsBounded` | tools/evaluate_fact_evidence.py:779-794 | nDCG, recall and reciprocal rank lie in [0,1] for every ranking and judgment set; they are 1 exactly for the ideal grades, exactly when every relevant group was retrieved, and exactly when the group of the first document is relevant |
| `RankingMetrics.RunNdcgBounded` | python/livefire_rag_analysis/evaluate.py:148-162 | A retrieval run without repeated documents has nDCG in [0,1] at every cutoff, 1 exactly for the ideal grades |
| `RankingMetrics.PositiveGrades` | python/livefire_rag_analysis/evaluate.py:145-150 | The positive grades of a run are the judgments of its documents |
| `Bootstrap.PercentileMonotone` | tools/evaluate_fact_evidence.py:252-262 | Interpolation is monotone in the probability |
| `Bootstrap.PercentileInRange` | tools/evaluate_fact_evidence.py:252-262 | A percentile lies between the least and the greatest value |
| `Bootstrap.ClusterDeltas` | tools/evaluate_fact_evidence.py:1006-1016 | Every cluster holds the deltas of its own paired facts, each once and in order, and a cluster mismatch is found exactly when there is one |
| `Bootstrap.PairedBootstrap` | tools/evaluate_fact_evidence.py:989-1033 | The number of paired facts, the mean of their deltas and the interval for the given draws, or the cluster mismatch |
| `Bootstrap.PointIsPerFactMean` | tools/evaluate_fact_evidence.py:1017-1019 | The point estimate gathered cluster by cluster is the mean over the paired facts |
| `Bootstrap.IntervalOrdered` | tools/evaluate_fact_evidence.py:1020-1029 | For every sequence of draws the interval is ordered |
| `Bootstrap.IntervalWithinDeltas` | tools/evaluate_fact_evidence.py:1017-1029 | With a paired fact and at least one sample the point and both ends lie within the range of the per-fact deltas |
| `Bootstrap.LowerBoundTransfers` | tools/evaluate_fact_evidence.py:1017-1033 | If every paired fact has a delta of at least d, point and ends are at least d if and only if d is not positive or there are both paired facts and samples |

## Left out

- Files, Parquet, DuckDB and SQLite plumbing, JSON Schema validation, staging directories, atomic renames, manifest identities, object locks and receipt parsing: library behaviour; publication is one step.
- HTTP embedding clients, preflight and LM Studio conformance checks: foreign calls.
- Regular-expression redaction and key classification: the path predicates and the sanitiser are arbitrary functions, so nothing is claimed about which strings they catch.
- Canonical JSON checks per line: the model's rows are parsed values; outside projection packs its digests are arbitrary strings.
- PCA, plots, visualisation, command lines, bundles, review pools and provider demos.
- DerivationBuilder.BuildDerivationPack: the semantic text and facets of derived documents and the coverage fields the verifier does not read (reasons, outcomes, orphans, graph counts) are not part of the written pack.
- DerivationBuilder.PrepareViews: table columns are strings; the role of a participant, which may be NULL in the source, is one too.
- Windows.DeriveMetric: reading a sample out of its event (pointer lists, exact decimals, semantic buckets) is an arbitrary function of the row; only the window arithmetic and the integer aggregates are concrete.
- Windows.DeriveNetwork: the same holds for signatures, scopes and measures of network events.
- TransitionFamily.DeriveTransitions: the state signature and the series discriminator are arbitrary functions of the row.
- StateTransitions.EmitsExactlyTheTransitions: assumes one row per event in a series, which the unique event ids of the base pack provide.
- DerivationVerifier.VerifyDerivationPack: manifest, lock and artifact bytes are not modelled.
- MembershipDigest.DigestIsCanonical: needs payloads shorter than 2^64 bytes, as the eight-byte prefix does.
- JsonPointer.ResolveExactPointer: Python's isdigit also accepts digits outside ASCII; the model's array indices are ASCII.
- ExactAttributes.CheckExactAttributes: the namespace constant and the set of keys of an attribute are fixed by its type, and Python's equality of floats is equality of finite reals.
- ExactAttributes.ExactAttributeSubset: UTF-8 length is computed from code points; lone surrogates, which Python refuses to encode, are not modelled.
- Traversal.FlattenEvent: keys are strings, as in parsed JSON, and floats keep only their finite value or their text.
- SemanticProjection.ProjectEvent: event metadata, redacted structured fields and the projection digest are not modelled; they may depend on identifiers and times.
- NonInterference.NonInterference: says nothing about relation identities copied from event metadata; two events of one group may therefore differ in payload, which the pack builder reports as a collision.
- PackBuilder.BuildPack: commits per batch are not modelled, since a failed build discards its database.
- PackVerifier.VerifyPack: the document digest and the snapshot and policy references of documents are not part of the rows; a mounted source is a sequence of rows.
- PackTypes.Normalise: the members of a supplied pointer that no check reads are summarised as its canonical bytes, so a supplied pointer that has no canonical form there is not modelled.
- PackBuilder.Staging.Insert: after an error the tables are unspecified, as the build is abandoned.
- PilotVerifier.VerifyPilot: the replay visits relations and strata in sorted order where the code uses the order of arrival; the results differ only for packs with repeated document ids, the schema version of selection rows, scope declarations, artifact digests and the optional schema validation are left out.
- EmbeddingRun.EmbedDocuments: document ids are unique, as both primary keys and the collision check before the view guarantee; a crash is modelled between statements that touch the resume database.
- SearchIndex.EvidenceIndex.Search: hashes, coverage labels, previews and event times of the answer are not modelled, and scratch tables after a refusal are unspecified.
- SearchScoring.ScoredIffMatching: BM25 is over reals with an arbitrary logarithm that is positive above 1; its rounding to millionths is an arbitrary function.
- RankingMetrics.EvaluateQuery: hard-negative triplets, margins, cohorts, coverage and the validation of ranks and receipts are left out; rankings arrive in rank order.
- RankingMetrics.RunNdcgBounded: validation of a run (contiguous ranks, finite scores) is reduced to its consequence that documents are distinct.
- Bootstrap.PairedBootstrap: the generator is an arbitrary choice among the clusters; medians and the per-metric uncertainty report are left out. Fewer than one sample is a case of the function alone: the program refuses it.
