# Computing-power-service allocation: a Dafny model

The repository is a small computing-power-service system with four parts:

- a **center** (Go) that keeps a service table, a deployment table and an
  allocation table;
- **sites** that run service instances;
- a **platform** page where services are registered;
- a **client** page that measures every candidate instance and asks the
  center for one.
  - A candidate is a site that deploys the wanted service.
  - Measuring means timing a `/ping` call. The client then asks the center
    to allocate one slot (one unit of `Gas`) on the best instance, invokes
    that instance, and releases the slot when the user ends the session.
  - The center ranks eligible candidates by a weighted sum of min–max
    normalised cost (weight 0.4) and delay (weight 0.6). Ties go to the
    smaller delay.

This project models the core of that system and proves properties of the
model:

- the center's store (`Ledger`: allocation, release, the table updates of
  the HTTP handlers, the `cps` view);
- its helpers (`MinMax`, `InstanceBuild`, `Ranking`, `Text`);
- the client's network-measurement script (`Probe`) and invocation page
  (`Invocation`);
- the network log installed by the center and platform pages (`NetLog`);
- the HTML escaping shared by the pages (`Html`);
- the default deployment of the center page (`CenterUi`);
- the registration form of the platform page (`PlatformUi`).

Go `float64` is modelled as exact `real`. Go `int` and JavaScript numbers
are modelled as unbounded `int`. Strings are `seq<char>`.

The following are parameters rather than inputs the model computes:

- the randomness of `newID`: the 8 bytes it hex-encodes;
- the fallback `buildInstances(siteName, gas)`: it is called by the source
  but not defined in it, so it is a function parameter;
- every network reply (fetch outcomes, the candidates, allocation,
  invocation and release replies);
- the clock readings and printed durations of the network log.

How the model is organised:

- The store is a class, `Ledger.Store`, whose fields are the four tables.
  Each method is proved against a specification predicate or function on
  those tables (`AllocateSpec`, `RegisterSpec`, `DeleteSpec`,
  `ReturnSlot`, `CascadeDelete`, `ViewOf`). That specification's
  properties are proved as lemmas.
- The client page is a class, `Invocation.Page`, whose handlers are proved
  equal to pure state-transition functions.
- The network log is a class, `NetLog.Page`, whose `Fetch` is proved to
  return the underlying outcome unchanged and to append each wrapper's two
  lines.
- The platform form is a class, `PlatformUi.Page`.

## Model

| member | source | states |
|---|---|---|
| Html.EscapeChar | center/web/assets/ui.js:4-6 | each of `& < > " '` becomes an entity starting with `&` and ending with `;`; every other character is kept |
| Html.EscapeHtml | client/web/assets/ui.js:5-7 | the escaped text is no shorter than the input and contains no raw `<`, `>`, `"` or `'` |
| Html.EscapeAttr | center/web/assets/ui.js:7 | escaping an attribute is exactly escaping HTML |
| Html.UnescapeChar | center/web/assets/ui.js:4-6 | decoding one escaped character gives that character back, whatever follows |
| Html.UnescapeEscape | platform/web/assets/ui.js:134-137 | escaping is invertible: decoding the escaped text gives the original text |
| Html.EscapePlain | center/web/assets/ui.js:4-6 | a text without any of the five special characters is left unchanged |
| Html.EscapeAppend | center/web/assets/ui.js:4-6 | escaping works character by character: escaping a concatenation concatenates the escapes |
| JsValues.ErrorTextOfError | client/web/assets/ui.js:102-104 | `String(new Error(m))` is `Error: ` followed by `m`, so the message can be read back |
| JsValues.OrChain | client/web/assets/nma.js:57 | `a \|\| b \|\| c` is truthy iff one of them is, and it yields the first truthy one (else the last) |
| Text.TrimLeft | center/server/util.go:44 | left trimming keeps a suffix of the input that does not start with white space |
| Text.TrimRight | center/server/util.go:44 | right trimming keeps a prefix of the input that does not end with white space |
| Text.TrimLeftBlank | center/server/util.go:44 | everything left trimming removes is white space |
| Text.TrimRightBlank | center/server/util.go:44 | everything right trimming removes is white space |
| Text.Trim | center/server/util.go:44 | the trimmed text is empty or neither starts nor ends with white space |
| Text.TrimSpec | center/server/util.go:49 | the trimmed text is a slice of the input whose removed prefix and suffix are all white space |
| Text.TrimKeepsAbsent | center/server/util.go:49 | trimming introduces no character that the input lacks |
| Text.TrimEmptyIffBlank | center/server/main.go:84 | the trimmed text is empty exactly when the input is all white space (the blank-id checks) |
| Text.TrimOfTrimmed | center/server/util.go:49 | a text with no white space at either end is its own trim |
| Text.TrimIdempotent | client/web/assets/ui.js:69 | trimming twice is trimming once |
| Text.Split | center/server/util.go:46 | splitting yields at least one piece, and no piece contains the separator |
| Text.JoinSplit | center/server/util.go:46 | joining the pieces of a split with the separator gives back the text |
| Text.SplitCons | center/server/main.go:221 | splitting `p + sep + t` (with `p` separator-free) gives `p` followed by the pieces of `t` |
| Text.SplitNoSep | center/server/main.go:221 | a text without the separator splits into itself alone |
| Text.SplitJoin | center/server/util.go:46 | separator-free pieces joined by the separator split back into the same pieces |
| Text.TrimPrefix | center/server/main.go:107 | with the prefix present the result is the rest after it; otherwise the input is returned unchanged |
| Text.Digit | client/web/assets/nma.js:38 | a digit value below 10 becomes the decimal character of that value |
| Text.NatToString | client/web/assets/nma.js:38 | a decimal rendering is all digits, has no leading zero, and has one digit below 10, at most two below 100, at most three below 1000 |
| Text.ParseNatToString | client/web/assets/nma.js:38 | reading back a decimal rendering gives the number |
| Text.ParseLeadingZeros | center/web/assets/ui.js:16-17 | leading zeros do not change the value of a digit string |
| Text.ZerosParse | center/web/assets/ui.js:16-17 | a string of zeros reads as 0 |
| Text.PadStart | center/web/assets/ui.js:16 | padding gives `max(width, length)` characters: the input at the end, preceded by the pad character only |
| Text.PaddedNumber | center/web/assets/ui.js:16-17 | a number that fits its width pads to exactly that many digits that read back as the number |
| Text.ToUpper | center/web/assets/ui.js:26 | ASCII upper-casing (the case mapping of an HTTP method token) keeps the length, leaves no lower-case ASCII letter, and keeps every character other than `a`–`z` |
| Text.ToUpperIdempotent | center/web/assets/ui.js:26 | ASCII upper-casing twice is upper-casing once |
| Text.HexDigit | center/server/util.go:12 | every value below 16 has a lower-case hex digit |
| Text.HexEncode | center/server/util.go:12 | hex encoding gives two lower-case hex digits per byte |
| Text.HexRoundTrip | center/server/util.go:12 | hex decoding inverts hex encoding |
| InstanceBuild.NonBlankPieces | center/server/util.go:48-58 | keeps only the pieces that are not blank after trimming, so never more pieces than were given and none of them empty |
| InstanceBuild.NonBlankPiecesTrimmed | center/server/util.go:49 | every kept id is already trimmed |
| InstanceBuild.NonBlankPiecesSepFree | center/server/util.go:46-49 | ids taken from the pieces of a split never contain `\|` |
| InstanceBuild.InstancesFor | center/server/util.go:55-58 | one instance per id, in order, each addressed `"/" + id` |
| InstanceBuild.BuildInstancesFromCsci | center/server/util.go:42-63 | some non-blank id in `CSCI-ID` gives one instance per such id, addressed `/id`; otherwise the result is the `buildInstances(siteName, gas)` fallback |
| InstanceBuild.InstancesOfPieces | center/server/util.go:48-59 | the loop over the pieces builds exactly the instances of the non-blank trimmed pieces |
| InstanceBuild.BlankCsciHasNoIds | center/server/util.go:44-45 | a blank `CSCI-ID` yields no id, so the fallback is taken |
| InstanceBuild.InstancesForAppend | center/server/util.go:55 | one more id appends exactly one more instance |
| InstanceBuild.CsciInstancesWellFormed | center/server/main.go:161-184 | every instance built from `CSCI-ID` has a non-empty, trimmed, `\|`-free id and the address `"/" + id` |
| InstanceBuild.JoinEnds | center/server/util.go:46 | a joined list ends with its last piece |
| InstanceBuild.CsciRoundTrip | center/server/util.go:44-58 | ids that are non-empty, `\|`-free and untrimmable, joined by `\|`, are read back as exactly those ids |
| InstanceBuild.CleanPiecesKept | center/server/util.go:49-52 | when no piece is blank or untrimmed, every piece is kept |
| InstanceBuild.NormalizeInstanceSpec | center/server/main.go:186-193 | an instance with a blank id is left alone; any other gets its trimmed id and the address `"/" + id` |
| InstanceBuild.NormalizeIdempotent | center/server/main.go:186-193 | normalising twice is normalising once |
| InstanceBuild.NormalizeBuilt | center/server/main.go:186-193 | normalisation leaves an instance built from a clean id unchanged |
| InstanceBuild.NormalizeAllBuilt | center/server/main.go:186-193 | normalisation leaves instances built from clean ids unchanged |
| InstanceBuild.NormalizeAllCsci | center/server/main.go:161-193 | the normalisation pass leaves the instances built from `CSCI-ID` untouched |
| InstanceBuild.NormalizeAll | center/server/main.go:186-193 | normalisation keeps the number of instances |
| InstanceBuild.NormalizeInstances | center/server/main.go:186-193 | the loop normalises each instance in place, in order |
| InstanceBuild.NewId | center/server/util.go:9-13 | an id is the prefix, `_`, and 16 hex digits |
| InstanceBuild.NewIdInjective | center/server/util.go:9-13 | different random bytes give different ids |
| MinMax.SeqMin | center/server/util.go:19-27 | the running minimum is an element of the values and no larger than any of them |
| MinMax.SeqMax | center/server/util.go:19-27 | the running maximum is an element of the values and no smaller than any of them |
| MinMax.Norm | center/server/util.go:15-40 | normalisation keeps the length |
| MinMax.MinMaxNorm | center/server/util.go:15-40 | the two loops compute the specified normalisation, including the empty input and the zero-spread case |
| MinMax.Bounds | center/server/util.go:19-27 | the first loop finds the least and the greatest value |
| MinMax.NormConstant | center/server/util.go:29-35 | when every value is equal, every output is 0 |
| MinMax.SpreadPositive | center/server/util.go:29-30 | two different values make the denominator positive |
| MinMax.RescaleBounds | center/server/util.go:36-38 | a value between the bounds maps into [0, 1]; the lower bound maps to 0 and the upper bound to 1 |
| MinMax.DivStrict | center/server/util.go:37 | dividing by a positive denominator keeps strict order |
| MinMax.NormRange | center/server/util.go:15-40 | with some spread, every output is in [0, 1], a least input maps to 0 and a greatest input to 1 |
| MinMax.NormOrder | center/server/util.go:36-38 | normalisation preserves order: smaller inputs give strictly smaller outputs, equal inputs equal outputs |
| Ranking.Eligible | center/server/cps.go:54-77 | every kept candidate comes from a measurement whose site deploys the service with free slots, scored with that deployment's cost and `CSCI-ID` |
| Ranking.EligibleExactly | center/server/cps.go:54-77 | the kept measurements are exactly the eligible ones |
| Ranking.EligibleEmpty | center/server/cps.go:79-81 | no candidate remains exactly when no measurement is eligible |
| Ranking.RecordDelaysSpec | center/server/cps.go:68 | the recorded delays gain the ids of the eligible measurements; an id not measured keeps its old delay; an id's last eligible measurement wins |
| Ranking.RecordDelaysKeys | center/server/cps.go:68 | the recorded ids are the old ones plus those of the eligible measurements |
| Ranking.RecordDelaysKept | center/server/cps.go:68 | an instance not measured keeps its recorded delay |
| Ranking.RecordDelaysLast | center/server/cps.go:68 | every eligible measurement's id is recorded, with the delay of its last eligible measurement |
| Ranking.Collect | center/server/cps.go:54-77 | the loop collects exactly the eligible candidates and records exactly their delays |
| Ranking.Costs | center/server/cps.go:75 | one cost per candidate |
| Ranking.Delays | center/server/cps.go:76 | one delay per candidate |
| Ranking.Scores | center/server/cps.go:83-88 | one score per candidate |
| Ranking.BeforeTransitive | center/server/cps.go:90-95 | the sort order (score, then delay) is transitive |
| Ranking.Rank | center/server/cps.go:83-97 | the chosen candidate is one that the sort could put first: its score is least, with ties broken by the smaller delay |
| Ranking.SelectLeast | center/server/cps.go:90-97 | the selection loop returns an index that no candidate sorts before |
| Ranking.NewLeast | center/server/cps.go:90-95 | a candidate that sorts before the current least one is sorted before by none seen so far |
| Ranking.ScoreAll | center/server/cps.go:86-88 | the scoring loop computes `0.4·norm(cost) + 0.6·norm(delay)` for each candidate |
| Ranking.BestIsLeast | center/server/cps.go:90-97 | the chosen candidate has a least score, and the least delay among equal scores |
| Ranking.DominatedNeverBest | center/server/cps.go:83-97 | a candidate that another beats on cost or delay without losing on the other is never chosen |
| Ranking.SameCostLeastDelay | center/server/cps.go:83-97 | when all costs are equal, the chosen candidate has the least delay |
| Ledger.TakeSlotSpec | center/server/cps.go:98-104 | taking a slot changes only the chosen entry: one free slot fewer when some was free, never below zero, deployment unchanged |
| Ledger.ReturnSlotSpec | center/server/cps.go:133-140 | giving a slot back to a missing deployment changes nothing; otherwise only that entry gains one slot, capped at its `Gas` |
| Ledger.TakeThenReturn | center/server/cps.go:98-140 | allocating and then releasing restores the table whenever the free slots were between 1 and `Gas` |
| Ledger.UpdateWellFormed | center/server/main.go:196-204 | writing a valid entry under its own site and service keeps the table well formed |
| Ledger.TakeSlotWellFormed | center/server/cps.go:98-104 | taking a slot keeps the table well formed |
| Ledger.ReturnSlotWellFormed | center/server/cps.go:133-140 | giving a slot back keeps the table well formed |
| Ledger.TakeThenReturnCaps | center/server/cps.go:101-104 | with more free slots than `Gas`, allocate-then-release does not restore the table: the slots end capped at `Gas` |
| Ledger.Register | center/server/main.go:196-204 | after registration the entry exists and holds the deployment with one free slot per instance |
| Ledger.RegisterWellFormed | center/server/main.go:153-156 | registering a deployment with non-negative `Gas` and `Cost` keeps the table well formed |
| Ledger.RegisterFrame | center/server/main.go:196-204 | registration adds or changes no other entry |
| Ledger.DropDeploymentSpec | center/server/main.go:231-236 | deleting removes exactly that entry and touches no other; a missing deployment changes nothing; the table stays well formed |
| Ledger.DropDeploymentFrame | center/server/main.go:231-236 | the deleted entry is gone and every other entry is kept as it was |
| Ledger.DropDeploymentAbsent | center/server/main.go:231-236 | deleting a deployment that is not there leaves a well-formed table unchanged |
| Ledger.DropDeploymentWellFormed | center/server/main.go:231-236 | deleting keeps the table well formed, so a site left with no service is dropped |
| Ledger.CascadeDeleteSpec | center/server/main.go:114-121 | after the cascade no site deploys the service, every other entry is unchanged, no site is left empty, and the table stays well formed |
| Ledger.MinFoldSpec | center/server/main.go:327-334 | the fold is -1 when no instance has a recorded delay; otherwise it is some recorded delay and no larger than any of them |
| Ledger.NetworkDelaySpec | center/server/main.go:327-337 | the network delay is non-negative: 0 without a recorded delay, otherwise the least recorded delay of the deployment's instances |
| Ledger.NegativeDelayOverwritten | center/server/main.go:330-332 | a recorded delay of -1 is treated as "none yet", so a later larger delay replaces it |
| Ledger.MinRecordedDelay | center/server/main.go:327-337 | the loop computes the network delay |
| Ledger.AllocatedSpec | center/server/cps.go:97-121 | a successful allocation chooses an eligible measurement, takes one slot there and nowhere else, reports what is left, and files the record under the new id |
| Ledger.AllocateThenReleaseRecord | center/server/cps.go:107-142 | releasing a freshly filed allocation restores the allocation table |
| Ledger.SiteNamesSpec | center/server/cps.go:25-38 | a site is among the candidates' sites iff some candidate carries it |
| Ledger.CandidatesStep | center/server/cps.go:25-38 | one site of the loop keeps the list a candidate per visited site that deploys the service |
| Ledger.CandidatesOf | center/server/cps.go:20-40 | one candidate per site deploying the service, no site twice, each carrying that deployment's fields |
| Ledger.CascadeStep | center/server/main.go:115-120 | one site of the cascade drops the service there and drops the site when it becomes empty |
| Ledger.CascadeLoop | center/server/main.go:114-121 | the loop computes the cascade delete |
| Ledger.SiteRowsStep | center/server/main.go:321-346 | one service of the inner loop adds exactly its row |
| Ledger.ViewStep | center/server/main.go:320-348 | one site of the outer loop adds exactly its rows |
| Ledger.SiteRowsLoop | center/server/main.go:321-347 | the inner loop builds one row per deployment of the site |
| Ledger.ViewLoop | center/server/main.go:310-351 | the loops build the `cps` view: per deployment its ids, `Gas`, `Cost`, the service's computing time and the network delay |
| Ledger.ReturnSlotUpdate | center/server/cps.go:133-140 | the in-place update gives the slot back as specified |
| Ledger.TakeSlotUpdate | center/server/cps.go:98-104 | the in-place update takes the slot as specified and returns what is left |
| Ledger.AllocateOn | center/server/cps.go:42-122 | allocation refuses an empty service id; it records the delays of the eligible measurements; with none eligible it refuses; otherwise it allocates a best candidate; the table stays well formed |
| Ledger.RegisterOn | center/server/main.go:149-204 | a blank site or service name, or a negative `Gas` or `Cost`, is refused with its message and changes nothing; otherwise the prepared deployment replaces the entry |
| Ledger.DeleteOn | center/server/main.go:216-242 | a path without two segments is refused; otherwise the named deployment is dropped; the table stays well formed |
| Ledger.PrepareDeployment | center/server/main.go:161-193 | instances are built when none are given, then normalised |
| Ledger.RegisterUpdate | center/server/main.go:196-204 | the in-place update registers the deployment |
| Ledger.DropUpdate | center/server/main.go:231-236 | the in-place update drops the deployment |
| Ledger.Store.constructor | center/server/store.go:28-35 | a new store has four empty tables |
| Ledger.Store.Candidates | center/server/cps.go:20-40 | one candidate per site deploying the service, no site twice, each with that deployment's fields |
| Ledger.Store.Allocate | center/server/cps.go:42-122 | the tables change exactly as the allocation specification says, and the deployment table stays well formed |
| Ledger.Store.Release | center/server/cps.go:124-144 | an unknown id is refused and changes nothing; a known one gives its slot back (capped) and removes the record |
| Ledger.Store.ReleaseRequested | center/server/main.go:285-307 | a blank id is refused; an unknown id is refused as not found; a known one is released |
| Ledger.Store.UpsertService | center/server/main.go:78-95 | a blank service id is refused; otherwise the service is stored under its id, and nothing else changes |
| Ledger.Store.DeleteService | center/server/main.go:102-127 | an empty id is refused; otherwise the service is removed and its deployments are cascade-deleted |
| Ledger.Store.RegisterDeployment | center/server/main.go:143-209 | the deployment table changes as the registration specification says; the other tables are untouched |
| Ledger.Store.DeleteDeployment | center/server/main.go:216-242 | the deployment table changes as the deletion specification says; the other tables are untouched |
| Ledger.Store.View | center/server/main.go:310-351 | the view is the `cps` rows of the current tables |
| Probe.JoinPathSeam | client/web/assets/nma.js:3-7 | with at most one `/` on either side, the joined path has exactly one `/` at the seam |
| Probe.JoinPathBounds | client/web/assets/nma.js:3-7 | the joined path starts with the first part and ends with the second minus at most one leading `/` |
| Probe.BuildPingUrlMissing | client/web/assets/nma.js:14 | building fails, with "missing addr", exactly when the address is missing or empty |
| Probe.BuildPingUrlEndsWithPing | client/web/assets/nma.js:9-23 | every built URL ends in `/ping` |
| Probe.JoinPathEnds | client/web/assets/nma.js:18 | joining onto a path ending in `/ping` keeps that ending |
| Probe.JoinPathPing | client/web/assets/nma.js:22 | joining `ping` makes the address a directory and appends `ping` |
| Probe.BuildPingUrlRelative | client/web/assets/nma.js:17-19 | a relative address is resolved against the page origin: origin, address, `/ping` |
| Probe.BuildPingUrlAbsolute | client/web/assets/nma.js:22 | an absolute address gets `/ping`, or `ping` when it already ends with `/` |
| Probe.PingOnce | client/web/assets/nma.js:25-45 | a successful ping's delay is never negative |
| Probe.PingStatusCarried | client/web/assets/nma.js:38 | a non-ok status fails the ping with a message ending in the status, which reads back as that status |
| Probe.PingDelayClose | client/web/assets/nma.js:40-41 | a successful ping's delay is within half a millisecond of the elapsed time |
| Probe.PingFails | client/web/assets/nma.js:25-45 | a ping fails exactly when the address is missing, the fetch rejects or the status is not 2xx |
| Probe.Groups | client/web/assets/nma.js:51-54 | one group of targets per candidate |
| Probe.MeasureDelays | client/web/assets/nma.js:48-70 | the loops give the specified batch result: no candidates give no measurements, otherwise as `Measured` |
| Probe.MeasureNext | client/web/assets/nma.js:51-67 | one candidate is skipped when its instance list is not an array, otherwise its instances are measured |
| Probe.FlatAborts | client/web/assets/nma.js:59 | a failure among the first candidates' pings is the result of the whole call |
| Probe.MeasureCandidate | client/web/assets/nma.js:56-67 | the inner loop pings one candidate's instances in order and stops at the first failure |
| Probe.MeasureItemsAll | client/web/assets/nma.js:56-67 | the inner loop continues the batch measurement exactly |
| Probe.InstanceStep | client/web/assets/nma.js:57-66 | one instance adds its measurement or ends the batch with its error |
| Probe.TaggedSpec | client/web/assets/nma.js:52-57 | each instance of a candidate becomes one target, in order, with the candidate's site name |
| Probe.MeasureStep | client/web/assets/nma.js:59-66 | one more target appends its measurement, or fails with its ping's error |
| Probe.MeasureAllLength | client/web/assets/nma.js:61-66 | a successful batch has one measurement per target |
| Probe.MeasureAllAborts | client/web/assets/nma.js:59 | once some leading targets fail, the whole batch fails with the same error |
| Probe.TaggedAborts | client/web/assets/nma.js:56-59 | a failing instance ends the measurement of the remaining ones |
| Probe.MeasureAllOk | client/web/assets/nma.js:48-70 | a successful batch has one measurement per target, in order, with the site name, id and address as they were and a non-negative delay from that target's ping |
| Probe.MeasureAllErr | client/web/assets/nma.js:48-70 | a batch fails iff some ping fails, and then with the first failing ping's error; no partial list is returned |
| Probe.MeasureAllErrLast | client/web/assets/nma.js:59 | after a successful prefix, the batch fails exactly when the last ping fails, with its error |
| Probe.TargetsAppend | client/web/assets/nma.js:51-56 | targets are in candidate-then-instance order |
| Probe.FlatAppend | client/web/assets/nma.js:51 | flattening two lists of groups concatenates their flattenings |
| Probe.FlatAgree | client/web/assets/nma.js:51 | lists agreeing on their first groups flatten alike |
| Probe.TargetsOfCandidate | client/web/assets/nma.js:52-57 | a candidate without an instance array contributes nothing; one with an array contributes each instance under its site name |
| Probe.SkippedCandidate | client/web/assets/nma.js:54 | dropping a candidate without an instance array does not change the measurements |
| Invocation.SendBlankInput | client/web/assets/ui.js:69-73 | blank input shows "empty input", makes no call and keeps the held allocation |
| Invocation.SendNoCandidates | client/web/assets/ui.js:76-81 | an empty or missing candidate list shows "no candidates" after only the candidates call |
| Invocation.SendHoldsAllocation | client/web/assets/ui.js:65-106 | Send keeps the held allocation unless allocation succeeds; on success it holds the new id and address, enables End, allocates with the measurements and invokes the chosen address with the trimmed text |
| Invocation.AllocateHolds | client/web/assets/ui.js:89-98 | a failed allocation changes neither the hold nor the calls; a successful one holds its id and address, enables End and invokes that address |
| Invocation.SendInvokeFails | client/web/assets/ui.js:97-105 | a failed invocation still holds the allocation, shows the error and clears the status |
| Invocation.ExtendsTransitive | client/web/assets/ui.js:65-106 | "adds calls but no release" is transitive |
| Invocation.PushNoRelease | client/web/assets/ui.js:76-98 | a call other than release adds no release |
| Invocation.SameCalls | client/web/assets/ui.js:65-106 | making no call adds no release |
| Invocation.SendNeverReleases | client/web/assets/ui.js:65-106 | Send, run to completion, only appends calls and never releases |
| Invocation.CandidatesNeverRelease | client/web/assets/ui.js:76-81 | the candidates step never releases |
| Invocation.MeasureNeverRelease | client/web/assets/ui.js:84-85 | the measurement step never releases |
| Invocation.AllocateNeverRelease | client/web/assets/ui.js:88-101 | the allocate-and-invoke step never releases |
| Invocation.EndWithoutAllocation | client/web/assets/ui.js:111-114 | End with no allocation shows "no allocation" and makes no call |
| Invocation.EndReleases | client/web/assets/ui.js:108-123 | End with an allocation releases exactly that id; on success it clears the hold, disables End and shows "released"; on failure it keeps the hold and shows the error |
| Invocation.SendThenEnd | client/web/assets/ui.js:65-123 | when the handlers run one after the other, End after a successful Send releases that allocation, and a second End then releases nothing |
| Invocation.Page.constructor | client/web/assets/ui.js:55-63 | the page starts with no allocation and the service id from the query, `LLM1` by default |
| Invocation.Page.ClickSend | client/web/assets/ui.js:65-106 | the Send handler's effect is the Send transition |
| Invocation.Page.HoldAndInvoke | client/web/assets/ui.js:89-101 | holding the allocation and invoking is the allocate transition |
| Invocation.Page.ClickEnd | client/web/assets/ui.js:108-123 | the End handler's effect is the End transition |
| NetLog.TsLayout | center/web/assets/ui.js:14-18 | a valid clock reading prints as `HH:MM:SS.mmm`: twelve characters with digits around fixed separators, each field reading back as its value |
| NetLog.PadField | platform/web/assets/ui.js:9-13 | a field that fits its width is padded to exactly that many digits and reads back as its value |
| NetLog.LineLayout | center/web/assets/ui.js:19-22 | a log line is the stamp, the container and the text at fixed offsets, ended by a newline |
| NetLog.LoggedMethodSpec | center/web/assets/ui.js:26 | the logged method has no lower-case ASCII letter; it is `GET` exactly when no method is given, else the given method ASCII-upper-cased, of the same length |
| NetLog.EventMarks | center/web/assets/ui.js:30-37 | request lines start with `→`, successful outcomes with `←`, failures with `×` |
| NetLog.CatAppend | center/web/assets/ui.js:20 | appending pieces appends their text |
| NetLog.Rendered | center/web/assets/ui.js:20 | one text per entry |
| NetLog.BoxTextAppend | center/web/assets/ui.js:20 | appending entries appends their text to the box |
| NetLog.Requests | center/web/assets/ui.js:30 | one request entry per wrapper, with that wrapper's name and clock |
| NetLog.Outcomes | center/web/assets/ui.js:33-37 | one outcome entry per wrapper, with that wrapper's name, clock and duration |
| NetLog.NestOrder | center/web/assets/ui.js:24-40 | `k` nested wrappers write `2k` lines: first lines from the outermost inwards, then second lines from the innermost outwards |
| NetLog.LoggedNesting | platform/web/assets/ui.js:19-35 | a call through `k` wrappers logs `k` request lines, outermost first, then `k` lines of the same outcome, innermost first |
| NetLog.OneWrapperLogsTwoLines | center/web/assets/ui.js:24-40 | with one wrapper a call logs exactly a request line and one outcome line |
| NetLog.Page.constructor | center/web/assets/ui.js:10-12 | a page starts with an empty box and no wrapper |
| NetLog.Page.Install | center/web/assets/ui.js:10-43 | without a box nothing changes; otherwise fetch is wrapped once more and the ready line is logged |
| NetLog.Page.Fetch | platform/web/assets/ui.js:19-35 | the caller gets the underlying outcome unchanged, the wrappers stay, and the box gains the nested lines of every wrapper |
| NetLog.Page.Through | center/web/assets/ui.js:24-40 | one wrapper logs its request line, lets the inner wrappers run, logs the outcome and passes it on |
| CenterUi.DefaultDeploymentConsistent | center/web/assets/ui.js:46-58 | the default deployment's instances are exactly those its `CSCI-ID` lists, each addressed `/id`, one per unit of `Gas` |
| CenterUi.DefaultIds | center/web/assets/ui.js:51 | the default `CSCI-ID` lists `site2-a` and `site2-b` |
| CenterUi.DefaultCsciPieces | center/web/assets/ui.js:51 | the default `CSCI-ID` is the two ids joined by `\|` |
| CenterUi.DefaultDeploymentPrepared | center/web/assets/ui.js:46-58 | the center stores the default deployment unchanged, whatever the fallback |
| CenterUi.DefaultNormal | center/web/assets/ui.js:52-55 | normalisation leaves the default instances unchanged |
| CenterUi.PreparedNormal | center/server/main.go:161-193 | a deployment that comes with normal instances is stored as it is |
| CenterUi.DefaultInstances | center/web/assets/ui.js:52-55 | the default instances are those built from the two ids |
| CenterUi.TwoIds | center/web/assets/ui.js:51 | two clean ids joined by `\|` list exactly those two |
| CenterUi.Clean | center/web/assets/ui.js:51 | the default ids are non-empty, `\|`-free and trimmed |
| PlatformUi.DefaultKeys | platform/web/assets/ui.js:41-54 | the defaults have exactly the nine form fields |
| PlatformUi.FilledSpec | platform/web/assets/ui.js:59-62 | filling writes each default only into an existing input and leaves every other input as it was |
| PlatformUi.FormObjectSpec | platform/web/assets/ui.js:67-74 | the object has exactly the nine fields, each trimmed; a missing or blank input gives `""` |
| PlatformUi.FillThenCollect | platform/web/assets/ui.js:56-74 | filling from tidy values and then collecting those keys gives back the values |
| PlatformUi.CollectedAt | platform/web/assets/ui.js:73 | each collected field holds its input's trimmed value |
| PlatformUi.CollectedKeys | platform/web/assets/ui.js:68-74 | the object has exactly the collected fields |
| PlatformUi.DefaultsTidy | platform/web/assets/ui.js:41-54 | no default value has surrounding white space |
| PlatformUi.DefaultsRoundTrip | platform/web/assets/ui.js:56-74 | on a page with all nine inputs, registering right after the defaults are filled in sends exactly the defaults |
| PlatformUi.Page.constructor | platform/web/assets/ui.js:56-57 | a page starts with its inputs, no error and nothing sent |
| PlatformUi.Page.Init | platform/web/assets/ui.js:56-62 | with the Register button the defaults are filled in; otherwise nothing changes |
| PlatformUi.Page.FillFrom | platform/web/assets/ui.js:59-62 | the loop writes each default into its input when that exists |
| PlatformUi.Page.CollectForm | platform/web/assets/ui.js:67-74 | the collected object is the form object of the current inputs |
| PlatformUi.Page.CollectFields | platform/web/assets/ui.js:72-74 | the `forEach` collects each field's trimmed value |
| PlatformUi.Page.Register | platform/web/assets/ui.js:64-81 | Register sends the form object and shows "OK", or the error's text when the center refuses |

Two quirks of the source are kept as written. Each has a lemma:

- `Ledger.TakeThenReturnCaps`: releasing clamps free slots at `Gas`. So a
  deployment with more free slots than its `Gas` loses a slot on an
  allocate–release round trip. This can happen after registering a
  deployment with more instances than `Gas`, because registration sets the
  free slots to the instance count.
- `Ledger.NegativeDelayOverwritten`: the `cps` view uses -1 as its "no
  delay yet" marker. A recorded delay of -1 is therefore overwritten by any
  later delay.

## Left out

- HTTP routing, JSON decoding ("bad json"), method checks, CORS, status codes and response encoding: the handlers are modelled from the decoded request to the status and the new tables.
- `SaveToDisk` persistence and the store mutex: I/O and concurrency.
- The GET list handlers for services and deployments: they only copy a table into a list.
- `buildInstances(siteName, gas)`: it is called but not defined in the source shown, so it is a function parameter. The site server is not part of this model.
- `newID`'s `crypto/rand`: the 8 random bytes are a parameter.
- Go map iteration order: loops over maps visit keys in an unspecified order.
  - `Ledger.Store.Candidates` is stated for any order (the set of sites, no duplicates, the fields of each), not for one particular list order.
  - The `cps` view is modelled as a table from site and service to row, not as a list in iteration order.
- `Ranking.Rank`: `sort.Slice` followed by `cands[0]` is modelled as choosing a candidate the sort could put first. Among candidates with equal score and equal delay, this does not say which one is chosen.
- Go `float64` rounding: scores and normalisation use exact `real` arithmetic.
- Integer overflow of Go `int` and of JavaScript numbers: all integers are unbounded.
- The pages' DOM:
  - element lookup, `textContent`, `scrollTop`, the rendering of cards and tables (`renderCards`, `renderTable`);
  - the deployment-page form submission;
  - the other page initialisers.

  Only the state the pages hold is modelled.
- `getParam` and the center and site API wrappers (`apiCpsCandidates`, `apiCpsAllocate`, `siteInvoke`, `apiRelease`, `apiCreateService`): their replies are inputs.
- `NetLog`:
  - `performance.now`, `Date` and `toFixed(1)`: the clock readings and printed durations are inputs (`Timing`);
  - the box is modelled as a list of entries, whose text is given by `BoxText`;
  - `fetch`'s outcome is an input.
- `Probe.PingOnce`:
  - the 2-second `AbortController` timeout is folded into the fetch outcome (an abort is a rejection);
  - the elapsed time is an input.
- JavaScript values that are not strings where the source expects one: an address or id that is a number, or `String(s)` of a non-string in `escapeHtml`. Absent values are modelled as `None`.
- A `null` entry in the candidate list, on which `measureDelays` throws: not modelled.
- Text.ToUpper / NetLog.LoggedMethod: `toUpperCase` is modelled on ASCII letters only. Full Unicode case mapping is not modelled: it upper-cases other letters (`ä` to `Ä`) and can change the length (`ß` to `SS`). The reason is that HTTP methods are ASCII tokens, and every method the pages pass is one. For a non-ASCII method, the length and no-lower-case claims of `NetLog.LoggedMethodSpec` hold only of the model.
- Invocation.Send / Invocation.End and `Invocation.Page.ClickSend` / `ClickEnd`: each click handler is modelled as one atomic transition that runs to completion before the next click. The source's handlers are `async` and yield at every `await`. End is enabled while the invocation is still pending, so the handlers can interleave, and such interleavings are not modelled. Example: End awaits the release of `a0` while a Send stores a new `a1`. End then clears `currentAllocationId`, and `a1` is never released. `Invocation.SendThenEnd` and `Invocation.SendNeverReleases` hold for handlers that run one after another.
