# Verification of the stonks server and client core

Models, in Dafny, of the parts of the stonks repository whose results rest on loops, sweeps or
interleavings, with proofs that each does what its documentation promises on every input.

- **Ticker validity** (`period`, `facts`, `current`, `winners`, `timeline`, `segment`, `overruled`,
  `changes`, `derive`, `orderless`, `account`, `arrivals`): the derivation of which instrument a ticker
  names on each day. A plain rule for each day, over unbounded days and open ends, defines what the
  later answers leave, what wins, which edges cut and what the timeline says; every interval sweep is
  proved equal to its rule, the whole derivation to the timeline, what is derived to be the same for
  every order of the facts, and which days a later assertion can move.
- **Lanes** (`lanes`): the runner's goroutines, callers, done channels, lane map and closing as a
  step system, with safety over every interleaving and progress for every lane.
- **Claims** (`asset_class`, `claims`, `ranking`, `greedy`, `choose`, `verdict`, `picking`): the
  union-find over returned listings and the two greedy selections among claims, proved to agree.
- **Groups** (`chains`, `identifiers`, `groups`): the holdings of keys that share identifiers.
- **Allowlist** (`glob`): the last-star matcher against the recursive definition of a glob.
- **Corporate actions** (`ratio`, `acts`, `folding`, `calendar`, `record`): ratios, coverage with
  holes, calendars under any map order, and answers recorded under any arrival order.
- **Stated keys** (`keys`): canonical form, encoding and interning.
- **Decimals** (`decimal`, `sums`, `trade`): exact decimal strings and the legs of a trade.
- **Fetches** (`fetch`, `outcomes`): batches, blocks raised midway and bounded retries, with every
  result traced to what the provider did, and all of it proved to be decided by that.

Rules that an algorithm and its specification both call, such as which assertion is better or which
claim ranks first, are stated a second time from the fields of the data, and the two proved equal.

`options`, `sorting` and `folding` hold what the other modules share. Days are integers, an open
bound is an absent option, and ids and moments are integers in their own order.

## Findings

- `Glob.WalkIsGlobIff`: line 48 of allowlist.go is tried before the star, so the matcher is the glob
  definition for all patterns exactly on subjects without an asterisk.
- `Arrivals.KeptIff`, `Arrivals.AttestationMovesDays`: a later attestation can let an overruled edge
  cut again and so change the instrument of days before it. Days that follow a winning day keep
  their instrument whenever no attestation arrives, and otherwise exactly under the condition given.
- `StatedKeys.NulConfuses`, `StatedKeys.ConfusedIff`: keyOf lets a NUL into a domain or a value, and
  keys with one may encode alike. Keys whose values carry none never do (`StatedKeys.CanonInjective`).
- `Records.MergesRightlyIffStated`, `Records.ZeroRatioDuplicates`: a reported ratio of zero for zero
  pairs with any stored action of its day, type and handling. An answer merges rightly with every
  stored list exactly where it reports no such ratio.
- `Ratios.VerdictsAgreeIff`, `Ratios.FractionsDiffer`: equal ratios get one share count verdict exactly
  where both or neither are of whole numbers, or the whole one's terms are too large to count shares.

## Model

| member | source | states |
|---|---|---|
| `Periods.Union` | server/internal/types/period.go:35-49 | The result holds exactly the days of the periods given and is in canonical form: ordered, non-empty, with a free day between neighbours. |
| `Periods.CanonicalUnique` | server/internal/types/period.go:35-49 | Two canonical lists of the same days are one list, so the days leave Union and Gaps no other answer. |
| `Periods.Gaps` | server/internal/types/period.go:57-74 | The canonical list of exactly the days of p that no covered period holds. |
| `Periods.Period.Clip` | server/internal/types/period.go:23-31 | The clip holds the days both periods hold, and the flag says whether there are any. |
| `Current.Sweep` | server/internal/identity/tickervalidity/derive.go:137-184 | One sweep from the newest answer to the oldest leaves, piece for piece and edge for edge, what the day-by-day rule leaves. |
| `Current.Clip` | server/internal/identity/tickervalidity/derive.go:188-215 | The pieces of an assertion outside the periods taken are its maximal runs of days there, each with an edge only on an original bound. |
| `Current.DaySurvives` | server/internal/identity/tickervalidity/derive.go:137-184 | A day of an assertion is left iff no strictly newer assertion of its source's group reaches it, by its period or the period it asked about. |
| `Current.EdgeSurvives` | server/internal/identity/tickervalidity/derive.go:188-215 | An edge goes iff the days on both sides of it are overtaken. |
| `Current.DaysLeft` | server/internal/identity/tickervalidity/derive.go:119-184 | Told from the fields: an assertion of a source that says x of a day is left iff one given says so and no later answer of its source, by moment and then id, with all attestations one source, asserts the day or was asked for it. |
| `Current.PieceOfOne` | server/internal/identity/tickervalidity/derive.go:188-215 | Each piece is one assertion over a run of its days, from and to its own bounds or a day replaced, with an edge only on its own bound. |
| `Current.EdgesLeft` | server/internal/identity/tickervalidity/derive.go:119-184 | Told from the fields: an edge is left iff its assertion was given and states it, at the start of its period or at its end, and the days on both sides are not both replaced. |
| `Current.PiecesNotOvertaken` | server/internal/identity/tickervalidity/derive.go:137-184 | No piece overtakes a day of another piece. |
| `Current.CurrentIdempotent` | server/internal/identity/tickervalidity/derive.go:137-184 | Applying the rule to its own pieces changes none of them. |
| `Winners.Sweep` | server/internal/identity/tickervalidity/derive.go:259-346 | The winners are ordered, disjoint and cross no edge; on each day the winner is maximal among the assertions that count and hold it; the disagreements are those of each day. |
| `Winners.WinnerIsBest` | server/internal/identity/tickervalidity/derive.go:259-363 | Told from the fields: each day that an assertion holds and counts on has a winner, an attestation where any holds it, else the event source where it does; of those the lowest precedence number; of those an instrument before nothing, and the lowest id. |
| `Winners.NameIsBest` | server/internal/identity/tickervalidity/derive.go:348-363 | A day names what its best assertions name, and they name one thing. |
| `Winners.DisagreementsAre` | server/internal/identity/tickervalidity/derive.go:312-346 | On its days an entry has a best datasource's assertion as winner and a datasource's that names something else as loser, and each such loser of a day has an entry. |
| `Winners.WinnersName` | server/internal/identity/tickervalidity/derive.go:259-346 | On every day the winners name exactly what the day's best counting assertion names, and nothing where none holds the day. |
| `Winners.NameIgnoresOrder` | server/internal/identity/tickervalidity/derive.go:348-363 | The order of the assertions, and repeating one, never changes what a day names. |
| `Winners.WinnersIgnoreOrder` | server/internal/identity/tickervalidity/derive.go:259-363 | Two orders of one set of assertions win every day for the same instrument or for nothing. |
| `Winners.BetterOrders` | server/internal/identity/tickervalidity/derive.go:348-363 | Better is a strict weak order, and two assertions that tie under it name the same thing. |
| `Winners.CountsBy` | server/internal/identity/tickervalidity/derive.go:259-290 | A negative assertion counts iff the first positive day that matters to it, of its datasource or of any, comes before it starts. |
| `Timelines.Timeline.WonDay` | server/internal/identity/tickervalidity/tickervalidity.go:38-42 | A day an assertion wins is confirmed for the instrument it names, and has no interval where it names nothing. |
| `Timelines.Timeline.Bracket` | server/internal/identity/tickervalidity/tickervalidity.go:38-42 | Two consecutive winning days of one instrument that no cut separates confirm every day between them. |
| `Timelines.Timeline.KeepsDaysAfter` | server/internal/identity/tickervalidity/tickervalidity.go:51-56 | A named instrument keeps its days up to the next cut or the next winning day, whatever that names. |
| `Timelines.Timeline.Forward` | server/internal/identity/tickervalidity/tickervalidity.go:44-50 | Beyond a winning day the instrument is confirmed through covered days and provisional from then on, up to the next cut or winning day, where that does not name it too. |
| `Timelines.Timeline.Back` | server/internal/identity/tickervalidity/tickervalidity.go:44-50 | Before the first winning day after a cut, or of all, its instrument is confirmed through covered days and provisional before; after a winner of nothing, confirmed through covered days and absent before. |
| `Arrivals.LaterAssertionKeepsDays` | server/internal/identity/tickervalidity/tickervalidity.go:51-58 | Of facts: assertions that reach only days from n on, no attestation among them, change the instrument of no earlier day that follows a winning day with no cut between. |
| `Arrivals.KeptIff` | server/internal/identity/tickervalidity/tickervalidity.go:51-58 | Whatever arrives, attestations too, such a day keeps its instrument iff no cut then comes between it and the winning day it follows, or the next winning day names the instrument too. |
| `Arrivals.AttestationMovesDays` | server/internal/identity/tickervalidity/tickervalidity.go:51-58 | An attestation of day 50 lets an edge of day 10 that was overruled cut again, and day 20 names another instrument. |
| `Segments.Spans` | server/internal/identity/tickervalidity/derive.go:373-383 | Consecutive winners that name the same are one span, in order, with neighbours that differ. |
| `Segments.Forward` | server/internal/identity/tickervalidity/derive.go:438-448 | The end of the unbroken coverage from a day, cut to the limit. |
| `Segments.Back` | server/internal/identity/tickervalidity/derive.go:452-462 | The start of the unbroken coverage up to a day, cut to the limit. |
| `Segments.SpanDays` | server/internal/identity/tickervalidity/derive.go:394-434 | Between its floor and its ceiling a span's days are confirmed, provisional or without interval exactly as the day rule of the timeline has them. |
| `Segments.Infer` | server/internal/identity/tickervalidity/derive.go:404-434 | The change between two spans and the days on which it may have taken effect, shortened by the earlier span's coverage. |
| `Segments.Segment` | server/internal/identity/tickervalidity/derive.go:394-434 | Within one cut-free part every day is named exactly as the day rule has it, the intervals are in order and inside the part, and each neighbouring pair of spans infers one change. |
| `Overruling.OverruledByDays` | server/internal/identity/tickervalidity/derive.go:57-73 | An edge is overruled iff there are attested days on both sides of it and the nearest of each side name one instrument; no place in the list of assertions decides it. |
| `Overruling.CurrentAttestsOneThing` | server/internal/identity/tickervalidity/derive.go:137-184 | What the later answers leave of a ticker's attestations names one thing on each day, since each attest run has one answer and a later one replaces the days of an earlier. |
| `Overruling.OverruledIgnoresOrder` | server/internal/identity/tickervalidity/derive.go:57-73 | Two orders of one set of assertions overrule the same edges. |
| `Accounts.CutsAre` | server/internal/identity/tickervalidity/derive.go:14-73 | Told from the fields of the facts: the timeline is cut on exactly the days of the changes that assertions state and later answers leave, but for those between the nearest attested days that name one instrument. |
| `Accounts.BestIsConfirmed` | server/internal/identity/tickervalidity/tickervalidity.go:36-42 | A derived day is confirmed for the instrument that the best of the assertions left names, and has no interval where that names nothing. |
| `Accounts.AttestationDecides` | server/internal/identity/tickervalidity/tickervalidity.go:29-36 | An attestation of an instrument decides each day on which no later one replaces it, whatever any datasource asserts. |
| `Changes.SegmentChanges` | server/internal/identity/tickervalidity/derive.go:394-434 | The changes of a part are exactly the pairs of consecutive winning days in it that name different things, once each. |
| `Changes.ChangesJoin` | server/internal/identity/tickervalidity/derive.go:14-51 | The changes of two neighbouring parts are those of both. |
| `Changes.HeldByDays` | server/internal/identity/tickervalidity/derive.go:95-107 | One period of a canonical cover holds a period iff the cover holds each of its days, because Union joins periods that meet. |
| `Changes.MissedIffCovered` | server/internal/identity/tickervalidity/derive.go:95-107 | A change is missed iff coverage holds every day from the end of the earlier span through the first day of the later, and its coverage row is always found. |
| `Changes.Missed` | server/internal/identity/tickervalidity/derive.go:95-107 | The missed events are, in order, exactly the changes between whose winning days coverage holds every day, the later day too, each with the first coverage row that holds its first day. |
| `Changes.BreaksBetween` | server/internal/identity/tickervalidity/derive.go:229-242 | An edge breaks exactly the bracket of two consecutive winning days of one instrument that it falls between. |
| `Changes.Broken` | server/internal/identity/tickervalidity/derive.go:229-242 | Each cutting edge that falls between two consecutive winners of one instrument, and no other. |
| `Derive.Join` | server/internal/identity/tickervalidity/derive.go:465-478 | Joining neighbours that meet and agree changes no day and leaves none to join. |
| `Derive.IntervalsUnique` | server/internal/identity/tickervalidity/derive.go:465-478 | What each day names determines the ordered and joined intervals. |
| `Derive.FactsFit` | server/internal/identity/tickervalidity/derive.go:14-51 | For all facts no winner spans a cut, and the winners name what the timeline names: what the parts need of them holds of every derivation. |
| `Derive.Parts` | server/internal/identity/tickervalidity/derive.go:14-51 | The loop over the cuts names every day as the timeline does and finds each change once. |
| `Derive.DeriveTicker` | server/internal/identity/tickervalidity/derive.go:14-51 | For all facts: the intervals are ordered, disjoint and joined and say on every day what the timeline names; winners, disagreements, changes, cuts, missed events and broken brackets are those of the day rules. |
| `Orderless.DeriveIgnoresOrder` | server/internal/identity/tickervalidity/derive.go:14-51 | Facts with the same assertions and coverage rows, in any order and however often repeated, derive the same intervals, the same changes of the same periods, the same of them missed, and the same broken brackets. |
| `Orderless.ChangesIgnoreOrder` | server/internal/identity/tickervalidity/derive.go:394-434 | What the days name, cut and cover determines the list of changes: the period of each, what it is from and to, and whether it is missed. |
| `Lanes.InvKept` | server/internal/run/run.go:142-258 | Every step of Start, a caller, a goroutine or Close keeps the invariant of lanes, links and turns. |
| `Lanes.InvAlways` | server/internal/run/run.go:142-258 | The invariant holds in every state of every interleaving. |
| `Lanes.OneExecutes` | server/internal/run/run.go:18-25 | At most one run of a lane executes its work in any state. |
| `Lanes.InStartOrder` | server/internal/run/run.go:23-25 | Once a run began, every earlier run of its lane has stopped for good, and one that had not begun never does. |
| `Lanes.ClosedInOrder` | server/internal/run/run.go:219-237 | While the runner is open, a closed done channel implies that every earlier one of its lane is closed. |
| `Lanes.PendingUntilTurn` | server/internal/run/run.go:22-25 | A row leaves pending only once every earlier run of its lane has stopped, and a run whose Prepare failed never completes. |
| `Lanes.RowsTell` | server/internal/run/run.go:263-285 | In every state of every behaviour a row is what the run's steps made of it: pending once inserted, running once its work started, completed once success was recorded, closing or not, failed once failure under an open runner was, and running otherwise. |
| `Lanes.TerminalStays` | server/internal/run/run.go:263-285 | A completed or failed row never changes. |
| `Lanes.LanesLinked` | server/internal/run/run.go:148-228 | A lane is in the map exactly while the last run started in it has not unlinked it, and gives that run. |
| `Lanes.AbandonedNeverRuns` | server/internal/run/run.go:139-164 | A run whose insert failed never begins and never gets a row. |
| `Lanes.NeverWedged` | server/internal/run/run.go:219-250 | A failed insert never wedges a lane: until a run whose callers have all sent is gone, it or an earlier one can take a step. |
| `Lanes.ClosingMoves` | server/internal/run/run.go:212-250 | Once the runner closes, every goroutine left can take a step, whatever the callers do. |
| `Lanes.ClosingDrains` | server/internal/run/run.go:212-258 | Once the runner closes, each goroutine step leaves strictly fewer to take and no step leaves more. |
| `Lanes.CloseWaits` | server/internal/run/run.go:210-217 | Close can return exactly when no goroutine is left. |
| `Lanes.NothingAfterClose` | server/internal/run/run.go:142-217 | After Close returned no goroutine remains and no run can be started, in every later state. |
| `Claims.Root` | server/internal/identity/resolve/claim.go:93-99 | Path halving returns the root of the component and changes no component; it ends because ranks fall along parents. |
| `Claims.Union` | server/internal/identity/resolve/claim.go:101-106 | Pointing one root at the other merges the two components and keeps the parents without a cycle, although a smaller index may point at a larger one. |
| `Claims.Partition` | server/internal/identity/resolve/claim.go:67-91 | Two listings have one representative iff the call was strict or a chain of shared instrument grain identifiers connects them, and a representative represents itself. |
| `Claims.ShareIs` | server/internal/identity/resolve/claim.go:64-91 | Two listings share iff both state one identifier of a type that names instruments. |
| `Claims.Build` | server/internal/identity/resolve/claim.go:40-62 | The claims fold exactly the listings of each component, one claim for each component, in the order of their first listings. |
| `Claims.Add` | server/internal/identity/resolve/claim.go:112-128 | Folding a listing into a claim sets the class and the primary venue only where none is known and appends each identifier once. |
| `Claims.ClaimIdentifiers` | server/internal/identity/resolve/claim.go:40-62 | A claim names the instrument by exactly the identifiers its listings state and those the call was filtered on. |
| `Claims.ClaimListings` | server/internal/identity/resolve/claim.go:112-128 | A claim's listing of a currency family has exactly the listing identifiers that the claim's listings of that family state. |
| `Claims.ClaimFamilies` | server/internal/identity/resolve/claim.go:112-128 | A claim has a listing of exactly the families its listings are of. |
| `Claims.FamiliesAre` | server/internal/identity/resolve/claim.go:112-128 | A claim has a listing of a family iff one of its listings is in a currency of it, and one of none iff one is in a currency of none. |
| `Claims.ClaimDistinct` | server/internal/identity/resolve/claim.go:130-135 | No listing identifier is in a claim twice, and no identifier of the instrument unless the call was filtered on it twice. |
| `Claims.FirstClass` | server/internal/identity/resolve/claim.go:108-115 | The first listing to state a known class sets the claim's class. |
| `Claims.FirstPrimary` | server/internal/identity/resolve/claim.go:108-127 | The first listing of a family to state a primary venue sets it for the family. |
| `Claims.ClaimsShareNothing` | server/internal/identity/resolve/claim.go:64-91 | Two claims of one call that was not strict share no identifier of the instrument. |
| `AssetClasses.UnknownOverlaps` | server/internal/types/asset_class.go:66-78 | The unknown class overlaps exactly the classes of the tree, itself included. |
| `AssetClasses.TreeIs` | server/internal/types/asset_class.go:47-75 | Which class lies below which, class by class. |
| `AssetClasses.DisjointShareNone` | server/internal/types/asset_class.go:66-78 | Two classes are disjoint iff no class lies below both: classes above one class are on one line. |
| `Choosing.BuiltWellFormed` | server/internal/identity/resolve/claim.go:40-62 | Claims built of each served answer meet what the selections need of them: each knows its answer and its place in it, and what was not served has none. |
| `Identifiers.TypesAre` | server/internal/types/trait.go:82-133 | Which types are exclusive, stable, of instruments or of listings, and which identifiers are global or join keys. |
| `Picking.ContradictsIs` | server/internal/identity/resolve/claim.go:149-183 | A claim contradicts an identifier iff its type is exclusive and the claim has another value of its type and domain where it could be, and not it. |
| `Picking.InconsistentIs` | server/internal/identity/resolve/claim.go:270-291 | Claims are inconsistent iff their classes are disjoint or one is at odds with an identifier of the other, of its instrument or of a listing in its family. |
| `Picking.CorroboratesIs` | server/internal/identity/resolve/claim.go:293-327 | A claim backs another iff they share a stable identifier, or were answered on one day and carry one ticker in one market. |
| `Picking.RejectsIs` | server/internal/identity/resolve/choose.go:194-212 | A claim is dropped iff it conflicts with one chosen or does not back the first. |
| `Picking.AgainstIs` | server/internal/identity/resolve/claim.go:238-268 | The statement rules a claim out iff a complete answer lacks the stated family, the class is disjoint, or the claim is at odds with a stated identifier. |
| `Picking.SurvivesIs` | server/internal/identity/resolve/choose.go:153-192 | A claim survives iff it is not ruled out and carries the identifier sent, unless that was filtered bare, or is bare and the user confirmed. |
| `Picking.BestIsPick` | server/internal/identity/resolve/choose.go:214-261 | The best claim of a response is the first, of those that stay, that carries the identifier sent where any does, and of those has most of what is stated, by count; none where none stays or the user is asked. |
| `Picking.AttachesPick` | server/internal/identity/resolve/choose.go:95-116 | Without a choice each response attaches exactly its pick below those chosen before, or nothing. |
| `Picking.OfferedAre` | server/internal/identity/resolve/choose.go:153-192 | A bare identifier's response offers the claims that are not ruled out, until the user confirms. |
| `Picking.PutAre` | server/internal/identity/resolve/choose.go:235-261 | What a response puts to the user: what it offers, and every claim that stays where the user is asked. |
| `Picking.PutNextIs` | server/internal/identity/resolve/choose.go:95-121 | Without a choice, each response adds to what is put to the user what it puts below those chosen before it. |
| `Picking.ConfirmableAre` | server/internal/identity/resolve/candidate.go:229-234 | A set is put to the user iff its head carries a stable identifier. |
| `Picking.PickNames` | server/internal/identity/resolve/candidate.go:203-227 | A pick names a set by the datasource of its head and an identifier that the head carries. |
| `Picking.RefusedIs` | server/internal/identity/resolve/choose.go:69-92 | A choice is refused iff the statement rules its head out or it conflicts with the known instrument. |
| `Picking.ChoiceAsksNothing` | server/internal/identity/resolve/choose.go:95-116 | Once the user chose, nothing more is put to them. |
| `Ranking.SortAgreesWithScan` | server/internal/identity/resolve/choose.go:235-300 | The first element of the stable sort is the element a scan keeps that replaces only on a strictly better one. |
| `Greedy.SetsConsistent` | server/internal/identity/resolve/choose.go:263-300 | Every set takes its members from ever later sources, and no member is rejected by the ones above it. |
| `Greedy.Gather` | server/internal/identity/resolve/choose.go:268-300 | The loops over groups, sets and claims form exactly the sets of the recursive definition. |
| `Verdicts.FilterAlternatives` | server/internal/identity/resolve/choose.go:165-192 | The survivors, the offered claims and the fallback flag of one answer. |
| `Verdicts.FindBestClaim` | server/internal/identity/resolve/choose.go:235-261 | The best survivor not rejected by those chosen, or the survivors put to the user under fallback. |
| `Verdicts.Choose` | server/internal/identity/resolve/choose.go:60-121 | The winner, whether the user's choice is refused, what attaches and what is offered, tied to the selection response by response. |
| `Verdicts.ChosenIsGathered` | server/internal/identity/resolve/choose.go:43-46 | Without a known instrument, a choice or survivors held back, what choose attaches is gathered from the survivors, and is the only set with its head. |
| `Verdicts.GatheredHeadsDistinct` | server/internal/identity/resolve/choose.go:263-300 | No two sets of the survivors have one head, nor two sets put to the user. |
| `Verdicts.AttachedAccepted` | server/internal/identity/resolve/choose.go:194-212 | Whatever is known or picked, no claim attached below the head, with which the choice starts, is rejected by the ones above it. |
| `Verdicts.CandidateSets` | server/internal/identity/resolve/candidate.go:96-112 | Every set put to the user agrees with the statement, holds at most one claim of each datasource, and no member that those above it reject. |
| `Verdicts.EveryCandidateInSomeSet` | server/internal/identity/resolve/choose.go:263-300 | Every claim that is offered or survives is in some set. |
| `Verdicts.FindUserChoice` | server/internal/identity/resolve/candidate.go:203-227 | The choice is the first set a pick names, where its datasource was served and its head carries a stable identifier; otherwise there is none. |
| `Verdicts.PickAttaches` | server/internal/identity/resolve/choose.go:60-121 | A set put to the user, once picked with no known instrument, is never refused and attaches in full and in order. |
| `Groups.Forest.Find` | server/internal/identity/group/group.go:39-46 | Find returns the root of the component and its path halving changes no component. |
| `Groups.Forest.Union` | server/internal/identity/group/group.go:50-59 | Union merges two components under the smaller root. |
| `Groups.Forest.Join` | server/internal/identity/group/group.go:30-36 | Join unions a key with the first key that states the identifier, or records it as that key. |
| `Groups.Of` | server/internal/identity/group/group.go:64-83 | Each key's group is the least id that a chain of shared joining identifiers connects it with. |
| `Groups.ShareIs` | server/internal/identity/group/group.go:61-83 | Two keys share iff both state an identifier of a worldwide type, or one with its domain. |
| `Groups.GroupsIgnoreOrder` | server/internal/identity/group/group.go:61-83 | The order of the keys never changes a group. |
| `Glob.OneMatches` | server/internal/auth/allowlist/allowlist.go:37-64 | In a glob a character stands for itself, a question mark for any one, and an asterisk for any run. |
| `Glob.BothMatch` | server/internal/auth/allowlist/allowlist.go:37-64 | Two patterns in turn match exactly the texts that split into one of each. |
| `Glob.WalkIsGlob` | server/internal/auth/allowlist/allowlist.go:37-64 | For every subject without an asterisk and every pattern, the last-star walk matches iff the recursive glob definition does. |
| `Glob.WalkIsGlobIff` | server/internal/auth/allowlist/allowlist.go:37-64 | The walk agrees with the glob definition on every pattern exactly for the subjects without an asterisk. |
| `Glob.Match` | server/internal/auth/allowlist/allowlist.go:41-64 | The loop over i, j, star and mark ends and returns what the walk defines. |
| `Glob.MatchAny` | server/internal/auth/allowlist/allowlist.go:28-35 | An address without an asterisk is allowed iff some pattern of the list matches it. |
| `Ratios.EqualIsSameFactor` | server/internal/types/ratio.go:15-19 | Cross multiplication equates positive ratios exactly when they restate by one factor. |
| `Ratios.EqualThrough` | server/internal/types/ratio.go:15-19 | Equality passes through every ratio but nothing for nothing. |
| `Ratios.PassesOnIffStated` | server/internal/types/ratio.go:15-19 | Equality passes through a ratio between all others iff that ratio is not nothing for nothing. |
| `Ratios.NothingEqualsAll` | server/internal/types/ratio.go:15-19 | A ratio of zero for zero equals every ratio. |
| `Ratios.EqualRatiosOneVerdict` | server/internal/corpact/record.go:128-147 | Equal ratios of whole numbers get one share count verdict. |
| `Ratios.VerdictsAgreeIff` | server/internal/corpact/record.go:128-147 | Two equal ratios get one share count verdict iff both or neither are of whole numbers, or the whole one's terms are too large to count shares. |
| `Ratios.FractionsDiffer` | server/internal/corpact/record.go:128-147 | Two for one counts shares and one for a half, an equal ratio, does not. |
| `Ratios.SharesAre` | server/internal/corpact/record.go:123-147 | A ratio counts shares iff both sides are whole and positive and it can be written with natural numbers of which the smaller is at most 100. |
| `Ratios.AtTheBound` | server/internal/corpact/record.go:123-147 | 101 for 100 counts shares and 102 for 101 does not. |
| `CorpActs.OneEffect` | server/internal/corpact/decision.go:17-48 | No action both restates and is unknown, and a fitting decision agrees with the direction of its factor. |
| `CorpActs.EffectsAre` | server/internal/corpact/decision.go:17-50 | What restates and what is unknown, by decision and by the system's judgment. |
| `CorpActs.SameIsEquivalence` | server/internal/corpact/calendar.go:157-161 | On positive ratios, being the same action is an equivalence. |
| `CorpActs.Remove` | server/internal/corpact/read.go:127-148 | The result holds exactly the days of the periods less the days removed. |
| `CorpActs.Read` | server/internal/corpact/read.go:47-110 | The stored coverage within p less the days of unknown actions, with the actions; none only where neither holds anything. |
| `Calendars.ClipTo` | server/internal/identity/tickervalidity/tickervalidity.go:95-106 | The clip of an interval to a period holds the days both hold, open bounds taken from the period, and the flag says whether there are any. |
| `Calendars.Factor` | server/internal/corpact/calendar.go:129-150 | The product of the factors that restate in the span, and covered iff every day of the span is. |
| `Calendars.FactorRestates` | server/internal/corpact/calendar.go:129-150 | The factor is the product of to for from over the actions that count, with an ex-date after the day given and up to today, and of nothing else. |
| `Calendars.FactorComposes` | server/internal/corpact/calendar.go:129-150 | Restating to a day between and on from there is restating at once, and is covered iff both parts are. |
| `Calendars.Gather` | server/internal/corpact/calendar.go:69-127 | Each instrument that the answers say anything of has a calendar: canonical coverage less unknown ex-dates, and one action of each kind reported, in order of ex-date. |
| `Calendars.CalendarTells` | server/internal/corpact/calendar.go:52-127 | Told from the answers: a day is covered iff a ticker of the instrument's market that named it on the day covers it and none reports an action of unknown effect there; the actions are those such tickers report, each day, ratio and effect once. |
| `Calendars.CalendarsIgnoreOrder` | server/internal/corpact/calendar.go:69-127 | Whatever order the maps give the answers in, the coverage and the factor over every span are the same. |
| `Calendars.SameActsSameProduct` | server/internal/corpact/calendar.go:89-127 | Two lists that hold one action of each of the same kinds have one factor over every span. |
| `Calendars.CoveredSpanKnown` | server/internal/corpact/calendar.go:52-61 | Over a covered span no reported action is of unknown effect, and the calendar has each. |
| `Folding.FoldOfMultiset` | server/internal/corpact/calendar.go:138-150 | The product depends only on the factors and how often each occurs. |
| `Records.Merge` | server/internal/corpact/record.go:175-201 | Each stored action takes the first unpaired reported one that it is, each at most once; the rest are gone and added; where no ratio is zero for zero, of each kind what is kept and added makes up what is reported. |
| `Records.MergesRightlyIffStated` | server/internal/corpact/record.go:175-201 | An answer merges rightly with everything that can be stored iff none of its ratios is zero for zero. |
| `Records.ZeroRatioDuplicates` | server/internal/corpact/record.go:175-201 | Stored 2 for 1 against zero for zero and 2 for 1 reported: the row stays and a second 2 for 1 is added. |
| `Records.MergePairsTheFewer` | server/internal/corpact/record.go:175-201 | Of each kind exactly the fewer of what is stored and what is reported pair, and the rest are deleted or added. |
| `Records.FirstUnpaired` | server/internal/corpact/record.go:203-212 | The first unpaired reported action that the stored one is, with none before it, or none at all. |
| `Records.PairsAre` | server/internal/corpact/record.go:175-212 | Each stored action that stays has its own reported one, of its day, type, handling and equal ratio; one goes only where every such reported one was taken before its turn; what none took is added. |
| `Records.JudgedAre` | server/internal/corpact/record.go:149-158 | What is stored of a reported action: itself, handled iff it was reported so and its ratio counts shares. |
| `Records.RepeatChangesNothing` | server/internal/corpact/record.go:56-60 | An answer that reports what is stored deletes no row and adds none. |
| `Records.Covered` | server/internal/corpact/record.go:160-173 | The reported coverage cut to end on the day of the answer, or none. |
| `Records.Record.Write` | server/internal/corpact/record.go:56-121 | The stored answer becomes the new one unless it is later; repeated rows keep id and decision; a refused row fails the whole write. |
| `Records.DeletedKeeps` | server/internal/corpact/record.go:88-93 | Deleting the unpaired rows by id leaves exactly the paired ones. |
| `Records.LatestWins` | server/internal/corpact/record.go:56-121 | After any answers, each written as Write writes answers of stated ratios, coverage and actions, kind by kind, are those of the latest moment, and of the last to arrive of that moment. |
| `Records.ArrivalOrderIrrelevant` | server/internal/corpact/record.go:56-121 | Two arrival orders of the same answers store the same coverage and the same actions, kind by kind. |
| `StatedKeys.KeyOf` | server/internal/stmt/validate.go:106-151 | A statement is refused exactly for its class, an identifier it may not state or two values of an exclusive type; otherwise its key holds the same identifiers in order, once each. |
| `StatedKeys.RefusedIs` | server/internal/stmt/validate.go:106-151 | Told from the fields: refused iff the class is none of the enum, an identifier is empty, of a type that no statement states or another broker's, or two values of an exclusive type are in one domain. |
| `StatedKeys.OrderIs` | server/internal/stmt/validate.go:147-149 | The identifiers of a key are in dictionary order of type, then domain, then value. |
| `StatedKeys.TextHolds` | server/internal/stmt/stmt.go:156-177 | The text is the class, the currency and each identifier's type, domain and value in turn, a one before a stated field and a NUL after each part. |
| `StatedKeys.OrderIsUnique` | server/internal/stmt/validate.go:147-149 | A set of identifiers has one sorted and distinct list. |
| `StatedKeys.CanonInjective` | server/internal/stmt/stmt.go:156-177 | Two keys whose values carry no NUL encode alike iff they are equal, absent fields and empty ones told apart. |
| `StatedKeys.SameTextIffSameStatement` | server/internal/stmt/stmt.go:156-189 | Two accepted statements encode alike iff they state one class, one currency and one set of identifiers. |
| `StatedKeys.NulConfuses` | server/internal/stmt/stmt.go:156-177 | A key of an ISIN and a SEDOL and a key of one ISIN that holds NULs, both of which keyOf accepts, encode alike. |
| `StatedKeys.ConfusedIff` | server/internal/stmt/stmt.go:156-177 | An accepted key of one identifier, of a type whose domain is free, encodes like another accepted key iff its domain carries a NUL or its value does before its last character. |
| `StatedKeys.Ingestion.Intern` | server/internal/stmt/stmt.go:179-189 | The key already held that equals k, or k as a new one at the end of the order; no two held keys are equal. |
| `Decimals.ParseRender` | client/lib/marshal/decimal.ts:11-26 | What is rendered parses to the value rendered. |
| `Decimals.RenderIsValue` | client/lib/marshal/decimal.ts:19-26 | Two decimals render alike exactly where they have one value. |
| `Decimals.SameIsValue` | client/lib/marshal/decimal.ts:28-30 | Having equal units at as many places is having one value as a real number. |
| `Decimals.ParseWritten` | client/lib/marshal/decimal.ts:11-26 | A sign, digits and places are read back digit for digit. |
| `Decimals.ParseReads` | client/lib/marshal/decimal.ts:11-17 | Once dollar signs, commas and white space are dropped, a string states a decimal iff it is a sign or none, digits, and a point with digits or none, with a digit somewhere; and then the one its digits state. |
| `Decimals.DroppedAre` | client/lib/marshal/decimal.ts:11-13 | Which characters are dropped: the dollar sign, the comma and white space, and no digit, sign or point. |
| `Decimals.StripKeeps` | client/lib/marshal/decimal.ts:11-13 | What is not dropped stays, in its order. |
| `Decimals.RenderShape` | client/lib/marshal/decimal.ts:19-26 | What is rendered has no leading zero but one alone, no trailing zero in its places, no point without places, and a minus sign exactly below zero. |
| `Sums.NormaliseIsNumber` | client/lib/marshal/decimal.ts:32-37 | Two strings have one canonical form iff they state one number, and normalising keeps the number. |
| `Sums.NormaliseTwice` | client/lib/marshal/decimal.ts:32-37 | A canonical form is its own. |
| `Sums.AddIsExact` | client/lib/marshal/decimal.ts:39-44 | Adding states the exact sum, and fails only where an operand states no number. |
| `Sums.AddCommutes` | client/lib/marshal/decimal.ts:39-44 | Adding in either order gives one string. |
| `Sums.AddAssociates` | client/lib/marshal/decimal.ts:39-44 | Adding in either grouping gives one string. |
| `Sums.NegateIsOpposite` | client/lib/marshal/decimal.ts:46-49 | Negating states the opposite number. |
| `Sums.NegateTwice` | client/lib/marshal/decimal.ts:46-49 | Negating twice gives the canonical form. |
| `Sums.ZeroIsNumber` | client/lib/marshal/decimal.ts:51-53 | isZero says whether the number stated is zero. |
| `Sums.ToFixedReads` | client/lib/marshal/decimal.ts:55-75 | toFixed reads back at exactly the places asked for as the rounded decimal. |
| `Sums.ToFixedWithinHalf` | client/lib/marshal/decimal.ts:55-75 | The number that toFixed states is within half a unit of the last place of the number the string states, a tie going away from zero. |
| `Sums.RoundedWithinHalf` | client/lib/marshal/decimal.ts:57-68 | In units: the rounded decimal is the nearest multiple, ties away from zero under truncating division, and unchanged where it had no more places. |
| `Trades.TotalIsNormal` | client/lib/marshal/build.ts:91-113 | Amounts that sum to a number add up, as strings, to its canonical string. |
| `Trades.AddCharge` | client/lib/marshal/build.ts:109-111 | A charge adds a leg that states its opposite, and none where it is zero. |
| `Trades.Build` | client/lib/marshal/build.ts:91-113 | The legs are the security stating the units, cash stating net, fee and tax together, and cash stating the opposite of each charge that is not zero; the cash adds up to the canonical net; it fails iff an amount is no number. |
| `Fetches.Request` | server/internal/market/request.go:23-70 | The result and the number of provider calls are what the attempts make of them: every attempt before the last failed temporarily and not about the datasource, at most max(1, tries) were made, and the last, or the pause or cut wait that kept another from being made, gives the result. |
| `Fetches.CameFromOnce` | server/internal/market/request.go:23-70 | What happens at each attempt leaves a call exactly one result and one count of provider calls. |
| `Outcomes.CallTells` | server/internal/market/request.go:23-70 | After attempts that may be mended, the next one allowed decides what the call comes to and how many calls it cost, case by case. |
| `Fetches.FetchChunk` | server/internal/market/fetch.go:275-343 | The call's result and cost are what its attempts make of them; exactly the keys of the batch get its outcomes, and the blocks are those its permanent failures require. |
| `Fetches.BlockSet.Add` | server/internal/market/fetch.go:420-434 | The set covers what it covered and what the blocks cover. |
| `Fetches.Chunks` | server/internal/market/request.go:84-93 | The runs make up the batch in order, each of exactly the size but the last, which is not empty and no longer; one run where the size is not positive. |
| `Fetches.RunsOnce` | server/internal/market/request.go:84-93 | There is one way to split a batch into such runs. |
| `Fetches.SendChunk` | server/internal/market/fetch.go:167-182 | Of a chunk, what no block covers goes in one call with the result its attempts make, and the rest is marked blocked; the blocks raised join the set. |
| `Fetches.AskServer` | server/internal/market/fetch.go:127-148 | What the server refuses is marked, and the rest is served, in order. |
| `Fetches.ReadCache` | server/internal/market/fetch.go:225-252 | Exactly the served requests that the cache holds are served from it. |
| `Fetches.TakeBatch` | server/internal/market/fetch.go:152-162 | What an open block covers is marked; the batch is, in order, exactly what is served, not cached and not blocked. |
| `Fetches.FetchRun` | server/internal/market/fetch.go:114-182 | Every request ends with one outcome: refused, cached, under an open block, suppressed by the block of a call that carried requests before it, or that which the provider's attempts at the one call that carried it gave. Every call carries something, with the result its attempts gave; the calls are those of the runs of the batch, each of what no block open or raised before covers. |
| `Fetches.FetchOnce` | server/internal/market/fetch.go:114-182 | The requests, the cache, the open blocks and what the provider does at each attempt decide every call and the outcome and cost of every request: there is one result. |
| `Fetches.CarriedOnce` | server/internal/market/fetch.go:164-182 | No request is carried by two calls, or twice by one. |
| `Fetches.EveryOutcome` | server/internal/market/fetch.go:99-101 | No request is left without an outcome. |
| `Outcomes.CarriedTells` | server/internal/market/fetch.go:275-343 | A carried request is served iff the answer holds no failure for it, failed for good iff the call or it failed by a permanent failure, and failed for now iff by a temporary one or the answer leaves it out. |
| `Outcomes.FirstAnswerServes` | server/internal/market/fetch.go:275-343 | A first attempt that answers decides its requests at the cost of one attempt. |
| `Outcomes.RaisesTells` | server/internal/market/fetch.go:275-343 | A call blocks an identifier iff it failed for good about the datasource, or about identifiers of which it is one, or the request it carried under it did. |
| `Outcomes.FirstFailureBlocks` | server/internal/market/fetch.go:318-343 | A permanent first failure about identifiers blocks exactly those carried, one about the datasource all, one about the request none, and a temporary one none. |
| `Outcomes.BlockedFailed` | server/internal/market/fetch.go:275-343 | A call that blocks what it carried leaves it failed for good: all of it where the call failed, else the request that did. |
| `Outcomes.KeyTells` | server/internal/market/fetch.go:114-182 | What becomes of each request, and why: refused, cached, blocked by an open block or by a call that carried requests before it, or else carried. |
| `Fetches.OnlyUnsettledSent` | server/internal/market/fetch.go:149-162 | A request that is refused, cached or covered by an open block is carried by no call and costs no attempt. |
| `Fetches.NeverSentAgain` | server/internal/market/fetch.go:164-182 | Once a permanent failure of a call blocks an identifier or the datasource, no later call carries a request under it. |
| `Fetches.CostBounded` | server/internal/market/request.go:23-70 | No request costs more than max(1, tries) provider calls. |
| `Fetches.RefusalEndsFetch` | server/internal/market/fetch.go:164-182 | Where the provider refuses the datasource for good at the first attempt of a call, that call is the last. |

## Left out

- Groups, claims and calendars read from the database: queries, transactions, locks and row ids are a
  sequence, a map or a class field here. A write that the table's checks refuse fails as a whole.
- tickervalidity: the stated venue and currency fields, and the loading and writing of facts. Periods
  of assertions are non-empty, as the table of assertions checks. Two attestations of a ticker have
  different answers, as Attest writes one row for each attest run and the table keeps it unique.
- Library sorts are a stable insertion sort; nothing proved depends on more than the sorted order, and
  on ties only where the source calls a stable sort.
- Goroutines of Child, ChildAs and Sync hold no place in a lane. Prepare runs in the caller outside the
  lane. Work that never returns is outside `Lanes.NeverWedged` and `Lanes.ClosingMoves`: a working run
  is taken to be able to finish. Work that completes its own row inside a transaction is not modelled.
- Claims are values: `Claims.Build` builds a claim per component in a sequence by index, so aliasing of
  claim pointers is the pair of answer and place. Findings, details, counts and reasons are left out.
- Verdicts.ChosenIsGathered: the condition that no response holds survivors back is the guard of the
  fallback branch of bestClaim; with survivors held back the head is put to the user instead.
- StatedKeys.ConfusedIff: gives the exact condition for a key of one identifier whose domain is free; for
  other keys only that NUL-free values never share a text, as which keys with a NUL do depends on how
  their other identifiers could be read.
- MIC lookup ignores case and surrounding space in the source; here the map is of spellings as stated.
- Candidates shown to the user (candidateOf) and their labels.
- Allowlist.Match folds case and trims before matching; the model matches the folded text.
- Calendars.Gather: the visits are the pairs of a ticker's answer and one of its intervals, in any order;
  which tickers are read, and the datasource name, are left out.
- Records: finding rows and their counts. Ratios are exact real numbers.
- Statement rows other than the stated key: dates, quantities and splits.
- Decimal strings: `stmt`, `split` and the protobuf messages of build.ts.
- Fetches: the cache's own storage, responses' contents, clocks, rate limits, jitter and pauses are
  inputs of the model; error texts and reasons are left out.
