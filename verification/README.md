# A verified model of the agent-commerce chain

The repository is a scaffold of a blockchain application: a replicated key/value tree, a router of
modules, and a block method that checks, executes and records transactions. This project models its
deterministic state machine in Dafny and proves properties of it that hold for every input, every
stored state and every run of blocks.

- **Tree and keys** (`ByteStrings`, `Sorting`, `Codec`, `Engine`, `Keys`, `Nonce`, `ScanMap`). The two
  storage backends list a prefix in different ways and are proved to return the same list. The key
  namespaces are proved prefix-free. Snapshots are sequences: a later write is not seen.
- **Capability tokens** (`Reachability`, `CapGraph`, `CapCascade`, `CapSweep`, `CapOrigins`,
  `CapHandlers`, `CapInvariant`, `CapSteps`, `CapTheorems`,
  `CapAuthority`). The handlers are methods over the store,
  each proved against a function of the state before. The recursive `Cascade` is proved to mark exactly
  what white paths reach, in any index, and the invariant ties index, parents and grants together. Every
  change of a token is traced to a sender entitled to it.
- **Task graphs** (`DagOrder`, `DagValidate`, `Weave`, `WeaveRuns`). Validation is proved sound and
  complete for acyclicity; runs keep every stored graph valid and end it at its timeout.
- **Money** (`MoneyMath`, `Fiat`, `FiatRuns`, `FiatLedgers`). Amounts are rationals; each write rounds to eight digits,
  half away from zero. Conservation is proved over runs, with the drift bounded by the number of finer
  amounts.
- **Matching and voting** (`Amx`, `Arb`). Optimality, uniqueness and independence of order.
- **Block loop** (`Records`, `Aap`, `Locality`, `Router`, `Lifecycle`, `Chain`, `Audit`, `App`). The end of a block
  does not depend on the order of the module map. One invariant for the whole machine holds in every
  state a run reaches, nonces cannot be replayed, and nothing but signed transactions has an effect.

How it is put together. The tree is one map from byte strings to typed records (`Records.State`). What
works in place in the source is a method here: handlers over a store object, loops with invariants,
records whose fields are reassigned. Its `ensures` gives the whole new state as a function of the old one,
and says on the records, without that function, who may do what and what changes; lemmas carry both over
whole runs. Go's map iteration is an arbitrary choice of the next element.

Parameters of the machine. `digest` is the hash truncated to sixteen hexadecimal characters; it is assumed
free of collisions only on the finite set `pres` of strings hashed in the run, and the strings themselves
are proved distinct. `host.verify` is the signature check. `host.foreign` is any handler of a module
without a model; it is only assumed to leave the capability, graph, money and nonce keys alone
and to file AAP tasks under their ids (`Lifecycle.ForeignOk`), as the keys those modules write show. Block time and its hexadecimal stamp
come with the block.

Where the code does less than its shape suggests, the code is followed and the exact condition is proved:

- A token minted with a negative expiry is due at once, and a child delegated from it may keep a later
  expiry; the sweep then expires the child early (`CapTheorems.NegativeExpiryExpiresUndue`), and
  `CapTheorems.SweepIsExact` gives the exact condition on a state.
- With a depth limit of 2^32-1 the depth counter wraps (`CapTheorems.DepthWrapAllowed`); a delegation
  deepens exactly otherwise (`CapTheorems.DelegateDeepens`).
- `cascade` stops at tokens that are not UNSPENT, so live tokens may remain below a spent one. The
  white-path theorem says exactly which are reached.
- A timeout of at least 2^63 seconds becomes negative when converted to a signed number, and the graph
  fails at the first end of block (`WeaveRuns.TimeoutMeaning`).
- Ballots literally saying "tie" can win and are then read as a tie (`Arb.TieWordMeans`).
- Creating an escrow or a graph under an id in use replaces it, so the theorems about one of them speak
  of runs between creations.
- A failed spend of an expired token still changes the tree, and failed transactions do not advance the
  nonce.

## Model

| member | source | states |
|---|---|---|
| CapCascade.Cascade | internal/modules/caputxo/module.go:271-300 | For every derive index, even a cyclic or dangling one: the call terminates; it fails exactly when some id reachable below the parent is indexed but not stored; otherwise the tokens it changes are exactly those reachable by white paths, its list names each of them once, and nothing but their status changes. |
| Reachability.NestedProgress | internal/modules/caputxo/module.go:271-300 | Why marking while walking is sound: after the nested call on a child, the painted set grows by what was reachable in the graph as it then stood, stays closed under white edges, and the two parts are disjoint. |
| Reachability.ReachIsLeast | internal/modules/caputxo/module.go:271-300 | The tokens reached by white paths are the least set closed under UNSPENT children: an independent reading of what a cascade marks. |
| Reachability.ReachWithoutSelf | internal/modules/caputxo/module.go:230-236 | Marking a token before walking below it loses nothing, whether or not the token lies on a cycle. |
| CapSweep.Revoke | internal/modules/caputxo/module.go:218-238 | Only the issuer of a stored token revokes it: anyone else is refused and changes nothing, and the issuer succeeds in every state with a sound index; the tokens changed are those of the white-path theorem, and whatever happens no token is touched except to become REVOKED. |
| CapSweep.RevokeWhitePath | internal/modules/caputxo/module.go:218-300 | After a revocation a token is REVOKED exactly when it is the target or an UNSPENT token reached from it through tokens that were all UNSPENT; every other token and every other field is what it was. |
| CapSweep.ExpireAtTime | internal/modules/caputxo/module.go:248-269 | The sweep over a snapshot never fails in a state with a sound index, leaves exactly the white-path closure of the due tokens EXPIRED, and emits one event per token due in the snapshot, in id order; in any state it touches no token except to make it EXPIRED; writing a stale copy never undoes anything. |
| CapSweep.StaleSaveMarks | internal/modules/caputxo/module.go:256-263 | Saving the snapshot copy of a token over the store as already marked gives the marked store: no write of another token or field is rolled back. |
| CapSweep.SweepTold | internal/modules/caputxo/module.go:248-269 | On the records: exactly the UNSPENT tokens with a nonzero expiry at or before now have an event and all of them expire; any other token is unchanged, or was UNSPENT and expired with an ancestor. |
| CapHandlers.Mint | internal/modules/caputxo/module.go:95-128 | A mint succeeds exactly with a holder, a type, scopes and, if delegatable, a positive depth limit; it then stores one UNSPENT root token with its holder and type entries, and otherwise nothing. |
| CapHandlers.Spend | internal/modules/caputxo/module.go:130-158 | A spend succeeds exactly when the sender holds an UNSPENT token that has not expired; a late one marks the token EXPIRED although it fails, every other failure changes nothing. |
| CapHandlers.Delegate | internal/modules/caputxo/module.go:160-216 | A delegation succeeds exactly when the sender holds a delegatable token with depth left and asks for scopes, expiry and uses within the parent's; otherwise nothing changes. |
| CapHandlers.IsSubset | internal/modules/caputxo/module.go:337-351 | The set-building loop decides whether every scope asked for is granted by the parent. |
| CapHandlers.ExecuteCap | internal/modules/caputxo/module.go:67-89 | The five actions of the module, each against its specification, for every payload including undecodable ones. |
| CapOrigins.PreimageInjective | internal/modules/caputxo/module.go:327-335 | The byte strings hashed into token ids determine kind, sender, nonce and either type or parent: two distinct creations never hash the same string, whatever bytes the type holds. |
| CapOrigins.MintNotDelegate | internal/modules/caputxo/module.go:327-335 | No mint hashes the same bytes as any delegation. |
| CapOrigins.LastBarSplits | internal/modules/caputxo/module.go:327-335 | A type that itself contains separators cannot blur a preimage: the last bar splits it uniquely. |
| CapInvariant.KidsAreChildren | internal/modules/caputxo/module.go:188-214 | Scanning the index below a token and taking the last path part of each key yields exactly the tokens whose parent it is. |
| CapInvariant.KidsNoRepeats | internal/modules/caputxo/module.go:271-300 | No child is visited twice by one scan. |
| CapInvariant.IndexIsSound | internal/modules/caputxo/module.go:271-300 | In a state satisfying the token invariant no index entry dangles, so a cascade never returns an error. |
| CapInvariant.SameTokensKeepsInv | internal/modules/caputxo/module.go:302-316 | Rewriting status and use count of stored tokens keeps index agreement, attenuation and the forest. |
| CapInvariant.GrownKeepsInv | internal/modules/caputxo/module.go:160-216 | Adding one fresh token below a stored parent that it attenuates keeps index agreement, attenuation and the forest. |
| CapSteps.MarkedSteps | internal/modules/caputxo/module.go:218-300 | Marking any set of tokens with a final status keeps the invariant, loses no token, changes no grant and brings none back to UNSPENT. |
| CapSteps.SpendSteps | internal/modules/caputxo/module.go:130-158 | A spend keeps the invariant; a successful one met an UNSPENT token and raised its use count by one without passing a positive bound. |
| CapSteps.DelegateAttenuates | internal/modules/caputxo/module.go:160-216 | What a permitted delegation makes is no stronger than its parent in scopes, uses, depth and expiry. |
| CapSteps.CapStep | internal/modules/caputxo/module.go:87-246 | Every action of the module keeps the token invariant and moves tokens forward only, provided the id of a token it makes is fresh. |
| CapSteps.CapNewTokens | internal/modules/caputxo/module.go:95-216 | The only token ids that appear are those of a successful mint or delegation. |
| CapSteps.FreshId | internal/modules/caputxo/module.go:327-335 | When the hash does not collide on the strings hashed in the run, the id made under a sender's current nonce is not in use: no mint or delegation overwrites a token. |
| CapSteps.OtherOwnersKeepInv | internal/state/keys.go:15-18 | Writes outside the capability keys keep the token invariant and every token. |
| CapAuthority.ChangesAuthorised | internal/modules/caputxo/module.go:87-246 | Whatever a transaction changes in a stored token its sender was entitled to: a revocation comes from the token's own issuer, a use from its holder while UNSPENT and unexpired, an expiry by a spend only when expired; each with exactly the fields it may change. |
| CapAuthority.NewTokenAsAsked | internal/modules/caputxo/module.go:95-216 | A new token is the root its sender asked for, field by field, or a child of a token its sender holds, filed under the holder asked for, with the parent's issuer, type, expiry and uses where none are asked for. |
| CapAuthority.ReachHasIssuer | internal/modules/caputxo/module.go:271-300 | A cascade stays among tokens of one issuer, however long the chains. |
| CapAuthority.RevokeAuthorised | internal/modules/caputxo/module.go:218-238 | A revocation succeeds exactly for the issuer of a stored token, fails without a change otherwise, and changes only tokens of that issuer. |
| CapAuthority.SpendAuthorised | internal/modules/caputxo/module.go:130-158 | A spend changes no token but the one named, and that one only for its holder. |
| CapAuthority.EntitledSucceed | internal/modules/caputxo/module.go:87-246 | Each action succeeds exactly for those entitled to it and then has its effect: the token is there as asked for, used once more, REVOKED, or every due one expired; a failure other than a late spend changes nothing. |
| CapTheorems.ChainAttenuates | internal/modules/caputxo/module.go:160-216 | Along a delegation chain of any length: same issuer, type and version, scopes only shrink, the depth limit is constant, depth rises by one per link modulo 2^32 and is within the limit, and a positive use bound bounds every descendant's. |
| CapTheorems.ChainDepth | internal/modules/caputxo/module.go:175-202 | With a depth limit below 2^32-1 the depth of a descendant is exactly the ancestor's plus the number of links, and never passes the limit. |
| CapTheorems.ChainExpiry | internal/modules/caputxo/module.go:160-216 | With non-negative expiries along the chain a positive expiry bounds every descendant's. |
| CapTheorems.NoTokenBelowItself | internal/modules/caputxo/module.go:188-214 | No delegation chain leads from a token back to itself. |
| CapTheorems.DelegateBoundsExpiry | internal/modules/caputxo/module.go:182-207 | A delegation below an expiring parent yields a positive expiry within the parent's exactly when the expiry asked for is not negative. |
| CapTheorems.DelegateDeepens | internal/modules/caputxo/module.go:175-178 | A delegation is one level deeper than its parent exactly when the parent's depth is not 2^32-1. |
| CapTheorems.DepthWrapAllowed | internal/modules/caputxo/module.go:175-178 | A permitted delegation whose child has depth 0: the depth counter wraps when the limit is 2^32-1. |
| CapTheorems.SweepLeavesNoneDue | internal/modules/caputxo/module.go:248-269 | After a sweep no UNSPENT token has a nonzero expiry at or before the time of the sweep. |
| CapTheorems.SweepAbsorbs | internal/modules/caputxo/module.go:248-269 | A sweep followed by a later one gives the same tokens as the later one alone; in particular sweeping twice is sweeping once. |
| CapTheorems.SweepIsExact | internal/modules/caputxo/module.go:248-300 | In a reachable state the sweep expires the due tokens and no others, exactly when no due token with a negative expiry has an UNSPENT child that is not due. |
| CapTheorems.SweepWithoutNegatives | internal/modules/caputxo/module.go:248-300 | When no token has a negative expiry the inner cascade changes nothing beyond the due tokens. |
| CapTheorems.SweepEventsOncePerDue | internal/modules/caputxo/module.go:248-269 | As many expiry events as due tokens, one for each, in strictly ascending id order. |
| CapTheorems.NegativeExpiryExpiresUndue | internal/modules/caputxo/module.go:95-216 | A mint with expiry -1 followed by a delegation of later expiry: the sweep expires the child although it is not due. |
| DagValidate.ValidateDag | internal/modules/weave/module.go:236-297 | Accepts exactly the graphs with at least two nodes, distinct non-empty ids, edges between distinct known nodes, a positive timeout and no cycle; acceptance comes with a topological order of all nodes, and every rejection names a true defect, "cycle detected" an actual cycle. |
| DagValidate.Peel | internal/modules/weave/module.go:275-292 | Whatever order the sources are listed and the queue is sorted in: the vertices removed form a topological order when all are removed, and otherwise the edges have a cycle. |
| DagValidate.Release | internal/modules/weave/module.go:280-288 | Decrementing once per parallel edge keeps every remaining degree equal to the in-edges from vertices not yet removed, and the queue equal to the vertices of degree zero. |
| DagValidate.Sources | internal/modules/weave/module.go:268-274 | From any order of the degree map, the queue starts as exactly the vertices without in-edges, each once. |
| DagValidate.CheckNodes | internal/modules/weave/module.go:237-249 | Finds an empty or repeated id when there is one and otherwise returns the set of all ids. |
| DagValidate.CountEdges | internal/modules/weave/module.go:250-267 | Rejects an edge with an unknown end or equal ends, and otherwise counts every parallel edge both in the degrees and in the adjacency lists. |
| DagValidate.StuckHasCycle | internal/modules/weave/module.go:276-292 | When the queue is empty before every vertex was removed, the edges have a cycle. |
| DagValidate.AllOrdered | internal/modules/weave/module.go:276-292 | When every vertex was removed, the removal order is topological. |
| DagValidate.RejectionIsInvalid | internal/modules/weave/module.go:236-297 | Each kind of rejection contradicts validity. |
| DagOrder.NoSourceHasCycle | internal/modules/weave/module.go:276-292 | A non-empty vertex set in which every vertex has a predecessor inside the set contains a cycle. |
| DagOrder.BackwardWalk | internal/modules/weave/module.go:276-292 | A backward walk through such a set cannot stay repetition-free: it closes a cycle. |
| DagOrder.TopologicalIsAcyclic | internal/modules/weave/module.go:276-292 | Edges with a topological order have no cycle of any length. |
| DagOrder.CountWithout | internal/modules/weave/module.go:277-288 | Removing a vertex lowers an in-degree by the number of parallel edges from it. |
| Weave.DagRecord.Progress | internal/modules/weave/module.go:299-326 | In place: waiting nodes start, running ones complete, all others stay; the graph completes exactly when every node was running, completed or skipped; ids, edges and timeout stay. |
| Weave.UpdateFirstNode | internal/modules/weave/module.go:178-184 | Only the first node with the given id is changed. |
| Weave.UpdateFirstHit | internal/modules/weave/module.go:178-184 | The node changed is the one at the first matching place, all others stay. |
| Weave.ExecuteWeave | internal/modules/weave/module.go:82-234 | All five actions, with their checks, error codes and gas, for missing graphs and undecodable payloads too; an invalid graph is never stored. |
| Weave.EndBlockWeave | internal/modules/weave/module.go:86-112 | Over a snapshot of all graphs: running ones past their timeout fail, the other running ones move one stage on, everything else is untouched; an event names exactly the graphs that failed and exactly those that completed. |
| Weave.WeaveRound | internal/modules/weave/module.go:86-112 | The same for the function of the state that the scheduler is proved against, told on the records. |
| WeaveRuns.StepKeepsValid | internal/modules/weave/module.go:86-234 | Every action and every end of block keeps all stored graphs valid and filed under their ids. |
| WeaveRuns.RunKeepsValid | internal/modules/weave/module.go:86-297 | In every state a run can reach, every stored graph still passes validation. |
| WeaveRuns.DagStep | internal/modules/weave/module.go:86-234 | No step but a new creation takes a graph back: final stays final, a running one never returns to pending, its start time stands, and the end of a block past the timeout fails it. |
| WeaveRuns.RunMoves | internal/modules/weave/module.go:86-234 | Over any run without a new creation a graph that left PENDING and RUNNING never returns to either, and its shape never changes. |
| WeaveRuns.TimeoutEndsRun | internal/modules/weave/module.go:94-103 | Whatever node updates come before and after, a graph that is running is not running once an end of block past its timeout has come. |
| WeaveRuns.CompletesAtSecondRound | internal/modules/weave/module.go:86-162 | A started graph left alone is completed at the second end of block exactly when neither of the two found it timed out. |
| WeaveRuns.CompletesInOneRound | internal/modules/weave/module.go:86-112 | A running graph that is not timed out completes in the next round exactly when all its nodes were running, completed or skipped, and exactly then its completion event is emitted. |
| WeaveRuns.CompletesInTwoRounds | internal/modules/weave/module.go:299-326 | One that no round times out has completed by the second exactly when each node was pending, ready, running, completed or skipped. |
| WeaveRuns.ActionsTold | internal/modules/weave/module.go:114-234 | Each action succeeds exactly on the graphs it accepts and then changes that graph alone: a created one is stored pending as given, a started one runs with all nodes pending, an update touches the named node only; a failure changes nothing. |
| WeaveRuns.TimeoutMeaning | internal/modules/weave/module.go:98 | What the signed comparison decides: the elapsed seconds exceed the timeout, or the timeout is at least 2^63 and the graph fails at once. |
| MoneyMath.RoundError | internal/types/money.go:38-46 | A written amount differs from the exact one by at most half of 1e-8, halves going away from zero. |
| MoneyMath.RoundExact | internal/types/money.go:38-46 | A written amount equals the exact one exactly when it has at most eight fractional digits. |
| MoneyMath.RoundIsAtomic | internal/types/money.go:38-46 | Every written amount has at most eight fractional digits, so a second rounding changes nothing. |
| MoneyMath.RoundMonotone | internal/types/money.go:38-46 | Rounding never reverses an order. |
| MoneyMath.AtomicAdd | internal/types/money.go:48-81 | Sums and differences with an eight-digit amount are exact exactly when the other amount has eight digits. |
| MoneyMath.MoneyResults | internal/types/money.go:48-81 | Addition needs one currency, subtraction also a result that is not negative; the result is exact exactly when it has at most eight digits. |
| MoneyMath.AddThenSub | internal/types/money.go:48-81 | Subtracting what was added gives the amount back exactly, for eight-digit amounts of one currency. |
| Fiat.ExecuteEscrow | internal/modules/fiat/module.go:127-247 | Each escrow action succeeds exactly from the statuses the code allows, a release only with a positive commission, and moves the escrow to the one status it stands for; a failure changes nothing, and a release pays the pool first. |
| Fiat.DistributeCommission | internal/modules/fiat/module.go:324-348 | A positive commission adds a rounded fifth to the pool balance and the commission to the income; otherwise the pool is untouched. |
| Fiat.Slash | internal/modules/fiat/module.go:249-275 | A slash moves the penalty, or all that is available when that is less, from available to slashed, exactly for eight-digit amounts, and to the pool balance of the penalty's currency; it fails exactly for a missing account. |
| Fiat.DepositTo | internal/modules/fiat/module.go:277-294 | A deposit opens or updates the sender's account: the amount is both deposited and available, and the tier follows the floors 10000 and 100000. |
| Fiat.Withdraw | internal/modules/fiat/module.go:296-322 | A withdrawal succeeds exactly seven days after the last deposit, within what is available and with the floor of the tier (1000, 10000 or 100000) left; otherwise nothing changes. |
| Fiat.EndBlockFiat | internal/modules/fiat/module.go:115-121 | The end of a block reports the pool exactly when its balance is below the safety threshold, and writes nothing. |
| Fiat.SlashTold | internal/modules/fiat/module.go:249-275 | The same for the function that the slash is proved against. |
| Fiat.PoolTold | internal/modules/fiat/module.go:115-121 | The pool event is emitted exactly when the CNY balance is below the largest payout times the safety rate. |
| Fiat.ExecuteFiat | internal/modules/fiat/module.go:123-125 | Every action of the module, undecodable payloads included, against one specification of the next state. |
| FiatRuns.StepKeepsInv | internal/modules/fiat/module.go:127-348 | Every step keeps every stored amount at eight digits or fewer and every record under its own key. |
| FiatRuns.PoolConserved | internal/modules/fiat/module.go:249-348 | Over any run from any balanced state: pool balance differs from all slashed amounts plus all paid shares by at most 1e-8 per slash of a finer amount, income equals the released commissions exactly, and five times the shares miss the income by at most 2e-8 per release. |
| FiatRuns.PoolConservedExactly | internal/modules/fiat/module.go:249-348 | From the empty state, with penalties of at most eight digits: pool balance equals the sum of all slashed amounts plus all shares, with no drift. |
| FiatRuns.CurrenciesApart | internal/modules/fiat/module.go:249-348 | No step moves a pool balance other than the one in the currency it pays in. |
| FiatRuns.TierIsHighest | internal/modules/fiat/module.go:449-475 | The tier of an amount is the highest whose floor it reaches, and the lowest below all floors. |
| FiatRuns.TotalUpdate | internal/modules/fiat/module.go:249-275 | The sum over all accounts changes by exactly the change of the account written. |
| FiatRuns.ShareIsFifth | internal/modules/fiat/module.go:334-345 | Five shares differ from the commission by at most 2e-8, and a share has at most eight digits. |
| FiatRuns.DepositsBalance | internal/modules/fiat/module.go:249-322 | Over any run, for each account: deposited differs from available plus slashed plus withdrawn by at most 1e-8 per operation with a finer amount, so it is exact for eight-digit amounts. |
| FiatRuns.RunNoOverdraft | internal/modules/fiat/module.go:249-322 | With non-negative amounts no run makes an available amount negative. |
| FiatRuns.WithdrawKeepsFloor | internal/modules/fiat/module.go:296-322 | A withdrawal succeeds exactly under the three conditions of the code; then at least the tier floor, hence 1000, stays available; otherwise nothing changes. |
| FiatRuns.EscrowTotal | internal/modules/fiat/module.go:127-163 | An escrow's total is within 1e-8 of fee times one plus the rate, and equals fee plus commission exactly when the fee has at most eight digits. |
| FiatRuns.PaidAtMostOnce | internal/modules/fiat/module.go:185-247 | Between creations of an escrow id any run releases or refunds it at most once in all, and never once it has ended. |
| FiatRuns.FailureChangesNothing | internal/modules/fiat/module.go:127-322 | A step that fails leaves the whole state as it was. |
| FiatLedgers.SucceedsWhen | internal/modules/fiat/module.go:127-322 | For every action the exact condition on the stored records under which it succeeds. |
| FiatLedgers.RunFlows | internal/modules/fiat/module.go:249-322 | Over any run each account moves by the amounts paid in, withdrawn and taken by penalties, up to 1e-8 per finer amount, and no more is taken than the penalties. |
| FiatLedgers.ExactLedger | internal/modules/fiat/module.go:249-322 | With eight-digit amounts: deposited grows by exactly what was paid in, available by that less withdrawals and slashes, slashed by at most the penalties, and by exactly their sum if and only if each was covered. |
| FiatLedgers.TakenWhenCovered | internal/modules/fiat/module.go:256-262 | The penalties of a run are taken in full exactly when each found enough available. |
| FiatLedgers.FundingsBalance | internal/modules/fiat/module.go:165-247 | Between creations of an escrow id, the fundings equal the releases plus the refunds plus one if it is still open. |
| FiatLedgers.PaidOnlyIfFunded | internal/modules/fiat/module.go:127-247 | From its creation on, an escrow is never released or refunded more often than it was funded: every commission paid was preceded by a successful funding. |
| FiatLedgers.EscrowMoves | internal/modules/fiat/module.go:165-247 | A successful escrow action moves its own escrow from a status it may leave, and no other escrow. |
| FiatLedgers.CreatedAsAsked | internal/modules/fiat/module.go:127-163 | A new escrow is pending with the fee and parties asked for; its commission is the rate asked for, or twelve percent, of the fee, within half of 1e-8. |
| Engine.RangeIsPrefix | internal/state/iavl_engine.go:59-115 | A key has the prefix exactly when it is not below the prefix and, if there is an end, below the end: for the empty prefix, trailing 0xFF bytes and all-0xFF prefixes too. |
| Engine.RangeEndAt | internal/state/iavl_engine.go:103-115 | The backward scan is right: the end cuts after the last byte below 0xFF and raises it; there is none when every byte is 0xFF. |
| Engine.PrefixRangeEnd | internal/state/iavl_engine.go:103-115 | The buffer loop returns an end that makes the half-open range exactly the keys with the prefix. |
| Engine.ScanUnique | internal/state/store.go:127-144 | The ordered listing of a prefix is determined by the contents alone. |
| Engine.SortedIsScan | internal/state/store.go:127-144 | Collecting in any order and sorting by key gives that listing. |
| Engine.MemoryEngine.Set | internal/state/store.go:113-119 | One key gets the value, all others keep theirs. |
| Engine.MemoryEngine.Get | internal/state/store.go:101-111 | A lookup tells absent keys from stored ones. |
| Engine.MemoryEngine.Delete | internal/state/store.go:121-125 | One key is gone, all others keep their values. |
| Engine.MemoryEngine.IteratePrefix | internal/state/store.go:127-144 | Filtering the map in any order and sorting returns the ordered listing of the prefix. |
| Engine.MemoryEngine.Commit | internal/state/store.go:146-164 | The hash is fed all entries in ascending key order, so equal contents give equal digests; the version rises by one. |
| Engine.TreeEngine.IteratePrefix | internal/state/iavl_engine.go:59-84 | The range scan with its early break returns the same ordered listing as the other backend for the same contents. |
| Keys.NamespacesDisjoint | internal/state/keys.go:5-31 | No key lies in two namespaces. |
| Keys.NamespaceOwner | internal/state/keys.go:5-31 | Every key of a namespace belongs to that namespace's module, told by its first three bytes. |
| Keys.KeyInjective | internal/state/keys.go:5-53 | Two built keys are equal only for the same namespace and the same rest. |
| Keys.NonceKeyInjective | internal/state/keys.go:39-41 | Two senders never share a nonce cell. |
| Codec.SplitPath | internal/modules/caputxo/module.go:353-368 | The character loop computes the parts of a path. |
| Codec.SplitJoins | internal/modules/caputxo/module.go:353-368 | Joining the parts again gives the path back, with a final slash. |
| Codec.LastPart | internal/modules/caputxo/module.go:353-368 | The last part of a path is what follows its last slash, whatever comes before. |
| Codec.HexInjective | internal/state/nonce.go:8-22 | Distinct byte strings have distinct hexadecimal forms. |
| Codec.DecimalInjective | internal/modules/caputxo/module.go:327-335 | Distinct nonces have distinct decimal forms. |
| Codec.WordRoundTrip | internal/state/nonce.go:8-22 | Eight big-endian bytes give every 64-bit nonce back. |
| Nonce.GetNonce | internal/state/nonce.go:8-15 | Reads the stored number, and 0 for a cell that is absent or not eight bytes long. |
| Nonce.SetNonce | internal/state/nonce.go:17-22 | Writes the eight bytes of the number into the sender's cell and nothing else. |
| Nonce.NonceReadBack | internal/state/nonce.go:8-22 | A nonce written is read back modulo 2^64, and no other sender's nonce changes. |
| Amx.SubmitRequest | internal/modules/amx/module.go:232-312 | A late request is refused without a write; otherwise exactly one order is recorded: failed exactly when no stored listing serves the request, and else naming a listing that serves it and is the best, with its price and the rounded commission. |
| Amx.CandidatesExact | internal/modules/amx/module.go:241-261 | The candidates are exactly the stored listings that are active, in the currency, capable and affordable. |
| Amx.EligibleServes | internal/modules/amx/module.go:243-261 | A listing passes the filters exactly when it is active, in the currency, offers each required capability and is priced within the budget. |
| Amx.ChosenIsOptimal | internal/modules/amx/module.go:232-312 | The listing chosen is stored and eligible, and no other eligible one is at most as expensive and at least as capable with one of the two strict. |
| Amx.PickBest | internal/modules/amx/module.go:269-286 | Scoring and sorting returns a candidate that beats every other by score, or by smaller id at equal scores. |
| Amx.BestUnique | internal/modules/amx/module.go:269-286 | The choice does not depend on the order in which candidates arrive. |
| Amx.BestIsPareto | internal/modules/amx/module.go:442-475 | The best candidate is Pareto-optimal in price and number of capabilities. |
| Amx.ClampsUnreachable | internal/modules/amx/module.go:442-475 | For a price between the extremes the price score lies in (0, 1], so neither clamp acts. |
| Amx.ScoreTradeOff | internal/modules/amx/module.go:442-475 | The exact exchange rate of the score: three tenths of the price advantage over the price range against a fifth of the difference in 1 / (n + 1), n the number of capabilities. |
| Amx.OrderCommission | internal/modules/amx/module.go:287-307 | A match records the price, provider and consumer, and twelve percent of the price within half of 1e-8. |
| Amx.MinMaxPrice | internal/modules/amx/module.go:424-440 | Both results are prices of candidates and enclose all prices. |
| Amx.CheckCaps | internal/modules/amx/module.go:391-405 | Decides whether every required capability is offered. |
| Amx.SaveKeepsKeyed | internal/modules/amx/module.go:350-357 | Saving a listing keeps every listing under its own id. |
| Arb.MajorityVote | internal/modules/arb/module.go:405-426 | For every vote list and every order of the count map: the choice with strictly more votes than any other, or "tie" when two share the top count; empty for no votes. |
| Arb.VerdictUnique | internal/modules/arb/module.go:405-426 | Two vote lists with the same ballots in any order have the same verdict. |
| Arb.TieWordMeans | internal/modules/arb/module.go:405-426 | The answer "tie" is given exactly when the top count is shared, or when ballots literally saying "tie" are the plurality. |
| Arb.TieWordCanWin | internal/modules/arb/module.go:405-426 | Three ballots saying "tie": the answer reads as a tie although no count is shared. |
| Arb.Dispute.CommitteeVote | internal/modules/arb/module.go:195-225 | Below three ballots nothing is decided; from the third on a strict plurality becomes the verdict and what reads as a tie moves the dispute to the full vote; refusals change nothing. |
| Arb.Dispute.FullVote | internal/modules/arb/module.go:227-253 | From the fifth ballot on the dispute is finally resolved: for the strict plurality, or for the consumer when the answer reads as a tie. |
| Aap.EndBlockAap | internal/modules/aap/module.go:132-151 | Exactly the executing AAP tasks silent for more than 180 seconds become failed, with one event each in key order. |
| Aap.TasksEnd | internal/modules/aap/module.go:132-151 | The same for the function that the check is proved against. |
| Locality.CapLocal | internal/modules/caputxo/module.go:248-300 | The sweep writes capability keys only, and what it writes and emits depends on capability keys only. |
| Locality.WeaveLocal | internal/modules/weave/module.go:86-112 | The same for the graph scheduler and its keys. |
| Locality.AapLocal | internal/modules/aap/module.go:132-151 | The same for the heartbeat check and its keys. |
| Locality.FiatLocal | internal/modules/fiat/module.go:115-121 | The pool report depends on FIAT keys only. |
| Router.MergeOne | internal/router/router.go:83-100 | A module run after any set of others does what it would do alone on the state before them. |
| Router.EndTold | internal/router/router.go:83-100 | The end of a block does the work of every registered module on its records, whatever the order, and each kind of event comes from one module only. |
| Router.OnlyDueEnd | internal/router/router.go:83-100 | When no token has a negative expiry, the end of a block expires the due tokens and changes no other. |
| Router.Registry.EndBlock | internal/router/router.go:83-100 | For every order of the module map the resulting state is the same, and the events are the same as a multiset. With the module registered: no token is left due and each due one expired with its event; no graph runs past its timeout and each that failed or completed has its event; no executing AAP task is silent for over 180 seconds; the pool is reported exactly when below its threshold. Keys of modules not registered are unchanged. |
| Router.Registry.Register | internal/router/router.go:37-49 | A module is accepted once; a second registration is refused and changes nothing. |
| Router.Registry.Unregister | internal/router/router.go:51-55 | Only the named module is removed. |
| App.Application.Execute | internal/router/router.go:57-65 | Dispatch to the module named, or an unknown-module failure that changes nothing. |
| App.Application.Deliver | internal/abci/lifecycle.go:57-107 | A transaction that succeeds or changes anything was well formed, signed, at the stored nonce, in time and able to pay; conversely each such one is executed, and the nonce moves on exactly when its handler succeeds. |
| App.Application.DeliverBlock | internal/abci/lifecycle.go:57-107 | The loop over the transactions gives one result each, in order; only signed ones succeed, and the invariant of the whole machine is kept. |
| App.Application.FinalizeBlock | internal/abci/lifecycle.go:50-124 | One result per transaction, in order, and only signed ones succeed; then the end of the block in every module: nothing is left due, overdue or silent, and each expiry, failure and completion has its event; then the commit of the resulting tree. |
| App.GasContext.Consume | internal/abci/gas.go:14-20 | Adds the amount and fails exactly when the limit is passed. |
| Chain.ExecuteKeeps | internal/router/router.go:57-65 | Executing any transaction keeps the invariant of the whole machine apart from nonces, and writes no nonce. |
| Chain.DeliverKeeps | internal/abci/lifecycle.go:57-107 | Any transaction keeps the invariant of the whole machine, moves tokens forward only, and advances exactly its sender's nonce by one when it succeeds, at the nonce stored. |
| Chain.DeliverNonces | internal/abci/lifecycle.go:57-107 | Within a block the successful transactions of a sender carry consecutive nonces in order, from the stored one on. |
| Chain.EndKeeps | internal/router/router.go:83-100 | The end of a block keeps the invariant of the whole machine and moves tokens forward only. |
| Chain.BlockKeeps | internal/abci/lifecycle.go:50-124 | A block keeps the invariant of the whole machine and moves tokens forward only. |
| Chain.RunKeeps | internal/abci/lifecycle.go:50-124 | Over every run of blocks the invariant of the whole machine holds: tokens, index, graphs, money, AAP tasks; no token is lost, regranted or returned to UNSPENT. |
| Chain.RunNoncesConsecutive | internal/abci/lifecycle.go:80-105 | Over every run each sender's successful transactions carry consecutive nonces in order, and the stored nonce is the initial one plus their number. |
| Chain.NoReplay | internal/abci/lifecycle.go:80-105 | No pair of sender and nonce succeeds twice in any run. |
| Chain.GenesisOk | internal/abci/lifecycle.go:12-22 | The empty tree satisfies the invariant, with every nonce 0. |
| Chain.ReachableChainAttenuates | internal/modules/caputxo/module.go:160-216 | In every state reachable from the empty tree every delegation chain attenuates. |
| Chain.SpendsBounded | internal/modules/caputxo/module.go:130-158 | Over every run of blocks a token with a positive use bound is spent successfully at most that often, earlier uses included. |
| Audit.OnlyAdmittedActs | internal/abci/lifecycle.go:57-107 | A transaction that succeeds or changes anything is signed, well formed, timely, at the stored nonce, names a registered module and has gas for its size. |
| Audit.AdmissibleActs | internal/abci/lifecycle.go:57-107 | Every admissible transaction is executed: it succeeds exactly when its handler does, then its sender's nonce moves on by one and its size is charged on top of the handler's gas. |
| Audit.UnsignedDropOut | internal/abci/lifecycle.go:76-79 | Unsigned transactions might as well be missing from a block: the tree after the others is the same. |
| Audit.RunOksSigned | internal/abci/lifecycle.go:50-107 | Over every run of blocks, whatever succeeded was signed by its 32-byte sender and paid for. |
| Audit.RunAccounted | internal/modules/caputxo/module.go:95-246 | Over every run of blocks each token that was revoked, used or made goes back to a successful transaction of its issuer, of its holder, or of the holder of its parent. |
| Audit.RevokedByIssuer | internal/modules/caputxo/module.go:218-238 | In every reachable state a REVOKED token was revoked by a signed transaction of its own issuer. |
| Audit.RunLeavesNoneDue | internal/router/router.go:83-100 | After every block of a run no token is due, no graph runs past its timeout and no executing AAP task is silent. |

## Left out

- HTTP daemon, command line, relay, embedded pages, REST and gRPC wrappers, peer-to-peer limits, and the
  CometBFT adapter: input, output and presentation around the state machine.
- Ed25519, SHA-256, JSON and `math/big` internals: a predicate, a hash parameter, typed records, rationals.
- Hashing of record encodings in `Commit`: the ordered list of entries fed to the hash is modelled, the
  bytes of each record are not.
- The IAVL tree: an ordered iterator over a half-open range with the library's contract
  (`Engine.TreeEngine.Iterator`).
- Handlers of REP, NODE, AFD and GOV, AMX listing and order transitions, AAP actions before the end of a
  block: they appear only as `host.foreign`. Their scores are floating point or single comparisons.
- AMX `submit_request` and the ARB votes are proved on their own and are not wired into the block loop,
  where their modules also stand behind `host.foreign`.
- ARB phases before the votes, automatic rules and committee selection: phases can be re-entered.
- Loading and saving of a dispute record, reasons and times of single votes: `Arb.Dispute` holds the
  fields the two vote handlers decide on.
- Amount strings that do not parse: money amounts are rationals; only listing prices and budgets carry a
  malformed case. The scale is eight digits everywhere, as in every call of the source.
- Error texts: failures carry their code.
- Locks, query paths, genesis payloads, parameter keys and the event bus: blocks run sequentially, and
  events are those returned by handlers and by the end of the block.
- Gas and version counters are unbounded; in the source they have 64 bits.
- `strings.ToUpper` is modelled on ASCII letters.
- `sort.Strings` and `sort.Slice` are modelled by an insertion sort with the contract of a sort.
- CommissionRate helpers with floating point, the listing index and unused statuses: not read by any
  handler modelled here.
- DeliverKeeps: assumes that no stored nonce reaches 2^64 within the run, where the source would wrap.
- RunKeeps: makes the same assumption about nonces over the whole run.
- TimeoutMeaning: treats the subtraction of two times as exact and assumes clocks within 63 bits.
- GenesisOk: starts from the empty tree, the state before any genesis payload is loaded.
